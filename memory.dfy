/**
 * The in-memory store (internal/pkg/backend/memory.go): a map from path to a
 * map from version to the values written under it, and a map from path to
 * its metadata. Modelled as written: SetMany neither advances the version
 * counters nor looks at KeepCurrent, and the readers Get and GetCurrent turn a
 * failed lookup into an empty string without an error.
 */
module Memory {
  import opened Wrappers
  import opened Backend

  type VersionMap = map<int, seq<string>>

  /** The two maps of a MemoryBackend, as a value. */
  datatype Maps = Maps(config: map<string, VersionMap>, metadata: map<string, Metadata>) {

    /** Every metadata entry is filed under its own path (SetMany only ever files it so). */
    ghost predicate Valid()
    {
      forall p :: p in metadata ==> metadata[p].path == p
    }

    /** GetMetadata: the stored record, or NotFoundErr. */
    function GetMetadata(path: string): (r: Result<Metadata, Error>)
      ensures r.Ok? <==> path in metadata
      ensures r.Ok? ==> r.value == metadata[path]
      ensures r.Err? ==> r.error == NotFound(path)
    {
      if path in metadata then Ok(metadata[path]) else Err(NotFound(path))
    }

    /** Indexing Go's nested maps: a missing key at either level yields the nil slice. */
    function ValuesAt(path: string, version: int): (r: seq<string>)
      ensures path in config && version in config[path] ==> r == config[path][version]
      ensures !(path in config && version in config[path]) ==> r == []
    {
      if path in config && version in config[path] then config[path][version] else []
    }

    /** GetMany: the list stored for (path, version), or NotFoundErr if either key is missing. */
    function GetMany(path: string, version: int): (r: Result<seq<string>, Error>)
      ensures r.Ok? <==> path in config && version in config[path]
      ensures r.Ok? ==> r.value == config[path][version]
      ensures r.Err? ==> r.error == NotFound(path)
    {
      if path !in config then Err(NotFound(path))
      else if version !in config[path] then Err(NotFound(path))
      else Ok(config[path][version])
    }

    /**
     * GetManyCurrent: NotFoundErr without metadata; otherwise the list at the
     * current version, which is empty when nothing is stored there.
     */
    function GetManyCurrent(path: string): (r: Result<seq<string>, Error>)
      ensures r.Err? <==> path !in metadata
      ensures r.Err? ==> r.error == NotFound(path)
      ensures Valid() && r.Ok? ==> r.value == ValuesAt(path, metadata[path].currentVersion)
    {
      match GetMetadata(path)
      case Err(e) => Err(e)
      case Ok(md) => Ok(ValuesAt(md.path, md.currentVersion))
    }

    /** Get: the first value of GetMany; a failed lookup is swallowed into "" with no error. */
    function Get(path: string, version: int): (r: Result<string, Error>)
      ensures !(path in config && version in config[path]) ==> r == Ok("")
      ensures path in config && version in config[path] ==>
        r == if |config[path][version]| == 0 then Err(NotFound(path)) else Ok(config[path][version][0])
    {
      match GetMany(path, version)
      case Err(_) => Ok("")
      case Ok(res) => if |res| < 1 then Err(NotFound(path)) else Ok(res[0])
    }

    /** GetCurrent: the first value of GetManyCurrent, with the same swallowing of errors. */
    function GetCurrent(path: string): (r: Result<string, Error>)
      ensures path !in metadata ==> r == Ok("")
      ensures Valid() && path in metadata ==>
        var res := ValuesAt(path, metadata[path].currentVersion);
        r == if |res| == 0 then Err(NotFound(path)) else Ok(res[0])
    {
      match GetManyCurrent(path)
      case Err(_) => Ok("")
      case Ok(res) => if |res| < 1 then Err(NotFound(path)) else Ok(res[0])
    }

    /**
     * SetMany: create a version map and a zero metadata record for a new path,
     * then store the values at LatestVersion + 1 of the stored record, which
     * is never changed. The options are not consulted.
     */
    function SetMany(path: string, values: seq<string>, options: SetOptions): (r: (Maps, Result<Metadata, Error>))
      ensures r.1 == Ok(if path in metadata then metadata[path] else Metadata(path, 0, 0))
      ensures r.0.metadata == metadata[path := r.1.value]
      ensures r.0.GetMany(path, r.1.value.latestVersion + 1) == Ok(values)
      ensures forall v :: v != r.1.value.latestVersion + 1 ==> r.0.GetMany(path, v) == GetMany(path, v)
      ensures forall p :: p != path ==> (p in r.0.config <==> p in config) && (p in config ==> r.0.config[p] == config[p])
    {
      var versions := if path in config then config[path] else map[];
      var md := if path in metadata then metadata[path] else Metadata(path, 0, 0);
      var metadata' := if path in metadata then metadata else metadata[path := md];
      (Maps(config[path := versions[md.latestVersion + 1 := values]], metadata'), Ok(md))
    }

    /** The store as the query service reads it. */
    function View(): (r: Reader)
      ensures forall p :: r.getManyCurrent(p) == GetManyCurrent(p)
      ensures forall p, v :: r.getMany(p, v) == GetMany(p, v)
    {
      Reader(p => GetManyCurrent(p), (p, v) => GetMany(p, v))
    }
  }

  /** SetMany keeps every metadata entry filed under its own path. */
  lemma SetManyPreservesValid(m: Maps, path: string, values: seq<string>, options: SetOptions)
    requires m.Valid()
    ensures m.SetMany(path, values, options).0.Valid()
  {
  }

  /** The options never make a difference: KeepCurrent is ignored. */
  lemma SetManyIgnoresOptions(m: Maps, path: string, values: seq<string>, o1: SetOptions, o2: SetOptions)
    ensures m.SetMany(path, values, o1) == m.SetMany(path, values, o2)
  {
  }

  /**
   * Two writes to a path go to the same version: the second overwrites the
   * first, and the metadata is what the first left behind.
   */
  lemma {:induction false} RepeatedSetManyRewritesSameVersion(
    m: Maps, path: string, first: seq<string>, second: seq<string>, o1: SetOptions, o2: SetOptions)
    ensures var (m1, r1) := m.SetMany(path, first, o1);
            var (m2, r2) := m1.SetMany(path, second, o2);
            && r2 == r1
            && m2.metadata == m1.metadata
            && m2.GetMany(path, r1.value.latestVersion + 1) == Ok(second)
  {
    var (m1, r1) := m.SetMany(path, first, o1);
    assert path in m1.metadata && m1.metadata[path] == r1.value;
  }

  /**
   * On a path that was never written, Set followed by GetCurrent does not give
   * the value back: the current version stays 0 while the value lands at 1.
   */
  lemma SetThenGetCurrentOnNewPath(m: Maps, path: string, value: string, options: SetOptions)
    requires m.Valid() && path !in m.metadata && path !in m.config
    ensures var m1 := m.SetMany(path, [value], options).0;
            && m1.GetCurrent(path) == Err(NotFound(path))
            && m1.Get(path, 1) == Ok(value)
            && m1.GetMany(path, 0) == Err(NotFound(path))
  {
    var m1 := m.SetMany(path, [value], options).0;
    SetManyPreservesValid(m, path, [value], options);
    assert m1.metadata[path] == Metadata(path, 0, 0);
    assert m1.config[path] == map[1 := [value]];
  }

  /** The Go object: the two maps, updated in place by Set and SetMany. */
  class MemoryBackend {
    var config: map<string, VersionMap>
    var metadata: map<string, Metadata>

    function Contents(): Maps
      reads this
    {
      Maps(config, metadata)
    }

    /** A store with both maps initialised and empty. */
    constructor ()
      ensures Contents() == Maps(map[], map[])
    {
      config := map[];
      metadata := map[];
    }

    method SetMany(path: string, values: seq<string>, options: SetOptions) returns (r: Result<Metadata, Error>)
      modifies this
      ensures (Contents(), r) == old(Contents()).SetMany(path, values, options)
    {
      ghost var before := Contents();
      if path !in config {
        config := config[path := map[]];
      }
      ghost var versions := if path in before.config then before.config[path] else map[];
      assert config[path] == versions;
      var md: Metadata;
      if path in metadata {
        md := metadata[path];
      } else {
        // GetMetadata reported NotFoundErr, its only error
        md := Metadata(path, 0, 0);
        metadata := metadata[path := md];
      }
      assert md == (if path in before.metadata then before.metadata[path] else Metadata(path, 0, 0));
      config := config[path := config[path][md.latestVersion + 1 := values]];
      r := Ok(md);
      assert config == before.config[path := versions[md.latestVersion + 1 := values]];
    }

    method Set(path: string, value: string, options: SetOptions) returns (r: Result<Metadata, Error>)
      modifies this
      ensures (Contents(), r) == old(Contents()).SetMany(path, [value], options)
    {
      r := SetMany(path, [value], options);
    }
  }
}
