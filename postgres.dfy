/**
 * The Postgres store (internal/pkg/backend/postgres.go), over its two tables:
 * `config_metadata` (one row per path: latest and current version) and
 * `config` (one row per stored value, tagged with its path and version).
 * The table `config` is a sequence of rows in insertion order; the SELECTs
 * have no ORDER BY, and the model reads rows in that order. Failures of the
 * database driver are parameters of the operations.
 */
module Postgres {
  import opened Wrappers
  import opened Backend

  datatype MetaRow = MetaRow(latestVersion: int, currentVersion: int)

  datatype Row = Row(path: string, version: int, value: string)

  /** Where a SetMany call fails, if it does. */
  datatype WriteFault =
    | NoFault
    | UpsertFails(cause: string)      // the metadata upsert, before the transaction
    | TransactionFails(cause: string) // any statement of the transaction, or its commit

  /** `SELECT value FROM config WHERE path = $1 AND version = $2`, in table order. */
  function Select(table: seq<Row>, path: string, version: int): seq<string>
  {
    if table == [] then []
    else
      var last := table[|table| - 1];
      Select(table[..|table| - 1], path, version)
        + (if last.path == path && last.version == version then [last.value] else [])
  }

  /**
   * The inner join of GetManyCurrent: rows of `path` whose version is the
   * current version recorded for their path in `meta`, in table order.
   */
  function SelectCurrent(table: seq<Row>, meta: map<string, MetaRow>, path: string): seq<string>
  {
    if table == [] then []
    else
      var last := table[|table| - 1];
      SelectCurrent(table[..|table| - 1], meta, path)
        + (if last.path == path && last.path in meta && last.version == meta[last.path].currentVersion
           then [last.value] else [])
  }

  /** The rows CopyFrom inserts: one per value, in order, all tagged (path, version). */
  function RowsFor(path: string, version: int, values: seq<string>): (rows: seq<Row>)
    ensures |rows| == |values|
    ensures forall i :: 0 <= i < |values| ==> rows[i] == Row(path, version, values[i])
  {
    seq(|values|, i requires 0 <= i < |values| => Row(path, version, values[i]))
  }

  /** `DELETE FROM config WHERE path = $1 AND version = $2`. */
  function Remove(table: seq<Row>, path: string, version: int): (r: seq<Row>)
    ensures |r| <= |table|
    ensures forall i :: 0 <= i < |r| ==> r[i] in table && !(r[i].path == path && r[i].version == version)
  {
    if table == [] then []
    else
      var last := table[|table| - 1];
      Remove(table[..|table| - 1], path, version)
        + (if last.path == path && last.version == version then [] else [last])
  }

  lemma {:induction false} SelectAppend(a: seq<Row>, b: seq<Row>, path: string, version: int)
    ensures Select(a + b, path, version) == Select(a, path, version) + Select(b, path, version)
    decreases |b|
  {
    if b == [] {
      assert a + b == a;
    } else {
      var b' := b[..|b| - 1];
      assert (a + b)[..|a + b| - 1] == a + b';
      SelectAppend(a, b', path, version);
    }
  }

  lemma {:induction false} SelectRowsFor(path: string, version: int, values: seq<string>, p: string, v: int)
    ensures Select(RowsFor(path, version, values), p, v) == if p == path && v == version then values else []
    decreases |values|
  {
    if values != [] {
      var rows := RowsFor(path, version, values);
      var values' := values[..|values| - 1];
      assert rows[..|rows| - 1] == RowsFor(path, version, values');
      SelectRowsFor(path, version, values', p, v);
    }
  }

  /** No row carries (path, version): the selection is empty. */
  lemma {:induction false} SelectAbsent(table: seq<Row>, path: string, version: int)
    requires forall i :: 0 <= i < |table| ==> !(table[i].path == path && table[i].version == version)
    ensures Select(table, path, version) == []
    decreases |table|
  {
    if table != [] {
      SelectAbsent(table[..|table| - 1], path, version);
    }
  }

  /** The join reads exactly the rows at the path's current version, and nothing without metadata. */
  lemma {:induction false} SelectCurrentIsSelectAtCurrent(table: seq<Row>, meta: map<string, MetaRow>, path: string)
    ensures SelectCurrent(table, meta, path) ==
      if path in meta then Select(table, path, meta[path].currentVersion) else []
    decreases |table|
  {
    if table != [] {
      SelectCurrentIsSelectAtCurrent(table[..|table| - 1], meta, path);
    }
  }

  lemma {:induction false} SelectRemove(table: seq<Row>, path: string, version: int, p: string, v: int)
    ensures Select(Remove(table, path, version), p, v) ==
      if p == path && v == version then [] else Select(table, p, v)
    decreases |table|
  {
    if table != [] {
      var last := table[|table| - 1];
      var rest := Remove(table[..|table| - 1], path, version);
      SelectRemove(table[..|table| - 1], path, version, p, v);
      if last.path == path && last.version == version {
        assert Remove(table, path, version) == rest + [];
        assert rest + [] == rest;
        assert Select(table, p, v) == Select(table[..|table| - 1], p, v)
          + (if p == path && v == version then [last.value] else []);
      } else {
        SelectAppend(rest, [last], p, v);
      }
    }
  }

  /** The two tables, as a value. */
  datatype Tables = Tables(meta: map<string, MetaRow>, config: seq<Row>) {

    /**
     * What every sequence of SetMany and Delete calls from empty tables
     * keeps: current versions lie in [0, latest], and every row belongs to a
     * path with metadata and to a version no later than its latest.
     */
    ghost predicate Valid()
    {
      && (forall p :: p in meta ==> 0 <= meta[p].currentVersion <= meta[p].latestVersion)
      && (forall i :: 0 <= i < |config| ==>
            config[i].path in meta && config[i].version <= meta[config[i].path].latestVersion)
    }

    function LatestOf(path: string): int
    {
      if path in meta then meta[path].latestVersion else 0
    }

    function CurrentOf(path: string): int
    {
      if path in meta then meta[path].currentVersion else 0
    }

    /** GetMany: the stored values, an empty list when there are none; a failed query is wrapped. */
    function GetMany(path: string, version: int, fault: Option<string>): (r: Result<seq<string>, Error>)
      ensures r.Err? <==> fault.Some?
      ensures r.Err? ==> r.error == StorageFailure("failed to fetch rows: " + fault.value)
      ensures r.Ok? ==> r.value == Select(config, path, version)
    {
      match fault
      case Some(cause) => Err(StorageFailure("failed to fetch rows: " + cause))
      case None => Ok(Select(config, path, version))
    }

    /** GetManyCurrent: the values at the current version; an empty list for a path without metadata. */
    function GetManyCurrent(path: string, fault: Option<string>): (r: Result<seq<string>, Error>)
      ensures r.Err? <==> fault.Some?
      ensures r.Err? ==> r.error == StorageFailure("failed to fetch rows: " + fault.value)
      ensures r.Ok? ==> r.value == if path in meta then Select(config, path, meta[path].currentVersion) else []
    {
      match fault
      case Some(cause) => Err(StorageFailure("failed to fetch rows: " + cause))
      case None =>
        SelectCurrentIsSelectAtCurrent(config, meta, path);
        Ok(SelectCurrent(config, meta, path))
    }

    /** Get: the first value of GetMany, NotFoundErr when it is empty, its error unchanged. */
    function Get(path: string, version: int, fault: Option<string>): (r: Result<string, Error>)
      ensures fault.Some? ==> r == GetMany(path, version, fault).PropagateFailure()
      ensures fault.None? ==>
        var values := Select(config, path, version);
        r == if values == [] then Err(NotFound(path)) else Ok(values[0])
    {
      match GetMany(path, version, fault)
      case Err(e) => Err(e)
      case Ok(result) => if |result| < 1 then Err(NotFound(path)) else Ok(result[0])
    }

    /** GetCurrent: the first value of GetManyCurrent, NotFoundErr when it is empty, its error unchanged. */
    function GetCurrent(path: string, fault: Option<string>): (r: Result<string, Error>)
      ensures fault.Some? ==> r == GetManyCurrent(path, fault).PropagateFailure()
      ensures fault.None? && path !in meta ==> r == Err(NotFound(path))
      ensures fault.None? && path in meta ==>
        var values := Select(config, path, meta[path].currentVersion);
        r == if values == [] then Err(NotFound(path)) else Ok(values[0])
    {
      match GetManyCurrent(path, fault)
      case Err(e) => Err(e)
      case Ok(result) => if |result| < 1 then Err(NotFound(path)) else Ok(result[0])
    }

    /**
     * SetMany: the upsert of the metadata row runs on its own; the increment
     * of latest_version, the promotion of current_version and the insertion
     * of the rows form one transaction that commits or leaves no trace.
     */
    function SetMany(path: string, values: seq<string>, options: SetOptions, fault: WriteFault)
      : (r: (Tables, Result<Metadata, Error>))
      ensures r.1.Ok? <==> fault.NoFault?
      ensures fault.UpsertFails? ==> r == (this, Err(StorageFailure(fault.cause)))
      ensures fault.TransactionFails? ==>
        && r.1 == Err(StorageFailure(fault.cause))
        && r.0.config == config
        && r.0.meta == meta[path := if path in meta then meta[path] else MetaRow(0, 0)]
      ensures fault.NoFault? ==>
        var md := r.1.value;
        && md.path == path
        && md.latestVersion == LatestOf(path) + 1
        && md.currentVersion == (if options.keepCurrent then CurrentOf(path) else md.latestVersion)
        && r.0.meta == meta[path := MetaRow(md.latestVersion, md.currentVersion)]
        && r.0.config == config + RowsFor(path, md.latestVersion, values)
    {
      match fault
      case UpsertFails(cause) => (this, Err(StorageFailure(cause)))
      case TransactionFails(cause) => (Tables(Upserted(path), config), Err(StorageFailure(cause)))
      case NoFault =>
        var upserted := Upserted(path);
        var latest := upserted[path].latestVersion + 1;
        var current := if options.keepCurrent then upserted[path].currentVersion else latest;
        (Tables(upserted[path := MetaRow(latest, current)], config + RowsFor(path, latest, values)),
         Ok(Metadata(path, latest, current)))
    }

    /** `INSERT INTO config_metadata (path) VALUES ($1) ON CONFLICT (path) DO NOTHING`. */
    function Upserted(path: string): (r: map<string, MetaRow>)
      ensures r == meta[path := if path in meta then meta[path] else MetaRow(0, 0)]
    {
      if path in meta then meta else meta[path := MetaRow(0, 0)]
    }

    /** Delete: drop the rows of (path, version); metadata is left as it is. */
    function Delete(path: string, version: int, fault: Option<string>): (r: (Tables, Option<Error>))
      ensures r.1.Some? <==> fault.Some?
      ensures fault.Some? ==> r == (this, Some(StorageFailure("failed to delete rows: " + fault.value)))
      ensures r.0.meta == meta
      ensures |r.0.config| <= |config|
      ensures fault.None? ==> forall i :: 0 <= i < |r.0.config| ==>
        r.0.config[i] in config && !(r.0.config[i].path == path && r.0.config[i].version == version)
    {
      match fault
      case Some(cause) => (this, Some(StorageFailure("failed to delete rows: " + cause)))
      case None => (Tables(meta, Remove(config, path, version)), None)
    }

    /** The store as the query service reads it, when the database answers. */
    function View(): (r: Reader)
      ensures forall p :: r.getManyCurrent(p) == GetManyCurrent(p, None)
      ensures forall p, v :: r.getMany(p, v) == GetMany(p, v, None)
    {
      Reader(p => GetManyCurrent(p, None), (p, v) => GetMany(p, v, None))
    }
  }

  lemma SetManyPreservesValid(t: Tables, path: string, values: seq<string>, options: SetOptions, fault: WriteFault)
    requires t.Valid()
    ensures t.SetMany(path, values, options, fault).0.Valid()
  {
    var t' := t.SetMany(path, values, options, fault).0;
    if fault.NoFault? {
      var latest := t'.meta[path].latestVersion;
      forall i | 0 <= i < |t'.config|
        ensures t'.config[i].path in t'.meta && t'.config[i].version <= t'.meta[t'.config[i].path].latestVersion
      {
        if i >= |t.config| {
          assert t'.config[i] == RowsFor(path, latest, values)[i - |t.config|];
        } else {
          assert t'.config[i] == t.config[i];
        }
      }
    }
  }

  lemma DeletePreservesValid(t: Tables, path: string, version: int, fault: Option<string>)
    requires t.Valid()
    ensures t.Delete(path, version, fault).0.Valid()
  {
    var t' := t.Delete(path, version, fault).0;
    forall i | 0 <= i < |t'.config|
      ensures t'.config[i].path in t'.meta && t'.config[i].version <= t'.meta[t'.config[i].path].latestVersion
    {
      var k :| 0 <= k < |t.config| && t.config[k] == t'.config[i];
    }
  }

  /** In valid tables no row lies above its path's latest version, nor belongs to a path without metadata. */
  lemma ValidSelectAbsent(t: Tables, path: string, version: int)
    requires t.Valid()
    requires path !in t.meta || version > t.meta[path].latestVersion
    ensures Select(t.config, path, version) == []
  {
    SelectAbsent(t.config, path, version);
  }

  /** A successful SetMany makes its values, in order, the whole of the new version. */
  lemma SetManyThenGetMany(t: Tables, path: string, values: seq<string>, options: SetOptions)
    requires t.Valid()
    ensures var after := t.SetMany(path, values, options, NoFault);
            after.0.GetMany(path, after.1.value.latestVersion, None) == Ok(values)
  {
    var after := t.SetMany(path, values, options, NoFault);
    var latest := after.1.value.latestVersion;
    SelectAppend(t.config, RowsFor(path, latest, values), path, latest);
    SelectRowsFor(path, latest, values, path, latest);
    ValidSelectAbsent(t, path, latest);
    assert Select(after.0.config, path, latest) == [] + values;
    assert after.0.GetMany(path, latest, None).value == values;
  }

  /** Every other path and version reads as before: versions are never rewritten. */
  lemma SetManyKeepsOtherVersions(
    t: Tables, path: string, values: seq<string>, options: SetOptions, fault: WriteFault, p: string, v: int)
    ensures var (t', r) := t.SetMany(path, values, options, fault);
            r.Ok? && (p != path || v != r.value.latestVersion) ==> t'.GetMany(p, v, None) == t.GetMany(p, v, None)
    ensures var (t', r) := t.SetMany(path, values, options, fault);
            r.Err? ==> t'.GetMany(p, v, None) == t.GetMany(p, v, None)
  {
    var (t', r) := t.SetMany(path, values, options, fault);
    if r.Ok? {
      var latest := r.value.latestVersion;
      SelectAppend(t.config, RowsFor(path, latest, values), p, v);
      SelectRowsFor(path, latest, values, p, v);
      if p != path || v != latest {
        assert t'.GetMany(p, v, None).value == t.GetMany(p, v, None).value;
      }
    }
  }

  /** Set with KeepCurrent false, then GetCurrent, gives the value back. */
  lemma SetThenGetCurrent(t: Tables, path: string, value: string)
    requires t.Valid()
    ensures var (t', r) := t.SetMany(path, [value], SetOptions(false), NoFault);
            && r.value.currentVersion == r.value.latestVersion
            && t'.GetCurrent(path, None) == Ok(value)
  {
    var (t', r) := t.SetMany(path, [value], SetOptions(false), NoFault);
    SetManyThenGetMany(t, path, [value], SetOptions(false));
  }

  /** With KeepCurrent, what every path reads as current is unchanged. */
  lemma KeepCurrentKeepsCurrentValues(t: Tables, path: string, values: seq<string>, p: string)
    requires t.Valid()
    ensures var (t', r) := t.SetMany(path, values, SetOptions(true), NoFault);
            && r.value.currentVersion == t.CurrentOf(path)
            && t'.GetManyCurrent(p, None) == t.GetManyCurrent(p, None)
  {
    var (t', r) := t.SetMany(path, values, SetOptions(true), NoFault);
    var latest := r.value.latestVersion;
    if p in t'.meta {
      var current := t'.meta[p].currentVersion;
      SelectAppend(t.config, RowsFor(path, latest, values), p, current);
      SelectRowsFor(path, latest, values, p, current);
      if p !in t.meta {
        ValidSelectAbsent(t, p, current);
      }
    }
    assert t'.GetManyCurrent(p, None).value == t.GetManyCurrent(p, None).value;
  }

  /**
   * A SetMany that fails leaves nothing any reader can see: at most the
   * metadata row (latest 0, current 0) created before the transaction.
   */
  lemma FailedSetManyIsInvisible(
    t: Tables, path: string, values: seq<string>, options: SetOptions, fault: WriteFault, p: string, v: int)
    requires t.Valid() && !fault.NoFault?
    ensures var t' := t.SetMany(path, values, options, fault).0;
            && t'.config == t.config
            && (forall q :: q in t.meta ==> q in t'.meta && t'.meta[q] == t.meta[q])
            && (path !in t.meta && fault.TransactionFails? ==> t'.meta[path] == MetaRow(0, 0))
            && t'.GetMany(p, v, None) == t.GetMany(p, v, None)
            && t'.GetManyCurrent(p, None) == t.GetManyCurrent(p, None)
  {
    if p !in t.meta {
      ValidSelectAbsent(t, p, 0);
    }
  }

  /** Delete empties its version and leaves every other path and version as it was. */
  lemma DeleteRemovesOnlyItsVersion(t: Tables, path: string, version: int, p: string, v: int)
    ensures var t' := t.Delete(path, version, None).0;
            t'.GetMany(p, v, None) == if p == path && v == version then Ok([]) else t.GetMany(p, v, None)
  {
    SelectRemove(t.config, path, version, p, v);
  }

  /** The Go object: the two tables, read by scanning rows and written by SetMany and Delete. */
  class PostgresBackend {
    var meta: map<string, MetaRow>
    var config: seq<Row>

    function Contents(): Tables
      reads this
    {
      Tables(meta, config)
    }

    ghost predicate Valid()
      reads this
    {
      Contents().Valid()
    }

    /** A store over freshly migrated, empty tables. */
    constructor ()
      ensures Valid() && Contents() == Tables(map[], [])
    {
      meta := map[];
      config := [];
    }

    method GetMany(path: string, version: int, fault: Option<string>) returns (r: Result<seq<string>, Error>)
      ensures r == Contents().GetMany(path, version, fault)
    {
      if fault.Some? {
        return Err(StorageFailure("failed to fetch rows: " + fault.value));
      }
      var result := [];
      var i := 0;
      while i < |config|
        invariant 0 <= i <= |config|
        invariant result == Select(config[..i], path, version)
      {
        var row := config[i];
        if row.path == path && row.version == version {
          result := result + [row.value];
        }
        assert config[..i + 1][..i] == config[..i];
        i := i + 1;
      }
      assert config[..i] == config;
      r := Ok(result);
    }

    method GetManyCurrent(path: string, fault: Option<string>) returns (r: Result<seq<string>, Error>)
      ensures r == Contents().GetManyCurrent(path, fault)
    {
      if fault.Some? {
        return Err(StorageFailure("failed to fetch rows: " + fault.value));
      }
      var result := [];
      var i := 0;
      while i < |config|
        invariant 0 <= i <= |config|
        invariant result == SelectCurrent(config[..i], meta, path)
      {
        var row := config[i];
        if row.path == path && row.path in meta && row.version == meta[row.path].currentVersion {
          result := result + [row.value];
        }
        assert config[..i + 1][..i] == config[..i];
        i := i + 1;
      }
      assert config[..i] == config;
      r := Ok(result);
    }

    method Get(path: string, version: int, fault: Option<string>) returns (r: Result<string, Error>)
      ensures r == Contents().Get(path, version, fault)
    {
      var result := GetMany(path, version, fault);
      if result.Err? {
        return Err(result.error);
      }
      if |result.value| < 1 {
        return Err(NotFound(path));
      }
      r := Ok(result.value[0]);
    }

    method GetCurrent(path: string, fault: Option<string>) returns (r: Result<string, Error>)
      ensures r == Contents().GetCurrent(path, fault)
    {
      var result := GetManyCurrent(path, fault);
      if result.Err? {
        return Err(result.error);
      }
      if |result.value| < 1 {
        return Err(NotFound(path));
      }
      r := Ok(result.value[0]);
    }

    method SetMany(path: string, values: seq<string>, options: SetOptions, fault: WriteFault)
      returns (r: Result<Metadata, Error>)
      requires Valid()
      modifies this
      ensures Valid()
      ensures (Contents(), r) == old(Contents()).SetMany(path, values, options, fault)
    {
      ghost var before := Contents();
      SetManyPreservesValid(before, path, values, options, fault);
      if fault.UpsertFails? {
        return Err(StorageFailure(fault.cause));
      }
      if path !in meta {
        meta := meta[path := MetaRow(0, 0)];
      }
      if fault.TransactionFails? {
        // the transaction is rolled back; the upserted row stays
        return Err(StorageFailure(fault.cause));
      }
      var latest := meta[path].latestVersion + 1;
      var current := meta[path].currentVersion;
      if !options.keepCurrent {
        current := latest;
      }
      meta := meta[path := MetaRow(latest, current)];
      config := config + RowsFor(path, latest, values);
      r := Ok(Metadata(path, latest, current));
    }

    method Set(path: string, value: string, options: SetOptions, fault: WriteFault)
      returns (r: Result<Metadata, Error>)
      requires Valid()
      modifies this
      ensures Valid()
      ensures (Contents(), r) == old(Contents()).SetMany(path, [value], options, fault)
    {
      r := SetMany(path, [value], options, fault);
    }

    method Delete(path: string, version: int, fault: Option<string>) returns (err: Option<Error>)
      requires Valid()
      modifies this
      ensures Valid()
      ensures (Contents(), err) == old(Contents()).Delete(path, version, fault)
    {
      DeletePreservesValid(Contents(), path, version, fault);
      if fault.Some? {
        return Some(StorageFailure("failed to delete rows: " + fault.value));
      }
      config := Remove(config, path, version);
      err := None;
    }
  }
}
