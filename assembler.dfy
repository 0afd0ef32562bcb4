/**
 * The result assembler of the query service (internal/pkg/dendrite/service.go):
 * fetch the values of each selection and merge them, in order, into one
 * nested result. A node of the result is a string, a list of strings or a
 * map from path segment to node; under a map, the key "/" holds the values
 * of the map's own path.
 */
module Assembler {
  import opened Wrappers
  import opened Backend
  import opened Dto

  datatype Node = Scalar(s: string) | List(items: seq<string>) | Branch(children: map<string, Node>)

  type Tree = map<string, Node>

  /** The key under which a branch keeps the values of its own path. */
  const SelfKey: string := "/"

  /**
   * GetConfigsBySelection: GetManyCurrent for the version -1, GetMany for any
   * other version; the backend's answer, error or values, is passed on as is.
   */
  function GetConfigsBySelection(backend: Reader, selection: Selection): (r: Result<seq<string>, Error>)
    ensures selection.version == CurrentVersion ==> r == backend.getManyCurrent(selection.path)
    ensures selection.version != CurrentVersion ==> r == backend.getMany(selection.path, selection.version)
  {
    if selection.version == CurrentVersion then backend.getManyCurrent(selection.path)
    else backend.getMany(selection.path, selection.version)
  }

  predicate HasRootPrefix(path: string)
  {
    |path| > 0 && path[0] == '/'
  }

  /** strings.Split(s, "/"). */
  function Split(s: string): (r: seq<string>)
    ensures |r| >= 1
  {
    if |s| == 0 then [""]
    else if s[0] == '/' then [""] + Split(s[1..])
    else
      var rest := Split(s[1..]);
      [[s[0]] + rest[0]] + rest[1..]
  }

  /** The segments of a path below the root: strings.Split(path, "/")[1:]. */
  function Segments(path: string): (r: seq<string>)
    requires HasRootPrefix(path)
    ensures |r| >= 1
  {
    assert path == "/" + path[1..];
    Split(path)[1..]
  }

  /** The values of a leaf node, in order. */
  function Items(node: Node): seq<string>
  {
    match node
    case Scalar(s) => [s]
    case List(l) => l
    case Branch(_) => []
  }

  /** A fresh leaf: a string for one value, a list for more. */
  function LeafOf(values: seq<string>): (r: Node)
    requires |values| > 0
    ensures !r.Branch? && Items(r) == values
    ensures r.Scalar? <==> |values| == 1
  {
    if |values| > 1 then List(values) else Scalar(values[0])
  }

  /**
   * The merge rule at the last segment of a path. The new values go before
   * an existing string, after an existing list; an existing map gets its "/"
   * key set, whatever it held before, and keeps its other keys.
   */
  function Merge(existing: Option<Node>, values: seq<string>): (r: Node)
    requires |values| > 0
    ensures existing.None? ==> r == LeafOf(values)
    ensures existing.Some? && existing.value.Scalar? ==> r.List? && Items(r) == values + Items(existing.value)
    ensures existing.Some? && existing.value.List? ==> r.List? && Items(r) == Items(existing.value) + values
    ensures existing.Some? && existing.value.Branch? ==>
      && r.Branch?
      && r.children.Keys == existing.value.children.Keys + {SelfKey}
      && r.children[SelfKey] == LeafOf(values)
      && forall k | k in existing.value.children && k != SelfKey :: r.children[k] == existing.value.children[k]
  {
    match existing
    case None => LeafOf(values)
    case Some(Scalar(s)) => List(values + [s])
    case Some(List(l)) => List(l + values)
    case Some(Branch(m)) => Branch(m[SelfKey := LeafOf(values)])
  }

  /** The node at a path of segments, if there is one. */
  function Lookup(tree: Tree, segments: seq<string>): Option<Node>
    requires |segments| > 0
    decreases |segments|
  {
    var key := segments[0];
    if key !in tree then None
    else if |segments| == 1 then Some(tree[key])
    else
      match tree[key]
      case Branch(m) => Lookup(m, segments[1..])
      case _ => None
  }

  /**
   * The inner loop of GetObjectByPaths for one selection: walk the
   * segments, creating an empty map for each missing one, and merge at the
   * last. Walking through a segment that holds a string or a list is the
   * failed type assertion of the Go code: None here.
   */
  function Place(tree: Tree, segments: seq<string>, values: seq<string>): Option<Tree>
    requires |segments| > 0 && |values| > 0
    decreases |segments|
  {
    var key := segments[0];
    if |segments| == 1 then
      Some(tree[key := Merge(if key in tree then Some(tree[key]) else None, values)])
    else
      match (if key in tree then tree[key] else Branch(map[]))
      case Branch(m) =>
        (match Place(m, segments[1..], values)
         case None => None
         case Some(m') => Some(tree[key := Branch(m')]))
      case _ => None
  }

  /**
   * One iteration of the outer loop of GetObjectByPaths: a relative path is
   * refused, a failed fetch is wrapped, no values leave the tree as it was,
   * and values are placed at the path unless a proper prefix of it holds a
   * leaf (see PlaceFailsOnLeafPrefix).
   */
  function Apply(backend: Reader, tree: Tree, selection: Selection): (r: Result<Tree, ServiceError>)
    ensures !HasRootPrefix(selection.path) ==> r == Err(InvalidPath)
    ensures HasRootPrefix(selection.path) && GetConfigsBySelection(backend, selection).Err? ==>
              r == Err(FetchFailed(GetConfigsBySelection(backend, selection).error))
    ensures (HasRootPrefix(selection.path) && GetConfigsBySelection(backend, selection).Ok?
             && |GetConfigsBySelection(backend, selection).value| == 0) ==> r == Ok(tree)
    ensures (HasRootPrefix(selection.path) && GetConfigsBySelection(backend, selection).Ok?
             && |GetConfigsBySelection(backend, selection).value| > 0) ==>
              var placed := Place(tree, Segments(selection.path), GetConfigsBySelection(backend, selection).value);
              && (r.Ok? <==> placed.Some?)
              && (r.Ok? ==> Some(r.value) == placed)
              && (r.Err? ==> r == Err(PathConflict(selection.path)))
    ensures r.Err? ==> SelectionFault(backend, tree, selection, r.error)
  {
    if !HasRootPrefix(selection.path) then Err(InvalidPath)
    else
      match GetConfigsBySelection(backend, selection)
      case Err(e) => Err(FetchFailed(e))
      case Ok(values) =>
        if |values| == 0 then Ok(tree)
        else
          match Place(tree, Segments(selection.path), values)
          case None => Err(PathConflict(selection.path))
          case Some(t) => Ok(t)
  }

  /**
   * A selection with values fails exactly when a proper prefix of its path
   * already holds a string or a list; otherwise the node at its path
   * becomes the merge of what was there with the values.
   */
  lemma ApplyPlacesValues(backend: Reader, tree: Tree, selection: Selection)
    requires HasRootPrefix(selection.path)
    requires GetConfigsBySelection(backend, selection).Ok? && |GetConfigsBySelection(backend, selection).value| > 0
    ensures Apply(backend, tree, selection).Err? <==>
      exists k :: 1 <= k < |Segments(selection.path)| && Lookup(tree, Segments(selection.path)[..k]).Some?
                  && !Lookup(tree, Segments(selection.path)[..k]).value.Branch?
    ensures Apply(backend, tree, selection).Err? ==> Apply(backend, tree, selection).error == PathConflict(selection.path)
    ensures Apply(backend, tree, selection).Ok? ==>
      Lookup(Apply(backend, tree, selection).value, Segments(selection.path))
        == Some(Merge(Lookup(tree, Segments(selection.path)), GetConfigsBySelection(backend, selection).value))
  {
    var segments, values := Segments(selection.path), GetConfigsBySelection(backend, selection).value;
    PlaceFailsOnLeafPrefix(tree, segments, values);
    if Place(tree, segments, values).Some? {
      PlaceMergesAtPath(tree, segments, values);
    }
  }

  /** The outer loop from a given tree on: the first error ends it, with no tree. */
  function AssembleFrom(backend: Reader, tree: Tree, selections: seq<Selection>): Result<Tree, ServiceError>
    decreases |selections|
  {
    if selections == [] then Ok(tree)
    else
      match Apply(backend, tree, selections[0])
      case Err(e) => Err(e)
      case Ok(t) => AssembleFrom(backend, t, selections[1..])
  }

  /** GetObjectByPaths: the selections merged in order into one tree, starting from an empty one. */
  method GetObjectByPaths(backend: Reader, selections: seq<Selection>) returns (r: Result<Tree, ServiceError>)
    ensures r == AssembleFrom(backend, map[], selections)
  {
    var output: Tree := map[];
    var i := 0;
    while i < |selections|
      invariant 0 <= i <= |selections|
      invariant AssembleFrom(backend, output, selections[i..]) == AssembleFrom(backend, map[], selections)
    {
      var selection := selections[i];
      assert selections[i..][1..] == selections[i + 1..];
      if !HasRootPrefix(selection.path) {
        return Err(InvalidPath);
      }
      var fetched := GetConfigsBySelection(backend, selection);
      if fetched.Err? {
        return Err(FetchFailed(fetched.error));
      }
      var values := fetched.value;
      if |values| > 0 {
        var placed := Place(output, Segments(selection.path), values);
        if placed.None? {
          return Err(PathConflict(selection.path));
        }
        output := placed.value;
      }
      i := i + 1;
    }
    r := Ok(output);
  }

  // ---------------------------------------------------------------------
  // What Place does, stated through Lookup.

  /** Lookup only depends on the entry for the first segment. */
  lemma LookupUpdateOtherKey(tree: Tree, key: string, node: Node, segments: seq<string>)
    requires |segments| > 0 && segments[0] != key
    ensures Lookup(tree[key := node], segments) == Lookup(tree, segments)
  {
  }

  /** A prefix of length k >= 2 is looked up one level down. */
  lemma LookupPrefix(tree: Tree, segments: seq<string>, k: int)
    requires 2 <= k <= |segments|
    ensures segments[0] !in tree ==> Lookup(tree, segments[..k]) == None
    ensures segments[0] in tree && !tree[segments[0]].Branch? ==> Lookup(tree, segments[..k]) == None
    ensures segments[0] in tree && tree[segments[0]].Branch? ==>
      Lookup(tree, segments[..k]) == Lookup(tree[segments[0]].children, segments[1..][..k - 1])
  {
    assert segments[..k][0] == segments[0];
    assert segments[..k][1..] == segments[1..][..k - 1];
  }

  /**
   * Place fails exactly when a proper prefix of the path holds a string or
   * a list (the segment the Go code cannot descend through).
   */
  lemma {:induction false} PlaceFailsOnLeafPrefix(tree: Tree, segments: seq<string>, values: seq<string>)
    requires |segments| > 0 && |values| > 0
    ensures Place(tree, segments, values).None? <==>
      exists k :: 1 <= k < |segments| && Lookup(tree, segments[..k]).Some? && !Lookup(tree, segments[..k]).value.Branch?
    decreases |segments|
  {
    if |segments| > 1 {
      var key, rest := segments[0], segments[1..];
      assert segments[..1] == [key];
      var child := if key in tree then tree[key] else Branch(map[]);
      if child.Branch? {
        var m := child.children;
        PlaceFailsOnLeafPrefix(m, rest, values);
        if Place(tree, segments, values).None? {
          var k' :| 1 <= k' < |rest| && Lookup(m, rest[..k']).Some? && !Lookup(m, rest[..k']).value.Branch?;
          LookupPrefix(tree, segments, k' + 1);
        } else {
          forall k | 1 <= k < |segments|
            ensures !(Lookup(tree, segments[..k]).Some? && !Lookup(tree, segments[..k]).value.Branch?)
          {
            if k >= 2 {
              LookupPrefix(tree, segments, k);
              if key in tree {
                assert !(Lookup(m, rest[..k - 1]).Some? && !Lookup(m, rest[..k - 1]).value.Branch?);
              }
            }
          }
        }
      } else {
        assert Lookup(tree, segments[..1]) == Some(child);
      }
    }
  }

  /** After Place, the node at the path is the merge of what was there with the values. */
  lemma {:induction false} PlaceMergesAtPath(tree: Tree, segments: seq<string>, values: seq<string>)
    requires |segments| > 0 && |values| > 0 && Place(tree, segments, values).Some?
    ensures Lookup(Place(tree, segments, values).value, segments) == Some(Merge(Lookup(tree, segments), values))
    decreases |segments|
  {
    if |segments| > 1 {
      var key := segments[0];
      var m := if key in tree then tree[key].children else map[];
      PlaceMergesAtPath(m, segments[1..], values);
    }
  }

  /** After Place, every proper prefix of the path is a map; missing ones were created. */
  lemma {:induction false} PlaceCreatesBranches(tree: Tree, segments: seq<string>, values: seq<string>, k: int)
    requires |segments| > 0 && |values| > 0 && Place(tree, segments, values).Some?
    requires 1 <= k < |segments|
    ensures Lookup(Place(tree, segments, values).value, segments[..k]).Some?
    ensures Lookup(Place(tree, segments, values).value, segments[..k]).value.Branch?
    decreases |segments|
  {
    var key := segments[0];
    var m := if key in tree then tree[key].children else map[];
    var t' := Place(tree, segments, values).value;
    if k == 1 {
      assert segments[..1] == [key];
    } else {
      PlaceCreatesBranches(m, segments[1..], values, k - 1);
      LookupPrefix(t', segments, k);
    }
  }

  /** Segments that part from the path somewhere are left as they were. */
  lemma {:induction false} PlaceKeepsDivergingPaths(tree: Tree, segments: seq<string>, values: seq<string>, other: seq<string>, k: int)
    requires |segments| > 0 && |values| > 0 && Place(tree, segments, values).Some?
    requires 0 <= k < |segments| && k < |other| && segments[k] != other[k]
    ensures Lookup(Place(tree, segments, values).value, other) == Lookup(tree, other)
    decreases |segments|
  {
    var key := segments[0];
    var t' := Place(tree, segments, values).value;
    if other[0] != key {
      LookupUpdateOtherKey(tree, key, t'[key], other);
      assert t' == tree[key := t'[key]];
    } else {
      var m := if key in tree then tree[key].children else map[];
      PlaceKeepsDivergingPaths(m, segments[1..], values, other[1..], k - 1);
      if key !in tree {
        assert Lookup(m, other[1..]) == None;
      }
    }
  }

  /**
   * Below the path, everything but the "/" key of an existing map is left
   * as it was: the other children of that map are untouched.
   */
  lemma {:induction false} PlaceKeepsChildren(tree: Tree, segments: seq<string>, values: seq<string>, rest: seq<string>)
    requires |segments| > 0 && |values| > 0 && Place(tree, segments, values).Some?
    requires |rest| > 0 && rest[0] != SelfKey
    ensures Lookup(Place(tree, segments, values).value, segments + rest) == Lookup(tree, segments + rest)
    decreases |segments|
  {
    var key := segments[0];
    var t' := Place(tree, segments, values).value;
    assert (segments + rest)[0] == key;
    assert (segments + rest)[1..] == segments[1..] + rest;
    if |segments| == 1 {
      assert segments[1..] + rest == rest;
      if key in tree && tree[key].Branch? {
        LookupUpdateOtherKey(tree[key].children, SelfKey, LeafOf(values), rest);
      }
    } else {
      var m := if key in tree then tree[key].children else map[];
      PlaceKeepsChildren(m, segments[1..], values, rest);
      if key !in tree {
        assert Lookup(m, segments[1..] + rest) == None;
      }
    }
  }

  // ---------------------------------------------------------------------
  // The outer loop.

  /**
   * Any relative path, or any failed fetch, makes the whole assembly fail:
   * no partial tree. When the selections before it assemble, the error is
   * that selection's own.
   */
  lemma {:induction false} AssembleFailsOnBadSelection(backend: Reader, tree: Tree, selections: seq<Selection>, i: int)
    requires 0 <= i < |selections|
    requires !HasRootPrefix(selections[i].path) || GetConfigsBySelection(backend, selections[i]).Err?
    ensures AssembleFrom(backend, tree, selections).Err?
    ensures AssembleFrom(backend, tree, selections[..i]).Ok? ==>
      AssembleFrom(backend, tree, selections) ==
        Err(if !HasRootPrefix(selections[i].path) then InvalidPath
            else FetchFailed(GetConfigsBySelection(backend, selections[i]).error))
    decreases |selections|
  {
    if i == 0 {
      assert selections[..0] == [];
    } else {
      assert selections[..i][0] == selections[0];
      assert selections[..i][1..] == selections[1..][..i - 1];
      match Apply(backend, tree, selections[0])
      case Err(_) =>
      case Ok(t) =>
        assert selections[1..][i - 1] == selections[i];
        AssembleFailsOnBadSelection(backend, t, selections[1..], i - 1);
    }
  }

  /** Assembling a concatenation: the first part, then the second from its tree. */
  lemma {:induction false} AssembleAppend(backend: Reader, tree: Tree, a: seq<Selection>, b: seq<Selection>)
    ensures AssembleFrom(backend, tree, a + b) ==
      match AssembleFrom(backend, tree, a)
      case Err(e) => Err(e)
      case Ok(t) => AssembleFrom(backend, t, b)
    decreases |a|
  {
    if a == [] {
      assert a + b == b;
    } else {
      assert (a + b)[0] == a[0];
      assert (a + b)[1..] == a[1..] + b;
      match Apply(backend, tree, a[0])
      case Err(_) =>
      case Ok(t) => AssembleAppend(backend, t, a[1..], b);
    }
  }

  /**
   * The ways one selection can end the assembly, each with the error it
   * gives: a relative path, a failed fetch, or values that cannot be placed
   * in the tree assembled so far.
   */
  predicate SelectionFault(backend: Reader, tree: Tree, selection: Selection, e: ServiceError)
  {
    || (!HasRootPrefix(selection.path) && e == InvalidPath)
    || (HasRootPrefix(selection.path) && GetConfigsBySelection(backend, selection).Err?
        && e == FetchFailed(GetConfigsBySelection(backend, selection).error))
    || (HasRootPrefix(selection.path) && GetConfigsBySelection(backend, selection).Ok?
        && |GetConfigsBySelection(backend, selection).value| > 0
        && Place(tree, Segments(selection.path), GetConfigsBySelection(backend, selection).value).None?
        && e == PathConflict(selection.path))
  }

  /**
   * Every error of the assembly is the fault of one selection, reached
   * after the selections before it assembled without error.
   */
  lemma {:induction false} AssembleErrorNamesSelection(backend: Reader, tree: Tree, selections: seq<Selection>)
    requires AssembleFrom(backend, tree, selections).Err?
    ensures exists i :: (0 <= i < |selections| && AssembleFrom(backend, tree, selections[..i]).Ok?
                         && SelectionFault(backend, AssembleFrom(backend, tree, selections[..i]).value, selections[i],
                                           AssembleFrom(backend, tree, selections).error))
    decreases |selections|
  {
    match Apply(backend, tree, selections[0])
    case Err(e) =>
      assert selections[..0] == [];
      assert SelectionFault(backend, tree, selections[0], e);
    case Ok(t) =>
      var rest := selections[1..];
      AssembleErrorNamesSelection(backend, t, rest);
      var i :| 0 <= i < |rest| && AssembleFrom(backend, t, rest[..i]).Ok?
        && SelectionFault(backend, AssembleFrom(backend, t, rest[..i]).value, rest[i], AssembleFrom(backend, t, rest).error);
      assert rest[i] == selections[i + 1];
      assert selections[..i + 1][0] == selections[0];
      assert selections[..i + 1][1..] == rest[..i];
      assert AssembleFrom(backend, tree, selections[..i + 1]) == AssembleFrom(backend, t, rest[..i]);
  }
}
