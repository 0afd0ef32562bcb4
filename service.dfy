/**
 * The query service (internal/pkg/dendrite/service.go, Query): plan the
 * selections of every top-level field from "/", then assemble the result.
 * The GraphQL parser is outside the model: a query arrives already parsed
 * (Some(fields)) or as a parse failure (None).
 */
module Service {
  import opened Wrappers
  import opened Backend
  import opened Dto
  import opened Planner
  import opened Assembler
  import Memory
  import Postgres

  predicate ValidOperation(fields: seq<Field>)
  {
    forall f | f in fields :: ValidField(f)
  }

  /**
   * The answer to a query: the parse error, else the first planning error,
   * else the assembled tree of the planned selections. The plan is the
   * leaves of the query in document order, each at the path of its names.
   */
  function QueryResult(backend: Reader, operation: Option<seq<Field>>): (r: Result<Tree, ServiceError>)
    requires operation.Some? ==> ValidOperation(operation.value)
    ensures operation.None? ==> r == Err(ParseFailed)
    ensures operation.Some? ==> r == AssemblePlan(backend, Resolve(LeavesOfSet(operation.value, [])))
  {
    match operation
    case None => Err(ParseFailed)
    case Some(fields) =>
      assert BaseOf([]) == "/";
      PlanSetFollowsLeaves(fields, []);
      AssemblePlan(backend, GetSelectionsBySet(fields, "/"))
  }

  /** The planning error, or the tree assembled from the planned selections. */
  function AssemblePlan(backend: Reader, plan: Result<seq<Selection>, ServiceError>): Result<Tree, ServiceError>
  {
    match plan
    case Err(e) => Err(e)
    case Ok(selections) => AssembleFrom(backend, map[], selections)
  }

  /** `rest` with `prefix` in front of its selections. */
  function Prefixed(prefix: seq<Selection>, rest: Result<seq<Selection>, ServiceError>): Result<seq<Selection>, ServiceError>
  {
    match rest
    case Err(e) => Err(e)
    case Ok(s) => Ok(prefix + s)
  }

  /** Query: collect the selections of each top-level field, then GetObjectByPaths. */
  method Query(backend: Reader, operation: Option<seq<Field>>) returns (r: Result<Tree, ServiceError>)
    requires operation.Some? ==> ValidOperation(operation.value)
    ensures r == QueryResult(backend, operation)
  {
    if operation.None? {
      return Err(ParseFailed);
    }
    var fields := operation.value;
    var selections: seq<Selection> := [];
    var i := 0;
    assert fields[0..] == fields;
    match GetSelectionsBySet(fields, "/") {
      case Err(_) =>
      case Ok(all) => assert [] + all == all;
    }
    while i < |fields|
      decreases |fields| - i
      invariant 0 <= i <= |fields|
      invariant GetSelectionsBySet(fields, "/") == Prefixed(selections, GetSelectionsBySet(fields[i..], "/"))
    {
      assert fields[i..][0] == fields[i];
      assert fields[i..][1..] == fields[i + 1..];
      var output := GetSelectionsByField(fields[i], "/");
      if output.Err? {
        return Err(output.error);
      }
      match GetSelectionsBySet(fields[i + 1..], "/") {
        case Err(_) =>
        case Ok(rest) => assert selections + (output.value + rest) == (selections + output.value) + rest;
      }
      selections := selections + output.value;
      i := i + 1;
    }
    assert selections + [] == selections;
    r := GetObjectByPaths(backend, selections);
  }

  // ---------------------------------------------------------------------
  // Paths of the plan.

  /** strings.Split over a name free of "/" glues it to the first piece. */
  lemma {:induction false} SplitName(name: string, s: string)
    requires forall i :: 0 <= i < |name| ==> name[i] != '/'
    ensures Split(name + s) == [name + Split(s)[0]] + Split(s)[1..]
    decreases |name|
  {
    if name != [] {
      assert (name + s)[0] == name[0];
      assert (name + s)[1..] == name[1..] + s;
      SplitName(name[1..], s);
      assert [name[0]] + (name[1..] + Split(s)[0]) == name + Split(s)[0];
    } else {
      assert name + s == s;
      assert name + Split(s)[0] == Split(s)[0];
      assert [Split(s)[0]] + Split(s)[1..] == Split(s);
    }
  }

  /** Splitting the path of some names gives the names back, after the empty root piece. */
  lemma {:induction false} SplitPathOf(names: seq<string>)
    requires ValidNames(names)
    ensures Split(PathOf(names)) == [""] + names
  {
    if names != [] {
      var rest := PathOf(names[1..]);
      SplitPathOf(names[1..]);
      assert PathOf(names) == "/" + (names[0] + rest);
      assert ("/" + (names[0] + rest))[1..] == names[0] + rest;
      SplitName(names[0], rest);
      assert names[0] + "" == names[0];
      assert [names[0]] + names[1..] == names;
    }
  }

  /** The segments the assembler walks for the path of some names are those names. */
  lemma SegmentsOfPathOf(names: seq<string>)
    requires ValidNames(names) && names != []
    ensures HasRootPrefix(PathOf(names))
    ensures Segments(PathOf(names)) == names
  {
    SplitPathOf(names);
  }

  /** Every leaf of a valid query has valid names, at least one more than its ancestors. */
  lemma {:induction false} LeavesAreNamed(field: Field, ancestors: seq<string>)
    requires ValidField(field) && ValidNames(ancestors)
    ensures forall i :: 0 <= i < |Leaves(field, ancestors)| ==>
      ValidNames(Leaves(field, ancestors)[i].names) && Leaves(field, ancestors)[i].names != []
    decreases field, 1
  {
    if |field.selectionSet| > 0 {
      LeavesOfSetAreNamed(field.selectionSet, ancestors + [field.name]);
    }
  }

  lemma {:induction false} LeavesOfSetAreNamed(fields: seq<Field>, ancestors: seq<string>)
    requires ValidOperation(fields) && ValidNames(ancestors + [])
    ensures forall i :: 0 <= i < |LeavesOfSet(fields, ancestors)| ==>
      ValidNames(LeavesOfSet(fields, ancestors)[i].names) && LeavesOfSet(fields, ancestors)[i].names != []
    decreases fields, 0
  {
    assert ancestors + [] == ancestors;
    if fields != [] {
      assert fields[0] in fields;
      LeavesAreNamed(fields[0], ancestors);
      assert forall f | f in fields[1..] :: f in fields;
      LeavesOfSetAreNamed(fields[1..], ancestors);
    }
  }

  /**
   * Every selection the planner makes for a valid query is an absolute
   * path whose segments are the names of its leaf: the assembler's
   * "invalid path" error never comes out of a query.
   */
  lemma QueryNeverInvalidPath(backend: Reader, fields: seq<Field>)
    requires ValidOperation(fields)
    ensures QueryResult(backend, Some(fields)) != Err(InvalidPath)
  {
    var leaves := LeavesOfSet(fields, []);
    LeavesOfSetAreNamed(fields, []);
    match Resolve(leaves)
    case Err(e) =>
    case Ok(selections) =>
      if AssembleFrom(backend, map[], selections).Err? {
        AssembleErrorNamesSelection(backend, map[], selections);
        var i :| 0 <= i < |selections| && AssembleFrom(backend, map[], selections[..i]).Ok?
          && SelectionFault(backend, AssembleFrom(backend, map[], selections[..i]).value, selections[i],
                            AssembleFrom(backend, map[], selections).error);
        SegmentsOfPathOf(leaves[i].names);
      }
  }

  // ---------------------------------------------------------------------
  // The stores under the service.

  /**
   * A path the Postgres store has never seen reads as no values, so the
   * query leaves it out of the result and goes on.
   */
  lemma PostgresSkipsUnknownPath(tables: Postgres.Tables, tree: Tree, path: string)
    requires HasRootPrefix(path) && path !in tables.meta
    ensures Apply(tables.View(), tree, Selection(path, CurrentVersion)) == Ok(tree)
  {
  }

  /**
   * The memory store answers NotFoundErr for the same path, and the whole
   * query fails with it.
   */
  lemma MemoryFailsOnUnknownPath(maps: Memory.Maps, tree: Tree, path: string)
    requires HasRootPrefix(path) && path !in maps.metadata
    ensures Apply(maps.View(), tree, Selection(path, CurrentVersion)) == Err(FetchFailed(NotFound(path)))
  {
  }
}
