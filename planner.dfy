/**
 * The query planner of the query service (internal/pkg/dendrite/service.go):
 * it reads the `version` argument of a field and flattens a parsed field
 * tree into the ordered list of selections the assembler fetches.
 */
module Planner {
  import opened Wrappers
  import opened Dto

  /** An argument value as the GraphQL parser hands it over: an int, or anything else. */
  datatype ArgValue = IntArg(n: int) | OtherArg

  datatype Argument = Argument(name: string, value: ArgValue)

  /** A parsed field: its name, its arguments and its nested selection set. */
  datatype Field = Field(name: string, arguments: seq<Argument>, selectionSet: seq<Field>)

  /**
   * Names the GraphQL grammar admits ([_A-Za-z][_0-9A-Za-z]*) are non-empty
   * and contain neither "/" nor "."; that is all the model relies on.
   */
  predicate ValidName(name: string)
  {
    |name| > 0 && forall i :: 0 <= i < |name| ==> name[i] != '/' && name[i] != '.'
  }

  predicate ValidField(field: Field)
    decreases field
  {
    ValidName(field.name) && forall child | child in field.selectionSet :: ValidField(child)
  }

  predicate ValidNames(names: seq<string>)
  {
    forall i :: 0 <= i < |names| ==> ValidName(names[i])
  }

  /** Argument i is the first one named `version`. */
  predicate FirstVersionArgument(args: seq<Argument>, i: int)
    requires 0 <= i < |args|
  {
    args[i].name == "version" && forall j :: 0 <= j < i ==> args[j].name != "version"
  }

  /**
   * GetFieldVersion: the first argument named `version` decides: its int
   * value, or InvalidVersion if it is not an int; later arguments are not
   * looked at. Without such an argument the version is -1 (current).
   */
  function GetFieldVersion(args: seq<Argument>): (r: Result<int, ServiceError>)
    ensures (forall i :: 0 <= i < |args| ==> args[i].name != "version") ==> r == Ok(CurrentVersion)
    ensures forall i :: 0 <= i < |args| && FirstVersionArgument(args, i) ==>
              r == if args[i].value.IntArg? then Ok(args[i].value.n) else Err(InvalidVersion)
    ensures r.Err? ==> r.error == InvalidVersion
    decreases |args|
  {
    if args == [] then Ok(CurrentVersion)
    else if args[0].name == "version" then
      match args[0].value
      case IntArg(n) => Ok(n)
      case OtherArg => Err(InvalidVersion)
    else
      GetFieldVersion(args[1..])
  }

  /**
   * path.Clean restricted to what the planner's paths can need: every run of
   * "/" collapses to one.
   */
  function Clean(s: string): string
    decreases |s|
  {
    if |s| <= 1 then s
    else if s[0] == '/' && s[1] == '/' then Clean(s[1..])
    else [s[0]] + Clean(s[1..])
  }

  /** path.Join(base, name) for a non-empty name: an empty base is dropped. */
  function Join(base: string, name: string): string
  {
    if base == "" then Clean(name) else Clean(base + "/" + name)
  }

  /**
   * GetSelectionsByField: a leaf (empty selection set) gives one selection at
   * Join(base, name) with its version; a branch gives, in order, the
   * selections of its children under base + "/" + name, and nothing itself.
   */
  function GetSelectionsByField(field: Field, base: string): Result<seq<Selection>, ServiceError>
    requires ValidField(field)
    decreases field
  {
    if |field.selectionSet| <= 0 then
      match GetFieldVersion(field.arguments)
      case Err(e) => Err(e)
      case Ok(version) => Ok([Selection(Join(base, field.name), version)])
    else
      GetSelectionsBySet(field.selectionSet, base + "/" + field.name)
  }

  /** The loop over a selection set: concatenate, stopping at the first error. */
  function GetSelectionsBySet(fields: seq<Field>, base: string): Result<seq<Selection>, ServiceError>
    requires forall f | f in fields :: ValidField(f)
    decreases fields
  {
    if fields == [] then Ok([])
    else
      match GetSelectionsByField(fields[0], base)
      case Err(e) => Err(e)
      case Ok(urls) =>
        match GetSelectionsBySet(fields[1..], base)
        case Err(e) => Err(e)
        case Ok(rest) => Ok(urls + rest)
  }

  // ---------------------------------------------------------------------
  // The reference the planner is proved against: the leaves of the tree in
  // depth-first, left-to-right order, each with its names from the root.

  datatype Leaf = Leaf(names: seq<string>, arguments: seq<Argument>)

  function Leaves(field: Field, ancestors: seq<string>): seq<Leaf>
    decreases field
  {
    if |field.selectionSet| == 0 then [Leaf(ancestors + [field.name], field.arguments)]
    else LeavesOfSet(field.selectionSet, ancestors + [field.name])
  }

  function LeavesOfSet(fields: seq<Field>, ancestors: seq<string>): seq<Leaf>
    decreases fields
  {
    if fields == [] then [] else Leaves(fields[0], ancestors) + LeavesOfSet(fields[1..], ancestors)
  }

  /** The canonical path of a list of names: "/" before each. */
  function PathOf(names: seq<string>): string
  {
    if names == [] then "" else "/" + names[0] + PathOf(names[1..])
  }

  /** The selections of a list of leaves; InvalidVersion when any leaf's version is invalid. */
  function Resolve(leaves: seq<Leaf>): (r: Result<seq<Selection>, ServiceError>)
    ensures r.Err? <==> exists i :: 0 <= i < |leaves| && GetFieldVersion(leaves[i].arguments).Err?
    ensures r.Err? ==> r.error == InvalidVersion
    ensures r.Ok? ==> |r.value| == |leaves| && forall i :: 0 <= i < |leaves| ==>
      r.value[i] == Selection(PathOf(leaves[i].names), GetFieldVersion(leaves[i].arguments).value)
  {
    if leaves == [] then Ok([])
    else
      match GetFieldVersion(leaves[0].arguments)
      case Err(e) => Err(e)
      case Ok(version) =>
        match Resolve(leaves[1..])
        case Err(e) =>
          assert forall i :: 0 <= i < |leaves| - 1 ==> leaves[1..][i] == leaves[i + 1];
          Err(e)
        case Ok(rest) => Ok([Selection(PathOf(leaves[0].names), version)] + rest)
  }

  /** The base the planner passes down to the children of the fields below `ancestors`. */
  function BaseOf(ancestors: seq<string>): string
  {
    "/" + PathOf(ancestors)
  }

  lemma {:induction false} PathOfSnoc(names: seq<string>, name: string)
    ensures PathOf(names + [name]) == PathOf(names) + "/" + name
  {
    if names != [] {
      assert (names + [name])[1..] == names[1..] + [name];
      PathOfSnoc(names[1..], name);
    }
  }

  lemma {:induction false} CleanKeepsName(name: string, rest: string)
    requires forall i :: 0 <= i < |name| ==> name[i] != '/'
    ensures Clean(name + rest) == name + Clean(rest)
    decreases |name|
  {
    if name != [] {
      var s := name + rest;
      if |s| > 1 {
        assert s[0] == name[0] && s[0] != '/';
        assert s[1..] == name[1..] + rest;
        CleanKeepsName(name[1..], rest);
        assert name == [name[0]] + name[1..];
      } else {
        assert rest == [] && s == name;
      }
    } else {
      assert name + rest == rest;
    }
  }

  /** A path built from valid names has no run of "/" to collapse. */
  lemma {:induction false} CleanPathOf(names: seq<string>)
    requires ValidNames(names)
    ensures Clean(PathOf(names)) == PathOf(names)
    decreases |names|
  {
    if names != [] {
      var s := PathOf(names);
      var rest := PathOf(names[1..]);
      assert s == "/" + (names[0] + rest);
      assert s[1..] == names[0] + rest;
      CleanKeepsName(names[0], rest);
      CleanPathOf(names[1..]);
    }
  }

  /** The leading "/" of a base collapses with the "/" of the first name. */
  lemma JoinIsPathOf(ancestors: seq<string>, name: string)
    requires ValidNames(ancestors + [name])
    ensures Join(BaseOf(ancestors), name) == PathOf(ancestors + [name])
  {
    var names := ancestors + [name];
    PathOfSnoc(ancestors, name);
    var s := "/" + PathOf(names);
    assert BaseOf(ancestors) + "/" + name == s;
    assert s[0] == '/' && s[1] == '/';
    assert s[1..] == PathOf(names);
    CleanPathOf(names);
  }

  /**
   * The planner, run on a field whose ancestors are `ancestors` (with the
   * base those ancestors give), yields the selections of its leaves in
   * depth-first, left-to-right order, each at the canonical path of its
   * names; any invalid version aborts with InvalidVersion.
   */
  lemma {:induction false} PlanFollowsLeaves(field: Field, ancestors: seq<string>)
    requires ValidField(field) && ValidNames(ancestors)
    ensures GetSelectionsByField(field, BaseOf(ancestors)) == Resolve(Leaves(field, ancestors))
    decreases field
  {
    var names := ancestors + [field.name];
    assert ValidNames(names);
    if |field.selectionSet| == 0 {
      JoinIsPathOf(ancestors, field.name);
      var leaf := Leaf(names, field.arguments);
      assert Leaves(field, ancestors) == [leaf];
      assert [leaf][1..] == [];
      assert Resolve([leaf][1..]) == Ok([]);
      match GetFieldVersion(field.arguments)
      case Err(e) =>
      case Ok(version) =>
        var selection := Selection(PathOf(names), version);
        assert Resolve([leaf]) == Ok([selection] + []);
        assert [selection] + [] == [selection];
    } else {
      PathOfSnoc(ancestors, field.name);
      assert BaseOf(ancestors) + "/" + field.name == BaseOf(names);
      PlanSetFollowsLeaves(field.selectionSet, names);
    }
  }

  lemma {:induction false} PlanSetFollowsLeaves(fields: seq<Field>, ancestors: seq<string>)
    requires (forall f | f in fields :: ValidField(f)) && ValidNames(ancestors)
    ensures GetSelectionsBySet(fields, BaseOf(ancestors)) == Resolve(LeavesOfSet(fields, ancestors))
    decreases fields
  {
    if fields != [] {
      PlanFollowsLeaves(fields[0], ancestors);
      PlanSetFollowsLeaves(fields[1..], ancestors);
      ResolveAppend(Leaves(fields[0], ancestors), LeavesOfSet(fields[1..], ancestors));
    }
  }

  /** Resolving a concatenation: the first error, or the concatenated selections. */
  lemma {:induction false} ResolveAppend(a: seq<Leaf>, b: seq<Leaf>)
    ensures Resolve(a + b) ==
      match Resolve(a)
      case Err(e) => Err(e)
      case Ok(x) => (match Resolve(b) case Err(e) => Err(e) case Ok(y) => Ok(x + y))
    decreases |a|
  {
    if a == [] {
      assert a + b == b;
      if Resolve(b).Ok? {
        assert [] + Resolve(b).value == Resolve(b).value;
      }
    } else {
      assert (a + b)[0] == a[0];
      assert (a + b)[1..] == a[1..] + b;
      ResolveAppend(a[1..], b);
      if GetFieldVersion(a[0].arguments).Ok? && Resolve(a[1..]).Ok? && Resolve(b).Ok? {
        var head := [Selection(PathOf(a[0].names), GetFieldVersion(a[0].arguments).value)];
        assert head + (Resolve(a[1..]).value + Resolve(b).value) == (head + Resolve(a[1..]).value) + Resolve(b).value;
      }
    }
  }

  /** A branch's own arguments, `version` included, play no part. */
  lemma BranchIgnoresArguments(name: string, a1: seq<Argument>, a2: seq<Argument>, children: seq<Field>, base: string)
    requires children != [] && ValidField(Field(name, a1, children))
    ensures GetSelectionsByField(Field(name, a1, children), base) == GetSelectionsByField(Field(name, a2, children), base)
  {
  }

  lemma ExampleJoinAB()
    ensures Join("/A", "B") == "/A/B"
  {
    assert "/A" + "/" + "B" == PathOf(["A", "B"]);
    CleanPathOf(["A", "B"]);
  }

  lemma ExampleJoinsUnderC()
    ensures Join("/A/C", "D") == "/A/C/D"
    ensures Join("/A/C", "E") == "/A/C/E"
  {
    assert "/A/C" + "/" + "D" == PathOf(["A", "C", "D"]);
    assert "/A/C" + "/" + "E" == PathOf(["A", "C", "E"]);
    CleanPathOf(["A", "C", "D"]);
    CleanPathOf(["A", "C", "E"]);
  }

  lemma ExampleChildrenOfC()
    ensures GetSelectionsBySet([Field("D", [Argument("version", IntArg(2))], []), Field("E", [], [])], "/A/C")
      == Ok([Selection("/A/C/D", 2), Selection("/A/C/E", CurrentVersion)])
  {
    var d := Field("D", [Argument("version", IntArg(2))], []);
    var e := Field("E", [], []);
    ExampleJoinsUnderC();
    assert GetFieldVersion(d.arguments).value == 2;
    assert GetSelectionsByField(d, "/A/C").value == [Selection("/A/C/D", 2)];
    assert GetSelectionsByField(e, "/A/C").value == [Selection("/A/C/E", CurrentVersion)];
    assert [d, e][1..] == [e];
    assert [e][1..] == [];
    assert GetSelectionsBySet([e], "/A/C").Ok?;
    assert GetSelectionsBySet([e], "/A/C").value == [Selection("/A/C/E", CurrentVersion)];
    assert [Selection("/A/C/D", 2)] + [Selection("/A/C/E", CurrentVersion)] == [Selection("/A/C/D", 2), Selection("/A/C/E", CurrentVersion)];
    assert GetSelectionsBySet([d, e], "/A/C").value == [Selection("/A/C/D", 2), Selection("/A/C/E", CurrentVersion)];
  }

  /** The planner case of service_test.go: A { B(version: 1) C { D(version: 2) E } } from an empty base. */
  lemma PlannerExample()
    ensures GetSelectionsByField(
        Field("A", [], [Field("B", [Argument("version", IntArg(1))], []),
                        Field("C", [], [Field("D", [Argument("version", IntArg(2))], []), Field("E", [], [])])]), "")
      == Ok([Selection("/A/B", 1), Selection("/A/C/D", 2), Selection("/A/C/E", CurrentVersion)])
    ensures GetSelectionsByField(Field("A", [Argument("version", OtherArg)], []), "") == Err(InvalidVersion)
  {
    var b := Field("B", [Argument("version", IntArg(1))], []);
    var c := Field("C", [], [Field("D", [Argument("version", IntArg(2))], []), Field("E", [], [])]);
    ExampleJoinAB();
    ExampleChildrenOfC();
    assert "" + "/" + "A" == "/A";
    assert "/A" + "/" + "C" == "/A/C";
    assert GetFieldVersion(b.arguments).value == 1;
    assert GetSelectionsByField(b, "/A").value == [Selection("/A/B", 1)];
    assert [b, c][1..] == [c];
    assert [c][1..] == [];
    assert GetSelectionsByField(c, "/A") == GetSelectionsBySet(c.selectionSet, "/A/C");
    assert GetSelectionsBySet([c], "/A").Ok?;
    assert GetSelectionsBySet([c], "/A").value == [Selection("/A/C/D", 2), Selection("/A/C/E", CurrentVersion)];
    assert [Selection("/A/B", 1)] + [Selection("/A/C/D", 2), Selection("/A/C/E", CurrentVersion)]
      == [Selection("/A/B", 1), Selection("/A/C/D", 2), Selection("/A/C/E", CurrentVersion)];
  }
}
