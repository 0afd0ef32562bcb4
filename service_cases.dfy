/**
 * The cases of internal/pkg/dendrite/service_test.go, worked through the
 * model: the assembly over a backend that answers three reads, and each
 * query of the service test over the Postgres store after its data is imported.
 */
module ServiceCases {
  import opened Wrappers
  import opened Backend
  import opened Dto
  import opened Planner
  import opened Assembler
  import opened Service
  import Postgres

  /**
   * The backend mock of the test: GetMany of /A/B/C at version 1 and of
   * /A/B/D at version 2, GetManyCurrent of /A/B; any other read fails.
   */
  function MockReader(): Reader
  {
    Reader(
      p => if p == "/A/B" then Ok(["C", "D"]) else Err(NotFound(p)),
      (p, v) =>
        if p == "/A/B/C" && v == 1 then Ok(["1", "2"])
        else if p == "/A/B/D" && v == 2 then Ok(["3"])
        else Err(NotFound(p)))
  }

  // The tree after each of the three selections of the test.

  function Tree1(): Tree
  {
    map["A" := Branch(map["B" := Branch(map["C" := List(["1", "2"])])])]
  }

  function Tree2(): Tree
  {
    map["A" := Branch(map["B" := Branch(map["C" := List(["1", "2"]), "D" := Scalar("3")])])]
  }

  function Tree3(): Tree
  {
    map["A" := Branch(map["B" := Branch(map[SelfKey := List(["C", "D"]), "C" := List(["1", "2"]), "D" := Scalar("3")])])]
  }

  lemma ExampleSegments()
    ensures Segments("/A/B/C") == ["A", "B", "C"]
    ensures Segments("/A/B/D") == ["A", "B", "D"]
    ensures Segments("/A/B") == ["A", "B"]
  {
    assert PathOf(["A", "B", "C"]) == "/A/B/C";
    assert PathOf(["A", "B", "D"]) == "/A/B/D";
    assert PathOf(["A", "B"]) == "/A/B";
    SegmentsOfPathOf(["A", "B", "C"]);
    SegmentsOfPathOf(["A", "B", "D"]);
    SegmentsOfPathOf(["A", "B"]);
  }

  /** One turn of the outer loop that places values, taken apart into its three facts. */
  lemma ApplyByPlace(backend: Reader, tree: Tree, selection: Selection, values: seq<string>, next: Tree)
    requires HasRootPrefix(selection.path) && |values| > 0
    requires GetConfigsBySelection(backend, selection).Ok? && GetConfigsBySelection(backend, selection).value == values
    requires Place(tree, Segments(selection.path), values) == Some(next)
    ensures Apply(backend, tree, selection) == Ok(next)
  {
  }

  lemma MockPlace1()
    ensures Place(map[], ["A", "B", "C"], ["1", "2"]) == Some(Tree1())
  {
  }

  lemma MockPlace2()
    ensures Place(Tree1(), ["A", "B", "D"], ["3"]) == Some(Tree2())
  {
    var b: Tree := map["C" := List(["1", "2"])];
    assert ["A", "B", "D"][1..] == ["B", "D"] && ["B", "D"][1..] == ["D"];
    assert Place(b, ["D"], ["3"]) == Some(b["D" := Scalar("3")]);
    var tb: Tree := map["B" := Branch(b)];
    var b' := Branch(b["D" := Scalar("3")]);
    assert tb["B" := b'] == map["B" := b'];
    assert Place(tb, ["B", "D"], ["3"]) == Some(map["B" := b']);
    var ta := Branch(map["B" := b']);
    assert Tree1()["A" := ta] == map["A" := ta];
  }

  lemma MockPlace3()
    ensures Place(Tree2(), ["A", "B"], ["C", "D"]) == Some(Tree3())
  {
    var b: Tree := map["C" := List(["1", "2"]), "D" := Scalar("3")];
    assert ["A", "B"][1..] == ["B"];
    var tb: Tree := map["B" := Branch(b)];
    var b' := Branch(b[SelfKey := List(["C", "D"])]);
    assert tb["B" := b'] == map["B" := b'];
    assert Place(tb, ["B"], ["C", "D"]) == Some(map["B" := b']);
    var ta := Branch(map["B" := b']);
    assert Tree2()["A" := ta] == map["A" := ta];
    assert b[SelfKey := List(["C", "D"])] == map[SelfKey := List(["C", "D"]), "C" := List(["1", "2"]), "D" := Scalar("3")];
  }

  lemma ExampleApply1()
    ensures Apply(MockReader(), map[], Selection("/A/B/C", 1)) == Ok(Tree1())
  {
    ExampleSegments();
    MockPlace1();
    ApplyByPlace(MockReader(), map[], Selection("/A/B/C", 1), ["1", "2"], Tree1());
  }

  lemma ExampleApply2()
    ensures Apply(MockReader(), Tree1(), Selection("/A/B/D", 2)) == Ok(Tree2())
  {
    ExampleSegments();
    MockPlace2();
    ApplyByPlace(MockReader(), Tree1(), Selection("/A/B/D", 2), ["3"], Tree2());
  }

  lemma ExampleApply3()
    ensures Apply(MockReader(), Tree2(), Selection("/A/B", CurrentVersion)) == Ok(Tree3())
  {
    ExampleSegments();
    MockPlace3();
    ApplyByPlace(MockReader(), Tree2(), Selection("/A/B", CurrentVersion), ["C", "D"], Tree3());
  }

  /**
   * GetObjectByPaths on the selections of service_test.go: the map at
   * /A/B keeps its own values under "/", a list of two stays a list and a
   * single value is a string. A relative path is refused.
   */
  lemma GetObjectByPathsExample()
    ensures AssembleFrom(MockReader(), map[], [Selection("/A/B/C", 1), Selection("/A/B/D", 2), Selection("/A/B", CurrentVersion)])
      == Ok(Tree3())
    ensures AssembleFrom(MockReader(), map[], [Selection("A/B/C", 1)]) == Err(InvalidPath)
  {
    ExampleApply1();
    ExampleApply2();
    ExampleApply3();
    AssembleThree(MockReader(), map[], Selection("/A/B/C", 1), Tree1(), Selection("/A/B/D", 2), Tree2(),
      Selection("/A/B", CurrentVersion), Tree3());
    assert [Selection("A/B/C", 1)][0].path[0] != '/';
  }

  // ---------------------------------------------------------------------
  // TestDendriteService_Query: testConfig imported into an empty Postgres
  // store, then queried.

  const Imports: seq<(string, seq<string>)> := [("/A/B/C", ["1"]), ("/A/B/D", ["2"]), ("/A/B", ["C", "D"]), ("/E", ["3"])]

  /** ImportTestData: SetMany of each config in order, KeepCurrent false, no driver failure. */
  function Imported(tables: Postgres.Tables, configs: seq<(string, seq<string>)>): Postgres.Tables
    decreases |configs|
  {
    if configs == [] then tables
    else Imported(tables.SetMany(configs[0].0, configs[0].1, SetOptions(false), Postgres.NoFault).0, configs[1..])
  }

  function TestMeta(): map<string, Postgres.MetaRow>
  {
    map["/A/B/C" := Postgres.MetaRow(1, 1), "/A/B/D" := Postgres.MetaRow(1, 1),
        "/A/B" := Postgres.MetaRow(1, 1), "/E" := Postgres.MetaRow(1, 1)]
  }

  function TestRows(): seq<Postgres.Row>
  {
    [Postgres.Row("/A/B/C", 1, "1"), Postgres.Row("/A/B/D", 1, "2"), Postgres.Row("/A/B", 1, "C"),
     Postgres.Row("/A/B", 1, "D"), Postgres.Row("/E", 1, "3")]
  }

  /** Every path of testConfig is new, so each lands at version 1, which becomes current. */
  lemma ImportedTestConfig()
    ensures Imported(Postgres.Tables(map[], []), Imports) == Postgres.Tables(TestMeta(), TestRows())
  {
    var o := SetOptions(false);
    var t0 := Postgres.Tables(map[], []);
    var t1 := t0.SetMany("/A/B/C", ["1"], o, Postgres.NoFault).0;
    assert t1.config == [Postgres.Row("/A/B/C", 1, "1")];
    var t2 := t1.SetMany("/A/B/D", ["2"], o, Postgres.NoFault).0;
    assert t2.config == t1.config + [Postgres.Row("/A/B/D", 1, "2")];
    var t3 := t2.SetMany("/A/B", ["C", "D"], o, Postgres.NoFault).0;
    assert Postgres.RowsFor("/A/B", 1, ["C", "D"]) == [Postgres.Row("/A/B", 1, "C"), Postgres.Row("/A/B", 1, "D")];
    assert t3.config == t2.config + [Postgres.Row("/A/B", 1, "C"), Postgres.Row("/A/B", 1, "D")];
    var t4 := t3.SetMany("/E", ["3"], o, Postgres.NoFault).0;
    assert t4.config == t3.config + [Postgres.Row("/E", 1, "3")];
    assert t4 == Postgres.Tables(TestMeta(), TestRows());
    assert Imports[1..] == [("/A/B/D", ["2"]), ("/A/B", ["C", "D"]), ("/E", ["3"])];
    assert Imports[1..][1..] == [("/A/B", ["C", "D"]), ("/E", ["3"])];
    assert Imports[1..][1..][1..] == [("/E", ["3"])];
    assert Imports[1..][1..][1..][1..] == [];
  }

  lemma SelectTestRows(p: string)
    ensures Postgres.Select(TestRows(), p, 1) ==
      (if p == "/A/B/C" then ["1"] else []) + (if p == "/A/B/D" then ["2"] else [])
      + (if p == "/A/B" then ["C", "D"] else []) + (if p == "/E" then ["3"] else [])
  {
    var a, b, c, d :=
      Postgres.RowsFor("/A/B/C", 1, ["1"]), Postgres.RowsFor("/A/B/D", 1, ["2"]),
      Postgres.RowsFor("/A/B", 1, ["C", "D"]), Postgres.RowsFor("/E", 1, ["3"]);
    assert TestRows() == a + b + c + d;
    Postgres.SelectAppend(a + b + c, d, p, 1);
    Postgres.SelectAppend(a + b, c, p, 1);
    Postgres.SelectAppend(a, b, p, 1);
    Postgres.SelectRowsFor("/A/B/C", 1, ["1"], p, 1);
    Postgres.SelectRowsFor("/A/B/D", 1, ["2"], p, 1);
    Postgres.SelectRowsFor("/A/B", 1, ["C", "D"], p, 1);
    Postgres.SelectRowsFor("/E", 1, ["3"], p, 1);
  }

  /** What the store reads back for each path of testConfig at version 1. */
  lemma TestReads()
    ensures Postgres.Select(TestRows(), "/A/B/C", 1) == ["1"]
    ensures Postgres.Select(TestRows(), "/A/B/D", 1) == ["2"]
    ensures Postgres.Select(TestRows(), "/A/B", 1) == ["C", "D"]
    ensures Postgres.Select(TestRows(), "/E", 1) == ["3"]
  {
    SelectTestRows("/A/B/C");
    SelectTestRows("/A/B/D");
    SelectTestRows("/A/B");
    SelectTestRows("/E");
  }

  // The queries of TestDendriteService_Query, already parsed.

  /** A { B { C D } }, the first field of two of the queries. */
  function FieldABCD(): Field
  {
    Field("A", [], [Field("B", [], [Field("C", [], []), Field("D", [], [])])])
  }

  /** "should get data by query": `{ A { B { C D } } A { B } }`. */
  function DataQuery(): (r: seq<Field>)
    ensures ValidOperation(r)
  {
    [FieldABCD(), Field("A", [], [Field("B", [], [])])]
  }

  /** "should get data by query (with one level)": `{ E }`. */
  function OneLevelQuery(): (r: seq<Field>)
    ensures ValidOperation(r)
  {
    [Field("E", [], [])]
  }

  /** "should have some key not found": `{ A { B { C D } } D }`. */
  function KeyNotFoundQuery(): (r: seq<Field>)
    ensures ValidOperation(r)
  {
    [FieldABCD(), Field("D", [], [])]
  }

  lemma FieldABCDLeaves()
    ensures Leaves(FieldABCD(), []) == [Leaf(["A", "B", "C"], []), Leaf(["A", "B", "D"], [])]
  {
    var a1 := FieldABCD();
    var b := a1.selectionSet[0];
    var c, d := b.selectionSet[0], b.selectionSet[1];
    assert ["A", "B"] + ["C"] == ["A", "B", "C"] && ["A", "B"] + ["D"] == ["A", "B", "D"];
    assert ["A"] + ["B"] == ["A", "B"] && [] + ["A"] == ["A"];
    assert Leaves(c, ["A", "B"]) == [Leaf(["A", "B", "C"], [])];
    assert Leaves(d, ["A", "B"]) == [Leaf(["A", "B", "D"], [])];
    assert b.selectionSet[1..] == [d] && [d][1..] == [];
    assert LeavesOfSet([d], ["A", "B"]) == [Leaf(["A", "B", "D"], [])];
    assert LeavesOfSet(b.selectionSet, ["A", "B"]) == [Leaf(["A", "B", "C"], []), Leaf(["A", "B", "D"], [])];
    assert a1.selectionSet[1..] == [];
    assert LeavesOfSet(a1.selectionSet, ["A"]) == Leaves(b, ["A"]) + [];
  }

  /** The leaves of a two-field query whose first field is A { B { C D } }. */
  lemma LeavesAfterABCD(second: Field, leaves: seq<Leaf>)
    requires Leaves(second, []) == leaves
    ensures LeavesOfSet([FieldABCD(), second], []) == [Leaf(["A", "B", "C"], []), Leaf(["A", "B", "D"], [])] + leaves
  {
    FieldABCDLeaves();
    assert [FieldABCD(), second][1..] == [second] && [second][1..] == [];
    assert LeavesOfSet([second], []) == leaves + [];
  }

  lemma DataQueryLeaves()
    ensures LeavesOfSet(DataQuery(), []) == [Leaf(["A", "B", "C"], []), Leaf(["A", "B", "D"], []), Leaf(["A", "B"], [])]
  {
    var a2 := Field("A", [], [Field("B", [], [])]);
    var b2 := a2.selectionSet[0];
    assert ["A"] + ["B"] == ["A", "B"] && [] + ["A"] == ["A"];
    assert Leaves(b2, ["A"]) == [Leaf(["A", "B"], [])];
    assert a2.selectionSet[1..] == [];
    assert LeavesOfSet(a2.selectionSet, ["A"]) == Leaves(b2, ["A"]) + [];
    LeavesAfterABCD(a2, [Leaf(["A", "B"], [])]);
  }

  lemma KeyNotFoundQueryLeaves()
    ensures LeavesOfSet(KeyNotFoundQuery(), []) == [Leaf(["A", "B", "C"], []), Leaf(["A", "B", "D"], []), Leaf(["D"], [])]
  {
    assert [] + ["D"] == ["D"];
    LeavesAfterABCD(Field("D", [], []), [Leaf(["D"], [])]);
  }

  lemma OneLevelQueryLeaves()
    ensures LeavesOfSet(OneLevelQuery(), []) == [Leaf(["E"], [])]
  {
    assert [] + ["E"] == ["E"];
    assert OneLevelQuery()[1..] == [];
  }

  /** Planning one leaf with no arguments in front of an already planned list. */
  lemma ResolveCurrentCons(leaf: Leaf, rest: seq<Leaf>, tail: seq<Selection>)
    requires leaf.arguments == [] && Resolve(rest) == Ok(tail)
    ensures Resolve([leaf] + rest) == Ok([Selection(PathOf(leaf.names), CurrentVersion)] + tail)
  {
    assert ([leaf] + rest)[0] == leaf && ([leaf] + rest)[1..] == rest;
    assert GetFieldVersion([]) == Ok(CurrentVersion);
  }

  /** Three leaves without arguments plan as their paths, each at the current version. */
  lemma ResolveThreeCurrent(l0: Leaf, l1: Leaf, l2: Leaf)
    requires l0.arguments == [] && l1.arguments == [] && l2.arguments == []
    ensures Resolve([l0, l1, l2]) == Ok([Selection(PathOf(l0.names), CurrentVersion),
                                         Selection(PathOf(l1.names), CurrentVersion),
                                         Selection(PathOf(l2.names), CurrentVersion)])
  {
    var s0, s1, s2 := Selection(PathOf(l0.names), CurrentVersion), Selection(PathOf(l1.names), CurrentVersion),
      Selection(PathOf(l2.names), CurrentVersion);
    ResolveCurrentCons(l2, [], []);
    assert [l2] + [] == [l2] && [s2] + [] == [s2];
    ResolveCurrentCons(l1, [l2], [s2]);
    assert [l1] + [l2] == [l1, l2] && [s1] + [s2] == [s1, s2];
    ResolveCurrentCons(l0, [l1, l2], [s1, s2]);
    assert [l0] + [l1, l2] == [l0, l1, l2] && [s0] + [s1, s2] == [s0, s1, s2];
  }

  lemma TestPaths()
    ensures PathOf(["A", "B", "C"]) == "/A/B/C" && PathOf(["A", "B", "D"]) == "/A/B/D"
    ensures PathOf(["A", "B"]) == "/A/B" && PathOf(["D"]) == "/D" && PathOf(["E"]) == "/E"
  {
  }

  lemma DataQueryPlan()
    ensures Resolve(LeavesOfSet(DataQuery(), [])) ==
      Ok([Selection("/A/B/C", CurrentVersion), Selection("/A/B/D", CurrentVersion), Selection("/A/B", CurrentVersion)])
  {
    DataQueryLeaves();
    TestPaths();
    ResolveThreeCurrent(Leaf(["A", "B", "C"], []), Leaf(["A", "B", "D"], []), Leaf(["A", "B"], []));
  }

  lemma KeyNotFoundQueryPlan()
    ensures Resolve(LeavesOfSet(KeyNotFoundQuery(), [])) ==
      Ok([Selection("/A/B/C", CurrentVersion), Selection("/A/B/D", CurrentVersion), Selection("/D", CurrentVersion)])
  {
    KeyNotFoundQueryLeaves();
    TestPaths();
    ResolveThreeCurrent(Leaf(["A", "B", "C"], []), Leaf(["A", "B", "D"], []), Leaf(["D"], []));
  }

  lemma OneLevelQueryPlan()
    ensures Resolve(LeavesOfSet(OneLevelQuery(), [])) == Ok([Selection("/E", CurrentVersion)])
  {
    OneLevelQueryLeaves();
    TestPaths();
    ResolveCurrentCons(Leaf(["E"], []), [], []);
    assert [Leaf(["E"], [])] + [] == [Leaf(["E"], [])];
    assert [Selection("/E", CurrentVersion)] + [] == [Selection("/E", CurrentVersion)];
  }

  function TestStore(): Reader
  {
    Postgres.Tables(TestMeta(), TestRows()).View()
  }

  // The tree after each selection of the first query's plan; the second
  // query stops at Result2, its /D unknown to the store.

  function Result1(): Tree
  {
    map["A" := Branch(map["B" := Branch(map["C" := Scalar("1")])])]
  }

  function Result2(): Tree
  {
    map["A" := Branch(map["B" := Branch(map["C" := Scalar("1"), "D" := Scalar("2")])])]
  }

  function Result3(): Tree
  {
    map["A" := Branch(map["B" := Branch(map[SelfKey := List(["C", "D"]), "C" := Scalar("1"), "D" := Scalar("2")])])]
  }

  /** Every path of testConfig reads its own values as current. */
  lemma TestFetch(path: string, values: seq<string>)
    requires path in TestMeta() && Postgres.Select(TestRows(), path, 1) == values
    ensures GetConfigsBySelection(TestStore(), Selection(path, CurrentVersion)).Ok?
    ensures GetConfigsBySelection(TestStore(), Selection(path, CurrentVersion)).value == values
  {
    assert TestMeta()[path].currentVersion == 1;
  }

  lemma TestPlace1()
    ensures Place(map[], ["A", "B", "C"], ["1"]) == Some(Result1())
  {
  }

  lemma TestPlace2()
    ensures Place(Result1(), ["A", "B", "D"], ["2"]) == Some(Result2())
  {
    var b: Tree := map["C" := Scalar("1")];
    assert ["A", "B", "D"][1..] == ["B", "D"] && ["B", "D"][1..] == ["D"];
    assert Place(b, ["D"], ["2"]) == Some(b["D" := Scalar("2")]);
    var tb: Tree := map["B" := Branch(b)];
    var b' := Branch(b["D" := Scalar("2")]);
    assert tb["B" := b'] == map["B" := b'];
    assert Place(tb, ["B", "D"], ["2"]) == Some(map["B" := b']);
    var ta := Branch(map["B" := b']);
    assert Result1()["A" := ta] == map["A" := ta];
  }

  lemma TestPlace3()
    ensures Place(Result2(), ["A", "B"], ["C", "D"]) == Some(Result3())
  {
    var b: Tree := map["C" := Scalar("1"), "D" := Scalar("2")];
    assert ["A", "B"][1..] == ["B"];
    var tb: Tree := map["B" := Branch(b)];
    var b' := Branch(b[SelfKey := List(["C", "D"])]);
    assert tb["B" := b'] == map["B" := b'];
    assert Place(tb, ["B"], ["C", "D"]) == Some(map["B" := b']);
    var ta := Branch(map["B" := b']);
    assert Result2()["A" := ta] == map["A" := ta];
    assert b[SelfKey := List(["C", "D"])] == map[SelfKey := List(["C", "D"]), "C" := Scalar("1"), "D" := Scalar("2")];
  }

  lemma TestApply1()
    ensures Apply(TestStore(), map[], Selection("/A/B/C", CurrentVersion)) == Ok(Result1())
  {
    SelectTestRows("/A/B/C");
    TestFetch("/A/B/C", ["1"]);
    ExampleSegments();
    TestPlace1();
    ApplyByPlace(TestStore(), map[], Selection("/A/B/C", CurrentVersion), ["1"], Result1());
  }

  lemma TestApply2()
    ensures Apply(TestStore(), Result1(), Selection("/A/B/D", CurrentVersion)) == Ok(Result2())
  {
    SelectTestRows("/A/B/D");
    TestFetch("/A/B/D", ["2"]);
    ExampleSegments();
    TestPlace2();
    ApplyByPlace(TestStore(), Result1(), Selection("/A/B/D", CurrentVersion), ["2"], Result2());
  }

  lemma TestApply3()
    ensures Apply(TestStore(), Result2(), Selection("/A/B", CurrentVersion)) == Ok(Result3())
  {
    SelectTestRows("/A/B");
    TestFetch("/A/B", ["C", "D"]);
    ExampleSegments();
    TestPlace3();
    ApplyByPlace(TestStore(), Result2(), Selection("/A/B", CurrentVersion), ["C", "D"], Result3());
  }

  /** One turn of the outer loop, for the worked cases. */
  lemma AssembleStep(backend: Reader, tree: Tree, selection: Selection, rest: seq<Selection>, next: Tree)
    requires Apply(backend, tree, selection) == Ok(next)
    ensures AssembleFrom(backend, tree, [selection] + rest) == AssembleFrom(backend, next, rest)
  {
    assert ([selection] + rest)[1..] == rest;
  }

  /** Three selections that each place successfully assemble into the last tree. */
  lemma AssembleThree(backend: Reader, t0: Tree, s1: Selection, t1: Tree, s2: Selection, t2: Tree, s3: Selection, t3: Tree)
    requires Apply(backend, t0, s1) == Ok(t1) && Apply(backend, t1, s2) == Ok(t2) && Apply(backend, t2, s3) == Ok(t3)
    ensures AssembleFrom(backend, t0, [s1, s2, s3]) == Ok(t3)
  {
    AssembleStep(backend, t2, s3, [], t3);
    assert [s3] + [] == [s3];
    AssembleStep(backend, t1, s2, [s3], t2);
    assert [s2] + [s3] == [s2, s3];
    AssembleStep(backend, t0, s1, [s2, s3], t1);
    assert [s1] + [s2, s3] == [s1, s2, s3];
  }

  /** /D is unknown to the store: it reads no values and the tree stays as it was. */
  lemma TestSkipD(tree: Tree)
    ensures Apply(TestStore(), tree, Selection("/D", CurrentVersion)) == Ok(tree)
  {
    assert "/D" !in TestMeta();
    PostgresSkipsUnknownPath(Postgres.Tables(TestMeta(), TestRows()), tree, "/D");
  }

  lemma TestApplyE()
    ensures Apply(TestStore(), map[], Selection("/E", CurrentVersion)) == Ok(map["E" := Scalar("3")])
  {
    SelectTestRows("/E");
    TestFetch("/E", ["3"]);
    assert PathOf(["E"]) == "/E";
    SegmentsOfPathOf(["E"]);
    assert Place(map[], ["E"], ["3"]) == Some(map["E" := Scalar("3")]);
    ApplyByPlace(TestStore(), map[], Selection("/E", CurrentVersion), ["3"], map["E" := Scalar("3")]);
  }

  /** The store after ImportTestData of testConfig into empty tables. */
  function ImportedStore(): Reader
  {
    Imported(Postgres.Tables(map[], []), Imports).View()
  }

  /**
   * TestDendriteService_Query, "should get data by query": the map at /A/B
   * gets its two children from the first field and its own values, under
   * "/", from the second.
   */
  lemma QueryDataAfterImport()
    ensures QueryResult(ImportedStore(), Some(DataQuery())) == Ok(Result3())
  {
    ImportedTestConfig();
    DataQueryPlan();
    TestApply1();
    TestApply2();
    TestApply3();
    AssembleThree(TestStore(), map[], Selection("/A/B/C", CurrentVersion), Result1(), Selection("/A/B/D", CurrentVersion), Result2(),
      Selection("/A/B", CurrentVersion), Result3());
  }

  /** "should get data by query (with one level)": a single value is a string. */
  lemma QueryOneLevelAfterImport()
    ensures QueryResult(ImportedStore(), Some(OneLevelQuery())) == Ok(map["E" := Scalar("3")])
  {
    ImportedTestConfig();
    OneLevelQueryPlan();
    TestApplyE();
    AssembleStep(TestStore(), map[], Selection("/E", CurrentVersion), [], map["E" := Scalar("3")]);
    assert [Selection("/E", CurrentVersion)] + [] == [Selection("/E", CurrentVersion)];
  }

  /**
   * "should have some key not found": the unknown top-level D reads no
   * values and is simply absent from the answer, which is not an error.
   */
  lemma QueryKeyNotFoundAfterImport()
    ensures QueryResult(ImportedStore(), Some(KeyNotFoundQuery())) == Ok(Result2())
  {
    ImportedTestConfig();
    KeyNotFoundQueryPlan();
    TestApply1();
    TestApply2();
    TestSkipD(Result2());
    AssembleThree(TestStore(), map[], Selection("/A/B/C", CurrentVersion), Result1(), Selection("/A/B/D", CurrentVersion), Result2(),
      Selection("/D", CurrentVersion), Result2());
  }

  /** "should be invalid query": text that does not parse is an error, with no answer. */
  lemma QueryInvalidAfterImport()
    ensures QueryResult(ImportedStore(), None).Err?
    ensures QueryResult(ImportedStore(), None).error == ParseFailed
  {
  }

  function TwoWrites(): seq<(string, seq<string>)>
  {
    [("/A", ["1"]), ("/A", ["2"])]
  }

  lemma TwoWritesStore()
    ensures Imported(Postgres.Tables(map[], []), TwoWrites()) == TwoWritesTables()
  {
    var configs := TwoWrites();
    var o := SetOptions(false);
    var t1 := Postgres.Tables(map[], []).SetMany("/A", ["1"], o, Postgres.NoFault).0;
    var t2 := t1.SetMany("/A", ["2"], o, Postgres.NoFault).0;
    assert configs[1..] == [("/A", ["2"])] && configs[1..][1..] == [];
    assert t1.config == [Postgres.Row("/A", 1, "1")];
    assert t2.config == t1.config + [Postgres.Row("/A", 2, "2")];
  }

  lemma OlderVersionPlan()
    ensures Resolve(LeavesOfSet([Field("A", [Argument("version", IntArg(1))], [])], [])).Ok?
    ensures Resolve(LeavesOfSet([Field("A", [Argument("version", IntArg(1))], [])], [])).value == [Selection("/A", 1)]
  {
    var field := Field("A", [Argument("version", IntArg(1))], []);
    assert [] + ["A"] == ["A"];
    assert [field][1..] == [];
    assert LeavesOfSet([field], []) == [Leaf(["A"], field.arguments)];
    assert PathOf(["A"]) == "/A";
    assert GetFieldVersion(field.arguments).value == 1;
  }

  /**
   * "should get version 2": two writes to /A give versions 1 and 2, and
   * asking for version 1 reads the first write, as a single string.
   */
  lemma QueryOlderVersion()
    ensures QueryResult(Imported(Postgres.Tables(map[], []), TwoWrites()).View(),
                        Some([Field("A", [Argument("version", IntArg(1))], [])]))
      == Ok(map["A" := Scalar("1")])
  {
    TwoWritesStore();
    OlderVersionPlan();
    OlderVersionAssembly();
  }

  function TwoWritesTables(): Postgres.Tables
  {
    Postgres.Tables(map["/A" := Postgres.MetaRow(2, 2)], [Postgres.Row("/A", 1, "1"), Postgres.Row("/A", 2, "2")])
  }

  lemma OlderVersionRows()
    ensures Postgres.Select(TwoWritesTables().config, "/A", 1) == ["1"]
  {
    Postgres.SelectAppend(Postgres.RowsFor("/A", 1, ["1"]), Postgres.RowsFor("/A", 2, ["2"]), "/A", 1);
    Postgres.SelectRowsFor("/A", 1, ["1"], "/A", 1);
    Postgres.SelectRowsFor("/A", 2, ["2"], "/A", 1);
    assert TwoWritesTables().config == Postgres.RowsFor("/A", 1, ["1"]) + Postgres.RowsFor("/A", 2, ["2"]);
  }

  lemma OlderVersionFetch()
    ensures GetConfigsBySelection(TwoWritesTables().View(), Selection("/A", 1)).Ok?
    ensures GetConfigsBySelection(TwoWritesTables().View(), Selection("/A", 1)).value == ["1"]
  {
    OlderVersionRows();
    var t := TwoWritesTables();
    assert t.View().getMany("/A", 1) == t.GetMany("/A", 1, None);
  }

  lemma OlderVersionPlace()
    ensures Segments("/A") == ["A"]
    ensures Place(map[], ["A"], ["1"]) == Some(map["A" := Scalar("1")])
  {
    assert PathOf(["A"]) == "/A";
    SegmentsOfPathOf(["A"]);
  }

  lemma OlderVersionAssembly()
    ensures AssembleFrom(TwoWritesTables().View(), map[], [Selection("/A", 1)]) == Ok(map["A" := Scalar("1")])
  {
    var selection := Selection("/A", 1);
    OlderVersionFetch();
    OlderVersionPlace();
    ApplyByPlace(TwoWritesTables().View(), map[], selection, ["1"], map["A" := Scalar("1")]);
    AssembleStep(TwoWritesTables().View(), map[], selection, [], map["A" := Scalar("1")]);
    assert [selection] + [] == [selection];
  }
}
