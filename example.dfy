/**
 A worked example of the scan: Alice with ids "1" and "2", Bob without an id,
 id "3" without a name, all in Vietnam, and one record of "vietnam" that the
 case-sensitive country filter drops.
 */
module WorkedExample {
  import opened InvestorData
  import opened Grouping
  import opened Tally
  import opened Reporting

  function Example(): seq<Record>
  {
    var vn := Some(Country(Str("Vietnam")));
    [Record(vn, Str("1"), Str("Alice")), Record(vn, Str("2"), Str("Alice")),
     Record(vn, Null, Str("Bob")), Record(vn, Str("3"), Null),
     Record(Some(Country(Str("vietnam"))), Str("4"), Str("Carol"))]
  }

  /** Set B of the example is {Alice, Bob}. */
  lemma {:induction false} ExampleNames()
    ensures NamesOf("Vietnam", Example()) == {Str("Alice"), Str("Bob")}
  {
    var t, s := "Vietnam", Example();
    var alice, bob := Str("Alice"), Str("Bob");
    var s2 := [s[0], s[1]];
    assert s == s2 + [s[2], s[3], s[4]];
    assert Matches(t, s[0]) && s[0].name == alice && Matches(t, s[1]) && s[1].name == alice;
    assert Matches(t, s[2]) && s[2].name == bob && !IsTruthy(s[3].name) && !Matches(t, s[4]);
    Empty(t);
    NamesStep(t, [], s[0]);
    assert [] + [s[0]] == [s[0]] && [s[0]] + [s[1]] == s2;
    NamesStep(t, [s[0]], s[1]);
    assert NamesOf(t, s2) == {alice};
    NamesTail(t, s2, s[2], s[3], s[4]);
  }

  /** The last three records of the example add Bob to set B and nothing else. */
  lemma {:induction false} NamesTail(t: string, p: seq<Record>, a: Record, b: Record, c: Record)
    requires Matches(t, a) && IsTruthy(a.name)
    requires !IsTruthy(b.name)
    requires !Matches(t, c)
    ensures NamesOf(t, p + [a, b, c]) == NamesOf(t, p) + {a.name}
  {
    NamesStep(t, p, a);
    NamesStep(t, p + [a], b);
    NamesStep(t, p + [a, b], c);
    assert p + [a] + [b] == p + [a, b];
    assert p + [a, b] + [c] == p + [a, b, c];
  }

  /** Set A of the example is {1, 2, Bob, 3}. */
  lemma {:induction false} ExampleIdsOrNames()
    ensures IdsOrNamesOf("Vietnam", Example()) == {Str("1"), Str("2"), Str("Bob"), Str("3")}
  {
    var t, s := "Vietnam", Example();
    var one, two, bob, three := Str("1"), Str("2"), Str("Bob"), Str("3");
    var s2 := [s[0], s[1]];
    assert s == s2 + [s[2], s[3], s[4]];
    assert Matches(t, s[0]) && IsTruthy(s[0].id) && s[0].id == one;
    assert Matches(t, s[1]) && IsTruthy(s[1].id) && s[1].id == two;
    assert Matches(t, s[2]) && !IsTruthy(s[2].id) && IsTruthy(s[2].name) && s[2].name == bob;
    assert Matches(t, s[3]) && IsTruthy(s[3].id) && s[3].id == three;
    assert !Matches(t, s[4]);
    Empty(t);
    IdsOrNamesStep(t, [], s[0]);
    assert [] + [s[0]] == [s[0]] && [s[0]] + [s[1]] == s2;
    IdsOrNamesStep(t, [s[0]], s[1]);
    assert IdsOrNamesOf(t, s2) == {one, two};
    IdsOrNamesTail(t, s2, s[2], s[3], s[4]);
  }

  /** The last three records of the example add Bob (no id) and 3 (no name) to set A. */
  lemma {:induction false} IdsOrNamesTail(t: string, p: seq<Record>, a: Record, b: Record, c: Record)
    requires Matches(t, a) && !IsTruthy(a.id) && IsTruthy(a.name)
    requires Matches(t, b) && IsTruthy(b.id)
    requires !Matches(t, c)
    ensures IdsOrNamesOf(t, p + [a, b, c]) == IdsOrNamesOf(t, p) + {a.name, b.id}
  {
    IdsOrNamesStep(t, p, a);
    IdsOrNamesStep(t, p + [a], b);
    IdsOrNamesStep(t, p + [a, b], c);
    assert p + [a] + [b] == p + [a, b];
    assert p + [a, b] + [c] == p + [a, b, c];
  }

  /** In the example, Alice maps to ids 1 and 2, and ids 1 and 2 each map to Alice only. */
  lemma {:induction false} ExampleMaps()
    ensures NameToIdsOf("Vietnam", Example()) == map[Str("Alice") := {Str("1"), Str("2")}]
    ensures IdToNamesOf("Vietnam", Example()) == map[Str("1") := {Str("Alice")}, Str("2") := {Str("Alice")}]
  {
    var t, s := "Vietnam", Example();
    var alice, one, two := Str("Alice"), Str("1"), Str("2");
    var s0, s1, s2 := [], [s[0]], [s[0], s[1]];
    assert s == s2 + [s[2], s[3], s[4]];
    Empty(t);
    assert s1 == s0 + [s[0]] && s2 == s1 + [s[1]];
    assert Paired(t, s[0]) && s[0].name == alice && s[0].id == one;
    assert Paired(t, s[1]) && s[1].name == alice && s[1].id == two;
    assert !Paired(t, s[2]) && !Paired(t, s[3]) && !Paired(t, s[4]);
    PairsStep(t, s0, s[0]);
    PairsStep(t, s1, s[1]);
    AddTwice(alice, one, alice, two);
    AddTwice(one, alice, two, alice);
    PairsTail(t, s2, s[2], s[3], s[4]);
  }

  /** Two `add`s on an empty defaultdict. */
  lemma {:induction false} AddTwice(k1: Value, v1: Value, k2: Value, v2: Value)
    ensures AddTo(AddTo(map[], k1, v1), k2, v2)
         == if k1 == k2 then map[k1 := {v1, v2}] else map[k1 := {v1}, k2 := {v2}]
  {
    var empty: map<Value, set<Value>> := map[];
    var m1 := AddTo(empty, k1, v1);
    assert m1 == empty[k1 := {} + {v1}];
    assert {} + {v1} == {v1};
    if k1 == k2 {
      assert AddTo(m1, k2, v2) == map[k1 := {v1} + {v2}];
      assert {v1} + {v2} == {v1, v2};
    } else {
      assert AddTo(m1, k2, v2) == map[k1 := {v1}, k2 := {} + {v2}];
      assert {} + {v2} == {v2};
    }
  }

  /** The last three records of the example pair no name with an id. */
  lemma {:induction false} PairsTail(t: string, p: seq<Record>, a: Record, b: Record, c: Record)
    requires !Paired(t, a) && !Paired(t, b) && !Paired(t, c)
    ensures NameToIdsOf(t, p + [a, b, c]) == NameToIdsOf(t, p)
    ensures IdToNamesOf(t, p + [a, b, c]) == IdToNamesOf(t, p)
  {
    PairsStep(t, p, a);
    PairsStep(t, p + [a], b);
    PairsStep(t, p + [a, b], c);
    assert p + [a] + [b] == p + [a, b];
    assert p + [a, b] + [c] == p + [a, b, c];
  }

  /** The orphan list of the example is [3]. */
  lemma {:induction false} ExampleOrphans()
    ensures OrphansOf("Vietnam", Example()) == [Str("3")]
  {
    var t, s := "Vietnam", Example();
    var s3 := [s[0], s[1], s[2]];
    assert s == s3 + [s[3], s[4]];
    assert !Orphan(t, s[0]) && !Orphan(t, s[1]) && !Orphan(t, s[2]) && Orphan(t, s[3]) && !Orphan(t, s[4]);
    OrphansConcat(t, s3, [s[3], s[4]]);
    assert OrphansOf(t, s3) == [] by {
      assert s3[1..] == [s[1], s[2]] && s3[1..][1..] == [s[2]] && s3[1..][1..][1..] == [];
    }
    assert OrphansOf(t, [s[3], s[4]]) == [s[3].id] by {
      assert [s[3], s[4]][1..] == [s[4]] && [s[4]][1..] == [];
    }
  }

  /** Cardinalities and `Shared` on the small sets and maps of the example. */
  lemma {:induction false} ExampleCounts(alice: Value, bob: Value, one: Value, two: Value, three: Value)
    requires alice != bob
    requires one != two && one != three && two != three && bob != one && bob != two && bob != three
    ensures |{one, two, bob, three}| == 4 && |{alice, bob}| == 2
    ensures Shared(map[alice := {one, two}]) == map[alice := {one, two}]
    ensures Shared(map[one := {alice}, two := {alice}]) == map[]
    ensures (set v | v in [three]) == {three}
  {
    assert |{alice}| == 1;
  }

  /** The report on the example: set A has 4 elements (1, 2, Bob, 3), set B has 2
      (Alice, Bob), Alice is listed with ids 1 and 2, no id is listed, and 3 is the
      only orphan. */
  lemma {:induction false} AliceBobExample()
    ensures ReportOf("Vietnam", Example())
         == Report(4, 2, map[Str("Alice") := {Str("1"), Str("2")}], map[], {Str("3")})
  {
    ExampleNames();
    ExampleIdsOrNames();
    ExampleMaps();
    ExampleOrphans();
    ExampleCounts(Str("Alice"), Str("Bob"), Str("1"), Str("2"), Str("3"));
  }
}
