/**
 What the five accumulators of the scan hold after a sequence of records,
 stated declaratively (which records contribute what), and the properties the
 scan promises: how one record changes them, the inverse relation of the two
 cross-reference maps, the size bound on the id-or-name set, and that only the
 raw order of the orphan list depends on the order of the records.
 */
module Tally {
  import opened InvestorData
  import opened Grouping

  /** Set B ("name only"): the truthy names of matching records. */
  function NamesOf(target: string, s: seq<Record>): set<Value>
  {
    set inv | inv in s && Matches(target, inv) && IsTruthy(inv.name) :: inv.name
  }

  /** Set A ("id or name"): `id or name` of every matching record for which it is truthy. */
  function IdsOrNamesOf(target: string, s: seq<Record>): set<Value>
  {
    set inv | inv in s && Matches(target, inv) && IsTruthy(UniqueId(inv)) :: UniqueId(inv)
  }

  /** The (name, id) pairs of matching records that carry both. */
  function NameIdPairs(target: string, s: seq<Record>): set<(Value, Value)>
  {
    set inv | inv in s && Paired(target, inv) :: (inv.name, inv.id)
  }

  /** The (id, name) pairs of matching records that carry both. */
  function IdNamePairs(target: string, s: seq<Record>): set<(Value, Value)>
  {
    set inv | inv in s && Paired(target, inv) :: (inv.id, inv.name)
  }

  /** `name_to_ids`: each paired name mapped to the ids seen with it. */
  function NameToIdsOf(target: string, s: seq<Record>): map<Value, set<Value>>
  {
    Group(NameIdPairs(target, s))
  }

  /** `id_to_names`: each paired id mapped to the names seen with it. */
  function IdToNamesOf(target: string, s: seq<Record>): map<Value, set<Value>>
  {
    Group(IdNamePairs(target, s))
  }

  /** `no_name_has_id`: the ids of the orphan records, in record order. */
  function OrphansOf(target: string, s: seq<Record>): seq<Value>
  {
    if s == [] then []
    else (if Orphan(target, s[0]) then [s[0].id] else []) + OrphansOf(target, s[1..])
  }

  /** The records that pass the country filter, in order. */
  function MatchingOf(target: string, s: seq<Record>): seq<Record>
  {
    if s == [] then []
    else (if Matches(target, s[0]) then [s[0]] else []) + MatchingOf(target, s[1..])
  }

  // ---------------------------------------------------------------------------
  // Sequence bookkeeping for the two recursive functions

  lemma {:induction false} OrphansConcat(target: string, a: seq<Record>, b: seq<Record>)
    ensures OrphansOf(target, a + b) == OrphansOf(target, a) + OrphansOf(target, b)
  {
    if a == [] {
      assert a + b == b;
    } else {
      var head := if Orphan(target, a[0]) then [a[0].id] else [];
      assert (a + b)[0] == a[0] && (a + b)[1..] == a[1..] + b;
      assert OrphansOf(target, a + b) == head + OrphansOf(target, a[1..] + b);
      OrphansConcat(target, a[1..], b);
      assert OrphansOf(target, a) == head + OrphansOf(target, a[1..]);
    }
  }

  lemma {:induction false} MatchingConcat(target: string, a: seq<Record>, b: seq<Record>)
    ensures MatchingOf(target, a + b) == MatchingOf(target, a) + MatchingOf(target, b)
  {
    if a == [] {
      assert a + b == b;
    } else {
      assert (a + b)[1..] == a[1..] + b;
      MatchingConcat(target, a[1..], b);
    }
  }

  // ---------------------------------------------------------------------------
  // One record at a time

  /** A record whose country title is not exactly the target leaves every accumulator as it was. */
  lemma {:induction false} SkipNonMatching(target: string, s: seq<Record>, inv: Record)
    requires !Matches(target, inv)
    ensures NamesOf(target, s + [inv]) == NamesOf(target, s)
    ensures IdsOrNamesOf(target, s + [inv]) == IdsOrNamesOf(target, s)
    ensures NameToIdsOf(target, s + [inv]) == NameToIdsOf(target, s)
    ensures IdToNamesOf(target, s + [inv]) == IdToNamesOf(target, s)
    ensures OrphansOf(target, s + [inv]) == OrphansOf(target, s)
    ensures MatchingOf(target, s + [inv]) == MatchingOf(target, s)
  {
    NamesStep(target, s, inv);
    IdsOrNamesStep(target, s, inv);
    PairsStep(target, s, inv);
    OrphansStep(target, s, inv);
    MatchingConcat(target, s, [inv]);
    assert MatchingOf(target, [inv]) == [] + MatchingOf(target, []);
  }

  /** A record adds its name to set B exactly when it matches and the name is truthy. */
  lemma {:induction false} NamesStep(target: string, s: seq<Record>, inv: Record)
    ensures NamesOf(target, s + [inv])
         == NamesOf(target, s) + (if Matches(target, inv) && IsTruthy(inv.name) then {inv.name} else {})
  {
    var lhs, rhs := NamesOf(target, s + [inv]), NamesOf(target, s) + (if Matches(target, inv) && IsTruthy(inv.name) then {inv.name} else {});
    forall v | v in lhs ensures v in rhs {
      var r :| r in s + [inv] && Matches(target, r) && IsTruthy(r.name) && r.name == v;
      if r != inv { assert r in s; }
    }
    forall v | v in rhs ensures v in lhs {
      if v !in NamesOf(target, s) {
        assert inv in s + [inv];
      } else {
        var r :| r in s && Matches(target, r) && IsTruthy(r.name) && r.name == v;
        assert r in s + [inv];
      }
    }
  }

  /** A matching record adds its id to set A when the id is truthy, otherwise its name
      when the name is truthy, otherwise nothing. */
  lemma {:induction false} IdsOrNamesStep(target: string, s: seq<Record>, inv: Record)
    ensures IdsOrNamesOf(target, s + [inv])
         == IdsOrNamesOf(target, s)
          + (if !Matches(target, inv) then {}
             else if IsTruthy(inv.id) then {inv.id}
             else if IsTruthy(inv.name) then {inv.name}
             else {})
  {
    var added := if Matches(target, inv) && IsTruthy(UniqueId(inv)) then {UniqueId(inv)} else {};
    var lhs, rhs := IdsOrNamesOf(target, s + [inv]), IdsOrNamesOf(target, s) + added;
    forall v | v in lhs ensures v in rhs {
      var r :| r in s + [inv] && Matches(target, r) && IsTruthy(UniqueId(r)) && UniqueId(r) == v;
      if r != inv { assert r in s; }
    }
    forall v | v in rhs ensures v in lhs {
      if v !in IdsOrNamesOf(target, s) {
        assert inv in s + [inv];
      } else {
        var r :| r in s && Matches(target, r) && IsTruthy(UniqueId(r)) && UniqueId(r) == v;
        assert r in s + [inv];
      }
    }
  }

  /** A record adds its (name, id) pair to both cross-reference maps exactly when it matches
      and both are truthy; otherwise neither map changes. */
  lemma {:induction false} PairsStep(target: string, s: seq<Record>, inv: Record)
    ensures NameToIdsOf(target, s + [inv])
         == if Paired(target, inv) then AddTo(NameToIdsOf(target, s), inv.name, inv.id) else NameToIdsOf(target, s)
    ensures IdToNamesOf(target, s + [inv])
         == if Paired(target, inv) then AddTo(IdToNamesOf(target, s), inv.id, inv.name) else IdToNamesOf(target, s)
  {
    var ni := NameIdPairs(target, s) + (if Paired(target, inv) then {(inv.name, inv.id)} else {});
    assert NameIdPairs(target, s + [inv]) == ni by {
      forall p | p in NameIdPairs(target, s + [inv]) ensures p in ni {
        var r :| r in s + [inv] && Paired(target, r) && (r.name, r.id) == p;
        if r != inv { assert r in s; }
      }
      forall p | p in ni ensures p in NameIdPairs(target, s + [inv]) {
        if p !in NameIdPairs(target, s) {
          assert inv in s + [inv];
        } else {
          var r :| r in s && Paired(target, r) && (r.name, r.id) == p;
          assert r in s + [inv];
        }
      }
    }
    var inn := IdNamePairs(target, s) + (if Paired(target, inv) then {(inv.id, inv.name)} else {});
    assert IdNamePairs(target, s + [inv]) == inn by {
      forall p | p in IdNamePairs(target, s + [inv]) ensures p in inn {
        var r :| r in s + [inv] && Paired(target, r) && (r.id, r.name) == p;
        if r != inv { assert r in s; }
      }
      forall p | p in inn ensures p in IdNamePairs(target, s + [inv]) {
        if p !in IdNamePairs(target, s) {
          assert inv in s + [inv];
        } else {
          var r :| r in s && Paired(target, r) && (r.id, r.name) == p;
          assert r in s + [inv];
        }
      }
    }
    if Paired(target, inv) {
      GroupInsert(NameIdPairs(target, s), inv.name, inv.id);
      GroupInsert(IdNamePairs(target, s), inv.id, inv.name);
    } else {
      assert ni == NameIdPairs(target, s);
      assert inn == IdNamePairs(target, s);
    }
  }

  /** A record appends its id to the orphan list exactly when it matches, its id is
      truthy and its name is not. */
  lemma {:induction false} OrphansStep(target: string, s: seq<Record>, inv: Record)
    ensures OrphansOf(target, s + [inv]) == OrphansOf(target, s) + (if Orphan(target, inv) then [inv.id] else [])
  {
    OrphansConcat(target, s, [inv]);
    assert OrphansOf(target, [inv]) == (if Orphan(target, inv) then [inv.id] else []) + OrphansOf(target, []);
  }

  lemma {:induction false} MatchingStep(target: string, s: seq<Record>, inv: Record)
    ensures MatchingOf(target, s + [inv]) == MatchingOf(target, s) + (if Matches(target, inv) then [inv] else [])
  {
    MatchingConcat(target, s, [inv]);
    assert MatchingOf(target, [inv]) == (if Matches(target, inv) then [inv] else []) + MatchingOf(target, []);
  }

  /** Before any record, every accumulator is empty. */
  lemma {:induction false} Empty(target: string)
    ensures NamesOf(target, []) == {} && IdsOrNamesOf(target, []) == {}
    ensures NameToIdsOf(target, []) == map[] && IdToNamesOf(target, []) == map[]
    ensures OrphansOf(target, []) == []
  {
    assert NameIdPairs(target, []) == {};
    assert IdNamePairs(target, []) == {};
    assert KeysOf(NameIdPairs(target, [])) == {};
    assert KeysOf(IdNamePairs(target, [])) == {};
  }

  // ---------------------------------------------------------------------------
  // Properties of the accumulators after any sequence of records

  /** The two cross-reference maps are mutual inverses, and hold exactly the pairs of
      matching records that carry both a truthy name and a truthy id. */
  lemma {:induction false} MapsInverse(target: string, s: seq<Record>, n: Value, i: Value)
    ensures (n in NameToIdsOf(target, s) && i in NameToIdsOf(target, s)[n])
        <==> (i in IdToNamesOf(target, s) && n in IdToNamesOf(target, s)[i])
    ensures (n in NameToIdsOf(target, s) && i in NameToIdsOf(target, s)[n])
        <==> exists inv :: inv in s && Paired(target, inv) && inv.name == n && inv.id == i
  {
    GroupHolds(NameIdPairs(target, s), n, i);
    GroupHolds(IdNamePairs(target, s), i, n);
    if (n, i) in NameIdPairs(target, s) {
      var r :| r in s && Paired(target, r) && (r.name, r.id) == (n, i);
      assert (r.id, r.name) in IdNamePairs(target, s);
    }
    if (i, n) in IdNamePairs(target, s) {
      var r :| r in s && Paired(target, r) && (r.id, r.name) == (i, n);
      assert (r.name, r.id) in NameIdPairs(target, s);
    }
  }

  /** No entry of either map is empty, and every key of `name_to_ids` is in set B. */
  lemma {:induction false} MapsWellFormed(target: string, s: seq<Record>, k: Value)
    ensures k in NameToIdsOf(target, s) ==> NameToIdsOf(target, s)[k] != {} && k in NamesOf(target, s)
    ensures k in IdToNamesOf(target, s) ==> IdToNamesOf(target, s)[k] != {} && k in IdsOrNamesOf(target, s)
  {
    if k in NameToIdsOf(target, s) {
      GroupNonEmpty(NameIdPairs(target, s), k);
      var i :| i in NameToIdsOf(target, s)[k];
      MapsInverse(target, s, k, i);
      var r :| r in s && Paired(target, r) && r.name == k && r.id == i;
      assert r in s && Matches(target, r) && IsTruthy(r.name);
    }
    if k in IdToNamesOf(target, s) {
      GroupNonEmpty(IdNamePairs(target, s), k);
      var n :| n in IdToNamesOf(target, s)[k];
      MapsInverse(target, s, n, k);
      var r :| r in s && Paired(target, r) && r.name == n && r.id == k;
      assert UniqueId(r) == k;
    }
  }

  /** Exactly the ids of matching records without a truthy name enter the orphan list,
      and every orphan is also counted in set A. */
  lemma {:induction false} OrphansHold(target: string, s: seq<Record>, v: Value)
    ensures v in OrphansOf(target, s) <==> exists inv :: inv in s && Orphan(target, inv) && inv.id == v
    ensures v in OrphansOf(target, s) ==> v in IdsOrNamesOf(target, s)
  {
    if s != [] {
      OrphansHold(target, s[1..], v);
      assert s == [s[0]] + s[1..];
      if v in OrphansOf(target, s[1..]) {
        var r :| r in s[1..] && Orphan(target, r) && r.id == v;
        assert r in s;
      }
      if exists inv :: inv in s && Orphan(target, inv) && inv.id == v {
        var r :| r in s && Orphan(target, r) && r.id == v;
        if r != s[0] { assert r in s[1..]; }
      }
    }
    if v in OrphansOf(target, s) {
      var r :| r in s && Orphan(target, r) && r.id == v;
      assert UniqueId(r) == v;
    }
  }

  /** Every record contributes at most one element to set A, so set A is no larger
      than the number of matching records. */
  lemma {:induction false} IdsOrNamesBound(target: string, s: seq<Record>)
    ensures |IdsOrNamesOf(target, s)| <= |MatchingOf(target, s)|
    decreases |s|
  {
    if s == [] {
      Empty(target);
    } else {
      var init, last := s[..|s| - 1], s[|s| - 1];
      assert s == init + [last];
      IdsOrNamesBound(target, init);
      IdsOrNamesStep(target, init, last);
      MatchingStep(target, init, last);
    }
  }

  // ---------------------------------------------------------------------------
  // Order independence

  /** The orphan list, split around record k. */
  lemma {:induction false} OrphansSplit(target: string, b: seq<Record>, k: nat)
    requires k < |b|
    ensures OrphansOf(target, b)
         == OrphansOf(target, b[..k]) + (OrphansOf(target, [b[k]]) + OrphansOf(target, b[k + 1..]))
    ensures OrphansOf(target, b[..k] + b[k + 1..]) == OrphansOf(target, b[..k]) + OrphansOf(target, b[k + 1..])
  {
    var pre, mid, post := b[..k], [b[k]], b[k + 1..];
    assert b == pre + (mid + post);
    OrphansConcat(target, pre, mid + post);
    OrphansConcat(target, mid, post);
    OrphansConcat(target, pre, post);
  }

  /** Taking one record out of the middle takes its contribution out of the orphan list. */
  lemma {:induction false} OrphansRemove(target: string, b: seq<Record>, k: nat)
    requires k < |b|
    ensures multiset(OrphansOf(target, b))
         == multiset(OrphansOf(target, [b[k]])) + multiset(OrphansOf(target, b[..k] + b[k + 1..]))
  {
    OrphansSplit(target, b, k);
    MultisetSplice(OrphansOf(target, b[..k]), OrphansOf(target, [b[k]]), OrphansOf(target, b[k + 1..]));
  }

  /** Permuting the records permutes the orphan list. */
  lemma {:induction false} OrphansPermutation(target: string, a: seq<Record>, b: seq<Record>)
    requires multiset(a) == multiset(b)
    ensures multiset(OrphansOf(target, a)) == multiset(OrphansOf(target, b))
    decreases |a|
  {
    if a == [] {
      assert b == [] by { assert |multiset(b)| == 0; }
    } else {
      var x := a[0];
      assert x in multiset(b) by { assert x in multiset(a); }
      var k :| 0 <= k < |b| && b[k] == x;
      var rest := b[..k] + b[k + 1..];
      assert multiset(a[1..]) == multiset(rest) by {
        assert a == [x] + a[1..];
        assert b == b[..k] + [x] + b[k + 1..];
        assert multiset(a) == multiset{x} + multiset(a[1..]);
        assert multiset(b) == multiset(b[..k]) + multiset{x} + multiset(b[k + 1..]);
        assert multiset(rest) == multiset(b[..k]) + multiset(b[k + 1..]);
        calc {
          multiset(a[1..]);
          multiset(a) - multiset{x};
          multiset(b) - multiset{x};
          multiset(rest);
        }
      }
      OrphansPermutation(target, a[1..], rest);
      OrphansRemove(target, b, k);
      OrphansRemove(target, a, 0);
      assert a[..0] + a[1..] == a[1..];
    }
  }

  /** The sets and maps depend only on which records were seen, not on their order or
      multiplicity; the orphan list is the same up to order. */
  lemma {:induction false} OrderIndependent(target: string, a: seq<Record>, b: seq<Record>)
    requires multiset(a) == multiset(b)
    ensures NamesOf(target, a) == NamesOf(target, b)
    ensures IdsOrNamesOf(target, a) == IdsOrNamesOf(target, b)
    ensures NameToIdsOf(target, a) == NameToIdsOf(target, b)
    ensures IdToNamesOf(target, a) == IdToNamesOf(target, b)
    ensures multiset(OrphansOf(target, a)) == multiset(OrphansOf(target, b))
  {
    assert forall inv :: inv in a <==> inv in b by {
      forall inv ensures inv in a <==> inv in b {
        assert inv in a <==> inv in multiset(a);
        assert inv in b <==> inv in multiset(b);
      }
    }
    assert NameIdPairs(target, a) == NameIdPairs(target, b);
    assert IdNamePairs(target, a) == IdNamePairs(target, b);
    OrphansPermutation(target, a, b);
  }
}
