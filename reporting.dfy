/**
 What the report lists after the scan: the sizes of set A and set B, the names
 used with more than one distinct id, the ids used with more than one distinct
 name, and the distinct orphan ids. Only the selection is modelled; the text,
 the emoji headers and the sorting of each listing are not.
 */
module Reporting {
  import opened InvestorData
  import opened Grouping
  import opened Tally
  import opened Aggregation

  datatype Report = Report(
    idOrNameCount: nat,                        // "Script A (id OR name) unique"
    nameCount: nat,                            // "Script B (name only) unique"
    sharedNames: map<Value, set<Value>>,       // "Names used by multiple different IDs"
    sharedIds: map<Value, set<Value>>,         // "IDs that map to multiple different names"
    orphanIds: set<Value>)                     // "Entries with ID but missing name", deduplicated; empty when not printed

  /** The report due after the scan has been given the records `s`. */
  function ReportOf(target: string, s: seq<Record>): Report
  {
    Report(
      |IdsOrNamesOf(target, s)|,
      |NamesOf(target, s)|,
      Shared(NameToIdsOf(target, s)),
      Shared(IdToNamesOf(target, s)),
      set v | v in OrphansOf(target, s))
  }

  /** The loop `for n, s in m.items(): if len(s) > 1: ...`: keeps exactly the entries
      whose set has more than one element. */
  method SelectShared(m: map<Value, set<Value>>) returns (shared: map<Value, set<Value>>)
    ensures forall k :: k in shared <==> k in m && |m[k]| > 1
    ensures forall k :: k in shared ==> shared[k] == m[k]
  {
    shared := map[];
    var todo := m.Keys;
    while todo != {}
      invariant todo <= m.Keys
      invariant forall k :: k in shared <==> k in m && k !in todo && |m[k]| > 1
      invariant forall k :: k in shared ==> shared[k] == m[k]
      decreases todo
    {
      var k :| k in todo;
      if |m[k]| > 1 {
        shared := shared[k := m[k]];
      }
      todo := todo - {k};
    }
  }

  /** Reads the report off the accumulators of a scan. */
  method Summarize(agg: Aggregator) returns (rep: Report)
    requires agg.Valid()
    ensures rep == ReportOf(agg.target, agg.seen)
  {
    var byName := SelectShared(agg.nameToIds);
    var byId := SelectShared(agg.idToNames);
    assert byName == Shared(NameToIdsOf(agg.target, agg.seen));
    assert byId == Shared(IdToNamesOf(agg.target, agg.seen));
    rep := Report(|agg.idsOrNames|, |agg.names|, byName, byId, set v | v in agg.noNameHasId);
  }

  /** The whole script on an already-listed, already-parsed directory. */
  method Run(target: string, files: seq<File>) returns (rep: Report)
    ensures rep == ReportOf(target, Flatten(files))
  {
    var agg := new Aggregator(target);
    agg.Scan(files);
    assert agg.seen == Flatten(files);
    rep := Summarize(agg);
  }

  // ---------------------------------------------------------------------------
  // What the report promises

  /** A name is listed exactly when two matching records carry it with two distinct truthy ids. */
  lemma {:induction false} SharedNamesHold(target: string, s: seq<Record>, n: Value)
    ensures n in ReportOf(target, s).sharedNames
        <==> exists a, b :: a in s && b in s && Paired(target, a) && Paired(target, b)
                            && a.name == n && b.name == n && a.id != b.id
  {
    var m := NameToIdsOf(target, s);
    assert ReportOf(target, s).sharedNames == Shared(m);
    SharedHolds(m, n);
    if n in Shared(m) {
      var i, j :| i in m[n] && j in m[n] && i != j;
      MapsInverse(target, s, n, i);
      MapsInverse(target, s, n, j);
      var a :| a in s && Paired(target, a) && a.name == n && a.id == i;
      var b :| b in s && Paired(target, b) && b.name == n && b.id == j;
      assert a.id != b.id;
    }
    if exists a, b :: a in s && b in s && Paired(target, a) && Paired(target, b) && a.name == n && b.name == n && a.id != b.id {
      var a, b :| a in s && b in s && Paired(target, a) && Paired(target, b) && a.name == n && b.name == n && a.id != b.id;
      MapsInverse(target, s, n, a.id);
      MapsInverse(target, s, n, b.id);
      assert a.id in m[n] && b.id in m[n];
    }
  }

  /** A listed name is listed with every id seen with it, and with nothing else. */
  lemma {:induction false} SharedNamesListing(target: string, s: seq<Record>, n: Value, i: Value)
    requires n in ReportOf(target, s).sharedNames
    ensures i in ReportOf(target, s).sharedNames[n]
        <==> exists inv :: inv in s && Paired(target, inv) && inv.name == n && inv.id == i
  {
    var m := NameToIdsOf(target, s);
    assert ReportOf(target, s).sharedNames == Shared(m);
    SharedHolds(m, n);
    MapsInverse(target, s, n, i);
  }

  /** An id is listed exactly when two matching records carry it with two distinct truthy names. */
  lemma {:induction false} SharedIdsHold(target: string, s: seq<Record>, i: Value)
    ensures i in ReportOf(target, s).sharedIds
        <==> exists a, b :: a in s && b in s && Paired(target, a) && Paired(target, b)
                            && a.id == i && b.id == i && a.name != b.name
  {
    var m := IdToNamesOf(target, s);
    assert ReportOf(target, s).sharedIds == Shared(m);
    SharedHolds(m, i);
    if i in Shared(m) {
      var n1, n2 :| n1 in m[i] && n2 in m[i] && n1 != n2;
      MapsInverse(target, s, n1, i);
      MapsInverse(target, s, n2, i);
      var a :| a in s && Paired(target, a) && a.name == n1 && a.id == i;
      var b :| b in s && Paired(target, b) && b.name == n2 && b.id == i;
      assert a.name != b.name;
    }
    if exists a, b :: a in s && b in s && Paired(target, a) && Paired(target, b) && a.id == i && b.id == i && a.name != b.name {
      var a, b :| a in s && b in s && Paired(target, a) && Paired(target, b) && a.id == i && b.id == i && a.name != b.name;
      MapsInverse(target, s, a.name, i);
      MapsInverse(target, s, b.name, i);
      assert a.name in m[i] && b.name in m[i];
    }
  }

  /** A listed id is listed with every name seen with it, and with nothing else. */
  lemma {:induction false} SharedIdsListing(target: string, s: seq<Record>, i: Value, n: Value)
    requires i in ReportOf(target, s).sharedIds
    ensures n in ReportOf(target, s).sharedIds[i]
        <==> exists inv :: inv in s && Paired(target, inv) && inv.name == n && inv.id == i
  {
    var m := IdToNamesOf(target, s);
    assert ReportOf(target, s).sharedIds == Shared(m);
    SharedHolds(m, i);
    MapsInverse(target, s, n, i);
  }

  /** The orphan listing is the distinct ids of matching records that have a truthy id
      and no truthy name, and each of them is counted in set A. */
  lemma {:induction false} OrphanIdsHold(target: string, s: seq<Record>, v: Value)
    ensures v in ReportOf(target, s).orphanIds <==> exists inv :: inv in s && Orphan(target, inv) && inv.id == v
    ensures v in ReportOf(target, s).orphanIds ==> v in IdsOrNamesOf(target, s)
  {
    OrphansHold(target, s, v);
  }

  /** Set A is never larger than the number of records of the target country. */
  lemma {:induction false} CountBound(target: string, files: seq<File>)
    ensures ReportOf(target, Flatten(files)).idOrNameCount <= |MatchingOf(target, Flatten(files))|
  {
    IdsOrNamesBound(target, Flatten(files));
  }

  /** The report does not depend on the order in which the directory lists its files. */
  lemma {:induction false} ReportIgnoresFileOrder(target: string, a: seq<File>, b: seq<File>)
    requires multiset(a) == multiset(b)
    ensures ReportOf(target, Flatten(a)) == ReportOf(target, Flatten(b))
  {
    FlattenPermutation(a, b);
    RecordOrderIrrelevant(target, Flatten(a), Flatten(b));
  }

  /** The report does not depend on the order of the records, within or across files. */
  lemma {:induction false} RecordOrderIrrelevant(target: string, a: seq<Record>, b: seq<Record>)
    requires multiset(a) == multiset(b)
    ensures ReportOf(target, a) == ReportOf(target, b)
  {
    OrderIndependent(target, a, b);
    var oa, ob := OrphansOf(target, a), OrphansOf(target, b);
    assert (set v | v in oa) == (set v | v in ob) by {
      forall v ensures v in oa <==> v in ob {
        assert v in oa <==> v in multiset(oa);
        assert v in ob <==> v in multiset(ob);
      }
    }
  }

  /** A file that fails to parse changes nothing in the report. */
  lemma {:induction false} ReportIgnoresMalformed(target: string, files: seq<File>, k: nat)
    requires k < |files| && files[k] == Malformed
    ensures ReportOf(target, Flatten(files[..k] + files[k + 1..])) == ReportOf(target, Flatten(files))
  {
    MalformedIgnored(files, k);
  }

  /** An empty directory gives zero counts and no listing. */
  lemma {:induction false} EmptyDirectory(target: string)
    ensures ReportOf(target, Flatten([])) == Report(0, 0, map[], map[], {})
  {
    Empty(target);
  }
}
