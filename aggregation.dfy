/**
 The scan itself: five accumulators updated in place, record by record and
 file by file, exactly as the module-level loop of the script does. The ghost
 field `seen` is every record handed to the scan so far (matching or not);
 `Valid()` ties each accumulator to its declarative description in `Tally`.
 */
module Aggregation {
  import opened InvestorData
  import opened Grouping
  import opened Tally

  class Aggregator {
    /** The country given on the command line. */
    const target: string
    /** Set B: `names`. */
    var names: set<Value>
    /** Set A: `ids_or_names`. */
    var idsOrNames: set<Value>
    /** `name_to_ids`, a `defaultdict(set)`. */
    var nameToIds: map<Value, set<Value>>
    /** `id_to_names`, a `defaultdict(set)`. */
    var idToNames: map<Value, set<Value>>
    /** `no_name_has_id`, a list. */
    var noNameHasId: seq<Value>
    /** Every record the scan has been given, in order. */
    ghost var seen: seq<Record>

    ghost predicate Valid()
      reads this
    {
      && names == NamesOf(target, seen)
      && idsOrNames == IdsOrNamesOf(target, seen)
      && nameToIds == NameToIdsOf(target, seen)
      && idToNames == IdToNamesOf(target, seen)
      && noNameHasId == OrphansOf(target, seen)
    }

    /** The accumulators start out empty. */
    constructor (target: string)
      ensures this.target == target && seen == [] && Valid()
      ensures names == {} && idsOrNames == {} && nameToIds == map[] && idToNames == map[] && noNameHasId == []
    {
      this.target := target;
      names, idsOrNames := {}, {};
      nameToIds, idToNames := map[], map[];
      noNameHasId := [];
      seen := [];
      Empty(target);
    }

    /** The body of the record loop: filter on the country title, then update the
        five accumulators with Python's truthiness. */
    method AddRecord(inv: Record)
      requires Valid()
      modifies this
      ensures Valid() && seen == old(seen) + [inv]
      ensures !Matches(target, inv) ==>
        names == old(names) && idsOrNames == old(idsOrNames) && nameToIds == old(nameToIds)
        && idToNames == old(idToNames) && noNameHasId == old(noNameHasId)
    {
      var country := CountryTitle(inv);
      if country != Str(target) {
        SkipNonMatching(target, seen, inv);
        seen := seen + [inv];
        return;
      }

      var invId, name := inv.id, inv.name;
      ghost var next := seen + [inv];
      NamesStep(target, seen, inv);
      IdsOrNamesStep(target, seen, inv);
      PairsStep(target, seen, inv);
      OrphansStep(target, seen, inv);

      if IsTruthy(name) {
        names := names + {name};
      }
      assert names == NamesOf(target, next);

      var uniqueId := Or(invId, name);
      if IsTruthy(uniqueId) {
        idsOrNames := idsOrNames + {uniqueId};
      }
      assert idsOrNames == IdsOrNamesOf(target, next);

      if IsTruthy(name) && IsTruthy(invId) {
        nameToIds := AddTo(nameToIds, name, invId);
        idToNames := AddTo(idToNames, invId, name);
      }
      assert nameToIds == NameToIdsOf(target, next) && idToNames == IdToNamesOf(target, next);

      if !IsTruthy(name) && IsTruthy(invId) {
        noNameHasId := noNameHasId + [invId];
      }
      seen := next;
    }

    /** One file of the directory loop: a file that failed to parse is skipped,
        every record of the others goes through `AddRecord` in order. */
    method AddFile(f: File)
      requires Valid()
      modifies this
      ensures Valid() && seen == old(seen) + RecordsOf(f)
    {
      match f {
        case Malformed =>
        case Records(data) =>
          var j := 0;
          while j < |data|
            invariant 0 <= j <= |data|
            invariant Valid()
            invariant seen == old(seen) + data[..j]
          {
            AddRecord(data[j]);
            assert data[..j + 1] == data[..j] + [data[j]];
            j := j + 1;
          }
          assert data[..j] == data;
      }
    }

    /** The directory loop over the files, in the order they are listed. */
    method Scan(files: seq<File>)
      requires Valid()
      modifies this
      ensures Valid() && seen == old(seen) + Flatten(files)
    {
      var k := 0;
      while k < |files|
        invariant 0 <= k <= |files|
        invariant Valid()
        invariant seen == old(seen) + Flatten(files[..k])
      {
        AddFile(files[k]);
        FlattenStep(old(seen), files, k);
        k := k + 1;
      }
      assert files[..|files|] == files;
    }
  }
}
