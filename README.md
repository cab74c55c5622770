# Distinct investors of one country

`validate_distinct_investors.py` scans a directory of JSON seed files, keeps the
investor records whose `country.title` is exactly the country given on the
command line, and compares two ways of counting distinct investors:

- set A (`ids_or_names`) holds `id or name` for each record;
- set B (`names`) holds the truthy names.

Along the way it builds two cross-reference maps:

- `name_to_ids` and `id_to_names`, both `defaultdict(set)`;
- the list `no_name_has_id` of ids whose record has no name.

Its report prints the two counts, the names seen with more than one id, the ids
seen with more than one name, and the distinct orphan ids.

This project models that scan and the selection its report makes.

- `InvestorData` (`investor_data.dfy`) holds the input shapes:
  - JSON scalars (`Value = Null | Int | Str`) with Python's truthiness and `or`;
  - the record with its optional `country` object;
  - a file that either failed to parse (`Malformed`) or is a list of records.
- `Grouping` (`grouping.dfy`) describes a `defaultdict(set)` as the grouping
  of a set of pairs. It gives `m[k].add(v)` as `AddTo` and the report's
  "more than one" filter as `Shared`.
- `Tally` (`tally.dfy`) states declaratively what each accumulator holds after
  a sequence of records. It proves:
  - how one record changes each accumulator;
  - the inverse relation of the two maps;
  - the size bound on set A;
  - the orphan facts;
  - order independence.
- `Aggregation` (`aggregation.dfy`) is the scan itself: a class whose five
  fields are the five accumulators, updated in place by `AddRecord`, the file
  loop `AddFile` and the directory loop `Scan`. Its invariant `Valid()` ties every
  field to its `Tally` description of the records seen so far.
- `Reporting` (`reporting.dfy`) holds:
  - what the report selects, as the `Report` datatype;
  - the selection loop `SelectShared`;
  - the whole run;
  - the properties of the report.
- `WorkedExample` (`example.dfy`) computes the report for a small directory.

Values are compared with Python's native equality: `Int(1)` and `Str("1")`
are different ids. An absent key and a JSON `null` are both `Null`, as
`dict.get` returns `None` for either. A falsy `country` value (`null` or `{}`)
is `None`, since the source replaces it by `{}`. A country object without a
`title` is `Country(Null)`.

## Model

| member | source | states |
|---|---|---|
| Grouping.AddTo | validate_distinct_investors.py:53-54 | `m[k].add(v)` on a defaultdict: the keys become the old keys plus `k`; `v` is now in `r[k]`; the old values of `k` are kept; nothing but `v` is added; every other key is unchanged |
| Grouping.GroupHolds | validate_distinct_investors.py:21-22 | a grouped map holds `v` under `k` exactly when `(k, v)` was added |
| Grouping.GroupNonEmpty | validate_distinct_investors.py:21-22 | no key of a grouped map is mapped to the empty set |
| Grouping.GroupInsert | validate_distinct_investors.py:53-54 | adding one pair to the pairs is the same as `AddTo` on the grouped map |
| Grouping.FlipInverse | validate_distinct_investors.py:53-54 | grouping the reversed pairs gives the inverse map: `v in m[k]` iff `k in flipped[v]` |
| Grouping.MoreThanOne | validate_distinct_investors.py:64 | `len(s) > 1` holds exactly when `s` contains two distinct elements |
| Grouping.SharedHolds | validate_distinct_investors.py:63-64 | a key is selected exactly when it has two distinct values, and it is selected with all of its values |
| InvestorData.FlattenConcat | validate_distinct_investors.py:25 | the records of two file lists, one after the other, are the records of the concatenated list |
| InvestorData.FlattenPermutation | validate_distinct_investors.py:25 | listing the same files in another order gives a permutation of the records |
| InvestorData.MalformedIgnored | validate_distinct_investors.py:29-32 | removing a file that failed to parse leaves the records of the scan unchanged |
| Tally.SkipNonMatching | validate_distinct_investors.py:35-37 | a record whose country title is not exactly the target leaves all five accumulators unchanged; this covers a missing country, another case, or a non-string title |
| Tally.NamesStep | validate_distinct_investors.py:43-44 | a record adds its name to set B exactly when it matches and the name is truthy, and adds nothing else |
| Tally.IdsOrNamesStep | validate_distinct_investors.py:47-49 | a matching record adds its id if the id is truthy, otherwise its name if that is truthy, otherwise nothing |
| Tally.PairsStep | validate_distinct_investors.py:52-54 | both maps get `add` of the pair exactly when the record matches and both name and id are truthy; otherwise neither changes |
| Tally.OrphansStep | validate_distinct_investors.py:55-56 | the id is appended to the orphan list exactly when the record matches, the id is truthy and the name is falsy |
| Tally.MatchingStep | validate_distinct_investors.py:36-37 | a record is appended to the matching records exactly when it passes the country filter |
| Tally.OrphansConcat | validate_distinct_investors.py:55-56 | the orphan list of two record sequences, one after the other, is the concatenation of their lists |
| Tally.MatchingConcat | validate_distinct_investors.py:36-37 | the matching records of two record sequences, one after the other, are the concatenation of theirs |
| Tally.Empty | validate_distinct_investors.py:18-23 | before any record, all five accumulators are empty |
| Tally.MapsInverse | validate_distinct_investors.py:52-54 | `i in name_to_ids[n]` iff `n in id_to_names[i]`, iff some matching record has truthy name `n` and truthy id `i` |
| Tally.MapsWellFormed | validate_distinct_investors.py:43-54 | no map entry is empty; every key of `name_to_ids` is in set B; every key of `id_to_names` is in set A |
| Tally.OrphansHold | validate_distinct_investors.py:47-56 | `v` is in the orphan list iff some matching record has truthy id `v` and a falsy name; every orphan is also in set A |
| Tally.IdsOrNamesBound | validate_distinct_investors.py:47-49 | set A has at most as many elements as there are matching records |
| Tally.OrphansPermutation | validate_distinct_investors.py:55-56 | permuting the records permutes the orphan list |
| Tally.OrderIndependent | validate_distinct_investors.py:25-56 | records that are a permutation of each other give the same two sets and the same two maps, and orphan lists equal up to order |
| Aggregation.Aggregator.constructor | validate_distinct_investors.py:18-23 | the accumulators start empty and the invariant holds with no record seen |
| Aggregation.Aggregator.AddRecord | validate_distinct_investors.py:34-56 | after one record, every accumulator equals its description over the records seen so far; a non-matching record changes nothing |
| Aggregation.Aggregator.AddFile | validate_distinct_investors.py:29-34 | a file that failed to parse adds no record; the records of any other file are added in order, and the invariant is kept |
| Aggregation.Aggregator.Scan | validate_distinct_investors.py:25-34 | after the directory loop, the records seen are those of all files in listing order, and the invariant is kept |
| Reporting.SelectShared | validate_distinct_investors.py:63-69 | the filtering loop keeps exactly the keys with more than one value, each with its whole set |
| Reporting.Summarize | validate_distinct_investors.py:59-74 | the report read off the accumulators is the report due for the records seen |
| Reporting.Run | validate_distinct_investors.py:18-74 | the whole run on a list of parsed files yields the report due for their records in listing order |
| Reporting.SharedNamesHold | validate_distinct_investors.py:62-65 | a name is listed iff two matching records carry it with two distinct truthy ids |
| Reporting.SharedNamesListing | validate_distinct_investors.py:65 | a listed name is shown with exactly the ids seen with it |
| Reporting.SharedIdsHold | validate_distinct_investors.py:67-70 | an id is listed iff two matching records carry it with two distinct truthy names |
| Reporting.SharedIdsListing | validate_distinct_investors.py:70 | a listed id is shown with exactly the names seen with it |
| Reporting.OrphanIdsHold | validate_distinct_investors.py:72-74 | the orphan listing is the distinct ids of matching records with a truthy id and a falsy name, each of them counted in set A |
| Reporting.CountBound | validate_distinct_investors.py:59 | the "id OR name" count is at most the number of records of the target country |
| Reporting.ReportIgnoresFileOrder | validate_distinct_investors.py:25 | the report does not depend on the order in which the directory lists its files |
| Reporting.RecordOrderIrrelevant | validate_distinct_investors.py:34-74 | the report does not depend on the order of the records |
| Reporting.ReportIgnoresMalformed | validate_distinct_investors.py:29-32 | a file that fails to parse does not change the report |
| Reporting.EmptyDirectory | validate_distinct_investors.py:58-74 | a directory without records gives two zero counts and empty listings |
| WorkedExample.ExampleNames | validate_distinct_investors.py:43-44 | on the example, set B is {Alice, Bob}: the record without a name and the record of "vietnam" add nothing |
| WorkedExample.ExampleIdsOrNames | validate_distinct_investors.py:47-49 | on the example, set A is {1, 2, Bob, 3}: Bob enters by name, the others by id |
| WorkedExample.ExampleMaps | validate_distinct_investors.py:52-54 | on the example, `name_to_ids` is {Alice: {1, 2}} and `id_to_names` is {1: {Alice}, 2: {Alice}} |
| WorkedExample.ExampleOrphans | validate_distinct_investors.py:55-56 | on the example, the orphan list is [3] |
| WorkedExample.AliceBobExample | validate_distinct_investors.py:58-74 | the example's report: counts 4 and 2, Alice listed with ids 1 and 2, no id listed, orphan 3 |

## Left out

- Command-line handling: the usage message, `sys.exit(1)` and the default folder path (validate_distinct_investors.py:11-16). This is process plumbing. The country is a parameter of the model.
- Directory listing, the `.json` suffix filter, opening files and `json.load` (validate_distinct_investors.py:25-30). These are I/O and a foreign parser. The input is a sequence of already-parsed files, in the order the directory lists them. A parse failure is `Malformed`.
- The printed text: headers, emoji and formatting (validate_distinct_investors.py:58-74). The model states only which counts, names, ids and orphans the report selects.
- `sorted` on the listed sets and orphans (validate_distinct_investors.py:65, 70, 74). It only orders the output, and it raises on values that mix ints and strings. The listings are modelled as sets.
- Top-level JSON that is not a list, records that are not objects, and `country` values that are neither falsy nor objects (validate_distinct_investors.py:34-35). The source crashes or behaves by accident there. The model takes well-shaped records only.
- JSON booleans, floats, lists and objects as ids or names. Python's `True == 1` and `1.0 == 1` would merge such values with integers in the sets. The model's values are null, integers and strings.
