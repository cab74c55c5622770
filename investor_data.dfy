/**
 The shapes of the input of the distinct-investors scan: JSON scalars with
 Python's truthiness, investor records, and files that either parsed to a
 list of records or failed to parse.
 */
module InvestorData {

  datatype Option<T> = None | Some(value: T)

  /** A JSON scalar as the scan sees it: `null` (or a missing key), an integer or a string.
      Equality is Python's native equality on these: `Int(1) != Str("1")`. */
  datatype Value = Null | Int(i: int) | Str(s: string)

  /** Python truthiness: `None`, `0` and `""` are false, every other scalar is true. */
  predicate IsTruthy(v: Value)
  {
    match v
    case Null => false
    case Int(i) => i != 0
    case Str(s) => s != ""
  }

  /** Python's `a or b`: `a` when it is truthy, otherwise `b`. */
  function Or(a: Value, b: Value): Value
  {
    if IsTruthy(a) then a else b
  }

  /** The `country` object of a record; `title` is `Null` when the key is absent. */
  datatype Country = Country(title: Value)

  /** An investor record. `country` is `None` when the key is absent or its value is
      falsy (`null` or `{}`: the source replaces both by `{}`); `id` and `name` are
      `Null` when absent. */
  datatype Record = Record(country: Option<Country>, id: Value, name: Value)

  /** `(inv.get("country") or {}).get("title")` */
  function CountryTitle(inv: Record): Value
  {
    match inv.country
    case None => Null
    case Some(c) => c.title
  }

  /** The record belongs to the target country: its title is exactly the target string. */
  predicate Matches(target: string, inv: Record)
  {
    CountryTitle(inv) == Str(target)
  }

  /** `inv_id or name`: the identity under the id-or-name strategy. */
  function UniqueId(inv: Record): Value
  {
    Or(inv.id, inv.name)
  }

  /** A matching record with both a truthy name and a truthy id: it enters both cross-reference maps. */
  predicate Paired(target: string, inv: Record)
  {
    Matches(target, inv) && IsTruthy(inv.name) && IsTruthy(inv.id)
  }

  /** A matching record with a truthy id and no truthy name: its id is an orphan. */
  predicate Orphan(target: string, inv: Record)
  {
    Matches(target, inv) && !IsTruthy(inv.name) && IsTruthy(inv.id)
  }

  /** A `.json` file of the directory: it failed to parse, or it is a list of records. */
  datatype File = Malformed | Records(records: seq<Record>)

  /** The records a file contributes to the scan: none for a file that failed to parse. */
  function RecordsOf(f: File): seq<Record>
  {
    match f
    case Malformed => []
    case Records(rs) => rs
  }

  /** The records of all files, in the order the scan visits them. */
  function Flatten(files: seq<File>): seq<Record>
  {
    if files == [] then [] else RecordsOf(files[0]) + Flatten(files[1..])
  }

  lemma {:induction false} FlattenConcat(a: seq<File>, b: seq<File>)
    ensures Flatten(a + b) == Flatten(a) + Flatten(b)
  {
    if a == [] {
      assert a + b == b;
    } else {
      assert (a + b)[1..] == a[1..] + b;
      FlattenConcat(a[1..], b);
    }
  }

  /** The file loop visits files one at a time: the records after k + 1 files are
      those after k files followed by those of file k. */
  lemma {:induction false} FlattenPrefix(files: seq<File>, k: nat)
    requires k < |files|
    ensures Flatten(files[..k + 1]) == Flatten(files[..k]) + RecordsOf(files[k])
  {
    assert files[..k + 1] == files[..k] + [files[k]];
    FlattenConcat(files[..k], [files[k]]);
    assert Flatten([files[k]]) == RecordsOf(files[k]) + Flatten([]);
  }

  /** Records seen before the scan, then the first k files, then file k. */
  lemma {:induction false} FlattenStep(start: seq<Record>, files: seq<File>, k: nat)
    requires k < |files|
    ensures start + Flatten(files[..k]) + RecordsOf(files[k]) == start + Flatten(files[..k + 1])
  {
    FlattenPrefix(files, k);
  }

  /** A file that fails to parse contributes nothing: removing it from the file list
      leaves the records the scan sees unchanged. */
  lemma {:induction false} MalformedIgnored(files: seq<File>, k: nat)
    requires k < |files| && files[k] == Malformed
    ensures Flatten(files[..k] + files[k + 1..]) == Flatten(files)
  {
    var pre, post := files[..k], files[k + 1..];
    assert files == pre + ([Malformed] + post);
    FlattenConcat(pre, [Malformed] + post);
    FlattenConcat([Malformed], post);
    FlattenConcat(pre, post);
    assert Flatten([Malformed]) == [];
  }

  /** The records of a file list, split around file k. */
  lemma {:induction false} FlattenSplit(b: seq<File>, k: nat)
    requires k < |b|
    ensures Flatten(b) == Flatten(b[..k]) + (RecordsOf(b[k]) + Flatten(b[k + 1..]))
    ensures Flatten(b[..k] + b[k + 1..]) == Flatten(b[..k]) + Flatten(b[k + 1..])
  {
    var pre, mid, post := b[..k], [b[k]], b[k + 1..];
    assert b == pre + (mid + post);
    FlattenConcat(pre, mid + post);
    FlattenConcat(mid, post);
    assert Flatten(mid) == RecordsOf(b[k]) + Flatten([]);
    FlattenConcat(pre, post);
  }

  /** Taking one file out of the middle takes its records out of the scan. */
  lemma {:induction false} FlattenRemove(b: seq<File>, k: nat)
    requires k < |b|
    ensures multiset(Flatten(b)) == multiset(RecordsOf(b[k])) + multiset(Flatten(b[..k] + b[k + 1..]))
  {
    FlattenSplit(b, k);
    MultisetSplice(Flatten(b[..k]), RecordsOf(b[k]), Flatten(b[k + 1..]));
  }

  lemma {:induction false} MultisetSplice<T>(x: seq<T>, y: seq<T>, z: seq<T>)
    ensures multiset(x + (y + z)) == multiset(y) + multiset(x + z)
  {
  }

  /** Reordering the files permutes the records the scan sees. */
  lemma {:induction false} FlattenPermutation(a: seq<File>, b: seq<File>)
    requires multiset(a) == multiset(b)
    ensures multiset(Flatten(a)) == multiset(Flatten(b))
    decreases |a|
  {
    if a == [] {
      assert b == [] by { assert |multiset(b)| == 0; }
    } else {
      var f := a[0];
      assert f in multiset(b) by { assert f in multiset(a); }
      var k :| 0 <= k < |b| && b[k] == f;
      var rest := b[..k] + b[k + 1..];
      assert multiset(a[1..]) == multiset(rest) by {
        assert a == [f] + a[1..];
        assert b == b[..k] + [f] + b[k + 1..];
        assert multiset(a) == multiset{f} + multiset(a[1..]);
        assert multiset(b) == multiset(b[..k]) + multiset{f} + multiset(b[k + 1..]);
        assert multiset(rest) == multiset(b[..k]) + multiset(b[k + 1..]);
        calc {
          multiset(a[1..]);
          multiset(a) - multiset{f};
          multiset(b) - multiset{f};
          multiset(rest);
        }
      }
      FlattenPermutation(a[1..], rest);
      FlattenRemove(b, k);
      FlattenRemove(a, 0);
      assert a[..0] + a[1..] == a[1..];
    }
  }
}
