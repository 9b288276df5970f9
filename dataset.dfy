/** Entities shared by every phase of the rebalancing script: training records,
    per-class census entries, the errors the script can stop with, and a few
    facts about sequences of records. */
module Dataset {

  /** The image content of a record. The rebalancing never looks inside it. */
  type Features = seq<int>

  /** A training record. `classIndex` is the catalog position that the record's
      one-hot label vector marks; one-hot decoding and encoding are taken as a
      bijection between vectors and catalog positions. */
  datatype Record = Record(features: Features, classIndex: nat)

  /** One entry of `class_infos`: a class name with its occurrence count. */
  datatype ClassInfo = ClassInfo(name: string, occurrences: nat)

  /** The ways the script stops before writing anything. */
  datatype Error =
    | UnknownLabel(position: nat)         // the label of train[position] decodes to no catalog entry
    | EmptyCatalog                        // class_infos[0] or class_infos[-1] of an empty list
    | LabelCountMismatch(className: string) // the augmentation engine refuses images and labels of different lengths
    | EmptySource(className: string)      // the augmentation engine refuses an empty image batch

  datatype Result<T> = Ok(value: T) | Err(error: Error)

  datatype Option<T> = None | Some(value: T)

  /** `classes.index(name)`: the first catalog position holding `name`. */
  function IndexOf(catalog: seq<string>, name: string): (r: nat)
    requires name in catalog
    ensures r < |catalog| && catalog[r] == name
    ensures forall j :: 0 <= j < r ==> catalog[j] != name
  {
    if catalog[0] == name then 0 else 1 + IndexOf(catalog[1..], name)
  }

  /** No element occurs twice. */
  predicate Distinct<T(==)>(s: seq<T>) {
    forall i, j :: 0 <= i < j < |s| ==> s[i] != s[j]
  }

  lemma IndexOfDistinct(catalog: seq<string>, c: nat)
    requires Distinct(catalog) && c < |catalog|
    ensures IndexOf(catalog, catalog[c]) == c
  {
  }

  /** Number of records of `s` labelled `c`. */
  function CountLabel(s: seq<Record>, c: nat): nat {
    if s == [] then 0
    else CountLabel(s[..|s| - 1], c) + (if s[|s| - 1].classIndex == c then 1 else 0)
  }

  lemma {:induction false} CountLabelAppend(a: seq<Record>, b: seq<Record>, c: nat)
    ensures CountLabel(a + b, c) == CountLabel(a, c) + CountLabel(b, c)
    decreases |b|
  {
    if b == [] {
      assert a + b == a;
    } else {
      assert (a + b)[..|a + b| - 1] == a + b[..|b| - 1];
      CountLabelAppend(a, b[..|b| - 1], c);
    }
  }

  /** A sequence in which no record is labelled `c` counts none of them. */
  lemma {:induction false} CountLabelAbsent(s: seq<Record>, c: nat)
    requires forall k :: 0 <= k < |s| ==> s[k].classIndex != c
    ensures CountLabel(s, c) == 0
  {
    if s != [] {
      CountLabelAbsent(s[..|s| - 1], c);
    }
  }

  /** The batches of `batches`, one after the other (`+=` applied in order). */
  function Flatten(batches: seq<seq<Record>>): seq<Record> {
    if batches == [] then []
    else Flatten(batches[..|batches| - 1]) + batches[|batches| - 1]
  }

  /** Every record of the flattened batches comes from one of the batches. */
  lemma {:induction false} FlattenFrom(batches: seq<seq<Record>>, x: Record)
    requires x in Flatten(batches)
    ensures exists i, k :: 0 <= i < |batches| && 0 <= k < |batches[i]| && batches[i][k] == x
  {
    var front := batches[..|batches| - 1];
    var last := batches[|batches| - 1];
    if x in Flatten(front) {
      FlattenFrom(front, x);
      var i, k :| 0 <= i < |front| && 0 <= k < |front[i]| && front[i][k] == x;
      assert batches[i][k] == x;
    } else {
      var k :| 0 <= k < |last| && last[k] == x;
      assert batches[|batches| - 1][k] == x;
    }
  }

  /** A multiset that holds an element at two distinct positions counts it twice. */
  lemma Twice<T>(s: seq<T>, i: nat, j: nat)
    requires i < j < |s| && s[i] == s[j]
    ensures multiset(s)[s[i]] >= 2
  {
    assert s == s[..j] + [s[j]] + s[j + 1..];
    assert s[i] in multiset(s[..j]);
  }

  lemma {:induction false} DistinctOnce<T>(s: seq<T>, x: T)
    requires Distinct(s)
    ensures multiset(s)[x] <= 1
  {
    if s != [] {
      var front := s[..|s| - 1];
      assert s == front + [s[|s| - 1]];
      assert Distinct(front);
      DistinctOnce(front, x);
      if x == s[|s| - 1] {
        assert x !in front;
        assert multiset(front)[x] == 0;
      }
    }
  }

  /** A rearrangement of a sequence without repetitions has none either. */
  lemma DistinctPermutation<T>(s: seq<T>, t: seq<T>)
    requires Distinct(s) && multiset(s) == multiset(t)
    ensures Distinct(t)
  {
    forall i, j | 0 <= i < j < |t| ensures t[i] != t[j] {
      if t[i] == t[j] {
        Twice(t, i, j);
        DistinctOnce(s, t[i]);
      }
    }
  }
}
