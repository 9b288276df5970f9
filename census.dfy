/** Class census: one counter per catalog entry, incremented once for every
    training record at the position its decoded label names. */
module Census {
  import opened Dataset

  /** The record's label decodes to a catalog entry. */
  predicate Decodes(catalog: seq<string>, r: Record) {
    r.classIndex < |catalog|
  }

  predicate AllDecode(catalog: seq<string>, train: seq<Record>) {
    forall k :: 0 <= k < |train| ==> Decodes(catalog, train[k])
  }

  /** The counter a record increments: the decoded label is a class name, and
      `classes.index` looks that name up from the front of the catalog. */
  function CounterOf(catalog: seq<string>, r: Record): (idx: nat)
    requires Decodes(catalog, r)
    ensures idx < |catalog| && catalog[idx] == catalog[r.classIndex]
    ensures Distinct(catalog) ==> idx == r.classIndex
  {
    IndexOf(catalog, catalog[r.classIndex])
  }

  /** The counters after the records of `s` have been counted, in order. */
  function Tally(catalog: seq<string>, s: seq<Record>): (counts: seq<nat>)
    requires AllDecode(catalog, s)
    ensures |counts| == |catalog|
  {
    if s == [] then seq(|catalog|, _ => 0)
    else
      var counts := Tally(catalog, s[..|s| - 1]);
      var idx := CounterOf(catalog, s[|s| - 1]);
      counts[idx := counts[idx] + 1]
  }

  function Sum(s: seq<nat>): nat {
    if s == [] then 0 else Sum(s[..|s| - 1]) + s[|s| - 1]
  }

  lemma {:induction false} SumZeros(n: nat)
    ensures Sum(seq(n, _ => 0)) == 0
  {
    if n > 0 {
      assert seq(n, _ => 0)[..n - 1] == seq(n - 1, _ => 0);
      SumZeros(n - 1);
    }
  }

  /** Incrementing one counter adds one to the total. */
  lemma {:induction false} SumIncrement(s: seq<nat>, i: nat)
    requires i < |s|
    ensures Sum(s[i := s[i] + 1]) == Sum(s) + 1
  {
    var t := s[i := s[i] + 1];
    if i == |s| - 1 {
      assert t[..|t| - 1] == s[..|s| - 1];
    } else {
      assert t[..|t| - 1] == s[..|s| - 1][i := s[i] + 1];
      SumIncrement(s[..|s| - 1], i);
    }
  }

  /** Every record increments exactly one counter: the counters add up to the
      number of records. */
  lemma {:induction false} TallyTotal(catalog: seq<string>, s: seq<Record>)
    requires AllDecode(catalog, s)
    ensures Sum(Tally(catalog, s)) == |s|
  {
    if s == [] {
      SumZeros(|catalog|);
    } else {
      var front := s[..|s| - 1];
      assert AllDecode(catalog, front);
      TallyTotal(catalog, front);
      SumIncrement(Tally(catalog, front), CounterOf(catalog, s[|s| - 1]));
    }
  }

  /** When the catalog names every class once, counter c holds the number of
      records labelled c. */
  lemma {:induction false} TallyCounts(catalog: seq<string>, s: seq<Record>, c: nat)
    requires AllDecode(catalog, s) && Distinct(catalog) && c < |catalog|
    ensures Tally(catalog, s)[c] == CountLabel(s, c)
  {
    if s != [] {
      var front := s[..|s| - 1];
      assert AllDecode(catalog, front);
      TallyCounts(catalog, front, c);
    }
  }

  /** `class_infos` with the counters of `counts`, one entry per catalog name. */
  function InfosOf(catalog: seq<string>, counts: seq<nat>): (infos: seq<ClassInfo>)
    requires |counts| == |catalog|
    ensures |infos| == |catalog|
    ensures forall i :: 0 <= i < |catalog| ==> infos[i] == ClassInfo(catalog[i], counts[i])
  {
    seq(|catalog|, i requires 0 <= i < |catalog| => ClassInfo(catalog[i], counts[i]))
  }

  /** The census loop. It stops at the first record whose label does not
      decode; otherwise entry i holds catalog[i] with its counter. */
  method Run(catalog: seq<string>, train: seq<Record>) returns (r: Result<seq<ClassInfo>>)
    ensures r.Ok? <==> AllDecode(catalog, train)
    ensures r.Err? ==> r.error.UnknownLabel?
                       && r.error.position < |train|
                       && !Decodes(catalog, train[r.error.position])
                       && AllDecode(catalog, train[..r.error.position])
    ensures r.Ok? ==> r.value == InfosOf(catalog, Tally(catalog, train))
  {
    var infos := seq(|catalog|, i requires 0 <= i < |catalog| => ClassInfo(catalog[i], 0));
    var k := 0;
    while k < |train|
      invariant 0 <= k <= |train|
      invariant AllDecode(catalog, train[..k])
      invariant infos == InfosOf(catalog, Tally(catalog, train[..k]))
    {
      var rec := train[k];
      if !Decodes(catalog, rec) {
        return Err(UnknownLabel(k));
      }
      var idx := IndexOf(catalog, catalog[rec.classIndex]);
      assert train[..k + 1][..k] == train[..k];
      infos := infos[idx := infos[idx].(occurrences := infos[idx].occurrences + 1)];
      k := k + 1;
    }
    assert train[..k] == train;
    return Ok(infos);
  }
}
