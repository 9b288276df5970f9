/** The script run on a training set of ten cat records and two dog records,
    with any well-behaved augmentation engine and any shuffle. */
module RunScenarios {
  import opened Dataset
  import Census
  import TargetPolicy
  import TargetScenarios
  import Synthesis
  import Balance

  /** n records with the same image and label. */
  function Uniform(n: nat, image: Features, c: nat): (s: seq<Record>)
    ensures |s| == n
    ensures forall k :: 0 <= k < n ==> s[k] == Record(image, c)
  {
    seq(n, _ => Record(image, c))
  }

  /** n records labelled c count n times for c and never for another label. */
  lemma {:induction false} CountUniform(n: nat, image: Features, c: nat, d: nat)
    ensures CountLabel(Uniform(n, image, c), d) == if c == d then n else 0
  {
    if n > 0 {
      assert Uniform(n, image, c)[..n - 1] == Uniform(n - 1, image, c);
      CountUniform(n - 1, image, c, d);
    }
  }

  /** The training set: ten cats (label 0), then two dogs (label 1). */
  function Pets(image: Features): seq<Record> {
    Uniform(10, image, 0) + Uniform(2, image, 1)
  }

  /** Its census reports ten cats and two dogs. */
  lemma PetsCensus(image: Features)
    ensures Census.AllDecode(["cat", "dog"], Pets(image))
    ensures CountLabel(Pets(image), 0) == 10 && CountLabel(Pets(image), 1) == 2
    ensures Census.InfosOf(["cat", "dog"], Census.Tally(["cat", "dog"], Pets(image)))
            == [TargetScenarios.Cat, TargetScenarios.Dog]
  {
    var catalog := ["cat", "dog"];
    var train := Pets(image);
    forall d | d == 0 || d == 1 ensures CountLabel(train, d) == if d == 0 then 10 else 2 {
      CountLabelAppend(Uniform(10, image, 0), Uniform(2, image, 1), d);
      CountUniform(10, image, 0, d);
      CountUniform(2, image, 1, d);
    }
    assert Census.AllDecode(catalog, train) by {
      forall k | 0 <= k < |train| ensures Census.Decodes(catalog, train[k]) {
        if k >= 10 {
          assert train[k] == Uniform(2, image, 1)[k - 10];
        }
      }
    }
    var counts := Census.Tally(catalog, train);
    Census.TallyCounts(catalog, train, 0);
    Census.TallyCounts(catalog, train, 1);
    var infos := Census.InfosOf(catalog, counts);
    assert infos == [infos[0], infos[1]];
  }

  /** The records added to the second of two classes are among those the run
      added. */
  lemma SecondAdded(synthesized: seq<seq<Record>>)
    requires |synthesized| == 2
    ensures |Flatten(synthesized)| >= |synthesized[1]|
  {
  }

  /** Without a bound, dog is brought up to cat's ten: the written training set
      holds at least twenty records. */
  method AutoRun(image: Features, flow: Synthesis.Flow, draw: nat -> nat) returns (size: nat)
    requires Synthesis.WellBehaved(flow)
    ensures size >= 20
  {
    var catalog := ["cat", "dog"];
    PetsCensus(image);
    assert Distinct(catalog);
    var r := Balance.Run(catalog, Pets(image), None, flow, draw);
    assert forall c :: 0 <= c < |catalog| ==> CountLabel(Pets(image), c) > 0;
    TargetScenarios.AutoScenario(r.value.plan);
    var dog := r.value.synthesized[1];
    assert Balance.Passed(catalog, flow, 1, Pets(image) + Flatten(r.value.synthesized[..1]),
                          r.value.plan.classes[1], dog);
    SecondAdded(r.value.synthesized);
    size := |r.value.train|;
  }

  /** With the bound five, cat is left as it is and dog is brought up to five:
      the written training set holds at least fifteen records. */
  method BoundRun(image: Features, flow: Synthesis.Flow, draw: nat -> nat) returns (size: nat)
    requires Synthesis.WellBehaved(flow)
    ensures size >= 15
  {
    var catalog := ["cat", "dog"];
    PetsCensus(image);
    assert Distinct(catalog);
    var r := Balance.Run(catalog, Pets(image), Some(5), flow, draw);
    assert forall c :: 0 <= c < |catalog| ==> CountLabel(Pets(image), c) > 0;
    TargetScenarios.BoundScenario(r.value.plan);
    var dog := r.value.synthesized[1];
    assert Balance.Passed(catalog, flow, 1, Pets(image) + Flatten(r.value.synthesized[..1]),
                          r.value.plan.classes[1], dog);
    SecondAdded(r.value.synthesized);
    size := |r.value.train|;
  }
}
