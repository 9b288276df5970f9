/** The rebalancing script from end to end: census, target policy, one
    synthesis pass per class in reporting order, then the shuffled merge. */
module Balance {
  import opened Dataset
  import Census
  import TargetPolicy
  import Synthesis
  import Merger

  /** What the script writes and reports. */
  datatype Outcome = Outcome(
    train: seq<Record>,            // the training set written back
    plan: TargetPolicy.Plan,       // reported distribution, target and minimum
    synthesized: seq<seq<Record>>) // `new_data` of each class, in reporting order

  /** Every class the policy plans for is a catalog entry with its census
      count; `c` is its catalog position. */
  lemma PlannedEntry(catalog: seq<string>, train: seq<Record>, plan: TargetPolicy.Plan,
                     upperBound: Option<int>, i: nat) returns (c: nat)
    requires Census.AllDecode(catalog, train)
    requires TargetPolicy.PlanFor(plan, Census.InfosOf(catalog, Census.Tally(catalog, train)), upperBound)
    requires i < |plan.classes|
    ensures c < |catalog|
    ensures plan.classes[i].info == ClassInfo(catalog[c], Census.Tally(catalog, train)[c])
  {
    c := TargetPolicy.PositionIn(Census.InfosOf(catalog, Census.Tally(catalog, train)),
                                 TargetPolicy.InfosOfPlan(plan.classes), i);
  }

  /** Every catalog entry is planned for at some position. */
  lemma CatalogPlanned(catalog: seq<string>, train: seq<Record>, plan: TargetPolicy.Plan,
                       upperBound: Option<int>, c: nat) returns (i: nat)
    requires Census.AllDecode(catalog, train)
    requires TargetPolicy.PlanFor(plan, Census.InfosOf(catalog, Census.Tally(catalog, train)), upperBound)
    requires c < |catalog|
    ensures i < |plan.classes|
    ensures plan.classes[i].info == ClassInfo(catalog[c], Census.Tally(catalog, train)[c])
  {
    var infos := Census.InfosOf(catalog, Census.Tally(catalog, train));
    var planInfos := TargetPolicy.InfosOfPlan(plan.classes);
    assert infos[c] in multiset(planInfos);
    i :| 0 <= i < |planInfos| && planInfos[i] == infos[c];
  }

  /** With a catalog of distinct names, two planned classes never share a
      label. */
  lemma PlannedDistinct(catalog: seq<string>, train: seq<Record>, plan: TargetPolicy.Plan,
                        upperBound: Option<int>, i: nat, j: nat)
    requires Census.AllDecode(catalog, train) && Distinct(catalog)
    requires TargetPolicy.PlanFor(plan, Census.InfosOf(catalog, Census.Tally(catalog, train)), upperBound)
    requires i < j < |plan.classes|
    ensures plan.classes[i].info.name != plan.classes[j].info.name
  {
    var infos := Census.InfosOf(catalog, Census.Tally(catalog, train));
    var planInfos := TargetPolicy.InfosOfPlan(plan.classes);
    assert Distinct(infos) by {
      forall a, b | 0 <= a < b < |infos| ensures infos[a] != infos[b] {
        assert infos[a].name == catalog[a] && infos[b].name == catalog[b];
      }
    }
    DistinctPermutation(infos, planInfos);
    var ci := PlannedEntry(catalog, train, plan, upperBound, i);
    var cj := PlannedEntry(catalog, train, plan, upperBound, j);
    if ci != cj {
      assert catalog[ci] != catalog[cj];
    }
  }

  /** Records appended for other classes leave a label's count unchanged. */
  lemma {:induction false} CountLabelFlattenAbsent(batches: seq<seq<Record>>, c: nat)
    requires forall j, k :: 0 <= j < |batches| && 0 <= k < |batches[j]| ==> batches[j][k].classIndex != c
    ensures CountLabel(Flatten(batches), c) == 0
  {
    var flat := Flatten(batches);
    forall k | 0 <= k < |flat| ensures flat[k].classIndex != c {
      FlattenFrom(batches, flat[k]);
    }
    CountLabelAbsent(flat, c);
  }

  /** The label a planned class is encoded as (`one_hot.encode`). */
  function Hot(catalog: seq<string>, p: TargetPolicy.Planned): (c: nat)
    requires p.info.name in catalog
    ensures c < |catalog| && catalog[c] == p.info.name
  {
    IndexOf(catalog, p.info.name)
  }

  ghost predicate InCatalog(catalog: seq<string>, classes: seq<TargetPolicy.Planned>) {
    forall i :: 0 <= i < |classes| ==> classes[i].info.name in catalog
  }

  /** Every class is counted as many times as it has records, and no two
      classes share a label: what a catalog of distinct names guarantees. */
  ghost predicate Separated(catalog: seq<string>, train: seq<Record>, classes: seq<TargetPolicy.Planned>)
    requires InCatalog(catalog, classes)
  {
    && (forall i :: 0 <= i < |classes| ==> CountLabel(train, Hot(catalog, classes[i])) == classes[i].info.occurrences)
    && (forall i, j :: 0 <= i < j < |classes| ==> Hot(catalog, classes[i]) != Hot(catalog, classes[j]))
  }

  /** What one synthesis pass promises about the records `made` for `p`. */
  ghost predicate ClassDelivered(catalog: seq<string>, p: TargetPolicy.Planned, made: seq<Record>)
    requires p.info.name in catalog
  {
    && |made| >= p.deviation
    && (made == [] <==> p.deviation <= 0)
    && (made != [] ==> |made| < p.deviation + Synthesis.BatchSize)
    && (forall k :: 0 <= k < |made| ==> made[k].classIndex == Hot(catalog, p))
  }

  /** `made` is what the engine's stream for `p` yields for its deviation. The
      stream is the `call`-th one opened, from the images of `p`'s label in
      `current` and one label row per counted occurrence. */
  ghost predicate FromEngine(catalog: seq<string>, flow: Synthesis.Flow, call: nat, current: seq<Record>,
                             p: TargetPolicy.Planned, made: seq<Record>)
  {
    && p.info.name in catalog
    && var hot := Hot(catalog, p);
       Synthesis.Yields(Synthesis.Stream(flow, call, Synthesis.SourceImages(current, hot),
                                         Synthesis.LabelRows(hot, p.info.occurrences)),
                        p.deviation, made)
  }

  /** A pass for `p` over the training list `current` that succeeded: the class
      had as many images as counted occurrences, at least one, and it received
      `made` from its stream. */
  ghost predicate Passed(catalog: seq<string>, flow: Synthesis.Flow, call: nat, current: seq<Record>,
                         p: TargetPolicy.Planned, made: seq<Record>)
  {
    && p.info.name in catalog
    && CountLabel(current, Hot(catalog, p)) == p.info.occurrences > 0
    && ClassDelivered(catalog, p, made)
    && FromEngine(catalog, flow, call, current, p, made)
  }

  /** The first |synthesized| classes passed, each over the training list as
      grown by the classes before it. */
  ghost predicate Progress(catalog: seq<string>, flow: Synthesis.Flow, train: seq<Record>,
                           classes: seq<TargetPolicy.Planned>, synthesized: seq<seq<Record>>)
    decreases |synthesized|
  {
    && |synthesized| <= |classes|
    && (synthesized != [] ==>
          var front := synthesized[..|synthesized| - 1];
          && Progress(catalog, flow, train, classes, front)
          && Passed(catalog, flow, |front|, train + Flatten(front), classes[|front|], synthesized[|synthesized| - 1]))
  }

  /** Class i of a list in progress passed over the list grown by the classes
      before it. */
  lemma {:induction false} ProgressAt(catalog: seq<string>, flow: Synthesis.Flow, train: seq<Record>,
                                      classes: seq<TargetPolicy.Planned>, synthesized: seq<seq<Record>>, i: nat)
    requires Progress(catalog, flow, train, classes, synthesized) && i < |synthesized|
    ensures i < |classes|
    ensures Passed(catalog, flow, i, train + Flatten(synthesized[..i]), classes[i], synthesized[i])
  {
    var front := synthesized[..|synthesized| - 1];
    if i < |front| {
      ProgressAt(catalog, flow, train, classes, front, i);
      assert front[..i] == synthesized[..i];
    }
  }

  /** Lines 69-100 for the planned class `p`: its label is the catalog
      position of its name, and the requested count is its deviation. */
  method PlannedPass(catalog: seq<string>, current: seq<Record>, p: TargetPolicy.Planned,
                     call: nat, flow: Synthesis.Flow)
    returns (r: Result<seq<Record>>)
    requires p.info.name in catalog
    requires Synthesis.WellBehaved(flow)
    ensures Ended(catalog, flow, call, current, p, r)
  {
    r := Synthesis.SynthesizeClass(catalog, current, p.info, p.deviation, call, flow);
  }

  /** The pass for the next class, after the classes before it passed and
      `current` grew by their records. */
  method ClassPass(catalog: seq<string>, flow: Synthesis.Flow, train: seq<Record>,
                   classes: seq<TargetPolicy.Planned>, synthesized: seq<seq<Record>>, current: seq<Record>)
    returns (r: Result<seq<Record>>)
    requires |synthesized| < |classes| && classes[|synthesized|].info.name in catalog
    requires Synthesis.WellBehaved(flow)
    requires Progress(catalog, flow, train, classes, synthesized)
    requires current == train + Flatten(synthesized)
    ensures r.Ok? ==> Progress(catalog, flow, train, classes, synthesized + [r.value])
    ensures r.Ok? ==> current + r.value == train + Flatten(synthesized + [r.value])
    ensures r.Err? ==> Refused(catalog, flow, train, classes, synthesized, r.error)
  {
    r := PlannedPass(catalog, current, classes[|synthesized|], |synthesized|, flow);
    EndedStep(catalog, flow, train, classes, synthesized, current, r);
  }

  /** A pass for the next class that succeeded extends the progress, and its
      records land at the end of the flattened list; one that failed is a
      refusal after the classes before it passed. */
  lemma EndedStep(catalog: seq<string>, flow: Synthesis.Flow, train: seq<Record>,
                  classes: seq<TargetPolicy.Planned>, synthesized: seq<seq<Record>>, current: seq<Record>,
                  r: Result<seq<Record>>)
    requires Progress(catalog, flow, train, classes, synthesized) && |synthesized| < |classes|
    requires classes[|synthesized|].info.name in catalog
    requires current == train + Flatten(synthesized)
    requires Ended(catalog, flow, |synthesized|, current, classes[|synthesized|], r)
    ensures r.Ok? ==> Progress(catalog, flow, train, classes, synthesized + [r.value])
    ensures r.Ok? ==> current + r.value == train + Flatten(synthesized + [r.value])
    ensures r.Err? ==> Refused(catalog, flow, train, classes, synthesized, r.error)
  {
    if r.Ok? {
      assert (synthesized + [r.value])[..|synthesized|] == synthesized;
    }
  }

  /** How a pass for `p` over `current` ends: it passed or was refused. */
  ghost predicate Ended(catalog: seq<string>, flow: Synthesis.Flow, call: nat, current: seq<Record>,
                          p: TargetPolicy.Planned, r: Result<seq<Record>>)
    requires p.info.name in catalog
  {
    && (r.Ok? ==> Passed(catalog, flow, call, current, p, r.value))
    && (r.Err? ==> Refusal(catalog, current, p, r.error))
  }

  /** The engine refuses the images and label rows of `p` selected from
      `current`: their counts differ (checked first) or there are no images. */
  ghost predicate Refusal(catalog: seq<string>, current: seq<Record>, p: TargetPolicy.Planned, e: Error)
    requires p.info.name in catalog
  {
    var n := CountLabel(current, Hot(catalog, p));
    && (n != p.info.occurrences || n == 0)
    && e == (if n != p.info.occurrences then LabelCountMismatch(p.info.name) else EmptySource(p.info.name))
  }

  /** The engine refused class |done| after the classes before it passed. */
  ghost predicate Refused(catalog: seq<string>, flow: Synthesis.Flow, train: seq<Record>,
                          classes: seq<TargetPolicy.Planned>, done: seq<seq<Record>>, e: Error)
  {
    && Progress(catalog, flow, train, classes, done)
    && |done| < |classes|
    && classes[|done|].info.name in catalog
    && Refusal(catalog, train + Flatten(done), classes[|done|], e)
  }

  /** Lines 68-102: one synthesis pass per class, in order, each appending its
      records to the training list before the next class selects its images.
      `done` is what the classes before a refused one received. */
  method SynthesizeAll(catalog: seq<string>, train: seq<Record>, classes: seq<TargetPolicy.Planned>,
                       flow: Synthesis.Flow)
    returns (r: Result<seq<seq<Record>>>, ghost done: seq<seq<Record>>)
    requires InCatalog(catalog, classes)
    requires Synthesis.WellBehaved(flow)
    ensures r.Ok? ==> |r.value| == |classes| && Progress(catalog, flow, train, classes, r.value)
    ensures r.Err? ==> Refused(catalog, flow, train, classes, done, r.error)
  {
    var current := train;
    var synthesized: seq<seq<Record>> := [];
    while |synthesized| < |classes|
      invariant Progress(catalog, flow, train, classes, synthesized)
      invariant current == train + Flatten(synthesized)
      decreases |classes| - |synthesized|
    {
      var made := ClassPass(catalog, flow, train, classes, synthesized, current);
      if made.Err? {
        return Err(made.error), synthesized;
      }
      synthesized := synthesized + [made.value];
      current := current + made.value;
    }
    return Ok(synthesized), synthesized;
  }

  /** Every class of a finished run passed: it had occurrences, received what
      it asked for, and received it from its own stream. */
  lemma Finished(catalog: seq<string>, flow: Synthesis.Flow, train: seq<Record>,
                 classes: seq<TargetPolicy.Planned>, synthesized: seq<seq<Record>>)
    requires Progress(catalog, flow, train, classes, synthesized) && |synthesized| == |classes|
    ensures forall i :: 0 <= i < |classes| ==>
              Passed(catalog, flow, i, train + Flatten(synthesized[..i]), classes[i], synthesized[i])
  {
    forall i | 0 <= i < |classes|
      ensures Passed(catalog, flow, i, train + Flatten(synthesized[..i]), classes[i], synthesized[i])
    {
      ProgressAt(catalog, flow, train, classes, synthesized, i);
    }
  }

  /** Under Separated the engine never refuses lengths: a refused class is one
      with no records at all. */
  lemma RefusedSeparated(catalog: seq<string>, flow: Synthesis.Flow, train: seq<Record>,
                         classes: seq<TargetPolicy.Planned>, done: seq<seq<Record>>, e: Error)
    requires InCatalog(catalog, classes) && Separated(catalog, train, classes)
    requires Refused(catalog, flow, train, classes, done, e)
    ensures e.EmptySource? && classes[|done|].info.occurrences == 0
  {
    CountUnchanged(catalog, flow, train, classes, done);
  }

  /** Under Separated, the records appended for the classes before position
      |synthesized| leave the count of the next class's label as it was. */
  lemma CountUnchanged(catalog: seq<string>, flow: Synthesis.Flow, train: seq<Record>,
                       classes: seq<TargetPolicy.Planned>, synthesized: seq<seq<Record>>)
    requires InCatalog(catalog, classes) && Separated(catalog, train, classes)
    requires |synthesized| < |classes| && Progress(catalog, flow, train, classes, synthesized)
    ensures CountLabel(train + Flatten(synthesized), Hot(catalog, classes[|synthesized|]))
            == classes[|synthesized|].info.occurrences
  {
    var hot := Hot(catalog, classes[|synthesized|]);
    forall j, k | 0 <= j < |synthesized| && 0 <= k < |synthesized[j]|
      ensures synthesized[j][k].classIndex != hot
    {
      ProgressAt(catalog, flow, train, classes, synthesized, j);
      assert synthesized[j][k].classIndex == Hot(catalog, classes[j]);
    }
    CountLabelFlattenAbsent(synthesized, hot);
    CountLabelAppend(train, Flatten(synthesized), hot);
  }

  /** Lines 104-106: the grown training list shuffled in place. */
  method ShuffleAll(records: seq<Record>, draw: nat -> nat) returns (shuffled: seq<Record>)
    ensures multiset(shuffled) == multiset(records)
    ensures |shuffled| == |records|
  {
    var a := new Record[|records|](k requires 0 <= k < |records| => records[k]);
    assert a[..] == records;
    Merger.Shuffle(a, draw);
    shuffled := a[..];
    assert |shuffled| == |multiset(shuffled)| == |multiset(records)| == |records|;
  }

  /** The script. `flow` is the augmentation engine and `draw` the random
      choices of the final shuffle. */
  method Run(catalog: seq<string>, train: seq<Record>, upperBound: Option<int>,
             flow: Synthesis.Flow, draw: nat -> nat)
    returns (r: Result<Outcome>)
    requires Synthesis.WellBehaved(flow)
    // a record whose label does not decode stops the census
    ensures (r.Err? && r.error.UnknownLabel?) <==> !Census.AllDecode(catalog, train)
    // an empty catalog has no largest or smallest class
    ensures r == Err(EmptyCatalog) <==> Census.AllDecode(catalog, train) && catalog == []
    ensures r.Ok? ==> Census.AllDecode(catalog, train)
    // the reported distribution is the census, ordered and measured against the target
    ensures r.Ok? ==> TargetPolicy.PlanFor(r.value.plan, Census.InfosOf(catalog, Census.Tally(catalog, train)), upperBound)
    ensures r.Ok? ==> |r.value.synthesized| == |r.value.plan.classes|
    // each class had records, received at least its deviation (nothing when it
    // has none, less than one more batch than it asked for), all with its
    // label, and received them from the stream opened for it over the
    // training list as grown by the classes before it
    ensures r.Ok? ==> forall i :: 0 <= i < |r.value.synthesized| ==>
              Passed(catalog, flow, i, train + Flatten(r.value.synthesized[..i]),
                     r.value.plan.classes[i], r.value.synthesized[i])
    // the written training set is the old one plus every new record, in some order
    ensures r.Ok? ==> multiset(r.value.train) == multiset(train) + multiset(Flatten(r.value.synthesized))
    ensures r.Ok? ==> |r.value.train| == |train| + |Flatten(r.value.synthesized)|
    // with distinct class names the label rows always match the images, and the
    // run fails exactly when some class has no image to augment
    ensures Distinct(catalog) ==> !(r.Err? && r.error.LabelCountMismatch?)
    ensures Distinct(catalog) && Census.AllDecode(catalog, train) && catalog != [] ==>
              (r.Ok? <==> forall c :: 0 <= c < |catalog| ==> CountLabel(train, c) > 0)
  {
    var census := Census.Run(catalog, train);
    if census.Err? {
      return Err(census.error);
    }
    var decided := TargetPolicy.Decide(census.value, upperBound);
    if decided.Err? {
      return Err(decided.error);
    }
    var plan := decided.value;
    var classes := plan.classes;
    PlanInCatalog(catalog, train, plan, upperBound);
    if Distinct(catalog) {
      DistinctSeparated(catalog, train, plan, upperBound);
      NoEmptyClass(catalog, train, plan, upperBound);
    }
    var made, done := SynthesizeAll(catalog, train, classes, flow);
    if made.Err? {
      if Distinct(catalog) {
        RefusedSeparated(catalog, flow, train, classes, done, made.error);
      }
      return Err(made.error);
    }
    Finished(catalog, flow, train, classes, made.value);
    var shuffled := ShuffleAll(train + Flatten(made.value), draw);
    return Ok(Outcome(shuffled, plan, made.value));
  }

  /** Every planned class is named in the catalog. */
  lemma PlanInCatalog(catalog: seq<string>, train: seq<Record>, plan: TargetPolicy.Plan, upperBound: Option<int>)
    requires Census.AllDecode(catalog, train)
    requires TargetPolicy.PlanFor(plan, Census.InfosOf(catalog, Census.Tally(catalog, train)), upperBound)
    ensures InCatalog(catalog, plan.classes)
  {
    forall i | 0 <= i < |plan.classes| ensures plan.classes[i].info.name in catalog {
      var c := PlannedEntry(catalog, train, plan, upperBound, i);
    }
  }

  /** With distinct catalog names, every planned class has an occurrence
      exactly when every catalog label appears in the training set. */
  lemma NoEmptyClass(catalog: seq<string>, train: seq<Record>, plan: TargetPolicy.Plan, upperBound: Option<int>)
    requires Census.AllDecode(catalog, train) && Distinct(catalog)
    requires TargetPolicy.PlanFor(plan, Census.InfosOf(catalog, Census.Tally(catalog, train)), upperBound)
    ensures (forall i :: 0 <= i < |plan.classes| ==> plan.classes[i].info.occurrences > 0)
            <==> (forall c :: 0 <= c < |catalog| ==> CountLabel(train, c) > 0)
  {
    if forall i :: 0 <= i < |plan.classes| ==> plan.classes[i].info.occurrences > 0 {
      forall c | 0 <= c < |catalog| ensures CountLabel(train, c) > 0 {
        var j := CatalogPlanned(catalog, train, plan, upperBound, c);
        Census.TallyCounts(catalog, train, c);
      }
    } else {
      var i :| 0 <= i < |plan.classes| && plan.classes[i].info.occurrences == 0;
      var c := PlannedEntry(catalog, train, plan, upperBound, i);
      Census.TallyCounts(catalog, train, c);
      assert !(CountLabel(train, c) > 0);
    }
  }

  lemma DistinctSeparated(catalog: seq<string>, train: seq<Record>, plan: TargetPolicy.Plan, upperBound: Option<int>)
    requires Census.AllDecode(catalog, train) && Distinct(catalog)
    requires TargetPolicy.PlanFor(plan, Census.InfosOf(catalog, Census.Tally(catalog, train)), upperBound)
    requires InCatalog(catalog, plan.classes)
    ensures Separated(catalog, train, plan.classes)
  {
    var classes := plan.classes;
    forall i | 0 <= i < |classes| ensures CountLabel(train, Hot(catalog, classes[i])) == classes[i].info.occurrences {
      var c := PlannedEntry(catalog, train, plan, upperBound, i);
      IndexOfDistinct(catalog, c);
      Census.TallyCounts(catalog, train, c);
    }
    forall i, j | 0 <= i < j < |classes| ensures Hot(catalog, classes[i]) != Hot(catalog, classes[j]) {
      PlannedDistinct(catalog, train, plan, upperBound, i, j);
    }
  }
}
