/** Target policy: order the census by occurrences, largest first, pick the
    target count and give every class its deviation from it. */
module TargetPolicy {
  import opened Dataset

  predicate Descending(s: seq<ClassInfo>) {
    forall i, j :: 0 <= i < j < |s| ==> s[i].occurrences >= s[j].occurrences
  }

  /** Places `x` in front of the first entry it is not smaller than; an entry
      that came earlier stays ahead of later ones with the same count. */
  function Insert(x: ClassInfo, t: seq<ClassInfo>): (r: seq<ClassInfo>)
    ensures multiset(r) == multiset(t) + multiset{x}
  {
    if t == [] || x.occurrences >= t[0].occurrences then [x] + t
    else
      assert t == [t[0]] + t[1..];
      [t[0]] + Insert(x, t[1..])
  }

  lemma {:induction false} InsertDescending(x: ClassInfo, t: seq<ClassInfo>)
    requires Descending(t)
    ensures Descending(Insert(x, t))
  {
    if t != [] && x.occurrences < t[0].occurrences {
      var rest := Insert(x, t[1..]);
      InsertDescending(x, t[1..]);
      // the head of rest is x or t[1], neither larger than t[0]
      assert rest[0].occurrences <= t[0].occurrences by {
        if |t| > 1 && x.occurrences < t[1].occurrences {
          assert rest[0] == t[1];
        }
      }
      var s := [t[0]] + rest;
      forall i, j | 0 <= i < j < |s| ensures s[i].occurrences >= s[j].occurrences {
        if i == 0 {
          assert s[j] == rest[j - 1];
          assert rest[0].occurrences >= rest[j - 1].occurrences;
        } else {
          assert s[i] == rest[i - 1] && s[j] == rest[j - 1];
        }
      }
      assert Insert(x, t) == s;
    }
  }

  /** `sorted(class_infos, key=occurrences, reverse=True)`: a rearrangement
      of the entries with the counts non-increasing. */
  function SortDescending(s: seq<ClassInfo>): (r: seq<ClassInfo>)
    ensures multiset(r) == multiset(s)
    ensures Descending(r)
  {
    if s == [] then []
    else
      assert s == [s[0]] + s[1..];
      var rest := SortDescending(s[1..]);
      InsertDescending(s[0], rest);
      Insert(s[0], rest)
  }

  /** A class entry once its deviation has been written into it. */
  datatype Planned = Planned(info: ClassInfo, deviation: int)

  /** The target policy's outcome: the classes in reporting order, the target
      (`max_occurances`) and the smallest count (`min_occurances`). */
  datatype Plan = Plan(classes: seq<Planned>, target: int, minOccurrences: nat)

  function InfosOfPlan(classes: seq<Planned>): (infos: seq<ClassInfo>)
    ensures |infos| == |classes|
    ensures forall i :: 0 <= i < |classes| ==> infos[i] == classes[i].info
  {
    seq(|classes|, i requires 0 <= i < |classes| => classes[i].info)
  }

  /** What the policy promises about `p` for the census `infos` and the
      optional `upperBound`. */
  ghost predicate PlanFor(p: Plan, infos: seq<ClassInfo>, upperBound: Option<int>) {
    // the classes are the census entries, largest count first
    && multiset(InfosOfPlan(p.classes)) == multiset(infos)
    && Descending(InfosOfPlan(p.classes))
    // with a bound the target is the bound, otherwise the largest count
    && (upperBound.Some? ==> p.target == upperBound.value)
    && (upperBound.None? ==>
          (forall i :: 0 <= i < |infos| ==> infos[i].occurrences <= p.target)
          && (exists i :: 0 <= i < |infos| && infos[i].occurrences == p.target))
    // the reported minimum is the smallest count
    && (forall i :: 0 <= i < |infos| ==> p.minOccurrences <= infos[i].occurrences)
    && (exists i :: 0 <= i < |infos| && infos[i].occurrences == p.minOccurrences)
    // every class is given its distance to the target
    && (forall i :: 0 <= i < |p.classes| ==>
          p.classes[i].deviation == p.target - p.classes[i].info.occurrences)
  }

  /** Lines 51-59: sort, choose the target, then write each deviation. An empty
      catalog has no first or last entry to read. */
  method Decide(infos: seq<ClassInfo>, upperBound: Option<int>) returns (r: Result<Plan>)
    ensures r.Err? <==> infos == []
    ensures r.Err? ==> r.error == EmptyCatalog
    ensures r.Ok? ==> PlanFor(r.value, infos, upperBound)
  {
    var sorted := SortDescending(infos);
    if |sorted| == 0 {
      return Err(EmptyCatalog);
    }
    SortedBounds(infos, sorted);
    var target := match upperBound
      case None => sorted[0].occurrences
      case Some(bound) => bound;
    var minOccurrences := sorted[|sorted| - 1].occurrences;
    var classes: seq<Planned> := [];
    var i := 0;
    while i < |sorted|
      invariant 0 <= i <= |sorted|
      invariant |classes| == i
      invariant forall k :: 0 <= k < i ==> classes[k] == Planned(sorted[k], target - sorted[k].occurrences)
    {
      classes := classes + [Planned(sorted[i], target - sorted[i].occurrences)];
      i := i + 1;
    }
    assert InfosOfPlan(classes) == sorted;
    r := Ok(Plan(classes, target, minOccurrences));
    var first := PositionIn(infos, sorted, 0);
    var last := PositionIn(infos, sorted, |sorted| - 1);
    assert upperBound.None? ==> infos[first].occurrences == target;
    assert infos[last].occurrences == minOccurrences;
  }

  /** The first and last entries of a descending rearrangement bound every
      count from above and below. */
  lemma SortedBounds(infos: seq<ClassInfo>, sorted: seq<ClassInfo>)
    requires multiset(sorted) == multiset(infos) && Descending(sorted) && sorted != []
    ensures forall i :: 0 <= i < |infos| ==>
      sorted[|sorted| - 1].occurrences <= infos[i].occurrences <= sorted[0].occurrences
  {
    forall i | 0 <= i < |infos|
      ensures sorted[|sorted| - 1].occurrences <= infos[i].occurrences <= sorted[0].occurrences
    {
      assert infos[i] in multiset(sorted);
      var j :| 0 <= j < |sorted| && sorted[j] == infos[i];
    }
  }

  /** A census position holding entry j of the rearrangement. */
  lemma PositionIn(infos: seq<ClassInfo>, sorted: seq<ClassInfo>, j: nat) returns (i: nat)
    requires multiset(sorted) == multiset(infos) && j < |sorted|
    ensures i < |infos| && infos[i] == sorted[j]
  {
    assert sorted[j] in multiset(infos);
    i :| 0 <= i < |infos| && infos[i] == sorted[j];
  }

  /** Without a bound no class lies above the target, and the first class in
      reporting order, a largest one, lies exactly on it. */
  lemma AutoTargetDeviations(p: Plan, infos: seq<ClassInfo>)
    requires PlanFor(p, infos, None) && infos != []
    ensures forall i :: 0 <= i < |p.classes| ==> p.classes[i].deviation >= 0
    ensures |p.classes| > 0 && p.classes[0].deviation == 0
  {
    var classes := InfosOfPlan(p.classes);
    forall i | 0 <= i < |p.classes| ensures p.classes[i].deviation >= 0 {
      assert classes[i] in multiset(infos);
    }
    var m :| 0 <= m < |infos| && infos[m].occurrences == p.target;
    assert infos[m] in multiset(classes);
    var j :| 0 <= j < |classes| && classes[j] == infos[m];
    assert classes[0].occurrences >= classes[j].occurrences;
  }

  /** A class below the target is short of it by exactly its deviation, and a
      class at or above the target has nothing to make up. */
  lemma DeviationCoversTarget(p: Plan, infos: seq<ClassInfo>, upperBound: Option<int>, i: nat)
    requires PlanFor(p, infos, upperBound) && i < |p.classes|
    ensures p.classes[i].info.occurrences + (if p.classes[i].deviation > 0 then p.classes[i].deviation else 0) >= p.target
    ensures p.classes[i].info.occurrences >= p.target ==> p.classes[i].deviation <= 0
  {
  }
}

/** The two reference scenarios of the rebalancer: a catalog of "cat" and "dog"
    with ten cat records and two dog records. */
module TargetScenarios {
  import opened Dataset
  import opened TargetPolicy

  const Cat := ClassInfo("cat", 10)
  const Dog := ClassInfo("dog", 2)

  /** Any plan for this census lists cat before dog. */
  lemma CatFirst(p: Plan, upperBound: Option<int>)
    requires PlanFor(p, [Cat, Dog], upperBound)
    ensures |p.classes| == 2 && p.classes[0].info == Cat && p.classes[1].info == Dog
  {
    var s := InfosOfPlan(p.classes);
    assert |s| == |multiset(s)| == |multiset([Cat, Dog])| == 2;
    assert s == [s[0], s[1]];
    assert s[0] in multiset([Cat, Dog]) && s[1] in multiset([Cat, Dog]);
  }

  /** Without a bound the target is ten: cat lacks nothing, dog lacks eight. */
  lemma AutoScenario(p: Plan)
    requires PlanFor(p, [Cat, Dog], None)
    ensures p.target == 10 && p.minOccurrences == 2
    ensures p.classes == [Planned(Cat, 0), Planned(Dog, 8)]
  {
    CatFirst(p, None);
    var i :| 0 <= i < 2 && [Cat, Dog][i].occurrences == p.target;
    var m :| 0 <= m < 2 && [Cat, Dog][m].occurrences == p.minOccurrences;
    assert [Cat, Dog][0].occurrences <= p.target;
    assert p.minOccurrences <= [Cat, Dog][1].occurrences;
  }

  /** With the bound five, cat lies five above it and dog three below. */
  lemma BoundScenario(p: Plan)
    requires PlanFor(p, [Cat, Dog], Some(5))
    ensures p.target == 5 && p.minOccurrences == 2
    ensures p.classes == [Planned(Cat, -5), Planned(Dog, 3)]
  {
    CatFirst(p, Some(5));
    var m :| 0 <= m < 2 && [Cat, Dog][m].occurrences == p.minOccurrences;
    assert p.minOccurrences <= [Cat, Dog][1].occurrences;
  }
}
