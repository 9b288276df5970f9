/** Sample synthesizer: for one class, select its images, pair them with
    copies of its label, and collect augmented records from the augmentation
    engine's endless stream of batches until there are enough. */
module Synthesis {
  import opened Dataset

  /** `batch_size` handed to the augmentation engine. */
  const BatchSize: nat := 32

  /** The augmentation engine (`datagen.flow`). `flow(call, images, labels, k)`
      is batch k of the stream opened by the call-th invocation, already split
      into records (`X_batch[idx].flatten()` paired with `y_batch[idx]`). */
  type Flow = (nat, seq<Features>, seq<nat>, nat) -> seq<Record>

  /** What the engine guarantees once it has accepted its input (a non-empty
      image batch with one label row per image): every batch holds between one
      and BatchSize samples, and every sample carries one of the labels it was
      given. */
  ghost predicate WellBehaved(flow: Flow) {
    && (forall call, images, labels, k ::
          |images| > 0 && |labels| == |images| ==> 0 < |flow(call, images, labels, k)| <= BatchSize)
    && (forall call, images, labels, k, i ::
          0 <= i < |flow(call, images, labels, k)| ==> flow(call, images, labels, k)[i].classIndex in labels)
  }

  /** An engine that replays its input one sample per batch, cycling through
      the images. */
  function Replay(call: nat, images: seq<Features>, labels: seq<nat>, k: nat): seq<Record> {
    if |images| > 0 && |labels| == |images| then [Record(images[k % |images|], labels[k % |images|])]
    else []
  }

  /** The assumptions made of the engine can be met: the replaying engine meets
      them. */
  lemma ReplayWellBehaved()
    ensures WellBehaved(Replay)
  {
  }

  /** The first n batches of a stream, appended one after the other. */
  function Drawn(batch: nat -> seq<Record>, n: nat): seq<Record> {
    if n == 0 then [] else Drawn(batch, n - 1) + batch(n - 1)
  }

  /** If every batch holds only records labelled c, so do any of them drawn. */
  lemma {:induction false} DrawnLabels(batch: nat -> seq<Record>, n: nat, c: nat)
    requires forall k, i :: 0 <= i < |batch(k)| ==> batch(k)[i].classIndex == c
    ensures forall i :: 0 <= i < |Drawn(batch, n)| ==> Drawn(batch, n)[i].classIndex == c
  {
    if n > 0 {
      DrawnLabels(batch, n - 1, c);
      var front := Drawn(batch, n - 1);
      forall i | 0 <= i < |Drawn(batch, n)| ensures Drawn(batch, n)[i].classIndex == c {
        if i >= |front| {
          assert Drawn(batch, n)[i] == batch(n - 1)[i - |front|];
        }
      }
    }
  }

  /** What the loop of lines 80-98 ends up holding when it has collected
      `acc` from the batches before batch k: it appends batch k while it holds
      fewer than `howMany` records, and stops as soon as it holds enough. An
      empty batch, which a well-behaved engine never produces, ends the
      collection here. */
  ghost function Collect(batch: nat -> seq<Record>, howMany: int, acc: seq<Record>, k: nat): seq<Record>
    decreases howMany - |acc|
  {
    if |acc| >= howMany || batch(k) == [] then acc
    else Collect(batch, howMany, acc + batch(k), k + 1)
  }

  /** The stream of `batch` yields `data` for the request `howMany`. */
  ghost predicate Yields(batch: nat -> seq<Record>, howMany: int, data: seq<Record>) {
    data == Collect(batch, howMany, [], 0)
  }

  /** Lines 80-98. A batch is pulled, and only then is the count checked; so
      the loop stops at the first batch boundary with at least `howMany`
      records and discards the batch pulled last. `used` is the number of
      batches appended. */
  method Accumulate(howMany: int, batch: nat -> seq<Record>) returns (newData: seq<Record>, used: nat)
    requires forall k :: |batch(k)| > 0
    ensures Yields(batch, howMany, newData)
    ensures newData == Drawn(batch, used)
    ensures |newData| >= howMany
    ensures forall j :: 0 <= j < used ==> |Drawn(batch, j)| < howMany
    ensures newData == [] <==> howMany <= 0
    ensures used > 0 ==> |newData| - |batch(used - 1)| < howMany
  {
    newData, used := [], 0;
    while true
      invariant newData == Drawn(batch, used)
      invariant Collect(batch, howMany, newData, used) == Collect(batch, howMany, [], 0)
      invariant forall j :: 0 <= j < used ==> |Drawn(batch, j)| < howMany
      invariant used > 0 ==> |newData| > 0
      decreases howMany - |newData|
    {
      var samples := batch(used);
      if |newData| >= howMany {
        break;
      }
      newData := newData + samples;
      used := used + 1;
    }
  }

  /** For a stream without empty batches, what it yields is its content up to
      the first batch boundary at which at least `howMany` records have been
      drawn. */
  lemma YieldsFirstBoundary(batch: nat -> seq<Record>, howMany: int, data: seq<Record>)
    requires forall k :: |batch(k)| > 0
    requires Yields(batch, howMany, data)
    ensures FirstBoundary(batch, howMany, data)
  {
    var n := 0;
    while |Drawn(batch, n)| < howMany
      invariant Collect(batch, howMany, Drawn(batch, n), n) == data
      invariant forall j :: 0 <= j < n ==> |Drawn(batch, j)| < howMany
      decreases howMany - |Drawn(batch, n)|
    {
      n := n + 1;
    }
  }

  /** `data` is what the stream holds up to its first batch boundary at which
      at least `howMany` records have been drawn. */
  ghost predicate FirstBoundary(batch: nat -> seq<Record>, howMany: int, data: seq<Record>) {
    exists n: nat :: data == Drawn(batch, n) && |data| >= howMany
                     && forall j :: 0 <= j < n ==> |Drawn(batch, j)| < howMany
  }

  /** The stream that `datagen.flow(images, labels, batch_size)` opens. */
  function Stream(flow: Flow, call: nat, images: seq<Features>, labels: seq<nat>): nat -> seq<Record> {
    (k: nat) => flow(call, images, labels, k)
  }

  /** The images of the records labelled `hot`, in training order (line 75). */
  function SourceImages(train: seq<Record>, hot: nat): (images: seq<Features>)
    ensures |images| == CountLabel(train, hot)
    ensures forall k :: 0 <= k < |train| && train[k].classIndex == hot ==> train[k].features in images
    ensures forall x :: x in images ==>
              exists k :: 0 <= k < |train| && train[k].classIndex == hot && train[k].features == x
  {
    if train == [] then []
    else
      var last := train[|train| - 1];
      SourceImages(train[..|train| - 1], hot) + (if last.classIndex == hot then [last.features] else [])
  }

  /** `np.tile(hot_class, reps=(occurrences, 1))`: one label row per counted
      occurrence. */
  function LabelRows(hot: nat, occurrences: nat): (labels: seq<nat>)
    ensures |labels| == occurrences
    ensures forall i :: 0 <= i < |labels| ==> labels[i] == hot
  {
    seq(occurrences, _ => hot)
  }

  /** Lines 69-98 for one class. The engine checks its input when the stream is
      opened: image and label batches of different lengths are refused first,
      then an empty image batch. `call` numbers the streams opened so far. */
  method SynthesizeClass(catalog: seq<string>, train: seq<Record>, info: ClassInfo, deviation: int,
                         call: nat, flow: Flow)
    returns (r: Result<seq<Record>>)
    requires info.name in catalog
    requires WellBehaved(flow)
    ensures var images := CountLabel(train, IndexOf(catalog, info.name));
            r.Err? <==> images != info.occurrences || images == 0
    ensures r.Err? ==> r.error == (if CountLabel(train, IndexOf(catalog, info.name)) != info.occurrences
                                   then LabelCountMismatch(info.name) else EmptySource(info.name))
    ensures r.Ok? ==> Yields(Stream(flow, call, SourceImages(train, IndexOf(catalog, info.name)),
                                    LabelRows(IndexOf(catalog, info.name), info.occurrences)),
                             deviation, r.value)
    ensures r.Ok? ==> FirstBoundary(Stream(flow, call, SourceImages(train, IndexOf(catalog, info.name)),
                                           LabelRows(IndexOf(catalog, info.name), info.occurrences)),
                                    deviation, r.value)
    ensures r.Ok? ==> |r.value| >= deviation
    ensures r.Ok? ==> (r.value == [] <==> deviation <= 0)
    ensures r.Ok? && r.value != [] ==> |r.value| < deviation + BatchSize
    ensures r.Ok? ==> forall i :: 0 <= i < |r.value| ==> r.value[i].classIndex == IndexOf(catalog, info.name)
  {
    var hot := IndexOf(catalog, info.name);
    var howMany := deviation;
    var images := SourceImages(train, hot);
    var labels := LabelRows(hot, info.occurrences);
    if |images| != |labels| {
      return Err(LabelCountMismatch(info.name));
    }
    if |images| == 0 {
      return Err(EmptySource(info.name));
    }
    var batch := Stream(flow, call, images, labels);
    assert forall k :: |batch(k)| > 0 by {
      forall k ensures |batch(k)| > 0 {
        assert batch(k) == flow(call, images, labels, k);
      }
    }
    var newData, used := Accumulate(howMany, batch);
    DrawnLabels(batch, used, hot);
    return Ok(newData);
  }
}
