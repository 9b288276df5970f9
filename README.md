# Dataset rebalancer of CROHME_extractor, modelled in Dafny

`balance.py` evens out the classes of an extracted training set of
handwritten-symbol images. It counts how many training records each class of
the catalog (`classes.txt`) has, picks a target count (the largest class, or a
user-given upper bound), writes each class's deviation from that target, lets
an image augmentation engine (Keras' `ImageDataGenerator.flow`) produce new
records for every class until its deviation is covered, appends them to the
training list and shuffles it.

The model follows the script phase by phase:

- `Dataset` (`dataset.dfy`): records, census entries, errors, `classes.index`.
- `Census` (`census.dfy`): the counting loop of lines 40-48.
- `TargetPolicy` (`target.dfy`): the descending sort, the target and the
  deviation loop of lines 51-59; `TargetScenarios` works through the
  "cat"/"dog" example in auto mode and with bound 5; `RunScenarios`
  (`scenario.dfy`) runs the whole script on it.
- `Synthesis` (`synthesis.dfy`): one class's synthesis, lines 69-100, with the
  engine as a parameter and the batch loop as a `while` loop.
- `Merger` (`merge.dfy`): Python's in-place Fisher-Yates `shuffle`.
- `Balance` (`balance.dfy`): the whole script, lines 40-106.

Abstractions:

- A record is its opaque image plus the catalog position its one-hot label
  marks (`classIndex`). A label that decodes to no catalog entry is a position
  outside the catalog.
- Decoding a label gives a name, and `classes.index` finds that name's first
  position (`Census.CounterOf`). `one_hot.encode(name)` is taken to give the
  label of that same first position (`Balance.Hot`). With distinct catalog
  names both are the identity; the model also covers repeated names.
- The engine is a function `flow(call, images, labels, k)` giving batch `k` of
  the stream opened by the `call`-th `flow` invocation. `Synthesis.WellBehaved`
  is what the model assumes of it: for a non-empty image batch, every batch has
  1 to 32 records, and every produced record carries one of the given labels.
  The engine is also taken to check its input when the stream is opened. It
  refuses images and labels of different lengths (`LabelCountMismatch`), and
  then an empty image list, which `np.asarray([])` turns into an array of the
  wrong rank (`EmptySource`).
- The shuffle's random choices are a parameter `draw`, used as `j = draw(i) %
  (i + 1)`, which is exactly what `random.shuffle` does with `randbelow(i + 1)`.
- The reported numbers are return values. The plan holds the target
  (`max_occurances`), the minimum (`min_occurances`) and each class's
  deviation. The requested and produced counts are each class's deviation and
  `|synthesized[i]|`, and the new training size is `|train|`.

Behaviour of the code that the model keeps:

- `datagen.flow` is opened for every class (line 81), also for a class whose
  deviation is 0 or less. So a class with no records stops the run even when
  it needs no new records, for example every class of an empty training set
  (`Synthesis.SynthesizeClass`, `Balance.Run`).
- The upper bound is converted with `int(...)` and never range-checked (line
  55), so any integer is accepted, including 0 or less; every deviation is then
  0 or less. An empty bound string is falsy (line 52) and counts as no bound.
- The balance ratio is the constant 1.0 (line 24), so the requested count is
  exactly the deviation.
- The training list grows inside the class loop (line 102), so later classes
  select their images from the grown list. The model does the same.
  `Balance.CountUnchanged` shows that this changes nothing when class names are
  distinct.

## Model

| member | source | states |
|---|---|---|
| Dataset.IndexOf | balance.py:46 | the result is the first catalog position holding the name |
| Census.CounterOf | balance.py:44-46 | the counter a decodable record increments is a catalog position whose name is the record's decoded class; with distinct names it is the record's own label |
| Census.Tally | balance.py:41-48 | the census keeps exactly one counter per catalog entry |
| Census.TallyTotal | balance.py:43-48 | each record increments exactly one counter, so the counters sum to the number of training records |
| Census.TallyCounts | balance.py:43-48 | with distinct catalog names, counter c equals the number of records labelled c |
| Census.InfosOf | balance.py:41-48 | the reported census has one entry per catalog name, entry i holding catalog name i with counter i |
| Census.Run | balance.py:40-48 | succeeds exactly when every label decodes; otherwise reports the first record whose label does not; on success entry i is catalog[i] with its counter |
| TargetPolicy.Insert | balance.py:51 | inserting keeps every entry and adds the new one, as multisets |
| TargetPolicy.InsertDescending | balance.py:51 | inserting into a list in non-increasing order keeps it in that order |
| TargetPolicy.SortDescending | balance.py:51 | the sorted list is a permutation of the census with non-increasing occurrences |
| TargetPolicy.SortedBounds | balance.py:51-57 | after the sort the first entry holds the largest count and the last the smallest |
| TargetPolicy.Decide | balance.py:51-59 | fails exactly on an empty catalog; otherwise the classes are the census sorted by count, the target is the bound if one is given and the largest count if not, the minimum is the smallest count, and every deviation is target minus occurrences |
| TargetPolicy.AutoTargetDeviations | balance.py:52-59 | without a bound no deviation is negative and the first, majority class has deviation 0 |
| TargetPolicy.DeviationCoversTarget | balance.py:58-59 | occurrences plus the positive part of the deviation reach the target, and a class at or above the target has deviation 0 or less |
| TargetScenarios.CatFirst | balance.py:51 | for 10 "cat" and 2 "dog" records the plan lists cat before dog, with or without a bound |
| TargetScenarios.AutoScenario | balance.py:51-59 | for 10 "cat" and 2 "dog" records without a bound the target is 10 and the deviations are cat 0, dog 8 |
| TargetScenarios.BoundScenario | balance.py:54-59 | for the same census with bound 5 the target is 5 and the deviations are cat -5, dog 3 |
| Synthesis.WellBehaved | balance.py:81 | what is assumed of the engine: given a non-empty image batch with one label row per image, every batch holds 1 to 32 records, and every record it produces carries one of the labels it was given |
| Synthesis.ReplayWellBehaved | balance.py:81 | the assumption on the engine can be met: an engine that replays its input one sample per batch meets it |
| Synthesis.Stream | balance.py:81 | the stream opened by the call-th `flow` invocation: its batch k is the engine's batch k for these images and labels |
| Synthesis.DrawnLabels | balance.py:96-98 | if every batch is labelled c, every accumulated record is labelled c |
| Synthesis.Accumulate | balance.py:80-98 | the result is what the loop yields from the stream for the request (it appends whole batches while it holds fewer records than requested); it is the first whole batches of the stream, up to the first batch boundary where at least as many records as requested have been collected; it is empty exactly when nothing was requested, and without its last batch it is short of the request |
| Synthesis.YieldsFirstBoundary | balance.py:80-98 | for a stream without empty batches, what the loop yields is the stream up to its first batch boundary with at least the requested number of records |
| Synthesis.SourceImages | balance.py:75 | the selected images are one per record carrying the class's label: as many images as such records, the image of every such record is among them, and every image is that of such a record |
| Synthesis.LabelRows | balance.py:76 | the label batch has one row per counted occurrence, each the class's label |
| Synthesis.SynthesizeClass | balance.py:68-100 | fails exactly when the image count differs from the occurrence count (reported first) or is zero; otherwise returns exactly what the stream opened over the class's images and label rows yields for its deviation: the records up to the first sufficient batch boundary, at least the deviation, none when the deviation is 0 or less, less than one batch beyond the deviation, all carrying the class's label |
| Merger.Shuffle | balance.py:106 | the shuffled array is a permutation of the original |
| Balance.Hot | balance.py:70 | the label a class is encoded as is a catalog position holding its name |
| Balance.CountUnchanged | balance.py:75-102 | with distinct classes, records appended for earlier classes do not change the image count of the next class |
| Balance.DistinctSeparated | balance.py:44-76 | with distinct catalog names, every planned class's image count equals its census count and no two classes share a label |
| Balance.PlannedPass | balance.py:69-100 | a planned class's pass over the current training list either passed (the class had as many images as occurrences, at least one, and received at least its deviation, nothing when it has none, less than one batch more, all with its label, and exactly what its own stream yields) or was refused because its image count differs from its occurrences or is zero, with that error |
| Balance.ClassPass | balance.py:68-102 | the pass for the next class after the classes before it passed: on success the classes so far, this one included, have all passed, each over the list grown by those before it, and the grown list is the training list plus all their records; on failure it is a refusal after the earlier classes passed |
| Balance.EndedStep | balance.py:68-102 | a pass that ended for the next class extends the progress and appends its records to the grown list, or is a refusal after the earlier classes passed |
| Balance.ProgressAt | balance.py:68-102 | in a list of passes in progress, class i passed over the training list grown by the records of classes 0 to i-1, as the i-th stream opened |
| Balance.Finished | balance.py:68-102 | when every class has been served, each one passed over the list grown by the classes before it |
| Balance.SynthesizeAll | balance.py:68-102 | on success every class passed in order, each over the training list grown by the classes before it: it had occurrences, received records meeting its deviation and carrying its label, and received what its own stream yields; on failure the classes before the refused one passed and the refused class's image count was wrong or zero, with the matching error |
| Balance.RefusedSeparated | balance.py:75-102 | with distinct classes a refusal is never a length mismatch: the refused class has no records |
| Balance.NoEmptyClass | balance.py:41-76 | with distinct catalog names, every planned class has occurrences exactly when every catalog label appears in the training set |
| Balance.ShuffleAll | balance.py:104-106 | the written training list is a permutation of the grown list |
| Balance.Run | balance.py:40-106 | an undecodable label or an empty catalog is reported as such; on success the plan is the sorted census with its target and deviations, and class i had records, got at least its deviation (nothing if none, less than one batch more), all with its label, exactly as yielded by the i-th stream opened over the training list grown by classes 0 to i-1; the final training set is the original plus all new records as a multiset; with distinct names it never reports a length mismatch and fails only when some class has no records |
| RunScenarios.CountUniform | balance.py:43-48 | n records with one label are counted n times for that label and never for another |
| RunScenarios.PetsCensus | balance.py:40-48 | the census of 10 "cat" records and 2 "dog" records reports cat 10 and dog 2 |
| RunScenarios.AutoRun | balance.py:40-108 | without a bound, the run over 10 cats and 2 dogs writes at least 20 training records |
| RunScenarios.BoundRun | balance.py:40-108 | with bound 5, the run over 10 cats and 2 dogs writes at least 15 training records |

## Left out

- Argument parsing and `int(...)` of the command-line strings (lines 17-22): the box size is unused by the model, and the upper bound is an `Option<int>`.
- Loading and writing the pickled training and test sets (lines 13-15, 27-31, 110-115): file I/O. The test set is only read and written back, so it is not modelled.
- The image transformations of `ImageDataGenerator` (lines 10, 37, 81): foreign image numerics, replaced by the `flow` parameter and the `WellBehaved` assumption.
- NumPy reshape, flatten, `array_equal` and `tile` on images (lines 75-76, 97): images are opaque and labels are class positions.
- The floating-point ratio `b_ratio = 1.0` and `round` (lines 24, 72): with ratio 1.0 the request is the integer deviation.
- `print` output and the commented-out plotting (lines 33-34, 61-66, 73, 82-91, 100, 105-108, 117): the printed numbers are return values instead.
- The `one_hot` module is not part of this model. It is assumed to be a bijection between labels and catalog positions.
- TargetPolicy.SortDescending: the contract states order and permutation only. It does not state that records with equal counts keep their catalog order, which Python's stable sort (and `Insert`) does. Synthesis does not depend on that order.
- Merger.Shuffle: states that the result is some permutation; that it is uniformly distributed is outside the model.
- Balance.Run: that the label rows always match the images, and that the run fails exactly when a class has no records, is proved only for catalogs with distinct names. With repeated names the model still runs the code's behaviour, but these two things are not stated.
