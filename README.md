# detectron2_ros: verified model of the detector's bookkeeping

The detector node (`scripts/detectron2_ros.py`) runs an instance-segmentation
predictor on each camera frame, prints how many objects of each class it saw,
and collects the bounding boxes and box centers of the instances it reports:
all of them when `visualization/all_classes` is set, otherwise only those of
class `visualization/target`. This project models that bookkeeping in Dafny
and proves what it computes.

- `labels.dfy`, module `Labels`: `remove_duplicates` as the pure function
  `RemoveDuplicates` (distinct labels in first-seen order, as listing a
  dictionary built from the labels gives), and `count_classes` as the method
  `CountClasses`, which keeps the source's nested loops, its `count`
  variable that is reset after every label, and its `[count, label]`
  entries (`Entry`). `CountClasses` is proved equal to the specification
  `Tally`, and the lemmas about `Tally` give the properties: one entry per
  distinct label, in de-duplicated order, each count the number of
  occurrences (at least 1), and the counts summing to the number of labels.
  In the source both helpers are methods of `Detector` that use no state;
  here they are module-level.
- `detection.dfy`, module `Detection`: the predictor's output for one frame
  as `Instances`, three parallel sequences (class index, box, center); the
  class-name lookup of line 59, with Python's negative indexing; the
  selection of reported instances (`Keep`, `Matching`, `Select`); and the
  class `Detector`. Its fields `bboxCoordinates` and `bboxCenters` are
  updated in place. `CleanOutput` keeps the source's two loops and their
  appends, and `Detect` first resets both lists, as lines 43-44 do.
  `Select` (what the loops collect, item by item) is proved to be `Pick`
  of the items at the `Matching` indices. Those indices are strictly
  increasing, so the result is an order-preserving subsequence. It is
  every item when all classes are shown, and exactly the items of class
  `target` otherwise. Its length is the `count` the source prints. Boxes
  and centers stay index-aligned: `Valid` is kept by `CleanOutput` and set
  up by `Detect`.

The predictor's output and the class catalog are parameters of `Detect`.
The two ROS visualization parameters are constructor parameters of type
`Param`, unset or set, with the same defaults as the source.

## Model

| member | source | states |
|---|---|---|
| `Labels.RemoveDuplicates` | scripts/detectron2_ros.py:78-79 | the result has no repeated element, holds every element of the input and nothing else, and is no longer than the input |
| `Labels.RemoveDuplicatesKeepsFirstSeenOrder` | scripts/detectron2_ros.py:79 | if label a comes before label b in the result, the first index of a in the input is below that of b |
| `Labels.RemoveDuplicatesFixedPoint` | scripts/detectron2_ros.py:78-79 | de-duplication leaves a list unchanged exactly when the list has no repeated element |
| `Labels.RemoveDuplicatesIdempotent` | scripts/detectron2_ros.py:79 | applying de-duplication twice gives the same list as applying it once |
| `Labels.OccurrencesIsMultiplicity` | scripts/detectron2_ros.py:86-88 | the left-to-right count of matches, as the inner loop computes it, is the multiplicity of the label in the multiset of the input |
| `Labels.OccurrencesPositive` | scripts/detectron2_ros.py:86-88 | a label is counted at least once exactly when it occurs in the input |
| `Labels.CountsForEntries` | scripts/detectron2_ros.py:85-89 | the entries for a list of labels have one entry per label, in that order, each `[count, label]` with the label's occurrence count |
| `Labels.TallyEntries` | scripts/detectron2_ros.py:84-90 | the labels of the tally are `RemoveDuplicates(classes)`: distinct, covering every input label; each count equals the label's multiplicity in the input and is at least 1 |
| `Labels.TallyTotal` | scripts/detectron2_ros.py:81-91 | the counts of the tally sum to the number of labels in the input |
| `Labels.TallyEmpty` | scripts/detectron2_ros.py:81-91 | the tally is empty exactly when the input is empty |
| `Labels.CountClasses` | scripts/detectron2_ros.py:81-91 | the nested loops, with the per-label reset of `count`, return exactly `Tally(classes)` |
| `Labels.TallyExample` | scripts/detectron2_ros.py:81-91 | labels person, car, person give the entries `[2, person]`, `[1, car]`, in that order |
| `Detection.ClassNamesOf` | scripts/detectron2_ros.py:59 | one name per predicted class index, in instance order, each looked up with Python indexing (negative indices count from the end) |
| `Detection.NameCountIsClassCount` | scripts/detectron2_ros.py:57-61 | with distinct catalog names and non-negative indices, the number of times a class name is counted equals the number of instances predicted with that class index |
| `Detection.Matching` | scripts/detectron2_ros.py:103-113 | every reported index is a valid instance index whose class is kept, and the reported indices are strictly increasing |
| `Detection.MatchingComplete` | scripts/detectron2_ros.py:103-113 | an index is reported exactly when it is an instance index whose class is kept (all classes shown, or class equals the target) |
| `Detection.MatchingAllClasses` | scripts/detectron2_ros.py:103-107 | with all classes shown, the reported indices are 0, 1, ..., n-1, so picking them gives back the whole list |
| `Detection.MatchingTargetCount` | scripts/detectron2_ros.py:108-113 | with one target class, the number of reported indices is the number of instances of that class |
| `Detection.SelectIsPick` | scripts/detectron2_ros.py:103-113 | what the loops collect is exactly the items at the reported indices, in increasing index order |
| `Detection.SelectLength` | scripts/detectron2_ros.py:102-113 | the number of collected items is the number of instances when all classes are shown, and otherwise the number of instances of the target class |
| `Detection.SelectAllClasses` | scripts/detectron2_ros.py:103-107 | with all classes shown, every item is collected, in instance order |
| `Detection.SelectAligned` | scripts/detectron2_ros.py:104-113 | the collected boxes and centers have the same length, and entry k of both comes from the same instance |
| `Detection.MatchingExample` | scripts/detectron2_ros.py:108-113 | classes 0, 1, 0 with target 0 and not all classes shown report instances 0 and 2 |
| `Detection.Detector.constructor` | scripts/detectron2_ros.py:31-35 | the two visualization parameters take their stored value or the defaults (all classes, target 0), and both lists start empty |
| `Detection.Detector.CleanOutput` | scripts/detectron2_ros.py:99-118 | appends the selected boxes and centers to the two fields in instance order, returns the count (all instances, or those of the target class), both lists grow by that count, and equal lengths are kept |
| `Detection.Detector.PrintLabels` | scripts/detectron2_ros.py:93-97 | produces the entries the node prints, `Tally` of the frame's labels |
| `Detection.Detector.Detect` | scripts/detectron2_ros.py:41-62 | after the reset, the tally is that of the frame's class names, and the two lists hold exactly the current frame's selected boxes and centers, of equal length |

## Left out

- ROS parameter reads for the image size, camera topic, model and weights, the subscriber and `im_callback` (lines 23-30, 37-39), and `main` (lines 122-132): middleware I/O. Only the two visualization parameters are modelled, as constructor parameters with their defaults.
- The unsynchronised overwrite of the image buffer by the callback while `detect` runs: concurrency, not logic; the frame is not modelled at all.
- Predictor configuration, model-zoo lookup, inference and the class catalog (lines 46-58): foreign library calls. Their results are the `outputs` and `classNames` parameters of `Detect`, and the count `num_obj` printed at line 54 is `outputs.Size()`.
- Box centers (`get_centers`, lines 106 and 112): floating-point midpoints computed by the library; they are given as the `centers` sequence of `Instances`.
- Box and center coordinates are `real` values carried through unchanged; no floating-point behaviour is modelled.
- Visualisation and the blocking display (lines 64-74): UI.
- All console output (`print` in `detect`, `print_labels` and `clean_output`): `PrintLabels` returns the entries it would print, and `CleanOutput` returns the count it would print.
- `n_object` (line 33): set to 0 and never read.
- In `detect`, any exception raised by the predictor or by the name lookup ends the process. The model instead requires well-formed predictor output and class indices that are valid Python indices into the catalog.
