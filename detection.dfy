/**
 * The detector node's per-frame bookkeeping: mapping predicted class
 * indices to names, selecting the detected instances to report, and keeping
 * the reported boxes and centers of the current frame.
 *
 * The predictor's output for one frame is given as an `Instances` value;
 * running the network, the class catalog lookup, ROS parameters and the
 * display are outside the model.
 */
module Detection {
  import opened Labels

  /** A bounding box as the predictor reports it: two corners. */
  datatype Box = Box(x1: real, y1: real, x2: real, y2: real)

  /** The center of a box, as the predictor's box list computes it. */
  datatype Center = Center(x: real, y: real)

  /** The predictor's output for one frame: one class index, box and center per instance. */
  datatype Instances = Instances(predClasses: seq<int>, boxes: seq<Box>, centers: seq<Center>) {
    /** The three per-instance sequences are parallel. */
    predicate WellFormed() {
      |boxes| == |predClasses| && |centers| == |predClasses|
    }

    /** The number of detected instances. */
    function Size(): nat {
      |predClasses|
    }
  }

  /** A ROS parameter lookup: the stored value if the parameter is set, otherwise the default. */
  datatype Param<T> = Unset | Set(value: T) {
    function GetOr(default: T): T {
      if Set? then value else default
    }
  }

  /** Default of `visualization/all_classes`: report every instance. */
  const DefaultAllClasses: bool := true
  /** Default of `visualization/target`: class 0, a person in the COCO catalog. */
  const DefaultTarget: int := 0

  /** Python's `s[i]`: a negative index counts from the end. */
  function PyIndex<T>(s: seq<T>, i: int): T
    requires -|s| <= i < |s|
  {
    if i >= 0 then s[i] else s[|s| + i]
  }

  /** Every index of `indices` is a valid Python index into a list of `n` items. */
  predicate IndicesInRange(indices: seq<int>, n: nat) {
    forall i :: 0 <= i < |indices| ==> -(n as int) <= indices[i] < n
  }

  /** The class name of every predicted class index, in instance order. */
  function ClassNamesOf<T>(classNames: seq<T>, predClasses: seq<int>): (names: seq<T>)
    requires IndicesInRange(predClasses, |classNames|)
    ensures |names| == |predClasses|
    ensures forall i :: 0 <= i < |names| ==> names[i] == PyIndex(classNames, predClasses[i])
  {
    if predClasses == [] then []
    else
      ClassNamesOf(classNames, predClasses[..|predClasses| - 1])
        + [PyIndex(classNames, predClasses[|predClasses| - 1])]
  }

  /**
   * With a catalog of distinct names and non-negative indices, a name is
   * counted as often as its class index was predicted: the label counts
   * printed for a frame are counts of class indices.
   */
  lemma {:induction false} NameCountIsClassCount<T>(classNames: seq<T>, predClasses: seq<int>, c: nat)
    requires NoDuplicates(classNames)
    requires c < |classNames|
    requires forall i :: 0 <= i < |predClasses| ==> 0 <= predClasses[i] < |classNames|
    ensures Occurrences(ClassNamesOf(classNames, predClasses), classNames[c]) == Occurrences(predClasses, c)
  {
    if predClasses != [] {
      var p := predClasses[..|predClasses| - 1];
      var last := predClasses[|predClasses| - 1];
      NameCountIsClassCount(classNames, p, c);
      var names := ClassNamesOf(classNames, predClasses);
      assert names[..|names| - 1] == ClassNamesOf(classNames, p);
      assert names[|names| - 1] == classNames[last];
    }
  }

  /** Whether the instance of class `c` is reported. */
  predicate Keep(allClasses: bool, target: int, c: int) {
    allClasses || c == target
  }

  /**
   * The indices of the reported instances, in increasing order: every
   * index when `allClasses` holds, otherwise those of class `target`.
   */
  function Matching(predClasses: seq<int>, allClasses: bool, target: int): (m: seq<nat>)
    ensures forall k :: 0 <= k < |m| ==> m[k] < |predClasses| && Keep(allClasses, target, predClasses[m[k]])
    ensures forall k, l :: 0 <= k < l < |m| ==> m[k] < m[l]
  {
    if predClasses == [] then []
    else
      var n := |predClasses| - 1;
      Matching(predClasses[..n], allClasses, target)
        + (if Keep(allClasses, target, predClasses[n]) then [n] else [])
  }

  /** An instance is reported exactly when its class is kept. */
  lemma {:induction false} MatchingComplete(predClasses: seq<int>, allClasses: bool, target: int, i: int)
    ensures i in Matching(predClasses, allClasses, target) <==> 0 <= i < |predClasses| && Keep(allClasses, target, predClasses[i])
  {
    if predClasses != [] {
      var n := |predClasses| - 1;
      MatchingComplete(predClasses[..n], allClasses, target, i);
    }
  }

  /** The items of `xs` at the given indices, in the order of the indices. */
  function Pick<X>(xs: seq<X>, indices: seq<nat>): (r: seq<X>)
    requires forall k :: 0 <= k < |indices| ==> indices[k] < |xs|
    ensures |r| == |indices|
    ensures forall k :: 0 <= k < |r| ==> r[k] == xs[indices[k]]
  {
    if indices == [] then []
    else Pick(xs, indices[..|indices| - 1]) + [xs[indices[|indices| - 1]]]
  }

  /** When every class is reported, the reported indices are all of them, in order, so nothing is dropped. */
  lemma {:induction false} MatchingAllClasses<X>(predClasses: seq<int>, target: int, xs: seq<X>)
    requires |xs| == |predClasses|
    ensures |Matching(predClasses, true, target)| == |predClasses|
    ensures forall k :: 0 <= k < |predClasses| ==> Matching(predClasses, true, target)[k] == k
    ensures Pick(xs, Matching(predClasses, true, target)) == xs
  {
    if predClasses != [] {
      var n := |predClasses| - 1;
      MatchingAllClasses(predClasses[..n], target, xs[..n]);
    }
  }

  /** When only `target` is reported, as many instances are reported as there are instances of class `target`. */
  lemma {:induction false} MatchingTargetCount(predClasses: seq<int>, target: int)
    ensures |Matching(predClasses, false, target)| == Occurrences(predClasses, target)
  {
    if predClasses != [] {
      MatchingTargetCount(predClasses[..|predClasses| - 1], target);
    }
  }

  /** Extending the instances by one extends the reported indices by that instance's index at most. */
  lemma MatchingAppend(predClasses: seq<int>, i: nat, allClasses: bool, target: int)
    requires i < |predClasses|
    ensures Matching(predClasses[..i + 1], allClasses, target)
      == Matching(predClasses[..i], allClasses, target) + (if Keep(allClasses, target, predClasses[i]) then [i] else [])
  {
    assert predClasses[..i + 1][..i] == predClasses[..i];
  }

  /** Picking one more index picks one more item, at the end. */
  lemma PickAppend<X>(xs: seq<X>, indices: seq<nat>, i: nat)
    requires forall k :: 0 <= k < |indices| ==> indices[k] < |xs|
    requires i < |xs|
    ensures Pick(xs, indices + [i]) == Pick(xs, indices) + [xs[i]]
  {
    assert (indices + [i])[..|indices|] == indices;
  }

  /** The items of `xs` whose instance is reported, in instance order: what the node collects, item by item. */
  function Select<X>(predClasses: seq<int>, xs: seq<X>, allClasses: bool, target: int): seq<X>
    requires |xs| == |predClasses|
  {
    if predClasses == [] then []
    else
      var n := |predClasses| - 1;
      Select(predClasses[..n], xs[..n], allClasses, target)
        + (if Keep(allClasses, target, predClasses[n]) then [xs[n]] else [])
  }

  /**
   * The collected items are exactly the items at the reported indices, in
   * increasing index order: an order-preserving subsequence of `xs`.
   */
  lemma {:induction false} SelectIsPick<X>(predClasses: seq<int>, xs: seq<X>, allClasses: bool, target: int)
    requires |xs| == |predClasses|
    ensures Select(predClasses, xs, allClasses, target) == Pick(xs, Matching(predClasses, allClasses, target))
  {
    if predClasses != [] {
      var n := |predClasses| - 1;
      var before := Matching(predClasses[..n], allClasses, target);
      SelectIsPick(predClasses[..n], xs[..n], allClasses, target);
      assert Pick(xs[..n], before) == Pick(xs, before);
      MatchingAppend(predClasses, n, allClasses, target);
      assert predClasses[..n + 1] == predClasses;
      if Keep(allClasses, target, predClasses[n]) {
        PickAppend(xs, before, n);
      }
    }
  }

  /** As many items are collected as `clean_output` counts: all of them, or the instances of class `target`. */
  lemma {:induction false} SelectLength<X>(predClasses: seq<int>, xs: seq<X>, allClasses: bool, target: int)
    requires |xs| == |predClasses|
    ensures |Select(predClasses, xs, allClasses, target)| == if allClasses then |predClasses| else Occurrences(predClasses, target)
  {
    if predClasses != [] {
      var n := |predClasses| - 1;
      SelectLength(predClasses[..n], xs[..n], allClasses, target);
    }
  }

  /** When every class is reported, everything is collected, in order. */
  lemma {:induction false} SelectAllClasses<X>(predClasses: seq<int>, xs: seq<X>, target: int)
    requires |xs| == |predClasses|
    ensures Select(predClasses, xs, true, target) == xs
  {
    SelectIsPick(predClasses, xs, true, target);
    MatchingAllClasses(predClasses, target, xs);
  }

  /** Boxes and centers collected for the same instances are index-aligned: entry `k` of both comes from the same instance. */
  lemma SelectAligned(data: Instances, allClasses: bool, target: int, k: nat)
    requires data.WellFormed()
    requires k < |Select(data.predClasses, data.boxes, allClasses, target)|
    ensures |Select(data.predClasses, data.centers, allClasses, target)| == |Select(data.predClasses, data.boxes, allClasses, target)|
    ensures |Matching(data.predClasses, allClasses, target)| == |Select(data.predClasses, data.boxes, allClasses, target)|
    ensures var i := Matching(data.predClasses, allClasses, target)[k];
      && Select(data.predClasses, data.boxes, allClasses, target)[k] == data.boxes[i]
      && Select(data.predClasses, data.centers, allClasses, target)[k] == data.centers[i]
  {
    SelectIsPick(data.predClasses, data.boxes, allClasses, target);
    SelectIsPick(data.predClasses, data.centers, allClasses, target);
  }

  /** One step of the collecting loop. */
  lemma SelectAppend<X>(predClasses: seq<int>, xs: seq<X>, i: nat, allClasses: bool, target: int)
    requires |xs| == |predClasses| && i < |predClasses|
    ensures Select(predClasses[..i + 1], xs[..i + 1], allClasses, target)
      == Select(predClasses[..i], xs[..i], allClasses, target)
        + (if Keep(allClasses, target, predClasses[i]) then [xs[i]] else [])
  {
    assert predClasses[..i + 1][..i] == predClasses[..i];
    assert xs[..i + 1][..i] == xs[..i];
  }

  /** The example of three instances of classes 0, 1, 0 with only class 0 reported: instances 0 and 2. */
  lemma MatchingExample()
    ensures Matching([0, 1, 0], false, 0) == [0, 2]
  {
    var c := [0, 1, 0];
    assert c[..2] == [0, 1];
    assert c[..2][..1] == [0];
    assert c[..2][..1][..0] == [];
    assert Matching(c[..2][..1], false, 0) == [0];
    assert Matching(c[..2], false, 0) == [0];
  }

  /**
   * The detector node. `bboxCoordinates` and `bboxCenters` are the boxes
   * and centers reported for the current frame; they are index-aligned.
   */
  class Detector {
    const allClasses: bool
    const targetObject: int
    var bboxCoordinates: seq<Box>
    var bboxCenters: seq<Center>

    /** The boxes and centers stay in step. */
    predicate Valid()
      reads this
    {
      |bboxCoordinates| == |bboxCenters|
    }

    /** Reads the two visualization parameters, with their defaults, and starts with nothing reported. */
    constructor (allClassesParam: Param<bool>, targetParam: Param<int>)
      ensures allClasses == allClassesParam.GetOr(DefaultAllClasses)
      ensures targetObject == targetParam.GetOr(DefaultTarget)
      ensures bboxCoordinates == [] && bboxCenters == []
      ensures Valid()
    {
      allClasses := allClassesParam.GetOr(DefaultAllClasses);
      targetObject := targetParam.GetOr(DefaultTarget);
      bboxCoordinates := [];
      bboxCenters := [];
    }

    /**
     * Appends the box and center of every reported instance of `data`, in
     * instance order, and returns how many were reported.
     */
    method CleanOutput(data: Instances) returns (count: nat)
      requires data.WellFormed()
      modifies this
      ensures count == if allClasses then data.Size() else Occurrences(data.predClasses, targetObject)
      ensures bboxCoordinates == old(bboxCoordinates) + Select(data.predClasses, data.boxes, allClasses, targetObject)
      ensures bboxCenters == old(bboxCenters) + Select(data.predClasses, data.centers, allClasses, targetObject)
      ensures |bboxCoordinates| == old(|bboxCoordinates|) + count
      ensures |bboxCenters| == old(|bboxCenters|) + count
      ensures old(Valid()) ==> Valid()
    {
      var predClasses := data.predClasses;
      var boxes := data.boxes;
      ghost var centers := data.centers;
      count := 0;
      if allClasses {
        for i := 0 to |predClasses|
          invariant count == i
          invariant bboxCoordinates == old(bboxCoordinates) + boxes[..i]
          invariant bboxCenters == old(bboxCenters) + centers[..i]
        {
          assert boxes[..i + 1] == boxes[..i] + [boxes[i]];
          assert centers[..i + 1] == centers[..i] + [centers[i]];
          count := count + 1;
          bboxCenters := bboxCenters + [data.centers[i]];
          bboxCoordinates := bboxCoordinates + [boxes[i]];
        }
        assert boxes[..|predClasses|] == boxes;
        assert centers[..|predClasses|] == centers;
        SelectAllClasses(predClasses, boxes, targetObject);
        SelectAllClasses(predClasses, centers, targetObject);
      } else {
        for i := 0 to |predClasses|
          invariant count == Occurrences(predClasses[..i], targetObject)
          invariant bboxCoordinates == old(bboxCoordinates) + Select(predClasses[..i], boxes[..i], allClasses, targetObject)
          invariant bboxCenters == old(bboxCenters) + Select(predClasses[..i], centers[..i], allClasses, targetObject)
        {
          assert predClasses[..i + 1][..i] == predClasses[..i];
          SelectAppend(predClasses, boxes, i, allClasses, targetObject);
          SelectAppend(predClasses, centers, i, allClasses, targetObject);
          if predClasses[i] == targetObject {
            count := count + 1;
            bboxCenters := bboxCenters + [data.centers[i]];
            bboxCoordinates := bboxCoordinates + [boxes[i]];
          }
        }
        assert predClasses[..|predClasses|] == predClasses;
        assert boxes[..|predClasses|] == boxes;
        assert centers[..|predClasses|] == centers;
      }
      SelectLength(predClasses, boxes, allClasses, targetObject);
      SelectLength(predClasses, centers, allClasses, targetObject);
    }

    /** Returns the `[count, label]` entries that the node prints for the frame's labels. */
    method PrintLabels(input: seq<string>) returns (entries: seq<Entry<string>>)
      ensures entries == Tally(input)
    {
      entries := CountClasses(input);
    }

    /**
     * One detection cycle on the predictor's output `outputs` for the
     * current frame, with `classNames` the catalog of the model's training
     * set: forgets the previous frame's boxes and centers, counts the
     * frame's labels, and reports the selected instances. Afterwards the two
     * lists hold this frame's results only.
     */
    method Detect(outputs: Instances, classNames: seq<string>) returns (entries: seq<Entry<string>>, count: nat)
      requires outputs.WellFormed()
      requires IndicesInRange(outputs.predClasses, |classNames|)
      modifies this
      ensures entries == Tally(ClassNamesOf(classNames, outputs.predClasses))
      ensures count == if allClasses then outputs.Size() else Occurrences(outputs.predClasses, targetObject)
      ensures bboxCoordinates == Select(outputs.predClasses, outputs.boxes, allClasses, targetObject)
      ensures bboxCenters == Select(outputs.predClasses, outputs.centers, allClasses, targetObject)
      ensures Valid()
    {
      bboxCenters := [];
      bboxCoordinates := [];
      var predClassNames := ClassNamesOf(classNames, outputs.predClasses);
      entries := PrintLabels(predClassNames);
      count := CleanOutput(outputs);
    }
  }
}
