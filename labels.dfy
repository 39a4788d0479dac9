/**
 * Label bookkeeping of the detector node: de-duplicating the predicted
 * labels in first-seen order and counting how often each one occurs.
 * Labels are of any equality type: the node applies these helpers to class
 * names, but nothing in them depends on that.
 */
module Labels {

  /** No element occurs twice. */
  predicate NoDuplicates<T(==)>(s: seq<T>) {
    forall i, j :: 0 <= i < j < |s| ==> s[i] != s[j]
  }

  /**
   * The distinct elements of `l`, each at the position of its first
   * occurrence. This is what building a dictionary from the keys of `l`
   * and listing it gives: a key seen again keeps its original place, so an
   * element is added only when it has not been seen before.
   */
  function RemoveDuplicates<T(==)>(l: seq<T>): (r: seq<T>)
    ensures NoDuplicates(r)
    ensures forall i :: 0 <= i < |l| ==> l[i] in r
    ensures forall k :: 0 <= k < |r| ==> r[k] in l
    ensures |r| <= |l|
  {
    if l == [] then []
    else
      var seen := RemoveDuplicates(l[..|l| - 1]);
      if l[|l| - 1] in seen then seen else seen + [l[|l| - 1]]
  }

  /** The index of the first occurrence of `x` in `s`. */
  function FirstIndex<T(==)>(s: seq<T>, x: T): (k: nat)
    requires x in s
    ensures k < |s| && s[k] == x && x !in s[..k]
  {
    if s[0] == x then 0 else 1 + FirstIndex(s[1..], x)
  }

  /** Appending an element does not move the first occurrence of any element already present. */
  lemma {:induction false} FirstIndexAppend<T>(s: seq<T>, y: T, x: T)
    requires x in s
    ensures x in s + [y] && FirstIndex(s + [y], x) == FirstIndex(s, x)
  {
    if s[0] != x {
      assert (s + [y])[1..] == s[1..] + [y];
      FirstIndexAppend(s[1..], y, x);
    }
  }

  /** The first occurrence of an element found only at the end is at the end. */
  lemma FirstIndexOfNew<T>(s: seq<T>, x: T)
    requires x !in s
    ensures x in s + [x] && FirstIndex(s + [x], x) == |s|
  {
  }

  /**
   * First-seen order: an element that comes earlier in the de-duplicated
   * list was first seen earlier in the input.
   */
  lemma {:induction false} RemoveDuplicatesKeepsFirstSeenOrder<T>(l: seq<T>, i: nat, j: nat)
    requires i < j < |RemoveDuplicates(l)|
    ensures FirstIndex(l, RemoveDuplicates(l)[i]) < FirstIndex(l, RemoveDuplicates(l)[j])
  {
    var p := l[..|l| - 1];
    var y := l[|l| - 1];
    assert l == p + [y];
    var seen := RemoveDuplicates(p);
    var r := RemoveDuplicates(l);
    if y in seen {
      assert r == seen;
      RemoveDuplicatesKeepsFirstSeenOrder(p, i, j);
      FirstIndexAppend(p, y, seen[i]);
      FirstIndexAppend(p, y, seen[j]);
    } else {
      assert r == seen + [y];
      assert r[i] == seen[i];
      FirstIndexAppend(p, y, seen[i]);
      if j < |seen| {
        assert r[j] == seen[j];
        RemoveDuplicatesKeepsFirstSeenOrder(p, i, j);
        FirstIndexAppend(p, y, seen[j]);
      } else {
        assert r[j] == y;
        FirstIndexOfNew(p, y);
      }
    }
  }

  /** A list without duplicates is its own de-duplication, and only such a list is. */
  lemma {:induction false} RemoveDuplicatesFixedPoint<T>(l: seq<T>)
    ensures RemoveDuplicates(l) == l <==> NoDuplicates(l)
  {
    if l != [] && NoDuplicates(l) {
      var p := l[..|l| - 1];
      var y := l[|l| - 1];
      assert NoDuplicates(p);
      RemoveDuplicatesFixedPoint(p);
      assert forall k :: 0 <= k < |p| ==> p[k] == l[k];
    }
  }

  /** De-duplicating twice gives the same list as de-duplicating once. */
  lemma {:induction false} RemoveDuplicatesIdempotent<T>(l: seq<T>)
    ensures RemoveDuplicates(RemoveDuplicates(l)) == RemoveDuplicates(l)
  {
    RemoveDuplicatesFixedPoint(RemoveDuplicates(l));
  }

  /** The number of occurrences of `x` in `s`, counted left to right. */
  function Occurrences<T(==)>(s: seq<T>, x: T): nat {
    if s == [] then 0
    else Occurrences(s[..|s| - 1], x) + (if s[|s| - 1] == x then 1 else 0)
  }

  /** The count agrees with the multiplicity of `x` in the multiset of `s`. */
  lemma {:induction false} OccurrencesIsMultiplicity<T>(s: seq<T>, x: T)
    ensures Occurrences(s, x) == multiset(s)[x]
  {
    if s != [] {
      var p := s[..|s| - 1];
      assert s == p + [s[|s| - 1]];
      OccurrencesIsMultiplicity(p, x);
    }
  }

  /** An element occurs at least once exactly when it is in the list. */
  lemma {:induction false} OccurrencesPositive<T>(s: seq<T>, x: T)
    ensures Occurrences(s, x) > 0 <==> x in s
  {
    OccurrencesIsMultiplicity(s, x);
  }

  /** One `[count, label]` entry of the tally. */
  datatype Entry<T> = Entry(count: nat, name: T)

  /** The entries for `objects`, in order, each counted against `classes`. */
  function CountsFor<T(==)>(classes: seq<T>, objects: seq<T>): seq<Entry<T>> {
    if objects == [] then []
    else
      var o := objects[|objects| - 1];
      CountsFor(classes, objects[..|objects| - 1]) + [Entry(Occurrences(classes, o), o)]
  }

  /** Entry `k` names `objects[k]` and counts its occurrences in `classes`. */
  lemma {:induction false} CountsForEntries<T>(classes: seq<T>, objects: seq<T>)
    ensures |CountsFor(classes, objects)| == |objects|
    ensures forall k :: 0 <= k < |objects| ==>
      CountsFor(classes, objects)[k] == Entry(Occurrences(classes, objects[k]), objects[k])
  {
    if objects != [] {
      var front := objects[..|objects| - 1];
      CountsForEntries(classes, front);
      var r := CountsFor(classes, objects);
      forall k | 0 <= k < |objects|
        ensures r[k] == Entry(Occurrences(classes, objects[k]), objects[k])
      {
        if k < |front| {
          assert r[k] == CountsFor(classes, front)[k];
        }
      }
    }
  }

  /** What the tally of `classes` is: one entry per distinct label, in first-seen order. */
  function Tally<T(==)>(classes: seq<T>): seq<Entry<T>> {
    CountsFor(classes, RemoveDuplicates(classes))
  }

  /** The labels of a list of entries. */
  function LabelsOf<T>(entries: seq<Entry<T>>): (r: seq<T>)
    ensures |r| == |entries|
    ensures forall k :: 0 <= k < |r| ==> r[k] == entries[k].name
  {
    if entries == [] then [] else LabelsOf(entries[..|entries| - 1]) + [entries[|entries| - 1].name]
  }

  /** The sum of the counts of a list of entries. */
  function Total<T>(entries: seq<Entry<T>>): nat {
    if entries == [] then 0 else Total(entries[..|entries| - 1]) + entries[|entries| - 1].count
  }

  /**
   * The tally has exactly one entry per distinct label, in the order of
   * `RemoveDuplicates(classes)`, and each count is the number of times its
   * label occurs in `classes`, so no count is zero.
   */
  lemma TallyEntries<T>(classes: seq<T>)
    ensures LabelsOf(Tally(classes)) == RemoveDuplicates(classes)
    ensures NoDuplicates(LabelsOf(Tally(classes)))
    ensures forall i :: 0 <= i < |classes| ==> classes[i] in LabelsOf(Tally(classes))
    ensures forall k :: 0 <= k < |Tally(classes)| ==> Tally(classes)[k].name in classes
    ensures forall k :: 0 <= k < |Tally(classes)| ==>
      Tally(classes)[k].count == multiset(classes)[Tally(classes)[k].name] &&
      Tally(classes)[k].count >= 1
  {
    var d := RemoveDuplicates(classes);
    var t := Tally(classes);
    assert t == CountsFor(classes, d);
    CountsForEntries(classes, d);
    var names := LabelsOf(t);
    assert |names| == |d|;
    forall k | 0 <= k < |d| ensures names[k] == d[k] {
      assert names[k] == t[k].name;
    }
    forall k | 0 <= k < |t|
      ensures t[k].count == multiset(classes)[t[k].name] && t[k].count >= 1
    {
      OccurrencesIsMultiplicity(classes, d[k]);
      OccurrencesPositive(classes, d[k]);
    }
  }

  /** Dropping the last element of a list without duplicates leaves one without duplicates that lacks that element. */
  lemma NoDuplicatesSplit<T>(s: seq<T>)
    requires NoDuplicates(s) && s != []
    ensures NoDuplicates(s[..|s| - 1]) && s[|s| - 1] !in s[..|s| - 1]
  {
  }

  /** Counting over one more element. */
  lemma OccurrencesAppend<T>(s: seq<T>, y: T, x: T)
    ensures Occurrences(s + [y], x) == Occurrences(s, x) + (if y == x then 1 else 0)
  {
    assert (s + [y])[..|s|] == s;
  }

  /** Adding one element `x` to the counted list raises the total for distinct `objects` by one exactly when `x` is among them. */
  lemma {:induction false} TotalAppendClass<T>(classes: seq<T>, x: T, objects: seq<T>)
    requires NoDuplicates(objects)
    ensures Total(CountsFor(classes + [x], objects)) ==
            Total(CountsFor(classes, objects)) + (if x in objects then 1 else 0)
  {
    if objects != [] {
      var front := objects[..|objects| - 1];
      var o := objects[|objects| - 1];
      var a := CountsFor(classes + [x], front);
      var b := CountsFor(classes, front);
      var ea := Entry(Occurrences(classes + [x], o), o);
      var eb := Entry(Occurrences(classes, o), o);
      assert (a + [ea])[..|a|] == a;
      assert (b + [eb])[..|b|] == b;
      NoDuplicatesSplit(objects);
      TotalAppendClass(classes, x, front);
      OccurrencesAppend(classes, x, o);
      assert objects == front + [o];
    }
  }

  /** The counts of the tally add up to the number of labels counted. */
  lemma {:induction false} TallyTotal<T>(classes: seq<T>)
    ensures Total(Tally(classes)) == |classes|
  {
    if classes != [] {
      var p := classes[..|classes| - 1];
      var x := classes[|classes| - 1];
      assert classes == p + [x];
      var seen := RemoveDuplicates(p);
      TallyTotal(p);
      TotalAppendClass(p, x, seen);
      if x !in seen {
        assert RemoveDuplicates(classes) == seen + [x];
        assert (seen + [x])[..|seen|] == seen;
        assert x !in p;
        OccurrencesPositive(p, x);
      }
    }
  }

  /** The tally is empty exactly when there is nothing to count. */
  lemma TallyEmpty<T>(classes: seq<T>)
    ensures Tally(classes) == [] <==> classes == []
  {
  }

  /**
   * Counts each distinct label of `classes`, taken in de-duplicated order,
   * by a pass over the whole of `classes`, and returns the
   * `[count, label]` entries.
   */
  method CountClasses<T(==)>(classes: seq<T>) returns (result: seq<Entry<T>>)
    ensures result == Tally(classes)
  {
    result := [];
    var count := 0;
    var objects := RemoveDuplicates(classes);
    for k := 0 to |objects|
      invariant count == 0
      invariant result == CountsFor(classes, objects[..k])
    {
      var obj := objects[k];
      for j := 0 to |classes|
        invariant count == Occurrences(classes[..j], obj)
      {
        assert classes[..j + 1][..j] == classes[..j];
        if obj == classes[j] {
          count := count + 1;
        }
      }
      assert classes[..|classes|] == classes;
      assert objects[..k + 1][..k] == objects[..k];
      result := result + [Entry(count, obj)];
      count := 0;
    }
    assert objects[..|objects|] == objects;
  }

  /** The example of a frame seeing a person, a car and a second person. */
  lemma TallyExample()
    ensures Tally(["person", "car", "person"]) == [Entry(2, "person"), Entry(1, "car")]
  {
    var l := ["person", "car", "person"];
    assert l[..2] == ["person", "car"];
    assert l[..2][..1] == ["person"];
    assert l[..2][..1][..0] == [];
    assert RemoveDuplicates(l[..2][..1]) == ["person"];
    assert RemoveDuplicates(l[..2]) == ["person", "car"];
    assert RemoveDuplicates(l) == ["person", "car"];
    assert Occurrences(l[..2][..1], "person") == 1;
    assert Occurrences(l[..2][..1], "car") == 0;
    assert Occurrences(l[..2], "person") == 1;
    assert Occurrences(l[..2], "car") == 1;
    CountsForEntries(l, ["person", "car"]);
  }
}
