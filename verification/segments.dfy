/** The segment decomposer shared by Marking, Cloze and Correction
    (IRBuilder.cpp, the three copies of the `ewIdx` loop). It is generic
    over the annotation payload and works on already-read plain runs and
    payloads. The source emits the first plain run first whenever there is
    one, even when the sentence opens with an annotation; the model keeps
    that placement. */
module Segments {
  import opened Wrappers
  import opened IR

  function Min(a: nat, b: nat): nat {
    if a <= b then a else b
  }

  /** The payloads of the annotation parts, in order. */
  function Payloads<P>(parts: seq<Part<P>>): seq<P>
    decreases |parts|
  {
    if |parts| == 0 then []
    else (if parts[0].payload.Some? then [parts[0].payload.value] else []) + Payloads(parts[1..])
  }

  /** The texts of the plain parts, in order. */
  function PlainTexts<P>(parts: seq<Part<P>>): seq<string>
    decreases |parts|
  {
    if |parts| == 0 then []
    else (if parts[0].payload.None? then [parts[0].text] else []) + PlainTexts(parts[1..])
  }

  /** Annotation parts carry no text (the source clears it). */
  predicate AnnotationsHaveNoText<P>(parts: seq<Part<P>>) {
    forall i :: 0 <= i < |parts| && parts[i].payload.Some? ==> parts[i].text == ""
  }

  /** No two plain parts follow each other. */
  predicate NoAdjacentPlain<P>(parts: seq<Part<P>>) {
    forall i, j :: 0 <= i < |parts| && 0 <= j < |parts| && j == i + 1 ==> parts[i].payload.Some? || parts[j].payload.Some?
  }

  lemma {:induction false} PayloadsAppend<P>(a: seq<Part<P>>, b: seq<Part<P>>)
    ensures Payloads(a + b) == Payloads(a) + Payloads(b)
    decreases |a|
  {
    if |a| == 0 {
      assert a + b == b;
    } else {
      assert (a + b)[0] == a[0];
      assert (a + b)[1..] == a[1..] + b;
      PayloadsAppend(a[1..], b);
    }
  }

  lemma {:induction false} PlainTextsAppend<P>(a: seq<Part<P>>, b: seq<Part<P>>)
    ensures PlainTexts(a + b) == PlainTexts(a) + PlainTexts(b)
    decreases |a|
  {
    if |a| == 0 {
      assert a + b == b;
    } else {
      assert (a + b)[0] == a[0];
      assert (a + b)[1..] == a[1..] + b;
      PlainTextsAppend(a[1..], b);
    }
  }

  lemma FiltersAppend<P>(a: seq<Part<P>>, b: seq<Part<P>>)
    ensures Payloads(a + b) == Payloads(a) + Payloads(b)
    ensures PlainTexts(a + b) == PlainTexts(a) + PlainTexts(b)
  {
    PayloadsAppend(a, b);
    PlainTextsAppend(a, b);
  }

  lemma NoAdjacentPlainCons<P>(head: seq<Part<P>>, tail: seq<Part<P>>)
    requires NoAdjacentPlain(head) && NoAdjacentPlain(tail)
    requires |head| > 0 && |tail| > 0 ==> tail[0].payload.Some?
    ensures NoAdjacentPlain(head + tail)
  {
    var r := head + tail;
    forall i, j | 0 <= i < |r| && 0 <= j < |r| && j == i + 1
      ensures r[i].payload.Some? || r[j].payload.Some?
    {
      if j < |head| {
        assert r[i] == head[i] && r[j] == head[j];
      } else if j == |head| {
        assert r[j] == tail[0];
      } else {
        assert r[i] == tail[i - |head|] && r[j] == tail[j - |head|];
      }
    }
  }

  lemma AnnotationsHaveNoTextAppend<P>(head: seq<Part<P>>, tail: seq<Part<P>>)
    requires AnnotationsHaveNoText(head) && AnnotationsHaveNoText(tail)
    ensures AnnotationsHaveNoText(head + tail)
  {
    var r := head + tail;
    forall i | 0 <= i < |r| && r[i].payload.Some?
      ensures r[i].text == ""
    {
      if i < |head| {
        assert r[i] == head[i];
      } else {
        assert r[i] == tail[i - |head|];
      }
    }
  }

  /** One annotation part, then the next unconsumed plain run if any, for
      every annotation in order. */
  function Interleave<P>(anns: seq<P>, runs: seq<string>): (r: seq<Part<P>>)
    ensures |r| == |anns| + Min(|runs|, |anns|)
    ensures Payloads(r) == anns
    ensures PlainTexts(r) == runs[..Min(|runs|, |anns|)]
    ensures AnnotationsHaveNoText(r)
    ensures NoAdjacentPlain(r)
    ensures |anns| > 0 ==> r[0].payload.Some?
  {
    WeaveShape(anns, runs);
    Weave(anns, runs)
  }

  /** The recursion behind Interleave, apart from its contract. */
  function Weave<P>(anns: seq<P>, runs: seq<string>): seq<Part<P>>
    decreases |anns|
  {
    if |anns| == 0 then []
    else if |runs| == 0 then [Part("", Some(anns[0]))] + Weave(anns[1..], runs)
    else [Part("", Some(anns[0])), Part(runs[0], None)] + Weave(anns[1..], runs[1..])
  }

  lemma {:induction false} WeaveShape<P>(anns: seq<P>, runs: seq<string>)
    ensures InterleaveShape(anns, runs, Weave(anns, runs))
    decreases |anns|
  {
    if |anns| == 0 {
    } else if |runs| == 0 {
      WeaveShape(anns[1..], runs);
      ConsAnnotation(anns, Weave(anns[1..], runs));
    } else {
      WeaveShape(anns[1..], runs[1..]);
      ConsPair(anns, runs, Weave(anns[1..], runs[1..]));
    }
  }

  /** What Interleave promises about its result, as one predicate for the
      two steps below. */
  ghost predicate InterleaveShape<P>(anns: seq<P>, runs: seq<string>, r: seq<Part<P>>) {
    && |r| == |anns| + Min(|runs|, |anns|)
    && Payloads(r) == anns
    && PlainTexts(r) == runs[..Min(|runs|, |anns|)]
    && AnnotationsHaveNoText(r)
    && NoAdjacentPlain(r)
    && (|anns| > 0 ==> r[0].payload.Some?)
  }

  /** An annotation with no run left after it. */
  lemma ConsAnnotation<P>(anns: seq<P>, tail: seq<Part<P>>)
    requires |anns| > 0
    requires InterleaveShape(anns[1..], [], tail)
    ensures InterleaveShape(anns, [], [Part("", Some(anns[0]))] + tail)
  {
    var head := [Part("", Some(anns[0]))];
    FiltersAppend(head, tail);
    NoAdjacentPlainCons(head, tail);
    AnnotationsHaveNoTextAppend(head, tail);
    assert anns == [anns[0]] + anns[1..];
  }

  /** An annotation followed by the next run. */
  lemma ConsPair<P>(anns: seq<P>, runs: seq<string>, tail: seq<Part<P>>)
    requires |anns| > 0 && |runs| > 0
    requires InterleaveShape(anns[1..], runs[1..], tail)
    ensures InterleaveShape(anns, runs, [Part("", Some(anns[0])), Part(runs[0], None)] + tail)
  {
    var head := [Part("", Some(anns[0])), Part(runs[0], None)];
    assert head[1..] == [Part(runs[0], None)];
    assert head[1..][1..] == [];
    assert Payloads(head[1..]) == [];
    assert PlainTexts(head[1..]) == [runs[0]];
    FiltersAppend(head, tail);
    NoAdjacentPlainCons(head, tail);
    AnnotationsHaveNoTextAppend(head, tail);
    assert anns == [anns[0]] + anns[1..];
    TakeCons(runs, Min(|runs|, |anns|));
  }

  lemma TakeCons<T>(xs: seq<T>, n: nat)
    requires 0 < n <= |xs|
    ensures xs[..n] == [xs[0]] + xs[1..][..n - 1]
  {
  }

  /** Where each part sits: annotation k follows the k annotations and the
      runs placed before it, and run k comes right after annotation k. */
  lemma InterleavePlacement<P>(anns: seq<P>, runs: seq<string>)
    ensures forall k :: 0 <= k < |anns| ==>
      Interleave(anns, runs)[k + Min(k, |runs|)] == Part("", Some(anns[k]))
    ensures forall k :: 0 <= k < Min(|runs|, |anns|) ==>
      Interleave(anns, runs)[2 * k + 1] == Part(runs[k], None)
  {
    assert Interleave(anns, runs) == Weave(anns, runs);
    forall k | 0 <= k < |anns|
      ensures Weave(anns, runs)[k + Min(k, |runs|)] == Part("", Some(anns[k]))
    {
      AnnotationAt(anns, runs, k);
    }
    forall k | 0 <= k < Min(|runs|, |anns|)
      ensures Weave(anns, runs)[2 * k + 1] == Part(runs[k], None)
    {
      RunAt(anns, runs, k);
    }
  }

  lemma {:induction false} AnnotationAt<P>(anns: seq<P>, runs: seq<string>, k: nat)
    requires k < |anns|
    ensures k + Min(k, |runs|) < |Weave(anns, runs)|
    ensures Weave(anns, runs)[k + Min(k, |runs|)] == Part("", Some(anns[k]))
    decreases k
  {
    var head := WeaveHead(anns, runs);
    var rest := if |runs| == 0 then runs else runs[1..];
    var tail := Weave(anns[1..], rest);
    if k > 0 {
      AnnotationAt(anns[1..], rest, k - 1);
      assert anns[1..][k - 1] == anns[k];
      var j := (k - 1) + Min(k - 1, |rest|);
      assert k + Min(k, |runs|) == |head| + j;
      IndexAfter(head, tail, j);
    } else {
      assert (head + tail)[0] == head[0];
    }
  }

  lemma {:induction false} RunAt<P>(anns: seq<P>, runs: seq<string>, k: nat)
    requires k < |runs| && k < |anns|
    ensures 2 * k + 1 < |Weave(anns, runs)|
    ensures Weave(anns, runs)[2 * k + 1] == Part(runs[k], None)
    decreases k
  {
    var head := WeaveHead(anns, runs);
    var tail := Weave(anns[1..], runs[1..]);
    if k > 0 {
      RunAt(anns[1..], runs[1..], k - 1);
      assert runs[1..][k - 1] == runs[k];
      assert 2 * k + 1 == |head| + (2 * (k - 1) + 1);
      IndexAfter(head, tail, 2 * (k - 1) + 1);
    }
  }

  lemma IndexAfter<T>(head: seq<T>, tail: seq<T>, j: nat)
    requires j < |tail|
    ensures |head| + j < |head + tail| && (head + tail)[|head| + j] == tail[j]
  {
  }

  /** One step of Weave: its first annotation, with the first run after it
      when there is one. */
  lemma WeaveHead<P>(anns: seq<P>, runs: seq<string>) returns (head: seq<Part<P>>)
    requires |anns| > 0
    ensures |head| == 1 + Min(1, |runs|)
    ensures |runs| == 0 ==> head == [Part("", Some(anns[0]))]
    ensures |runs| > 0 ==> head == [Part("", Some(anns[0])), Part(runs[0], None)]
    ensures Weave(anns, runs) == head + Weave(anns[1..], if |runs| == 0 then runs else runs[1..])
  {
    head := if |runs| == 0 then [Part("", Some(anns[0]))] else [Part("", Some(anns[0])), Part(runs[0], None)];
  }

  /** The parts of an annotated sentence from its plain runs (detokenized)
      and its annotation payloads. */
  function Decompose<P>(runs: seq<string>, anns: seq<P>): (r: seq<Part<P>>)
    ensures |r| == |anns| + Min(|runs|, |anns| + 1)
    ensures |anns| <= |r| <= 2 * |anns| + 1
    ensures Payloads(r) == anns
    ensures PlainTexts(r) == runs[..Min(|runs|, |anns| + 1)]
    ensures |r| > 0 ==> (r[0].payload.None? <==> |runs| > 0)
    ensures AnnotationsHaveNoText(r)
    ensures NoAdjacentPlain(r)
  {
    if |runs| > 0 then
      var tail := Weave(anns, runs[1..]);
      WeaveShape(anns, runs[1..]);
      FiltersAppend([Part(runs[0], None)], tail);
      NoAdjacentPlainCons([Part(runs[0], None)], tail);
      AnnotationsHaveNoTextAppend([Part(runs[0], None)], tail);
      assert runs[..Min(|runs|, |anns| + 1)] == [runs[0]] + runs[1..][..Min(|runs| - 1, |anns|)];
      [Part(runs[0], None)] + tail
    else
      WeaveShape(anns, runs);
      Weave(anns, runs)
  }

  /** A leading run opens the sentence; then annotation k and run k + 1
      alternate as far as the runs go. */
  lemma DecomposePlacement<P>(runs: seq<string>, anns: seq<P>)
    ensures forall k :: 0 <= k < |anns| ==>
      Decompose(runs, anns)[k + Min(k + 1, |runs|)] == Part("", Some(anns[k]))
    ensures forall k :: 0 <= k < Min(|runs|, |anns| + 1) ==>
      Decompose(runs, anns)[2 * k] == Part(runs[k], None)
  {
    forall k | 0 <= k < |anns|
      ensures Decompose(runs, anns)[k + Min(k + 1, |runs|)] == Part("", Some(anns[k]))
    {
      DecomposedAnnotationAt(runs, anns, k);
    }
    forall k | 0 <= k < Min(|runs|, |anns| + 1)
      ensures Decompose(runs, anns)[2 * k] == Part(runs[k], None)
    {
      DecomposedRunAt(runs, anns, k);
    }
  }

  lemma DecomposeUnfold<P>(runs: seq<string>, anns: seq<P>)
    ensures |runs| > 0 ==> Decompose(runs, anns) == [Part(runs[0], None)] + Weave(anns, runs[1..])
    ensures |runs| == 0 ==> Decompose(runs, anns) == Weave(anns, runs)
  {
  }

  /** With a leading run in front, the k-th annotation moves one place right. */
  lemma LeadingRunAnnotationAt<P>(first: string, rest: seq<string>, anns: seq<P>, k: nat)
    requires k < |anns|
    ensures k + Min(k + 1, |rest| + 1) < |[Part(first, None)] + Weave(anns, rest)|
    ensures ([Part(first, None)] + Weave(anns, rest))[k + Min(k + 1, |rest| + 1)] == Part("", Some(anns[k]))
  {
    AnnotationAt(anns, rest, k);
    var j := k + Min(k, |rest|);
    assert k + Min(k + 1, |rest| + 1) == 1 + j;
    IndexAfter([Part(first, None)], Weave(anns, rest), j);
  }

  lemma DecomposedAnnotationAt<P>(runs: seq<string>, anns: seq<P>, k: nat)
    requires k < |anns|
    ensures k + Min(k + 1, |runs|) < |Decompose(runs, anns)|
    ensures Decompose(runs, anns)[k + Min(k + 1, |runs|)] == Part("", Some(anns[k]))
  {
    DecomposeUnfold(runs, anns);
    if |runs| > 0 {
      var d := [Part(runs[0], None)] + Weave(anns, runs[1..]);
      assert Decompose(runs, anns) == d;
      LeadingRunAnnotationAt(runs[0], runs[1..], anns, k);
      assert k + Min(k + 1, |runs|) == k + Min(k + 1, |runs[1..]| + 1);
    } else {
      AnnotationAt(anns, runs, k);
    }
  }

  lemma DecomposedRunAt<P>(runs: seq<string>, anns: seq<P>, k: nat)
    requires k < |runs| && k <= |anns|
    ensures 2 * k < |Decompose(runs, anns)|
    ensures Decompose(runs, anns)[2 * k] == Part(runs[k], None)
  {
    DecomposeUnfold(runs, anns);
    var tail := Weave(anns, runs[1..]);
    if k > 0 {
      RunAt(anns, runs[1..], k - 1);
      assert 2 * k == 1 + (2 * (k - 1) + 1);
      IndexAfter([Part(runs[0], None)], tail, 2 * (k - 1) + 1);
    }
  }

  /** The placement quirk: a sentence written "(Hund,2) bellt." has one
      annotation and one trailing plain run, and the run is emitted first. */
  lemma TrailingRunPlacedFirst<P>(run: string, ann: P)
    ensures Decompose([run], [ann]) == [Part(run, None), Part("", Some(ann))]
  {
    assert Weave([ann], []) == [Part("", Some(ann))] by {
      assert [ann][1..] == [];
    }
  }
}
