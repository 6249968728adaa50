/** The re-indenter (DomainJson.cpp, prettyJsonDomain). It walks the
    compact text one character at a time, keeping whether it is inside a
    string literal and the nesting depth. Outside strings it breaks the line
    after `{`, `[` and `,` and before `}` and `]`, indenting by two spaces
    per level. A closer at depth 0 makes the source build a string of
    negative length, which throws; that run is `None` here.

    The source decides whether a quote ends a string by looking only at the
    character before it (`AsWritten`). That misreads a string whose last
    character is an escaped backslash. `Corrected` tracks escapes instead;
    the rest of the model uses it. */
module Pretty {
  import opened Wrappers

  datatype Tracking = AsWritten | Corrected

  /** `flag` is, for AsWritten, "the previous character was a backslash";
      for Corrected, "inside a string, just after an escaping backslash". */
  datatype PState = PState(inString: bool, flag: bool, indent: nat)

  const Start := PState(false, false, 0)

  /** One piece of output: an input character, or an inserted line break
      followed by `width` spaces. */
  datatype PEmit = Orig(c: char) | Break(width: nat)

  predicate IsOpener(c: char) { c == '{' || c == '[' }
  predicate IsCloser(c: char) { c == '}' || c == ']' }

  function NextFlag(mode: Tracking, st: PState, c: char): bool {
    match mode
    case AsWritten => c == '\\'
    case Corrected => st.inString && !st.flag && c == '\\'
  }

  /** One character: the state after it and what is written for it. */
  function Step(mode: Tracking, st: PState, c: char): (r: Option<(PState, seq<PEmit>)>)
    ensures r.None? <==> !st.inString && IsCloser(c) && st.indent == 0
    ensures r.Some? ==> Originals(r.value.1) == [c]
    ensures r.Some? && st.inString && c != '"' ==> r.value.1 == [Orig(c)] && r.value.0.inString
    ensures r.Some? && c == '"' ==> r.value.1 == [Orig(c)] && r.value.0.inString == (st.inString != !st.flag)
    ensures r.Some? && c != '"' && !st.inString && IsOpener(c) ==> r.value.0.indent == st.indent + 1
    ensures r.Some? && c != '"' && !st.inString && IsCloser(c) ==> r.value.0.indent == st.indent - 1
    ensures r.Some? && (c == '"' || st.inString || !(IsOpener(c) || IsCloser(c))) ==> r.value.0.indent == st.indent
  {
    OriginalsOfPieces(c, st.indent);
    var flag := NextFlag(mode, st, c);
    if c == '"' then
      Some((PState(if st.flag then st.inString else !st.inString, flag, st.indent), [Orig(c)]))
    else if !st.inString && IsOpener(c) then
      Some((PState(false, flag, st.indent + 1), [Orig(c), Break(2 * (st.indent + 1))]))
    else if !st.inString && IsCloser(c) then
      if st.indent == 0 then None
      else Some((PState(false, flag, st.indent - 1), [Break(2 * (st.indent - 1)), Orig(c)]))
    else if !st.inString && c == ',' then
      Some((PState(false, flag, st.indent), [Orig(c), Break(2 * st.indent)]))
    else
      Some((PState(st.inString, flag, st.indent), [Orig(c)]))
  }

  /** The input characters among the pieces, in order. */
  function Originals(es: seq<PEmit>): string
    decreases |es|
  {
    if |es| == 0 then ""
    else (if es[0].Orig? then [es[0].c] else "") + Originals(es[1..])
  }

  lemma OriginalsOfPieces(c: char, n: nat)
    ensures Originals([Orig(c)]) == [c]
    ensures Originals([Orig(c), Break(2 * (n + 1))]) == [c]
    ensures Originals([Orig(c), Break(2 * n)]) == [c]
    ensures n > 0 ==> Originals([Break(2 * (n - 1)), Orig(c)]) == [c]
  {
    assert [Orig(c)][1..] == [];
    BreakHasNoOriginals(2 * (n + 1));
    BreakHasNoOriginals(2 * n);
    assert [Orig(c), Break(2 * (n + 1))][1..] == [Break(2 * (n + 1))];
    assert [Orig(c), Break(2 * n)][1..] == [Break(2 * n)];
    if n > 0 {
      assert [Break(2 * (n - 1)), Orig(c)][1..] == [Orig(c)];
    }
  }

  lemma BreakHasNoOriginals(w: nat)
    ensures Originals([Break(w)]) == ""
  {
    assert [Break(w)][1..] == [];
  }

  function Spaces(n: nat): (r: string)
    ensures |r| == n && forall i :: 0 <= i < n ==> r[i] == ' '
  {
    seq(n, _ => ' ')
  }

  /** The text of the pieces. */
  function Render(es: seq<PEmit>): string
    decreases |es|
  {
    if |es| == 0 then ""
    else (if es[0].Orig? then [es[0].c] else "\n" + Spaces(es[0].width)) + Render(es[1..])
  }

  /** The whole walk over `src` from state `st`: the final state and the
      pieces written, or None once a closer meets depth 0. */
  function Layout(mode: Tracking, st: PState, src: string): (r: Option<(PState, seq<PEmit>)>)
    decreases |src|
  {
    if |src| == 0 then Some((st, []))
    else
      var first :- Step(mode, st, src[0]);
      var rest :- Layout(mode, first.0, src[1..]);
      Some((rest.0, first.1 + rest.1))
  }

  function PrettyWith(mode: Tracking, src: string): Option<string> {
    var done :- Layout(mode, Start, src);
    Some(Render(done.1))
  }

  /** prettyJsonDomain as the source has it. */
  function PrettyAsWritten(src: string): Option<string> {
    PrettyWith(AsWritten, src)
  }

  /** prettyJsonDomain with escape-aware string tracking. */
  function PrettyJson(src: string): Option<string> {
    PrettyWith(Corrected, src)
  }

  // ----- composition -----

  lemma {:induction false} OriginalsAppend(a: seq<PEmit>, b: seq<PEmit>)
    ensures Originals(a + b) == Originals(a) + Originals(b)
    decreases |a|
  {
    if |a| == 0 {
      assert a + b == b;
    } else {
      assert (a + b)[0] == a[0];
      assert (a + b)[1..] == a[1..] + b;
      OriginalsAppend(a[1..], b);
    }
  }

  lemma {:induction false} RenderAppend(a: seq<PEmit>, b: seq<PEmit>)
    ensures Render(a + b) == Render(a) + Render(b)
    decreases |a|
  {
    if |a| == 0 {
      assert a + b == b;
    } else {
      assert (a + b)[0] == a[0];
      assert (a + b)[1..] == a[1..] + b;
      RenderAppend(a[1..], b);
    }
  }

  /** The walk over `a + b` is the walk over `a` followed by the walk over
      `b` from where `a` left off. */
  lemma {:induction false} LayoutAppend(mode: Tracking, st: PState, a: string, b: string)
    ensures Layout(mode, st, a + b) ==
      (var ra := Layout(mode, st, a);
       if ra.None? then None
       else
         var rb := Layout(mode, ra.value.0, b);
         if rb.None? then None else Some((rb.value.0, ra.value.1 + rb.value.1)))
    decreases |a|
  {
    if |a| == 0 {
      assert a + b == b;
      var rb := Layout(mode, st, b);
      if rb.Some? {
        assert [] + rb.value.1 == rb.value.1;
      }
    } else {
      assert (a + b)[0] == a[0];
      assert (a + b)[1..] == a[1..] + b;
      var first := Step(mode, st, a[0]);
      if first.Some? {
        LayoutAppend(mode, first.value.0, a[1..], b);
        var ra := Layout(mode, first.value.0, a[1..]);
        if ra.Some? {
          var rb := Layout(mode, ra.value.0, b);
          if rb.Some? {
            assert first.value.1 + (ra.value.1 + rb.value.1) == (first.value.1 + ra.value.1) + rb.value.1;
          }
        }
      }
    }
  }

  /** Without a backslash the two trackers cannot differ: the flag is never
      set, so every quote toggles in both. */
  lemma {:induction false} SameWithoutBackslash(st: PState, s: string)
    requires !st.flag
    requires '\\' !in s
    ensures Layout(AsWritten, st, s) == Layout(Corrected, st, s)
    decreases |s|
  {
    if |s| > 0 {
      var a := Step(AsWritten, st, s[0]);
      assert a == Step(Corrected, st, s[0]);
      if a.Some? {
        assert !a.value.0.flag;
        SameWithoutBackslash(a.value.0, s[1..]);
      }
    }
  }

  /** What the source's printer does with a whole text: it fails iff some
      prefix underflows, it otherwise only inserts, and it agrees with the
      escape-aware printer when there is no backslash. */
  lemma AsWrittenOutcome(src: string)
    ensures PrettyAsWritten(src).None? <==> exists k :: 0 < k <= |src| && Depth(src[..k]) < 0
    ensures PrettyAsWritten(src).Some? ==>
      && Layout(AsWritten, Start, src).Some?
      && PrettyAsWritten(src).value == Render(Layout(AsWritten, Start, src).value.1)
      && Originals(Layout(AsWritten, Start, src).value.1) == src
    ensures '\\' !in src ==> PrettyAsWritten(src) == PrettyJson(src)
  {
    AsWrittenFailsIffUnderflow(src);
    if '\\' !in src {
      SameWithoutBackslash(Start, src);
    }
    if Layout(AsWritten, Start, src).Some? {
      LayoutKeepsInput(AsWritten, Start, src);
    }
  }

  // ----- insert-only -----

  /** A successful walk is its first step followed by the walk over the rest. */
  lemma LayoutCons(mode: Tracking, st: PState, src: string) returns (first: (PState, seq<PEmit>), rest: (PState, seq<PEmit>))
    requires |src| > 0 && Layout(mode, st, src).Some?
    ensures Step(mode, st, src[0]) == Some(first) && Originals(first.1) == [src[0]]
    ensures Layout(mode, first.0, src[1..]) == Some(rest)
    ensures Layout(mode, st, src).value.1 == first.1 + rest.1
  {
    first := Step(mode, st, src[0]).value;
    rest := Layout(mode, first.0, src[1..]).value;
  }

  /** The re-indenter only inserts: the input characters of its output are
      the input, in order. */
  lemma {:induction false} LayoutKeepsInput(mode: Tracking, st: PState, src: string)
    requires Layout(mode, st, src).Some?
    ensures Originals(Layout(mode, st, src).value.1) == src
    decreases |src|
  {
    if |src| > 0 {
      var first, rest := LayoutCons(mode, st, src);
      LayoutKeepsInput(mode, first.0, src[1..]);
      OriginalsAppend(first.1, rest.1);
      assert src == [src[0]] + src[1..];
    }
  }

  /** Inside a string nothing is inserted: a run of characters without a
      quote, read inside a string, is copied as it is. */
  lemma {:induction false} InsideStringCopied(mode: Tracking, st: PState, s: string)
    requires st.inString
    requires '"' !in s
    ensures Layout(mode, st, s).Some?
    ensures Render(Layout(mode, st, s).value.1) == s
    ensures Layout(mode, st, s).value.0.inString && Layout(mode, st, s).value.0.indent == st.indent
    decreases |s|
  {
    if |s| > 0 {
      var first := Step(mode, st, s[0]).value;
      assert '"' !in s[1..] by {
        assert forall k :: 0 <= k < |s[1..]| ==> s[1..][k] == s[k + 1];
      }
      InsideStringCopied(mode, first.0, s[1..]);
      RenderAppend(first.1, Layout(mode, first.0, s[1..]).value.1);
      assert s == [s[0]] + s[1..];
    }
  }

  // ----- the source's loop -----

  /** Pieces already written in front of a walk that is still to come. */
  function Prepend(es: seq<PEmit>, rest: Option<(PState, seq<PEmit>)>): Option<(PState, seq<PEmit>)> {
    if rest.None? then None else Some((rest.value.0, es + rest.value.1))
  }

  lemma RenderPieces(c: char, w: nat)
    ensures Render([Orig(c)]) == [c]
    ensures Render([Orig(c), Break(w)]) == [c] + "\n" + Spaces(w)
    ensures Render([Break(w), Orig(c)]) == "\n" + Spaces(w) + [c]
  {
    assert [Orig(c)][1..] == [];
    assert [Break(w)][1..] == [];
    assert [Orig(c), Break(w)][1..] == [Break(w)];
    assert [Break(w), Orig(c)][1..] == [Orig(c)];
  }

  lemma LoopStep(mode: Tracking, src: string, i: int, st: PState, emitted: seq<PEmit>)
    requires 0 <= i < |src|
    requires Layout(mode, Start, src) == Prepend(emitted, Layout(mode, st, src[i..]))
    ensures Step(mode, st, src[i]).None? ==> Layout(mode, Start, src).None?
    ensures Step(mode, st, src[i]).Some? ==>
      Layout(mode, Start, src) == Prepend(emitted + Step(mode, st, src[i]).value.1, Layout(mode, Step(mode, st, src[i]).value.0, src[i + 1..]))
  {
    var tail := src[i..];
    assert tail[0] == src[i] && tail[1..] == src[i + 1..];
    var s := Step(mode, st, src[i]);
    if s.Some? {
      var rest := Layout(mode, s.value.0, src[i + 1..]);
      if rest.Some? {
        assert Layout(mode, st, tail) == Some((rest.value.0, s.value.1 + rest.value.1));
        assert emitted + (s.value.1 + rest.value.1) == (emitted + s.value.1) + rest.value.1;
      } else {
        assert Layout(mode, st, tail).None?;
      }
    } else {
      assert Layout(mode, st, tail).None?;
    }
  }

  /** The body of the source's loop for one character `c`; `afterBackslash`
      is whether the character before it was a backslash. `ok` is false
      where the source would build a negative-length indent. */
  method Advance(c: char, afterBackslash: bool, inString: bool, indent: nat)
    returns (ok: bool, text: string, inString': bool, indent': nat)
    ensures var s := Step(AsWritten, PState(inString, afterBackslash, indent), c);
      && (ok <==> s.Some?)
      && (ok ==> text == Render(s.value.1) && s.value.0 == PState(inString', c == '\\', indent'))
  {
    ok, inString', indent' := true, inString, indent;
    if c == '"' {
      RenderPieces(c, 0);
      text := [c];
      if !afterBackslash {
        inString' := !inString;
      }
    } else if !inString && (c == '{' || c == '[') {
      RenderPieces(c, 2 * (indent + 1));
      text := [c] + "\n";
      indent' := indent + 1;
      text := text + Spaces(indent' * 2);
    } else if !inString && (c == '}' || c == ']') {
      text := "\n";
      var lower: int := indent - 1;
      if lower < 0 {
        ok := false;
        return;
      }
      indent' := lower;
      RenderPieces(c, 2 * indent');
      text := text + Spaces(indent' * 2) + [c];
    } else if !inString && c == ',' {
      RenderPieces(c, 2 * indent);
      text := [c] + "\n" + Spaces(indent * 2);
    } else {
      RenderPieces(c, 0);
      text := [c];
    }
  }

  /** prettyJsonDomain: it looks back at the previous source character to
      decide whether a quote is escaped, and it fails when the depth would
      go below zero. */
  method PrettyJsonDomain(src: string) returns (r: Option<string>)
    ensures r == PrettyAsWritten(src)
  {
    var out := "";
    var indent: nat := 0;
    var inString := false;
    ghost var emitted: seq<PEmit> := [];
    var i := 0;
    assert src[i..] == src;
    ghost var whole := Layout(AsWritten, Start, src);
    if whole.Some? {
      assert [] + whole.value.1 == whole.value.1;
    }
    while i < |src|
      invariant 0 <= i <= |src|
      invariant Layout(AsWritten, Start, src)
        == Prepend(emitted, Layout(AsWritten, PState(inString, i > 0 && src[i - 1] == '\\', indent), src[i..]))
      invariant out == Render(emitted)
    {
      ghost var st := PState(inString, i > 0 && src[i - 1] == '\\', indent);
      LoopStep(AsWritten, src, i, st, emitted);
      ghost var step := Step(AsWritten, st, src[i]);
      var ok, text, inString', indent' := Advance(src[i], i > 0 && src[i - 1] == '\\', inString, indent);
      if !ok {
        return None;
      }
      RenderAppend(emitted, step.value.1);
      emitted := emitted + step.value.1;
      out := out + text;
      inString, indent := inString', indent';
      i := i + 1;
    }
    assert src[i..] == "";
    assert emitted + [] == emitted;
    return Some(out);
  }

  // ----- what the source's tracker computes -----

  /** The quote at `i` flips the source's in-string flag: it is not
      directly after a backslash. */
  predicate TogglesAt(s: string, i: int)
    requires 0 <= i < |s|
  {
    s[i] == '"' && (i == 0 || s[i - 1] != '\\')
  }

  /** How many quotes in `s` flip the source's flag. */
  function QuoteToggles(s: string): nat
    decreases |s|
  {
    if |s| == 0 then 0
    else QuoteToggles(s[..|s| - 1]) + (if TogglesAt(s, |s| - 1) then 1 else 0)
  }

  /** The opens minus the closes among the brackets the source sees
      outside strings, by its quote counting. */
  function Depth(s: string): int
    decreases |s|
  {
    if |s| == 0 then 0
    else
      var p := s[..|s| - 1];
      var c := s[|s| - 1];
      Depth(p) + (if c == '"' || QuoteToggles(p) % 2 == 1 then 0 else if IsOpener(c) then 1 else if IsCloser(c) then -1 else 0)
  }

  lemma LayoutOne(mode: Tracking, st: PState, c: char)
    ensures Layout(mode, st, [c]) == Step(mode, st, c)
  {
    assert [c][0] == c && [c][1..] == [];
    var s := Step(mode, st, c);
    if s.Some? {
      assert s.value.1 + [] == s.value.1;
    }
  }

  /** A successful walk over `p + [c]` is the walk over `p` followed by
      one step on `c`. */
  lemma LayoutSnoc(mode: Tracking, st: PState, p: string, c: char) returns (mid: PState)
    requires Layout(mode, st, p + [c]).Some?
    ensures Layout(mode, st, p).Some? && Layout(mode, st, p).value.0 == mid
    ensures Step(mode, mid, c).Some?
    ensures Layout(mode, st, p + [c]).value.0 == Step(mode, mid, c).value.0
  {
    LayoutAppend(mode, st, p, [c]);
    mid := Layout(mode, st, p).value.0;
    LayoutOne(mode, mid, c);
  }

  /** One more character for the source's tracker, stated on the fields
      of its state. */
  lemma AsWrittenSnoc(p: string, c: char) returns (mid: PState, next: PState)
    requires Layout(AsWritten, Start, p + [c]).Some?
    ensures Layout(AsWritten, Start, p).Some? && Layout(AsWritten, Start, p).value.0 == mid
    ensures Layout(AsWritten, Start, p + [c]).value.0 == next
    ensures next.flag == (c == '\\')
    ensures next.inString == (if c == '"' && !mid.flag then !mid.inString else mid.inString)
    ensures next.indent == mid.indent + (if c == '"' || mid.inString then 0 else if IsOpener(c) then 1 else if IsCloser(c) then -1 else 0)
  {
    mid := LayoutSnoc(AsWritten, Start, p, c);
    next := Step(AsWritten, mid, c).value.0;
  }

  /** After any input the source's tracker is inside a string exactly when
      an odd number of quotes flipped it, remembers whether the last
      character was a backslash, and is at the depth the brackets outside
      strings give. */
  lemma {:induction false} AsWrittenState(src: string)
    requires Layout(AsWritten, Start, src).Some?
    ensures Layout(AsWritten, Start, src).value.0.inString == (QuoteToggles(src) % 2 == 1)
    ensures Layout(AsWritten, Start, src).value.0.flag == (|src| > 0 && src[|src| - 1] == '\\')
    ensures Layout(AsWritten, Start, src).value.0.indent == Depth(src)
    decreases |src|
  {
    if |src| > 0 {
      var p := src[..|src| - 1];
      var c := src[|src| - 1];
      assert src == p + [c];
      var mid, next := AsWrittenSnoc(p, c);
      AsWrittenState(p);
      if |p| > 0 {
        assert src[|src| - 2] == p[|p| - 1];
      }
      assert TogglesAt(src, |src| - 1) == (c == '"' && !mid.flag);
      assert QuoteToggles(src) == QuoteToggles(p) + (if c == '"' && !mid.flag then 1 else 0);
    }
  }

  /** The source's run fails exactly when, at some point, more brackets
      have been closed than opened outside strings as it counts them. */
  lemma {:induction false} AsWrittenFailsIffUnderflow(src: string)
    ensures Layout(AsWritten, Start, src).None? <==> exists k :: 0 < k <= |src| && Depth(src[..k]) < 0
    decreases |src|
  {
    if |src| > 0 {
      var p := src[..|src| - 1];
      var c := src[|src| - 1];
      assert src == p + [c];
      AsWrittenFailsIffUnderflow(p);
      LayoutAppend(AsWritten, Start, p, [c]);
      if Layout(AsWritten, Start, p).Some? {
        LastStepFails(p, c);
        DepthNonNegative(p);
        if Layout(AsWritten, Start, src).None? {
          assert src[..|src|] == src;
        } else {
          forall k | 0 < k <= |src|
            ensures Depth(src[..k]) >= 0
          {
            if k < |src| {
              assert src[..k] == p[..k];
            } else {
              assert src[..k] == src;
            }
          }
        }
      } else {
        var k :| 0 < k <= |p| && Depth(p[..k]) < 0;
        assert src[..k] == p[..k];
      }
    }
  }

  /** Once a prefix has gone through, the next character fails exactly when
      it takes the depth below 0. */
  lemma LastStepFails(p: string, c: char)
    requires Layout(AsWritten, Start, p).Some?
    ensures Layout(AsWritten, Start, p + [c]).None? <==> Depth(p + [c]) < 0
  {
    var st := Layout(AsWritten, Start, p).value.0;
    AsWrittenState(p);
    LayoutAppend(AsWritten, Start, p, [c]);
    LayoutOne(AsWritten, st, c);
    var s := p + [c];
    assert s[..|s| - 1] == p && s[|s| - 1] == c;
  }

  lemma DepthNonNegative(src: string)
    requires Layout(AsWritten, Start, src).Some?
    ensures forall k :: 0 < k <= |src| ==> Depth(src[..k]) >= 0
  {
    forall k | 0 < k <= |src|
      ensures Depth(src[..k]) >= 0
    {
      assert src == src[..k] + src[k..];
      LayoutAppend(AsWritten, Start, src[..k], src[k..]);
      AsWrittenState(src[..k]);
    }
  }
}
