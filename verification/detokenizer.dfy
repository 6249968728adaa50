/** Reconstruction of display text from a token range (IRBuilder.cpp,
    textJoin, readEndlessWords). The loop keeps the kind of the last
    non-newline token it wrote ("the memory"); a line break clears it. */
module Detokenizer {
  import opened Wrappers
  import opened Tokens

  /** The memory after a token. */
  function After(t: Token): Option<Kind> {
    if t.kind == Newline then None else Some(t.kind)
  }

  /** What the loop writes for one token, given the memory before it. */
  function StepText(t: Token, prev: Option<Kind>, keepNewlines: bool): string {
    if t.kind == Newline then (if keepNewlines then "\n" else "")
    else if prev.Some? && SpaceBetween(prev.value, t.kind) then " " + t.text
    else t.text
  }

  /** What the loop writes for `ts`, starting from memory `prev`. */
  function DetokenizeFrom(ts: seq<Token>, prev: Option<Kind>, keepNewlines: bool): string
    decreases |ts|
  {
    if |ts| == 0 then ""
    else StepText(ts[0], prev, keepNewlines) + DetokenizeFrom(ts[1..], After(ts[0]), keepNewlines)
  }

  function Detokenize(ts: seq<Token>, keepNewlines: bool): string {
    DetokenizeFrom(ts, None, keepNewlines)
  }

  /** readEndlessWords: an absent node reads as the empty string; newlines
      are dropped. */
  function ReadWords(w: Option<seq<Token>>): string {
    if w.None? then "" else Detokenize(w.value, false)
  }

  /** The memory after a whole sequence of tokens. */
  function LastMemory(ts: seq<Token>, prev: Option<Kind>): Option<Kind>
    decreases |ts|
  {
    if |ts| == 0 then prev else LastMemory(ts[1..], After(ts[0]))
  }

  lemma {:induction false} LastMemoryOfNonEmpty(ts: seq<Token>, prev: Option<Kind>)
    requires |ts| > 0
    ensures LastMemory(ts, prev) == After(ts[|ts| - 1])
    decreases |ts|
  {
    if |ts| > 1 {
      LastMemoryOfNonEmpty(ts[1..], After(ts[0]));
    }
  }

  lemma {:induction false} DetokenizeAppend(ts: seq<Token>, us: seq<Token>, prev: Option<Kind>, keepNewlines: bool)
    ensures DetokenizeFrom(ts + us, prev, keepNewlines)
         == DetokenizeFrom(ts, prev, keepNewlines) + DetokenizeFrom(us, LastMemory(ts, prev), keepNewlines)
    decreases |ts|
  {
    if |ts| == 0 {
      assert ts + us == us;
    } else {
      assert (ts + us)[0] == ts[0];
      assert (ts + us)[1..] == ts[1..] + us;
      DetokenizeAppend(ts[1..], us, After(ts[0]), keepNewlines);
    }
  }

  /** A line break splits the text: no space is ever inserted directly after
      it, and it contributes "\n" exactly when newlines are kept. */
  lemma NewlineResets(ts: seq<Token>, nl: Token, us: seq<Token>, keepNewlines: bool)
    requires nl.kind == Newline
    ensures Detokenize(ts + [nl] + us, keepNewlines)
         == Detokenize(ts, keepNewlines) + (if keepNewlines then "\n" else "") + Detokenize(us, keepNewlines)
  {
    DetokenizeAppend(ts + [nl], us, None, keepNewlines);
    DetokenizeAppend(ts, [nl], None, keepNewlines);
    LastMemoryOfNonEmpty(ts + [nl], None);
    assert DetokenizeFrom([nl], LastMemory(ts, None), keepNewlines) == (if keepNewlines then "\n" else "");
  }

  /** The spacing rule between two consecutive non-newline tokens: one space
      exactly when SpaceBetween holds, otherwise the texts are concatenated. */
  lemma AdjacentSpacing(ts: seq<Token>, u: Token, v: Token, keepNewlines: bool)
    requires u.kind != Newline && v.kind != Newline
    ensures Detokenize(ts + [u, v], keepNewlines)
         == Detokenize(ts + [u], keepNewlines) + (if SpaceBetween(u.kind, v.kind) then " " + v.text else v.text)
  {
    var pre := ts + [u];
    assert ts + [u, v] == pre + [v];
    DetokenizeAppend(pre, [v], None, keepNewlines);
    LastMemoryOfNonEmpty(pre, None);
    assert pre[|pre| - 1] == u;
    OneStep(v, Some(u.kind), keepNewlines);
  }

  lemma OneStep(t: Token, prev: Option<Kind>, keepNewlines: bool)
    ensures DetokenizeFrom([t], prev, keepNewlines) == StepText(t, prev, keepNewlines)
  {
    assert [t][1..] == [];
  }

  /** Extends a known reading by one more non-newline token. */
  lemma ExtendReading(pre: seq<Token>, v: Token, before: string, after: string)
    requires |pre| > 0 && pre[|pre| - 1].kind != Newline && v.kind != Newline
    requires Detokenize(pre, false) == before
    requires after == before + (if SpaceBetween(pre[|pre| - 1].kind, v.kind) then " " + v.text else v.text)
    ensures Detokenize(pre + [v], false) == after
  {
    var u := pre[|pre| - 1];
    var ts := pre[..|pre| - 1];
    assert pre == ts + [u];
    assert pre + [v] == ts + [u, v];
    AdjacentSpacing(ts, u, v, false);
  }

  /** A single token detokenizes to its own text, so reading back a
      reconstructed text as one token is stable. */
  lemma SingleToken(t: Token, keepNewlines: bool)
    requires t.kind != Newline
    ensures Detokenize([t], keepNewlines) == t.text
  {
    assert [t][1..] == [];
    assert DetokenizeFrom([], After(t), keepNewlines) == "";
    assert StepText(t, None, keepNewlines) == t.text;
  }

  /** Without keepNewlines, the text holds a line break only if the own
      text of some token other than a newline token does. */
  lemma {:induction false} DroppedNewlinesStayOut(ts: seq<Token>, prev: Option<Kind>)
    requires forall i :: 0 <= i < |ts| ==> ts[i].kind != Newline ==> '\n' !in ts[i].text
    ensures '\n' !in DetokenizeFrom(ts, prev, false)
    decreases |ts|
  {
    if |ts| > 0 {
      DroppedNewlinesStayOut(ts[1..], After(ts[0]));
      assert '\n' !in StepText(ts[0], prev, false);
    }
  }

  // ----- inserted spaces only -----

  /** One write of the loop: a token's text (or a kept line break), or a
      space the spacing rule inserted. */
  datatype Emit = InsertedSpace | Piece(text: string)

  function Flatten(es: seq<Emit>): string
    decreases |es|
  {
    if |es| == 0 then ""
    else (if es[0].InsertedSpace? then " " else es[0].text) + Flatten(es[1..])
  }

  function DropSpaces(es: seq<Emit>): seq<Emit>
    decreases |es|
  {
    if |es| == 0 then []
    else (if es[0].InsertedSpace? then [] else [es[0]]) + DropSpaces(es[1..])
  }

  function StepEmits(t: Token, prev: Option<Kind>, keepNewlines: bool): seq<Emit> {
    if t.kind == Newline then (if keepNewlines then [Piece("\n")] else [])
    else if prev.Some? && SpaceBetween(prev.value, t.kind) then [InsertedSpace, Piece(t.text)]
    else [Piece(t.text)]
  }

  function EmitsFrom(ts: seq<Token>, prev: Option<Kind>, keepNewlines: bool): seq<Emit>
    decreases |ts|
  {
    if |ts| == 0 then []
    else StepEmits(ts[0], prev, keepNewlines) + EmitsFrom(ts[1..], After(ts[0]), keepNewlines)
  }

  /** What a token contributes when no space is inserted anywhere. */
  function PieceOf(t: Token, keepNewlines: bool): string {
    if t.kind == Newline then (if keepNewlines then "\n" else "") else t.text
  }

  /** Plain concatenation of the token texts (line breaks kept or dropped). */
  function Plain(ts: seq<Token>, keepNewlines: bool): string
    decreases |ts|
  {
    if |ts| == 0 then "" else PieceOf(ts[0], keepNewlines) + Plain(ts[1..], keepNewlines)
  }

  lemma {:induction false} FlattenAppend(a: seq<Emit>, b: seq<Emit>)
    ensures Flatten(a + b) == Flatten(a) + Flatten(b)
    decreases |a|
  {
    if |a| > 0 {
      assert (a + b)[1..] == a[1..] + b;
      FlattenAppend(a[1..], b);
    } else {
      assert a + b == b;
    }
  }

  lemma {:induction false} DropSpacesAppend(a: seq<Emit>, b: seq<Emit>)
    ensures DropSpaces(a + b) == DropSpaces(a) + DropSpaces(b)
    decreases |a|
  {
    if |a| > 0 {
      assert (a + b)[1..] == a[1..] + b;
      DropSpacesAppend(a[1..], b);
    } else {
      assert a + b == b;
    }
  }

  lemma FlattenStep(t: Token, prev: Option<Kind>, keepNewlines: bool)
    ensures Flatten(StepEmits(t, prev, keepNewlines)) == StepText(t, prev, keepNewlines)
    ensures Flatten(DropSpaces(StepEmits(t, prev, keepNewlines))) == PieceOf(t, keepNewlines)
  {
    var es := StepEmits(t, prev, keepNewlines);
    if t.kind == Newline {
      if keepNewlines {
        OnePiece("\n");
      }
    } else if prev.Some? && SpaceBetween(prev.value, t.kind) {
      assert es == [InsertedSpace, Piece(t.text)];
      assert es[1..] == [Piece(t.text)];
      OnePiece(t.text);
      assert Flatten(es) == " " + Flatten([Piece(t.text)]);
      assert DropSpaces(es) == DropSpaces([Piece(t.text)]);
    } else {
      OnePiece(t.text);
    }
  }

  lemma OnePiece(s: string)
    ensures Flatten([Piece(s)]) == s
    ensures DropSpaces([Piece(s)]) == [Piece(s)]
  {
    assert [Piece(s)][1..] == [];
  }

  /** The loop's writes spell out exactly the detokenized text. */
  lemma {:induction false} EmitsSpellText(ts: seq<Token>, prev: Option<Kind>, keepNewlines: bool)
    ensures Flatten(EmitsFrom(ts, prev, keepNewlines)) == DetokenizeFrom(ts, prev, keepNewlines)
    decreases |ts|
  {
    if |ts| > 0 {
      FlattenAppend(StepEmits(ts[0], prev, keepNewlines), EmitsFrom(ts[1..], After(ts[0]), keepNewlines));
      FlattenStep(ts[0], prev, keepNewlines);
      EmitsSpellText(ts[1..], After(ts[0]), keepNewlines);
    }
  }

  /** Removing the inserted spaces from the writes leaves exactly the plain
      concatenation of the token texts: the detokenizer only ever adds spaces. */
  lemma {:induction false} RemovingInsertedSpacesGivesPlain(ts: seq<Token>, prev: Option<Kind>, keepNewlines: bool)
    ensures Flatten(DropSpaces(EmitsFrom(ts, prev, keepNewlines))) == Plain(ts, keepNewlines)
    decreases |ts|
  {
    if |ts| > 0 {
      var h := StepEmits(ts[0], prev, keepNewlines);
      var rest := EmitsFrom(ts[1..], After(ts[0]), keepNewlines);
      DropSpacesAppend(h, rest);
      FlattenStep(ts[0], prev, keepNewlines);
      FlattenAppend(DropSpaces(h), DropSpaces(rest));
      RemovingInsertedSpacesGivesPlain(ts[1..], After(ts[0]), keepNewlines);
    }
  }

  // ----- number runs and examples -----

  /** A run of NUMBER tokens is joined without spaces. */
  lemma {:induction false} DigitRunsJoin(ts: seq<Token>, prev: Option<Kind>, keepNewlines: bool)
    requires forall i :: 0 <= i < |ts| ==> ts[i].kind == Number
    requires prev.None? || prev == Some(Number)
    ensures DetokenizeFrom(ts, prev, keepNewlines) == Plain(ts, keepNewlines)
    decreases |ts|
  {
    if |ts| > 0 {
      DigitRunsJoin(ts[1..], Some(Number), keepNewlines);
    }
  }

  lemma DigitsExample()
    ensures Detokenize([Token(Number, "1"), Token(Number, "6")], false) == "16"
  {
    var ts := [Token(Number, "1"), Token(Number, "6")];
    DigitRunsJoin(ts, None, false);
    assert ts[1..][1..] == [];
  }

  /** `word ( word ) word` reads "ist (rund) zu": a space before '(' and after
      ')', none inside the brackets. */
  lemma BracketExample()
    ensures Detokenize([Token(Letters, "ist"), Token(OpenParen, "("), Token(Letters, "rund"),
                        Token(CloseParen, ")"), Token(Letters, "zu")], false) == "ist (rund) zu"
  {
    var a, b, c, d, e := Token(Letters, "ist"), Token(OpenParen, "("), Token(Letters, "rund"),
                          Token(CloseParen, ")"), Token(Letters, "zu");
    SingleToken(a, false);
    ExtendReading([a], b, "ist", "ist (");
    assert [a] + [b] == [a, b];
    ExtendReading([a, b], c, "ist (", "ist (rund");
    assert [a, b] + [c] == [a, b, c];
    ExtendReading([a, b, c], d, "ist (rund", "ist (rund)");
    assert [a, b, c] + [d] == [a, b, c, d];
    ExtendReading([a, b, c, d], e, "ist (rund)", "ist (rund) zu");
    assert [a, b, c, d] + [e] == [a, b, c, d, e];
  }

  // ----- the loop over the token stream -----

  lemma LoopStep(tokens: seq<Token>, i: int, b: int, prev: Option<Kind>, keepNewlines: bool, out: string, target: string,
                 piece: string, next: Option<Kind>)
    requires 0 <= i <= b < |tokens|
    requires out + DetokenizeFrom(tokens[i..b + 1], prev, keepNewlines) == target
    requires piece == StepText(tokens[i], prev, keepNewlines) && next == After(tokens[i])
    ensures (out + piece) + DetokenizeFrom(tokens[i + 1..b + 1], next, keepNewlines) == target
  {
    var rest := tokens[i..b + 1];
    assert rest[0] == tokens[i] && rest[1..] == tokens[i + 1..b + 1];
  }

  /** One iteration of textJoin's loop: what it writes for a token and the
      memory it keeps afterwards. */
  method JoinOne(t: Token, prev: Option<Kind>, keepNewlines: bool) returns (piece: string, next: Option<Kind>)
    ensures t.kind == Newline ==> next.None? && piece == (if keepNewlines then "\n" else "")
    ensures t.kind != Newline ==> next == Some(t.kind)
    ensures t.kind != Newline && prev.Some? && SpaceBetween(prev.value, t.kind) ==> piece == " " + t.text
    ensures t.kind != Newline && (prev.None? || !SpaceBetween(prev.value, t.kind)) ==> piece == t.text
  {
    if t.kind == Newline {
      piece := if keepNewlines then "\n" else "";
      next := None;
    } else {
      piece := if prev.Some? && SpaceBetween(prev.value, t.kind) then " " + t.text else t.text;
      next := Some(t.kind);
    }
  }

  /** textJoin over the whole token stream: the range from the node's start
      to its stop token, with the degenerate ranges reading as "". */
  method TextJoin(tokens: seq<Token>, start: Option<int>, stop: Option<int>, keepNewlines: bool) returns (r: string)
    requires start.Some? && stop.Some? && 0 <= start.value <= stop.value ==> stop.value < |tokens|
    ensures start.None? || stop.None? || start.value < 0 || stop.value < start.value ==> r == ""
    ensures start.Some? && stop.Some? && 0 <= start.value <= stop.value
      ==> r == Detokenize(tokens[start.value..stop.value + 1], keepNewlines)
  {
    if start.None? || stop.None? {
      return "";
    }
    var a, b := start.value, stop.value;
    if a < 0 || b < a {
      return "";
    }
    ghost var target := Detokenize(tokens[a..b + 1], keepNewlines);
    var out := "";
    var prev: Option<Kind> := None;
    var i := a;
    while i <= b
      invariant a <= i <= b + 1
      invariant out + DetokenizeFrom(tokens[i..b + 1], prev, keepNewlines) == target
    {
      var piece, next := JoinOne(tokens[i], prev, keepNewlines);
      LoopStep(tokens, i, b, prev, keepNewlines, out, target, piece, next);
      out := out + piece;
      prev := next;
      i := i + 1;
    }
    assert tokens[i..b + 1] == [];
    r := out;
  }
}
