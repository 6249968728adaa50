/** The escape-aware re-indenter on text the serializer printed: every
    printed value leaves it where it started, outside any string and at
    the same depth, so re-indenting compact output never fails. */
module PrintedLayout {
  import opened Wrappers
  import opened Numbers
  import opened Json
  import opened Pretty

  function Outside(n: nat): PState { PState(false, false, n) }
  function Inside(n: nat): PState { PState(true, false, n) }

  /** The escape-aware walk over `src` gets from `a` to `b` without failing. */
  predicate Goes(src: string, a: PState, b: PState) {
    var r := Layout(Corrected, a, src);
    r.Some? && r.value.0 == b
  }

  lemma GoesAppend(x: string, y: string, a: PState, b: PState, c: PState)
    requires Goes(x, a, b) && Goes(y, b, c)
    ensures Goes(x + y, a, c)
  {
    LayoutAppend(Corrected, a, x, y);
  }

  lemma GoesChar(c: char, a: PState, b: PState)
    requires Step(Corrected, a, c).Some? && Step(Corrected, a, c).value.0 == b
    ensures Goes([c], a, b)
  {
    LayoutOne(Corrected, a, c);
  }

  /** Characters with no structural meaning outside strings. */
  predicate Neutral(c: char) {
    c != '"' && !IsOpener(c) && !IsCloser(c)
  }

  lemma {:induction false} NeutralGoes(s: string, n: nat)
    requires forall i :: 0 <= i < |s| ==> Neutral(s[i])
    ensures Goes(s, Outside(n), Outside(n))
    decreases |s|
  {
    if |s| > 0 {
      GoesChar(s[0], Outside(n), Outside(n));
      NeutralGoes(s[1..], n);
      GoesAppend([s[0]], s[1..], Outside(n), Outside(n), Outside(n));
      assert s == [s[0]] + s[1..];
    }
  }

  /** Inside a string, the characters escapeJson writes for one character
      leave the walk inside the string with no escape pending. */
  lemma EscapeCharGoes(c: char, n: nat)
    ensures Goes(EscapeChar(c), Inside(n), Inside(n))
  {
    var e := EscapeChar(c);
    if c in "\"\\\n\r\t" {
      var mid := PState(true, true, n);
      GoesChar('\\', Inside(n), mid);
      GoesChar(e[1], mid, Inside(n));
      GoesAppend([e[0]], [e[1]], Inside(n), mid, Inside(n));
      assert e == [e[0]] + [e[1]];
    } else {
      GoesChar(c, Inside(n), Inside(n));
    }
  }

  lemma {:induction false} EscapeGoes(s: string, n: nat)
    ensures Goes(Escape(s), Inside(n), Inside(n))
    decreases |s|
  {
    if |s| == 0 {
      assert Layout(Corrected, Inside(n), "") == Some((Inside(n), []));
    } else {
      EscapeCharGoes(s[0], n);
      EscapeGoes(s[1..], n);
      GoesAppend(EscapeChar(s[0]), Escape(s[1..]), Inside(n), Inside(n), Inside(n));
    }
  }

  /** A printed string literal is read as exactly one string. */
  lemma QuoteGoes(s: string, n: nat)
    ensures Goes(Quote(s), Outside(n), Outside(n))
  {
    GoesChar('"', Outside(n), Inside(n));
    EscapeGoes(s, n);
    GoesAppend("\"", Escape(s), Outside(n), Inside(n), Inside(n));
    GoesChar('"', Inside(n), Outside(n));
    GoesAppend("\"" + Escape(s), "\"", Outside(n), Inside(n), Outside(n));
  }

  /** A field name and the `": ` after it. */
  lemma KeyGoes(k: Key, n: nat)
    ensures Goes("\"" + KeyName(k) + "\": ", Outside(n), Outside(n))
  {
    KeyNamesAreLetters(k);
    var name := KeyName(k);
    LettersClearFlag(name, n);
    GoesChar('"', Outside(n), Inside(n));
    GoesAppend("\"", name, Outside(n), Inside(n), Inside(n));
    GoesChar('"', Inside(n), Outside(n));
    GoesAppend("\"" + name, "\"", Outside(n), Inside(n), Outside(n));
    NeutralGoes(": ", n);
    GoesAppend("\"" + name + "\"", ": ", Outside(n), Outside(n), Outside(n));
    assert "\"" + name + "\": " == "\"" + name + "\"" + ": ";
  }

  lemma {:induction false} LettersClearFlag(s: string, n: nat)
    requires forall i :: 0 <= i < |s| ==> IsLetter(s[i])
    ensures Goes(s, Inside(n), Inside(n))
    decreases |s|
  {
    if |s| == 0 {
      assert Layout(Corrected, Inside(n), "") == Some((Inside(n), []));
    } else {
      GoesChar(s[0], Inside(n), Inside(n));
      LettersClearFlag(s[1..], n);
      GoesAppend([s[0]], s[1..], Inside(n), Inside(n), Inside(n));
      assert s == [s[0]] + s[1..];
    }
  }

  lemma FieldGoes(k: Key, value: string, n: nat)
    requires Goes(value, Outside(n), Outside(n))
    ensures Goes(FieldText(k, value), Outside(n), Outside(n))
  {
    KeyGoes(k, n);
    GoesAppend("\"" + KeyName(k) + "\": ", value, Outside(n), Outside(n), Outside(n));
  }

  /** Elements that each return to the same place, joined by ", ". */
  lemma {:induction false} JoinGoes(parts: seq<string>, n: nat)
    requires forall i :: 0 <= i < |parts| ==> Goes(parts[i], Outside(n), Outside(n))
    ensures Goes(Join(parts), Outside(n), Outside(n))
    decreases |parts|
  {
    if |parts| == 0 {
      assert Layout(Corrected, Outside(n), "") == Some((Outside(n), []));
    } else if |parts| > 1 {
      JoinGoes(parts[1..], n);
      NeutralGoes(", ", n);
      GoesAppend(parts[0], ", ", Outside(n), Outside(n), Outside(n));
      GoesAppend(parts[0] + ", ", Join(parts[1..]), Outside(n), Outside(n), Outside(n));
    }
  }

  lemma NumberGoes(m: int, n: nat)
    ensures Goes(IntToString(m), Outside(n), Outside(n))
  {
    var s := IntToString(m);
    if m < 0 {
      assert AllDigits(NatToString(-m));
      assert forall i :: 0 <= i < |s| ==> s[i] == '-' || IsDigit(s[i]) by {
        forall i | 0 <= i < |s|
          ensures s[i] == '-' || IsDigit(s[i])
        {
          if i > 0 {
            assert s[i] == NatToString(-m)[i - 1];
          }
        }
      }
    }
    NeutralGoes(s, n);
  }

  /** Opening bracket, a body that returns one level deeper, closing bracket. */
  lemma BracketedGoes(open: string, body: string, close: string, n: nat)
    requires open == "[" || open == "{" || open == "{ "
    requires close == "]" || close == "}" || close == " }"
    requires Goes(body, Outside(n + 1), Outside(n + 1))
    ensures Goes(open + body + close, Outside(n), Outside(n))
  {
    if open == "{ " {
      GoesChar('{', Outside(n), Outside(n + 1));
      NeutralGoes(" ", n + 1);
      GoesAppend("{", " ", Outside(n), Outside(n + 1), Outside(n + 1));
      assert "{ " == "{" + " ";
    } else {
      GoesChar(open[0], Outside(n), Outside(n + 1));
      assert open == [open[0]];
    }
    GoesAppend(open, body, Outside(n), Outside(n + 1), Outside(n + 1));
    if close == " }" {
      NeutralGoes(" ", n + 1);
      GoesChar('}', Outside(n + 1), Outside(n));
      GoesAppend(" ", "}", Outside(n + 1), Outside(n + 1), Outside(n));
      assert " }" == " " + "}";
    } else {
      GoesChar(close[0], Outside(n + 1), Outside(n));
      assert close == [close[0]];
    }
    GoesAppend(open + body, close, Outside(n), Outside(n + 1), Outside(n));
  }

  /** Every printed value returns the escape-aware walk to where it began. */
  lemma {:induction false} PrintGoes(j: Json, n: nat)
    ensures Goes(Print(j), Outside(n), Outside(n))
    decreases j
  {
    match j
    case JString(s) => QuoteGoes(s, n);
    case JNumber(m) => NumberGoes(m, n);
    case JBool(b) =>
      assert forall i :: 0 <= i < |Print(j)| ==> Neutral(Print(j)[i]);
      NeutralGoes(Print(j), n);
    case JArray(items) =>
      forall i | 0 <= i < |items|
        ensures Goes(Print(items[i]), Outside(n + 1), Outside(n + 1))
      {
        PrintGoes(items[i], n + 1);
      }
      ArrayGoes(items, n);
    case JObject(fields, spaced) =>
      forall i | 0 <= i < |fields|
        ensures Goes(FieldText(fields[i].key, Print(fields[i].value)), Outside(n + 1), Outside(n + 1))
      {
        PrintGoes(fields[i].value, n + 1);
        FieldGoes(fields[i].key, Print(fields[i].value), n + 1);
      }
      ObjectGoes(fields, spaced, n);
  }

  /** An array whose items each return the walk to where they began. */
  lemma ArrayGoes(items: seq<Json>, n: nat)
    requires forall i :: 0 <= i < |items| ==> Goes(Print(items[i]), Outside(n + 1), Outside(n + 1))
    ensures Goes(Print(JArray(items)), Outside(n), Outside(n))
  {
    var texts := seq(|items|, i requires 0 <= i < |items| => Print(items[i]));
    JoinGoes(texts, n + 1);
    BracketedGoes("[", Join(texts), "]", n);
  }

  /** An object whose fields each return the walk to where they began. */
  lemma ObjectGoes(fields: seq<Field>, spaced: bool, n: nat)
    requires forall i :: 0 <= i < |fields| ==> Goes(FieldText(fields[i].key, Print(fields[i].value)), Outside(n + 1), Outside(n + 1))
    ensures Goes(Print(JObject(fields, spaced)), Outside(n), Outside(n))
  {
    var texts := seq(|fields|, i requires 0 <= i < |fields| => FieldText(fields[i].key, Print(fields[i].value)));
    JoinGoes(texts, n + 1);
    BracketedGoes(if spaced then "{ " else "{", Join(texts), if spaced then " }" else "}", n);
  }

  /** Re-indenting any printed value succeeds, and only inserts line
      breaks and indentation: the input characters of the output are the
      printed text, in order. */
  lemma PrettyOfPrinted(j: Json)
    ensures PrettyJson(Print(j)).Some?
    ensures Originals(Layout(Corrected, Start, Print(j)).value.1) == Print(j)
    ensures PrettyJson(Print(j)).value == Render(Layout(Corrected, Start, Print(j)).value.1)
  {
    PrintGoes(j, 0);
    LayoutKeepsInput(Corrected, Start, Print(j));
  }

  // ----- the escaped-backslash finding -----

  /** `["\\", "]]"]`: an array of a one-backslash string and "]]". */
  const BackslashSample := JArray([JString("\\"), JString("]]")])

  lemma BackslashSampleText()
    ensures Print(BackslashSample) == "[\"\\\\\", \"]]\"]"
  {
    var a := "\"\\\\\"";
    var b := "\"]]\"";
    QuotedBackslash();
    QuotedBrackets();
    var texts := seq(2, i requires 0 <= i < 2 => Print(BackslashSample.items[i]));
    assert texts[0] == a && texts[1] == b;
    assert texts[1..] == [b];
    assert Join(texts) == a + ", " + b;
    assert Print(BackslashSample) == "[" + Join(texts) + "]";
  }

  lemma QuotedBackslash()
    ensures Print(JString("\\")) == "\"\\\\\""
  {
    assert "\\"[1..] == "";
    assert Escape("\\") == "\\\\";
  }

  lemma QuotedBrackets()
    ensures Print(JString("]]")) == "\"]]\""
  {
    assert "]]"[1..] == "]";
    assert "]"[1..] == "";
    assert Escape("]]") == "]]";
  }

  /** The source's tracker reads the closing quote of "\\" as escaped, so it
      takes `, "` for string content and the quote before `]]` as the end
      of a string; the second `]` then closes below depth 0 and the run
      fails. The escape-aware tracker succeeds on the same text. */
  lemma BackslashSampleDesyncs()
    ensures PrettyAsWritten(Print(BackslashSample)).None?
    ensures PrettyJson(Print(BackslashSample)).Some?
  {
    BackslashSampleText();
    var src := Print(BackslashSample);
    AsWrittenFailsIffUnderflow(src);
    assert src[..10] == "[\"\\\\\", \"]]";
    UnderflowAtTen();
    PrettyOfPrinted(BackslashSample);
  }

  /** Quote counting and depth, prefix by prefix, on `["\\"`: the escaped
      backslash leaves the closing quote uncounted. */
  lemma OpenQuoteAtFive()
    ensures QuoteToggles("[\"\\\\\"") == 1 && Depth("[\"\\\\\"") == 1
  {
    var s5 := "[\"\\\\\"";
    var s4 := "[\"\\\\";
    var s3 := "[\"\\";
    var s2 := "[\"";
    var s1 := "[";
    assert s5[..4] == s4 && s4[..3] == s3 && s3[..2] == s2;
    assert s2[..1] == s1 && s1[..0] == "";
    assert QuoteToggles(s1) == 0 && Depth(s1) == 1;
    assert QuoteToggles(s2) == 1 && Depth(s2) == 1;
    assert QuoteToggles(s3) == 1 && Depth(s3) == 1;
    assert QuoteToggles(s4) == 1 && Depth(s4) == 1;
  }

  /** Quote counting and depth, prefix by prefix, on `["\\", "]]`. */
  lemma UnderflowAtTen()
    ensures Depth("[\"\\\\\", \"]]") < 0
  {
    var s10 := "[\"\\\\\", \"]]";
    var s9 := "[\"\\\\\", \"]";
    var s8 := "[\"\\\\\", \"";
    var s7 := "[\"\\\\\", ";
    var s6 := "[\"\\\\\",";
    var s5 := "[\"\\\\\"";
    assert s10[..9] == s9 && s9[..8] == s8 && s8[..7] == s7 && s7[..6] == s6;
    assert s6[..5] == s5;
    OpenQuoteAtFive();
    assert QuoteToggles(s6) == 1 && Depth(s6) == 1;
    assert QuoteToggles(s7) == 1 && Depth(s7) == 1;
    assert QuoteToggles(s8) == 2 && Depth(s8) == 1;
    assert QuoteToggles(s9) == 2 && Depth(s9) == 0;
    assert Depth(s10) == -1;
  }
}
