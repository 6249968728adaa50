/** The JSON text the serializer writes (DomainJson.cpp, escapeJson,
    writeStr, writeStrField and the object/array layout shared by all
    write* functions). A value is built as a tree and printed by one
    printer. There are two object layouts: most objects are written
    "{ a, b }", and annotated-sentence parts are written tight as "{a, b}". */
module Json {
  import opened Wrappers
  import opened Numbers

  /** Every field name the serializer writes. Names are written unescaped. */
  datatype Key =
    | Type | Header | Lines | Task | Tasks
    | Question | Answer | IsTrue | Reason
    | Text | Punctuation | ScoringMode | PointsIfAllCorrect | Points | Items
    | Prefix | SlotA | Middle | SlotB | Pairs | Left | Right
    | Sentences | Parts | Blank | Solution | Mark | MarkedText | Correction | Wrong | Correct
    | Options | IsCorrect

  function KeyName(k: Key): string {
    match k
    case Type => "type"
    case Header => "header"
    case Lines => "lines"
    case Task => "task"
    case Tasks => "tasks"
    case Question => "question"
    case Answer => "answer"
    case IsTrue => "isTrue"
    case Reason => "reason"
    case Text => "text"
    case Punctuation => "punctuation"
    case ScoringMode => "scoringMode"
    case PointsIfAllCorrect => "pointsIfAllCorrect"
    case Points => "points"
    case Items => "items"
    case Prefix => "prefix"
    case SlotA => "slotA"
    case Middle => "middle"
    case SlotB => "slotB"
    case Pairs => "pairs"
    case Left => "left"
    case Right => "right"
    case Sentences => "sentences"
    case Parts => "parts"
    case Blank => "blank"
    case Solution => "solution"
    case Mark => "mark"
    case MarkedText => "markedText"
    case Correction => "correction"
    case Wrong => "wrong"
    case Correct => "correct"
    case Options => "options"
    case IsCorrect => "isCorrect"
  }

  /** An ASCII letter. */
  predicate IsLetter(c: char) {
    'a' <= c <= 'z' || 'A' <= c <= 'Z'
  }

  /** Field names are plain ASCII letters, so writing them unescaped is safe. */
  lemma KeyNamesAreLetters(k: Key)
    ensures |KeyName(k)| > 0
    ensures forall i :: 0 <= i < |KeyName(k)| ==> IsLetter(KeyName(k)[i])
  {
    match k
    case Type | Header | Lines | Task | Tasks | Question => NamesAreLetters0(k);
    case Answer | IsTrue | Reason | Text | Punctuation | ScoringMode => NamesAreLetters1(k);
    case PointsIfAllCorrect | Points | Items | Prefix | SlotA | Middle => NamesAreLetters2(k);
    case SlotB | Pairs | Left | Right | Sentences | Parts => NamesAreLetters3(k);
    case Blank | Solution | Mark | MarkedText | Correction | Wrong => NamesAreLetters4(k);
    case Correct | Options | IsCorrect => NamesAreLetters5(k);
  }

  lemma NamesAreLetters0(k: Key)
    requires k.Type? || k.Header? || k.Lines? || k.Task? || k.Tasks? || k.Question?
    ensures |KeyName(k)| > 0
    ensures forall i :: 0 <= i < |KeyName(k)| ==> IsLetter(KeyName(k)[i])
  {
  }

  lemma NamesAreLetters1(k: Key)
    requires k.Answer? || k.IsTrue? || k.Reason? || k.Text? || k.Punctuation? || k.ScoringMode?
    ensures |KeyName(k)| > 0
    ensures forall i :: 0 <= i < |KeyName(k)| ==> IsLetter(KeyName(k)[i])
  {
  }

  lemma NamesAreLetters2(k: Key)
    requires k.PointsIfAllCorrect? || k.Points? || k.Items? || k.Prefix? || k.SlotA? || k.Middle?
    ensures |KeyName(k)| > 0
    ensures forall i :: 0 <= i < |KeyName(k)| ==> IsLetter(KeyName(k)[i])
  {
  }

  lemma NamesAreLetters3(k: Key)
    requires k.SlotB? || k.Pairs? || k.Left? || k.Right? || k.Sentences? || k.Parts?
    ensures |KeyName(k)| > 0
    ensures forall i :: 0 <= i < |KeyName(k)| ==> IsLetter(KeyName(k)[i])
  {
  }

  lemma NamesAreLetters4(k: Key)
    requires k.Blank? || k.Solution? || k.Mark? || k.MarkedText? || k.Correction? || k.Wrong?
    ensures |KeyName(k)| > 0
    ensures forall i :: 0 <= i < |KeyName(k)| ==> IsLetter(KeyName(k)[i])
  {
  }

  lemma NamesAreLetters5(k: Key)
    requires k.Correct? || k.Options? || k.IsCorrect?
    ensures |KeyName(k)| > 0
    ensures forall i :: 0 <= i < |KeyName(k)| ==> IsLetter(KeyName(k)[i])
  {
  }

  datatype Json =
    | JString(str: string)
    | JNumber(num: int)
    | JBool(b: bool)
    | JArray(items: seq<Json>)
    | JObject(fields: seq<Field>, spaced: bool)

  datatype Field = Field(key: Key, value: Json)

  /** The keys of an object's fields, in order. */
  function Keys(fields: seq<Field>): (r: seq<Key>)
    ensures |r| == |fields|
    ensures forall i :: 0 <= i < |fields| ==> r[i] == fields[i].key
  {
    seq(|fields|, i requires 0 <= i < |fields| => fields[i].key)
  }

  // ----- escapeJson -----

  /** What escapeJson writes for one character. */
  function EscapeChar(c: char): (r: string)
    ensures c == '"' ==> r == "\\\""
    ensures c == '\\' ==> r == "\\\\"
    ensures c == '\n' ==> r == "\\n"
    ensures c == '\r' ==> r == "\\r"
    ensures c == '\t' ==> r == "\\t"
    ensures c !in "\"\\\n\r\t" ==> r == [c]
  {
    match c
    case '"' => "\\\""
    case '\\' => "\\\\"
    case '\n' => "\\n"
    case '\r' => "\\r"
    case '\t' => "\\t"
    case _ => [c]
  }

  /** escapeJson: the output holds no raw line feed, carriage return or tab,
      and a string without characters to escape is copied unchanged. */
  function Escape(s: string): (r: string)
    ensures |r| >= |s|
    ensures '\n' !in r && '\r' !in r && '\t' !in r
    ensures (forall i :: 0 <= i < |s| ==> s[i] !in "\"\\\n\r\t") ==> r == s
    decreases |s|
  {
    if |s| == 0 then "" else EscapeChar(s[0]) + Escape(s[1..])
  }

  /** The character a two-character escape stands for. */
  function UnescapeCode(c: char): Option<char> {
    match c
    case '"' => Some('"')
    case '\\' => Some('\\')
    case 'n' => Some('\n')
    case 'r' => Some('\r')
    case 't' => Some('\t')
    case _ => None
  }

  /** Reads the body of a string literal back: a backslash starts a
      two-character escape, and an unescaped quote is not allowed. */
  function Unescape(s: string): (r: Option<string>)
    ensures r.Some? ==> |r.value| <= |s|
    decreases |s|
  {
    if |s| == 0 then Some("")
    else if s[0] == '\\' then
      if |s| < 2 then None
      else
        var c :- UnescapeCode(s[1]);
        var rest :- Unescape(s[2..]);
        Some([c] + rest)
    else if s[0] == '"' then None
    else
      var rest :- Unescape(s[1..]);
      Some([s[0]] + rest)
  }

  /** Reading back what escapeJson writes gives the original string. */
  lemma {:induction false} UnescapeEscape(s: string)
    ensures Unescape(Escape(s)) == Some(s)
    decreases |s|
  {
    if |s| > 0 {
      UnescapeEscape(s[1..]);
      UnescapeEscapedChar(s[0], Escape(s[1..]));
      assert s == [s[0]] + s[1..];
    }
  }

  /** Reading back one escaped character in front of any text. */
  lemma UnescapeEscapedChar(c: char, rest: string)
    ensures Unescape(EscapeChar(c) + rest)
         == if Unescape(rest).Some? then Some([c] + Unescape(rest).value) else None
  {
    var e := EscapeChar(c);
    if c in "\"\\\n\r\t" {
      assert |e| == 2 && e[0] == '\\' && UnescapeCode(e[1]) == Some(c);
      assert (e + rest)[2..] == rest;
    } else {
      assert (e + rest)[1..] == rest;
    }
  }

  // ----- layout -----

  /** Elements separated by ", ", with no separator after the last. */
  function Join(parts: seq<string>): (r: string)
    ensures |parts| == 0 ==> r == ""
    ensures |parts| == 1 ==> r == parts[0]
    decreases |parts|
  {
    if |parts| == 0 then ""
    else if |parts| == 1 then parts[0]
    else parts[0] + ", " + Join(parts[1..])
  }

  /** Appending an element adds one separator and the element at the end. */
  lemma {:induction false} JoinSnoc(parts: seq<string>, p: string)
    requires |parts| > 0
    ensures Join(parts + [p]) == Join(parts) + ", " + p
    decreases |parts|
  {
    if |parts| == 1 {
      assert (parts + [p])[1..] == [p];
    } else {
      assert (parts + [p])[1..] == parts[1..] + [p];
      JoinSnoc(parts[1..], p);
    }
  }

  /** writeStr. */
  function Quote(s: string): string {
    "\"" + Escape(s) + "\""
  }

  /** `"key": ` followed by the value's text. */
  function FieldText(k: Key, value: string): string {
    "\"" + KeyName(k) + "\": " + value
  }

  function Print(j: Json): string
    decreases j
  {
    match j
    case JString(s) => Quote(s)
    case JNumber(n) => IntToString(n)
    case JBool(b) => if b then "true" else "false"
    case JArray(items) =>
      "[" + Join(seq(|items|, i requires 0 <= i < |items| => Print(items[i]))) + "]"
    case JObject(fields, spaced) =>
      (if spaced then "{ " else "{")
      + Join(seq(|fields|, i requires 0 <= i < |fields| => FieldText(fields[i].key, Print(fields[i].value))))
      + (if spaced then " }" else "}")
  }

  /** The compact text is one line: escapeJson writes line feeds as "\n". */
  lemma {:induction false} PrintIsOneLine(j: Json)
    ensures '\n' !in Print(j)
    decreases j
  {
    match j
    case JString(s) =>
    case JNumber(n) =>
    case JBool(b) =>
    case JArray(items) =>
      var texts := seq(|items|, i requires 0 <= i < |items| => Print(items[i]));
      forall i | 0 <= i < |items| ensures '\n' !in texts[i] {
        PrintIsOneLine(items[i]);
      }
      JoinHasNo(texts, '\n');
    case JObject(fields, spaced) =>
      var texts := seq(|fields|, i requires 0 <= i < |fields| => FieldText(fields[i].key, Print(fields[i].value)));
      forall i | 0 <= i < |fields| ensures '\n' !in texts[i] {
        PrintIsOneLine(fields[i].value);
        KeyNamesAreLetters(fields[i].key);
      }
      JoinHasNo(texts, '\n');
  }

  lemma {:induction false} JoinHasNo(parts: seq<string>, c: char)
    requires c != ',' && c != ' '
    requires forall i :: 0 <= i < |parts| ==> c !in parts[i]
    ensures c !in Join(parts)
    decreases |parts|
  {
    if |parts| > 1 {
      JoinHasNo(parts[1..], c);
    }
  }
}
