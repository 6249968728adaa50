/** The JSON form of the domain model (DomainJson.cpp, the write*
    functions and domainToJson). Each builder gives the object tree one
    write* function prints. Optional values are left out, never written as
    null. */
module DomainJson {
  import opened Wrappers
  import opened IR
  import opened Domain
  import opened Json

  /** An object in the spaced layout. */
  function Obj(fields: seq<Field>): Json {
    JObject(fields, true)
  }

  /** writeCharField: a one-character string. */
  function CharJson(c: char): Json {
    JString([c])
  }

  /** writeSentence. */
  function SentenceJson(s: Sentence): (r: Json)
    ensures r.JObject? && r.spaced && |r.fields| == 2
    ensures r.fields[0] == Field(Text, JString(s.text)) && r.fields[1] == Field(Punctuation, JString([s.punctuation]))
  {
    Obj([Field(Text, JString(s.text)), Field(Punctuation, CharJson(s.punctuation))])
  }

  /** writeTaskPoints: the mode always, the total only when declared. */
  function PointsJson(p: TaskPoints): (r: Json)
    ensures r.JObject? && r.spaced && |r.fields| == (if p.pointsIfAllCorrect.Some? then 2 else 1)
    ensures r.fields[0] == Field(ScoringMode, JString(if p.scoringMode == AllOrNothing then "AllOrNothing" else "PartialPerCorrect"))
    ensures p.pointsIfAllCorrect.Some? ==> r.fields[1] == Field(PointsIfAllCorrect, JNumber(p.pointsIfAllCorrect.value))
  {
    var mode := if p.scoringMode == AllOrNothing then "AllOrNothing" else "PartialPerCorrect";
    Obj([Field(ScoringMode, JString(mode))]
      + (if p.pointsIfAllCorrect.Some? then [Field(PointsIfAllCorrect, JNumber(p.pointsIfAllCorrect.value))] else []))
  }

  /** writeAnswer: "reason" appears exactly when there is one. */
  function AnswerJson(a: Answer): (r: Json)
    ensures r.JObject? && r.spaced && |r.fields| == (if a.reason.Some? then 2 else 1)
    ensures r.fields[0] == Field(IsTrue, JBool(a.isTrue))
    ensures a.reason.Some? ==> r.fields[1] == Field(Reason, SentenceJson(a.reason.value))
  {
    Obj([Field(IsTrue, JBool(a.isTrue))]
      + (if a.reason.Some? then [Field(Reason, SentenceJson(a.reason.value))] else []))
  }

  function RoFLineJson(l: TrueFalseLine): (r: Json)
    ensures r.JObject? && r.spaced && |r.fields| == 2
    ensures r.fields[0] == Field(Question, SentenceJson(l.question))
    ensures r.fields[1] == Field(Key.Answer, AnswerJson(l.answer))
  {
    Obj([Field(Question, SentenceJson(l.question)), Field(Key.Answer, AnswerJson(l.answer))])
  }

  /** An array of the items' JSON forms, in order. */
  function ArrayOf<T>(xs: seq<T>, f: T -> Json): (r: Json)
    ensures r.JArray? && |r.items| == |xs|
    ensures forall i :: 0 <= i < |xs| ==> r.items[i] == f(xs[i])
  {
    JArray(seq(|xs|, i requires 0 <= i < |xs| => f(xs[i])))
  }

  /** An array of strings, in order. */
  function StringsJson(xs: seq<string>): (r: Json)
    ensures r.JArray? && |r.items| == |xs|
    ensures forall i :: 0 <= i < |xs| ==> r.items[i] == JString(xs[i])
  {
    ArrayOf(xs, (s: string) => JString(s))
  }

  function SortingLineJson(l: SortingLine): (r: Json)
    ensures r.JObject? && r.spaced && |r.fields| == 3
    ensures r.fields[0] == Field(Question, SentenceJson(l.question))
    ensures r.fields[1] == Field(Points, PointsJson(l.points))
    ensures r.fields[2] == Field(Items, StringsJson(l.items))
  {
    Obj([Field(Question, SentenceJson(l.question)), Field(Points, PointsJson(l.points)),
         Field(Items, StringsJson(l.items))])
  }

  function MatchingQuestionJson(q: MatchingQuestion): (r: Json)
    ensures r.JObject? && r.spaced && |r.fields| == 5
    ensures r.fields[0] == Field(Prefix, JString(q.prefix)) && r.fields[1] == Field(SlotA, JString(q.slotA))
    ensures r.fields[2] == Field(Middle, JString(q.middle)) && r.fields[3] == Field(SlotB, JString(q.slotB))
    ensures r.fields[4] == Field(Punctuation, JString([q.punctuation]))
  {
    Obj([Field(Prefix, JString(q.prefix)), Field(SlotA, JString(q.slotA)), Field(Middle, JString(q.middle)),
         Field(SlotB, JString(q.slotB)), Field(Punctuation, CharJson(q.punctuation))])
  }

  function MatchingItemJson(p: MatchingItem): (r: Json)
    ensures r.JObject? && r.spaced && |r.fields| == 2
    ensures r.fields[0] == Field(Left, JString(p.left)) && r.fields[1] == Field(Right, JString(p.right))
  {
    Obj([Field(Left, JString(p.left)), Field(Right, JString(p.right))])
  }

  function MatchingLineJson(l: MatchingLine): (r: Json)
    ensures r.JObject? && r.spaced && |r.fields| == 3
    ensures r.fields[0] == Field(Question, MatchingQuestionJson(l.question))
    ensures r.fields[1] == Field(Points, PointsJson(l.points))
    ensures r.fields[2] == Field(Pairs, ArrayOf(l.pairs, MatchingItemJson))
  {
    Obj([Field(Question, MatchingQuestionJson(l.question)), Field(Points, PointsJson(l.points)),
         Field(Pairs, ArrayOf(l.pairs, MatchingItemJson))])
  }

  /** The "blank" object of a cloze part. */
  function BlankJson(b: ClozeBlank): (r: Json)
    ensures r.JObject? && r.spaced && |r.fields| == 2
    ensures r.fields[0] == Field(Solution, JString(b.solution)) && r.fields[1] == Field(Points, JNumber(b.points))
  {
    Obj([Field(Solution, JString(b.solution)), Field(Points, JNumber(b.points))])
  }

  /** The "mark" object of a marking part: "correction" only when given. */
  function MarkJson(m: MarkedSpan): (r: Json)
    ensures r.JObject? && r.spaced && |r.fields| == (if m.correction.Some? then 3 else 2)
    ensures r.fields[0] == Field(MarkedText, JString(m.markedText)) && r.fields[1] == Field(Points, JNumber(m.points))
    ensures m.correction.Some? ==> r.fields[2] == Field(Correction, JString(m.correction.value))
  {
    Obj([Field(MarkedText, JString(m.markedText)), Field(Points, JNumber(m.points))]
      + (if m.correction.Some? then [Field(Correction, JString(m.correction.value))] else []))
  }

  /** The "correction" object of a correction part. */
  function CorrectionJson(c: CorrectionSpan): (r: Json)
    ensures r.JObject? && r.spaced && |r.fields| == 3
    ensures r.fields[0] == Field(Wrong, JString(c.wrong)) && r.fields[1] == Field(Correct, JString(c.correct))
    ensures r.fields[2] == Field(Points, JNumber(c.points))
  {
    Obj([Field(Wrong, JString(c.wrong)), Field(Correct, JString(c.correct)), Field(Points, JNumber(c.points))])
  }

  /** One part, in the tight layout: "text" only when the text is
      non-empty, the payload under `key` only when present. */
  function PartJson<P>(part: Part<P>, key: Key, payload: P -> Json): (r: Json)
    requires key != Text
    ensures r.JObject? && !r.spaced
    ensures |r.fields| == (if part.text != "" then 1 else 0) + (if part.payload.Some? then 1 else 0)
    ensures part.text != "" ==> r.fields[0] == Field(Text, JString(part.text))
    ensures part.payload.Some? ==> r.fields[|r.fields| - 1] == Field(key, payload(part.payload.value))
  {
    JObject((if part.text != "" then [Field(Text, JString(part.text))] else [])
      + (if part.payload.Some? then [Field(key, payload(part.payload.value))] else []), false)
  }

  /** writeClozeSentence / writeMarkingSentence / writeCorrectionSentence. */
  function AnnotatedSentenceJson<P>(s: AnnotatedSentence<P>, key: Key, payload: P -> Json): (r: Json)
    requires key != Text
    ensures r.JObject? && r.spaced && |r.fields| == 2
    ensures r.fields[0] == Field(Punctuation, JString([s.punctuation]))
    ensures r.fields[1].key == Parts && r.fields[1].value.JArray? && |r.fields[1].value.items| == |s.parts|
    ensures forall i :: 0 <= i < |s.parts| ==> r.fields[1].value.items[i] == PartJson(s.parts[i], key, payload)
  {
    Obj([Field(Punctuation, CharJson(s.punctuation)),
         Field(Parts, ArrayOf(s.parts, (p: Part<P>) => PartJson(p, key, payload)))])
  }

  /** writeClozeTask / writeMarkingTask / writeCorrectionTask. */
  function AnnotatedTaskJson<P>(t: AnnotatedTask<P>, key: Key, payload: P -> Json): (r: Json)
    requires key != Text
    ensures r.JObject? && r.spaced && |r.fields| == 2
    ensures r.fields[0] == Field(Question, SentenceJson(t.question))
    ensures r.fields[1].key == Sentences && r.fields[1].value.JArray? && |r.fields[1].value.items| == |t.sentences|
    ensures forall i :: 0 <= i < |t.sentences| ==>
      r.fields[1].value.items[i] == AnnotatedSentenceJson(t.sentences[i], key, payload)
  {
    Obj([Field(Question, SentenceJson(t.question)),
         Field(Sentences, ArrayOf(t.sentences, (s: AnnotatedSentence<P>) => AnnotatedSentenceJson(s, key, payload)))])
  }

  function ChoiceOptionJson(o: ChoiceOption): (r: Json)
    ensures r.JObject? && r.spaced && |r.fields| == 3
    ensures r.fields[0] == Field(Text, JString(o.text)) && r.fields[1] == Field(Points, JNumber(o.points))
    ensures r.fields[2] == Field(IsCorrect, JBool(o.isCorrect))
  {
    Obj([Field(Text, JString(o.text)), Field(Points, JNumber(o.points)), Field(IsCorrect, JBool(o.isCorrect))])
  }

  function ChoiceLineJson(l: ChoiceLine): (r: Json)
    ensures r.JObject? && r.spaced && |r.fields| == 2
    ensures r.fields[0] == Field(Question, SentenceJson(l.question))
    ensures r.fields[1] == Field(Options, ArrayOf(l.options, ChoiceOptionJson))
  {
    Obj([Field(Question, SentenceJson(l.question)), Field(Options, ArrayOf(l.options, ChoiceOptionJson))])
  }

  /** What follows "header" in a task object: the lines, or the task body
      (for Choice, an object holding the lines). */
  function TaskBody(t: TaskD): (r: Field)
    ensures r.key == (if t.RoFD? || t.SortingD? || t.MatchingD? then Lines else Key.Task)
    ensures t.RoFD? ==> r.value.JArray? && |r.value.items| == |t.rofLines|
    ensures t.RoFD? ==> forall i :: 0 <= i < |t.rofLines| ==> r.value.items[i] == RoFLineJson(t.rofLines[i])
    ensures t.SortingD? ==> r.value.JArray? && |r.value.items| == |t.sortingLines|
    ensures t.SortingD? ==> forall i :: 0 <= i < |t.sortingLines| ==> r.value.items[i] == SortingLineJson(t.sortingLines[i])
    ensures t.MatchingD? ==> r.value.JArray? && |r.value.items| == |t.matchingLines|
    ensures t.MatchingD? ==> forall i :: 0 <= i < |t.matchingLines| ==> r.value.items[i] == MatchingLineJson(t.matchingLines[i])
    ensures t.MarkingD? || t.ClozeD? || t.CorrectionD? ==>
      r.value.JObject? && |r.value.fields| == 2 && r.value.fields[0].key == Question && r.value.fields[1].key == Sentences
    ensures t.MarkingD? ==> r.value == AnnotatedTaskJson(t.marking, Mark, MarkJson)
    ensures t.ClozeD? ==> r.value == AnnotatedTaskJson(t.cloze, Blank, BlankJson)
    ensures t.CorrectionD? ==> r.value == AnnotatedTaskJson(t.correction, Correction, CorrectionJson)
    ensures t.ChoiceD? ==>
      && r.value.JObject? && r.value.spaced && |r.value.fields| == 1 && r.value.fields[0].key == Lines
      && r.value.fields[0].value.JArray? && |r.value.fields[0].value.items| == |t.choiceLines|
    ensures t.ChoiceD? ==> forall i :: 0 <= i < |t.choiceLines| ==>
      r.value.fields[0].value.items[i] == ChoiceLineJson(t.choiceLines[i])
  {
    match t
    case RoFD(_, lines) => Field(Lines, ArrayOf(lines, RoFLineJson))
    case SortingD(_, lines) => Field(Lines, ArrayOf(lines, SortingLineJson))
    case MatchingD(_, lines) => Field(Lines, ArrayOf(lines, MatchingLineJson))
    case MarkingD(_, m) => Field(Key.Task, AnnotatedTaskJson(m, Mark, MarkJson))
    case ClozeD(_, c) => Field(Key.Task, AnnotatedTaskJson(c, Blank, BlankJson))
    case CorrectionD(_, c) => Field(Key.Task, AnnotatedTaskJson(c, Correction, CorrectionJson))
    case ChoiceD(_, lines) => Field(Key.Task, Obj([Field(Lines, ArrayOf(lines, ChoiceLineJson))]))
  }

  /** writeTask: "type" is the task kind and "header" comes second. */
  function TaskJson(t: TaskD): (r: Json)
    ensures r.JObject? && r.spaced && |r.fields| == 3
    ensures r.fields[0] == Field(Type, JString(TaskKind(t)))
    ensures r.fields[1] == Field(Header, JString(t.header))
  {
    Obj([Field(Type, JString(TaskKind(t))), Field(Header, JString(t.header)), TaskBody(t)])
  }

  function ProgramJson(p: ProgramD): (r: Json)
    ensures r.JObject? && r.spaced && |r.fields| == 2
    ensures r.fields[0] == Field(Type, JString("Program")) && r.fields[1].key == Tasks
    ensures r.fields[1].value.JArray? && |r.fields[1].value.items| == |p.tasks|
    ensures forall i :: 0 <= i < |p.tasks| ==> r.fields[1].value.items[i] == TaskJson(p.tasks[i])
  {
    Obj([Field(Type, JString("Program")), Field(Tasks, ArrayOf(p.tasks, TaskJson))])
  }

  /** domainToJson. */
  function DomainToJson(p: ProgramD): string {
    Print(ProgramJson(p))
  }

  // ----- omitted fields -----

  /** A key occurs among the fields exactly when one of them carries it. */
  predicate HasKey(j: Json, k: Key)
    requires j.JObject?
  {
    k in Keys(j.fields)
  }

  /** An answer has a "reason" key exactly when it has a reason. */
  lemma ReasonKeyIffPresent(a: Answer)
    ensures HasKey(AnswerJson(a), Reason) <==> a.reason.Some?
  {
    var r := AnswerJson(a);
    if a.reason.Some? {
      assert Keys(r.fields)[1] == Reason;
    } else {
      assert Keys(r.fields) == [IsTrue];
    }
  }

  /** Task points have "pointsIfAllCorrect" exactly when a total is declared. */
  lemma TotalKeyIffPresent(p: TaskPoints)
    ensures HasKey(PointsJson(p), ScoringMode)
    ensures HasKey(PointsJson(p), PointsIfAllCorrect) <==> p.pointsIfAllCorrect.Some?
  {
    var r := PointsJson(p);
    assert Keys(r.fields)[0] == ScoringMode;
    if p.pointsIfAllCorrect.Some? {
      assert Keys(r.fields)[1] == PointsIfAllCorrect;
    } else {
      assert Keys(r.fields) == [ScoringMode];
    }
  }

  /** A mark has a "correction" key exactly when it carries a correction. */
  lemma MarkCorrectionKeyIffPresent(m: MarkedSpan)
    ensures HasKey(MarkJson(m), Correction) <==> m.correction.Some?
  {
    var r := MarkJson(m);
    if m.correction.Some? {
      assert Keys(r.fields)[2] == Correction;
    } else {
      assert Keys(r.fields) == [MarkedText, Points];
    }
  }

  /** A part has "text" exactly when its text is non-empty, and its payload
      key exactly when it carries a payload. */
  lemma PartKeysIffPresent<P>(part: Part<P>, key: Key, payload: P -> Json)
    requires key != Text
    ensures HasKey(PartJson(part, key, payload), Text) <==> part.text != ""
    ensures HasKey(PartJson(part, key, payload), key) <==> part.payload.Some?
  {
    var r := PartJson(part, key, payload);
    var ks := Keys(r.fields);
    if part.text != "" && part.payload.Some? {
      assert ks == [Text, key];
    } else if part.text != "" {
      assert ks == [Text];
    } else if part.payload.Some? {
      assert ks == [key];
    } else {
      assert ks == [];
    }
  }

  // ----- printed text -----

  /** The text of each task, in order. */
  function TaskTexts(p: ProgramD): (r: seq<string>)
    ensures |r| == |p.tasks|
    ensures forall i :: 0 <= i < |p.tasks| ==> r[i] == Print(TaskJson(p.tasks[i]))
  {
    seq(|p.tasks|, i requires 0 <= i < |p.tasks| => Print(TaskJson(p.tasks[i])))
  }

  /** The field texts of an object, in order. */
  function FieldTexts(fields: seq<Field>): (r: seq<string>)
    ensures |r| == |fields|
    ensures forall i :: 0 <= i < |fields| ==> r[i] == FieldText(fields[i].key, Print(fields[i].value))
  {
    seq(|fields|, i requires 0 <= i < |fields| => FieldText(fields[i].key, Print(fields[i].value)))
  }

  lemma PrintSpacedObject(fields: seq<Field>)
    ensures Print(JObject(fields, true)) == "{ " + Join(FieldTexts(fields)) + " }"
  {
  }

  lemma JoinTwo(a: string, b: string)
    ensures Join([a, b]) == a + ", " + b
  {
    assert [a, b][1..] == [b];
  }

  lemma JoinThree(a: string, b: string, c: string)
    ensures Join([a, b, c]) == a + ", " + b + ", " + c
  {
    assert [a, b, c][1..] == [b, c];
    JoinTwo(b, c);
  }

  lemma SpacedPairText(fs: seq<Field>)
    requires |fs| == 2
    ensures Print(JObject(fs, true)) ==
      "{ " + (FieldText(fs[0].key, Print(fs[0].value)) + ", " + FieldText(fs[1].key, Print(fs[1].value))) + " }"
  {
    PrintSpacedObject(fs);
    var texts := FieldTexts(fs);
    assert texts == [texts[0], texts[1]];
    JoinTwo(texts[0], texts[1]);
  }

  lemma SpacedTripleText(fs: seq<Field>)
    requires |fs| == 3
    ensures Print(JObject(fs, true)) ==
      "{ " + (FieldText(fs[0].key, Print(fs[0].value)) + ", " + FieldText(fs[1].key, Print(fs[1].value)) + ", "
      + FieldText(fs[2].key, Print(fs[2].value))) + " }"
  {
    PrintSpacedObject(fs);
    var texts := FieldTexts(fs);
    assert texts == [texts[0], texts[1], texts[2]];
    JoinThree(texts[0], texts[1], texts[2]);
  }

  /** domainToJson writes the fixed program frame around the tasks' texts,
      separated by ", " with no separator after the last. */
  lemma ProgramText(p: ProgramD)
    ensures DomainToJson(p) ==
      "{ " + (FieldText(Type, Quote("Program")) + ", " + FieldText(Tasks, "[" + Join(TaskTexts(p)) + "]")) + " }"
  {
    var j := ProgramJson(p);
    TasksArrayText(p);
    assert j.fields[1].value == ArrayOf(p.tasks, TaskJson);
    SpacedPairText(j.fields);
  }

  lemma TasksArrayText(p: ProgramD)
    ensures Print(ArrayOf(p.tasks, TaskJson)) == "[" + Join(TaskTexts(p)) + "]"
  {
    var arr := ArrayOf(p.tasks, TaskJson);
    var items := seq(|arr.items|, i requires 0 <= i < |arr.items| => Print(arr.items[i]));
    assert items == TaskTexts(p);
  }

  /** writeTask starts every task with its kind and then its header. */
  lemma TaskTextStart(t: TaskD)
    ensures Print(TaskJson(t)) ==
      "{ " + (FieldText(Type, Quote(TaskKind(t))) + ", " + FieldText(Header, Quote(t.header)) + ", "
      + FieldText(TaskBody(t).key, Print(TaskBody(t).value))) + " }"
  {
    var j := TaskJson(t);
    assert j.fields[2] == TaskBody(t);
    SpacedTripleText(j.fields);
  }
}
