/** Lowering of the parse tree to the IR (IRBuilder.cpp, readSentence,
    visitProg, visitTask_definition). Point literals are the only thing that
    can fail; the source throws on the first malformed one, which here is
    the first `Failure` in reading order. */
module Lowering {
  import opened Wrappers
  import opened Tokens
  import opened Detokenizer
  import opened Numbers
  import opened IR
  import opened Cst
  import opened Segments

  /** The punctuation character of a sentence node: the first character of
      the token's text, '.' when the token is missing or empty. */
  function PunctuationOf(punct: Option<string>): (c: char)
    ensures punct.Some? && |punct.value| > 0 ==> c == punct.value[0]
    ensures punct.None? || |punct.value| == 0 ==> c == '.'
  {
    if punct.Some? && |punct.value| > 0 then punct.value[0] else '.'
  }

  /** readSentence: an absent sentence is the default sentence. */
  function ReadSentence(s: Option<SentenceNode>): (r: Sentence)
    ensures s.None? ==> r == DefaultSentence
    ensures s.Some? ==> r.text == ReadWords(s.value.words)
    ensures s.Some? ==> r.punctuation == PunctuationOf(s.value.punct)
  {
    if s.None? then DefaultSentence
    else Sentence(ReadWords(s.value.words), PunctuationOf(s.value.punct))
  }

  /** A sentence read from tokens whose texts, newline tokens aside, hold
      no line break has no line break either: endless_words are joined
      without newlines. */
  lemma ReadSentenceIsOneLine(s: SentenceNode)
    requires s.words.Some? ==> forall i :: 0 <= i < |s.words.value| ==>
      s.words.value[i].kind != Newline ==> '\n' !in s.words.value[i].text
    ensures '\n' !in ReadSentence(Some(s)).text
  {
    if s.words.Some? {
      DroppedNewlinesStayOut(s.words.value, None);
    }
  }

  /** `positive_task_point?` of a sorting or matching line: a total makes
      the line all-or-nothing, no total leaves it partial. */
  function LowerPoints(p: Option<string>): (r: Result<TaskPoints, NumberError>)
    ensures p.None? ==> r == Success(DefaultTaskPoints)
    ensures p.Some? ==> (r.Success? <==> ParseIntStrict(p.value).Success?)
    ensures p.Some? && r.Failure? ==> r.error == MalformedNumber(p.value)
    ensures r.Success? ==> PointsConsistent(r.value)
    ensures p.Some? && r.Success? ==> r.value.pointsIfAllCorrect == Some(ParseIntStrict(p.value).value)
  {
    if p.None? then Success(DefaultTaskPoints)
    else
      var n :- ParseIntStrict(p.value);
      Success(TaskPoints(Some(n), AllOrNothing))
  }

  /** `true_false_answer`: a true answer never carries a reason; a false one
      carries the reason sentence, or the reason words with '.'. */
  function LowerAnswer(a: AnswerNode): (r: Answer)
    ensures r.isTrue == a.answerTrue
    ensures r.isTrue ==> r.reason.None?
    ensures r.reason.Some? <==>
      !a.answerTrue && a.reason.Some? && (a.reason.value.sentence.Some? || a.reason.value.words.Some?)
    ensures r.reason.Some? && a.reason.value.sentence.Some? ==>
      r.reason.value == ReadSentence(a.reason.value.sentence)
    ensures r.reason.Some? && a.reason.value.sentence.None? ==>
      r.reason.value == Sentence(ReadWords(a.reason.value.words), '.')
  {
    if a.answerTrue then Answer(true, None)
    else if a.reason.None? then DefaultAnswer
    else if a.reason.value.sentence.Some? then Answer(false, Some(ReadSentence(a.reason.value.sentence)))
    else if a.reason.value.words.Some? then Answer(false, Some(Sentence(ReadWords(a.reason.value.words), '.')))
    else DefaultAnswer
  }

  function LowerRoFLine(n: TrueFalseNode): (r: TrueFalseLine)
    ensures r.question == ReadSentence(n.question)
    ensures r.answer == LowerAnswer(n.answer)
    ensures r.answer.isTrue == n.answer.answerTrue
  {
    TrueFalseLine(ReadSentence(n.question), LowerAnswer(n.answer))
  }

  /** The texts of the items that hold a word, in order. */
  function Present(xs: seq<Option<string>>): (r: seq<string>)
    ensures |r| <= |xs|
    ensures forall k :: 0 <= k < |r| ==> Some(r[k]) in xs
    ensures (forall i :: 0 <= i < |xs| ==> xs[i].Some?) ==>
      |r| == |xs| && forall i :: 0 <= i < |xs| ==> r[i] == xs[i].value
    ensures (forall i :: 0 <= i < |xs| ==> xs[i].None?) ==> r == []
    ensures |xs| == 1 && xs[0].Some? ==> r == [xs[0].value]
    decreases |xs|
  {
    if |xs| == 0 then []
    else
      var rest := Present(xs[1..]);
      assert forall k :: 0 <= k < |rest| ==> Some(rest[k]) in xs by {
        forall k | 0 <= k < |rest|
          ensures Some(rest[k]) in xs
        {
          var j :| 0 <= j < |xs[1..]| && xs[1..][j] == Some(rest[k]);
          assert xs[j + 1] == Some(rest[k]);
        }
      }
      (if xs[0].Some? then [xs[0].value] else []) + rest
  }

  /** Present keeps the order: the present words of a concatenation are
      those of the first part followed by those of the second. */
  lemma {:induction false} PresentAppend(a: seq<Option<string>>, b: seq<Option<string>>)
    ensures Present(a + b) == Present(a) + Present(b)
    decreases |a|
  {
    if |a| == 0 {
      assert a + b == b;
    } else {
      assert (a + b)[0] == a[0];
      assert (a + b)[1..] == a[1..] + b;
      PresentAppend(a[1..], b);
    }
  }

  function LowerSortingLine(n: SortingNode): (r: Result<SortingLine, NumberError>)
    ensures r.Success? <==> LowerPoints(n.points).Success?
    ensures r.Failure? ==> r.error == LowerPoints(n.points).error
    ensures r.Success? ==> r.value.question == ReadSentence(n.question)
    ensures r.Success? ==> r.value.points == LowerPoints(n.points).value
    ensures r.Success? ==> r.value.items == Present(n.items)
  {
    var points :- LowerPoints(n.points);
    Success(SortingLine(ReadSentence(n.question), points, Present(n.items)))
  }

  /** A matching item: its first and second word, "" for a missing one. */
  function LowerMatchingItem(words: seq<string>): (r: MatchingItem)
    ensures |words| >= 2 ==> r == MatchingItem(words[0], words[1])
    ensures |words| == 1 ==> r == MatchingItem(words[0], "")
    ensures |words| == 0 ==> r == MatchingItem("", "")
  {
    MatchingItem(if |words| >= 1 then words[0] else "", if |words| >= 2 then words[1] else "")
  }

  function LowerMatchingLine(n: MatchingNode): (r: Result<MatchingLine, NumberError>)
    ensures r.Success? <==> LowerPoints(n.points).Success?
    ensures r.Failure? ==> r.error == LowerPoints(n.points).error
    ensures r.Success? ==> r.value.points == LowerPoints(n.points).value
    ensures r.Success? ==> (r.value.question ==
      MatchingQuestion(ReadWords(n.question.prefix), n.question.slotA, ReadWords(n.question.middle), n.question.slotB, n.question.punct))
    ensures r.Success? ==> |r.value.pairs| == |n.items|
    ensures r.Success? ==> forall i :: 0 <= i < |n.items| ==> r.value.pairs[i] == LowerMatchingItem(n.items[i])
  {
    var points :- LowerPoints(n.points);
    var q := n.question;
    var question := MatchingQuestion(ReadWords(q.prefix), q.slotA, ReadWords(q.middle), q.slotB, q.punct);
    Success(MatchingLine(question, points, seq(|n.items|, i requires 0 <= i < |n.items| => LowerMatchingItem(n.items[i]))))
  }

  /** `marked_word`: the marked words, the optional correction words and
      the points. */
  function ReadMark(m: MarkedWordNode): (r: Result<MarkedSpan, NumberError>)
    ensures r.Success? <==> ParseIntStrict(m.points).Success?
    ensures r.Failure? ==> r.error == MalformedNumber(m.points)
    ensures r.Success? ==> r.value.markedText == ReadWords(m.words)
    ensures r.Success? ==> (r.value.correction.Some? <==> m.correction.Some?)
    ensures r.Success? && m.correction.Some? ==> r.value.correction.value == ReadWords(m.correction)
    ensures r.Success? ==> r.value.points == ParseIntStrict(m.points).value
  {
    var points :- ParseIntStrict(m.points);
    var correction := if m.correction.Some? then Some(ReadWords(m.correction)) else None;
    Success(MarkedSpan(ReadWords(m.words), correction, points))
  }

  /** `cloze_word`: the solution word and the points. */
  function ReadBlank(c: ClozeWordNode): (r: Result<ClozeBlank, NumberError>)
    ensures r.Success? <==> ParseIntStrict(c.points).Success?
    ensures r.Failure? ==> r.error == MalformedNumber(c.points)
    ensures r.Success? ==> r.value.solution == c.word && r.value.points == ParseIntStrict(c.points).value
  {
    var points :- ParseIntStrict(c.points);
    Success(ClozeBlank(c.word, points))
  }

  /** `correction_word`: the wrong word, the correct word and the points. */
  function ReadCorrection(c: CorrectionWordNode): (r: Result<CorrectionSpan, NumberError>)
    ensures r.Success? <==> ParseIntStrict(c.points).Success?
    ensures r.Failure? ==> r.error == MalformedNumber(c.points)
    ensures r.Success? ==> r.value.wrong == c.wrong && r.value.correct == c.correct
    ensures r.Success? ==> r.value.points == ParseIntStrict(c.points).value
  {
    var points :- ParseIntStrict(c.points);
    Success(CorrectionSpan(c.wrong, c.correct, points))
  }

  /** The plain runs of an annotated sentence, each read without newlines. */
  function ReadRuns(runs: seq<Run>): (r: seq<string>)
    ensures |r| == |runs|
    ensures forall i :: 0 <= i < |runs| ==> r[i] == ReadWords(Some(runs[i]))
  {
    seq(|runs|, i requires 0 <= i < |runs| => ReadWords(Some(runs[i])))
  }

  /** One annotated sentence (the `ewIdx` loop): its parts hold the
      payloads read from its annotations, in order, and as many plain runs
      as the decomposer consumes. */
  function LowerAnnotated<A, P>(n: AnnotatedSentenceNode<A>, read: A -> Result<P, NumberError>): (r: Result<AnnotatedSentence<P>, NumberError>)
    ensures r.Success? <==> forall i :: 0 <= i < |n.annotations| ==> read(n.annotations[i]).Success?
    ensures r.Failure? ==> exists k :: (0 <= k < |n.annotations| && read(n.annotations[k]).Failure?
      && r.error == read(n.annotations[k]).error
      && forall i :: 0 <= i < k ==> read(n.annotations[i]).Success?)
    ensures r.Success? ==> r.value.punctuation == n.punct
    ensures r.Success? ==> |Payloads(r.value.parts)| == |n.annotations|
    ensures r.Success? ==> forall i :: 0 <= i < |n.annotations| ==> Payloads(r.value.parts)[i] == read(n.annotations[i]).value
    ensures r.Success? ==> PlainTexts(r.value.parts) == ReadRuns(n.runs)[..Min(|n.runs|, |n.annotations| + 1)]
    ensures r.Success? ==> AnnotationsHaveNoText(r.value.parts) && NoAdjacentPlain(r.value.parts)
  {
    var payloads :- MapAll(read, n.annotations);
    Success(AnnotatedSentence(Decompose(ReadRuns(n.runs), payloads), n.punct))
  }

  /** A sentence without annotations inside an annotated body: one plain part. */
  function PlainBodySentence<P>(s: SentenceNode): (r: AnnotatedSentence<P>)
    ensures r.parts == [Part(ReadWords(s.words), None)]
    ensures r.punctuation == PunctuationOf(s.punct)
  {
    AnnotatedSentence([Part(ReadWords(s.words), None)], PunctuationOf(s.punct))
  }

  /** `marking_text` / `cloze_text` / `correction_text`: all annotated
      sentences first, then all plain sentences; an absent body has none. */
  function LowerBody<A, P>(b: Option<BodyNode<A>>, read: A -> Result<P, NumberError>): (r: Result<seq<AnnotatedSentence<P>>, NumberError>)
    ensures b.None? ==> r == Success([])
    ensures b.Some? ==> (r.Success? <==> forall i :: 0 <= i < |b.value.annotated| ==> LowerAnnotated(b.value.annotated[i], read).Success?)
    ensures r.Success? && b.Some? ==> |r.value| == |b.value.annotated| + |b.value.plain|
    ensures r.Success? && b.Some? ==> forall i :: 0 <= i < |b.value.annotated| ==>
      r.value[i] == LowerAnnotated(b.value.annotated[i], read).value
    ensures r.Success? && b.Some? ==> forall i :: 0 <= i < |b.value.plain| ==>
      r.value[|b.value.annotated| + i] == PlainBodySentence(b.value.plain[i])
    ensures r.Failure? ==> b.Some? && exists k :: (0 <= k < |b.value.annotated|
      && LowerAnnotated(b.value.annotated[k], read).Failure?
      && r.error == LowerAnnotated(b.value.annotated[k], read).error
      && forall i :: 0 <= i < k ==> LowerAnnotated(b.value.annotated[i], read).Success?)
  {
    if b.None? then Success([])
    else
      var annotated :- MapAll((s: AnnotatedSentenceNode<A>) => LowerAnnotated(s, read), b.value.annotated);
      var plain := seq(|b.value.plain|, i requires 0 <= i < |b.value.plain| => PlainBodySentence(b.value.plain[i]));
      Success(annotated + plain)
  }

  /** A marking, cloze or correction task: the question, then the body. */
  function LowerComposite<A, P>(c: CompositeNode<A>, read: A -> Result<P, NumberError>): (r: Result<AnnotatedTask<P>, NumberError>)
    ensures r.Success? <==> LowerBody(c.body, read).Success?
    ensures r.Failure? ==> r.error == LowerBody(c.body, read).error
    ensures r.Success? ==> r.value.question == ReadSentence(c.question)
    ensures r.Success? ==> r.value.sentences == LowerBody(c.body, read).value
  {
    var sentences :- LowerBody(c.body, read);
    Success(AnnotatedTask(ReadSentence(c.question), sentences))
  }

  /** `correct_choice`: a correct option with its points. */
  function ReadCorrectChoice(c: CorrectChoiceNode): (r: Result<ChoiceOption, NumberError>)
    ensures r.Success? <==> ParseIntStrict(c.points).Success?
    ensures r.Failure? ==> r.error == MalformedNumber(c.points)
    ensures r.Success? ==> r.value.isCorrect && r.value.text == ReadWords(c.words)
    ensures r.Success? ==> r.value.points == ParseIntStrict(c.points).value
  {
    var points :- ParseIntStrict(c.points);
    Success(ChoiceOption(ReadWords(c.words), points, true))
  }

  /** The points of the i-th false option: the i-th negative literal, or 0
      when there are fewer literals than options. */
  function FalsePoints(points: seq<string>, i: int): Result<int, NumberError> {
    if 0 <= i < |points| then ParseIntStrict(points[i]) else Success(0)
  }

  /** `false_choices`: option i reads words[i] and takes FalsePoints(i);
      literals beyond the last option are never read. */
  function FalseOptions(words: seq<Run>, points: seq<string>): (r: Result<seq<ChoiceOption>, NumberError>)
    ensures r.Success? <==> forall i :: 0 <= i < |words| ==> FalsePoints(points, i).Success?
    ensures r.Success? ==> |r.value| == |words|
    ensures r.Success? ==> forall i :: 0 <= i < |words| ==>
      r.value[i] == ChoiceOption(ReadWords(Some(words[i])), FalsePoints(points, i).value, false)
    ensures r.Failure? ==> exists k :: (0 <= k < |words| && FalsePoints(points, k).Failure?
      && r.error == FalsePoints(points, k).error
      && forall i :: 0 <= i < k ==> FalsePoints(points, i).Success?)
  {
    var indices := seq(|words|, i => i);
    var at := (i: int) => FalsePoints(points, i);
    assert forall i :: 0 <= i < |words| ==> at(indices[i]) == FalsePoints(points, i);
    var pts :- MapAll(at, indices);
    Success(seq(|words|, i requires 0 <= i < |words| => ChoiceOption(ReadWords(Some(words[i])), pts[i], false)))
  }

  /** A choice line: all correct options first, then the false ones. */
  function LowerChoiceLine(n: ChoiceNode): (r: Result<ChoiceLine, NumberError>)
    ensures r.Success? ==> r.value.question == ReadSentence(n.question)
    ensures r.Success? ==> forall i :: 0 <= i < |n.correct| ==> ReadCorrectChoice(n.correct[i]).Success?
    ensures r.Success? ==> (|r.value.options| ==
      |n.correct| + (if n.falseChoices.Some? then |n.falseChoices.value.words| else 0))
    ensures r.Success? ==> forall i :: 0 <= i < |r.value.options| ==>
      (r.value.options[i].isCorrect <==> i < |n.correct|)
    ensures r.Success? ==> forall i :: 0 <= i < |n.correct| ==>
      r.value.options[i] == ReadCorrectChoice(n.correct[i]).value
    ensures n.falseChoices.None? ==> (r.Success? <==> forall i :: 0 <= i < |n.correct| ==> ReadCorrectChoice(n.correct[i]).Success?)
    ensures n.falseChoices.Some? ==> (r.Success? <==>
      (forall i :: 0 <= i < |n.correct| ==> ReadCorrectChoice(n.correct[i]).Success?)
      && FalseOptions(n.falseChoices.value.words, n.falseChoices.value.points).Success?)
    ensures r.Success? && n.falseChoices.Some? ==>
      r.value.options[|n.correct|..] == FalseOptions(n.falseChoices.value.words, n.falseChoices.value.points).value
    ensures r.Failure? && (forall i :: 0 <= i < |n.correct| ==> ReadCorrectChoice(n.correct[i]).Success?) ==>
      n.falseChoices.Some? && r.error == FalseOptions(n.falseChoices.value.words, n.falseChoices.value.points).error
    ensures r.Failure? && !(forall i :: 0 <= i < |n.correct| ==> ReadCorrectChoice(n.correct[i]).Success?) ==>
      exists k :: (0 <= k < |n.correct| && ReadCorrectChoice(n.correct[k]).Failure?
        && r.error == ReadCorrectChoice(n.correct[k]).error
        && forall i :: 0 <= i < k ==> ReadCorrectChoice(n.correct[i]).Success?)
  {
    var correct :- MapAll(ReadCorrectChoice, n.correct);
    var falses :- if n.falseChoices.Some? then FalseOptions(n.falseChoices.value.words, n.falseChoices.value.points) else Success([]);
    Success(ChoiceLine(ReadSentence(n.question), correct + falses))
  }

  /** The exercise kinds whose data a task record holds. */
  function Populated(t: Task): set<string> {
    (if |t.rof| > 0 then {RoFTag} else {})
    + (if |t.sorting| > 0 then {SortingTag} else {})
    + (if |t.matching| > 0 then {MatchingTag} else {})
    + (if t.marking.Some? then {MarkingTag} else {})
    + (if t.cloze.Some? then {ClozeTag} else {})
    + (if t.correction.Some? then {CorrectionTag} else {})
    + (if |t.choice| > 0 then {ChoiceTag} else {})
  }

  /** A lowered task holds data only under its own tag, and the three
      composite kinds always hold their record. */
  predicate WellTagged(t: Task) {
    && Populated(t) <= {t.kind}
    && (t.kind == MarkingTag ==> t.marking.Some?)
    && (t.kind == ClozeTag ==> t.cloze.Some?)
    && (t.kind == CorrectionTag ==> t.correction.Some?)
  }

  /** The tag visitTask_definition writes for a task node. */
  function TagOf(t: Option<TaskNode>): string {
    if t.None? then UnknownTag
    else match t.value
      case RoFNode(_) => RoFTag
      case SortingNodes(_) => SortingTag
      case MatchingNodes(_) => MatchingTag
      case MarkingNode(_) => MarkingTag
      case ClozeNode(_) => ClozeTag
      case CorrectionNode(_) => CorrectionTag
      case ChoiceNodes(_) => ChoiceTag
      case NoKeyword => UnknownTag
  }

  function LowerTask(td: TaskDefinitionNode): (r: Result<Task, NumberError>)
    ensures r.Success? ==> r.value.header == ReadWords(td.header)
    ensures r.Success? ==> r.value.kind == TagOf(td.task)
    ensures r.Success? ==> WellTagged(r.value)
    ensures td.task.None? || td.task.value.NoKeyword? || td.task.value.RoFNode? ==> r.Success?
    ensures r.Success? && td.task.Some? && td.task.value.RoFNode? ==>
      |r.value.rof| == |td.task.value.rofLines|
      && forall i :: 0 <= i < |td.task.value.rofLines| ==> r.value.rof[i] == LowerRoFLine(td.task.value.rofLines[i])
  {
    var header := ReadWords(td.header);
    if td.task.None? then Success(EmptyTask(header, UnknownTag))
    else if IsComposite(td.task.value) then CompositeTask(header, td.task.value)
    else LineTask(header, td.task.value)
  }

  /** The three kinds whose body is annotated sentences. */
  predicate IsComposite(n: TaskNode) {
    n.MarkingNode? || n.ClozeNode? || n.CorrectionNode?
  }

  /** A marking, cloze or correction task node, lowered under its kind. */
  function CompositeTask(header: string, n: TaskNode): (r: Result<Task, NumberError>)
    requires IsComposite(n)
    ensures r.Success? ==> r.value.header == header && r.value.kind == TagOf(Some(n)) && WellTagged(r.value)
  {
    match n
    case MarkingNode(c) => MarkingTask(header, c)
    case ClozeNode(c) => ClozeTask(header, c)
    case CorrectionNode(c) => CorrectionTask(header, c)
  }

  /** Any other task node, lowered under its kind. */
  function LineTask(header: string, n: TaskNode): (r: Result<Task, NumberError>)
    requires !IsComposite(n)
    ensures r.Success? ==> r.value.header == header && r.value.kind == TagOf(Some(n)) && WellTagged(r.value)
    ensures n.NoKeyword? || n.RoFNode? ==> r.Success?
    ensures r.Success? && n.RoFNode? ==> r.value.rof == RoFTask(header, n.rofLines).rof
  {
    match n
    case RoFNode(lines) => Success(RoFTask(header, lines))
    case SortingNodes(lines) => SortingTask(header, lines)
    case MatchingNodes(lines) => MatchingTask(header, lines)
    case ChoiceNodes(lines) => ChoiceTask(header, lines)
    case NoKeyword => Success(EmptyTask(header, UnknownTag))
  }

  /** visitTask_definition hands each kind's node to its own helper. */
  lemma LowerTaskDispatch(td: TaskDefinitionNode)
    requires td.task.Some?
    ensures match td.task.value
      case RoFNode(lines) => LowerTask(td) == Success(RoFTask(ReadWords(td.header), lines))
      case SortingNodes(lines) => LowerTask(td) == SortingTask(ReadWords(td.header), lines)
      case MatchingNodes(lines) => LowerTask(td) == MatchingTask(ReadWords(td.header), lines)
      case MarkingNode(c) => LowerTask(td) == MarkingTask(ReadWords(td.header), c)
      case ClozeNode(c) => LowerTask(td) == ClozeTask(ReadWords(td.header), c)
      case CorrectionNode(c) => LowerTask(td) == CorrectionTask(ReadWords(td.header), c)
      case ChoiceNodes(lines) => LowerTask(td) == ChoiceTask(ReadWords(td.header), lines)
      case NoKeyword => LowerTask(td) == Success(EmptyTask(ReadWords(td.header), UnknownTag))
  {
  }

  // One helper per kind: each fills only its own payload field, so the task
  // it returns is well tagged.

  function RoFTask(header: string, lines: seq<TrueFalseNode>): (r: Task)
    ensures r.header == header && r.kind == RoFTag && WellTagged(r)
    ensures |r.rof| == |lines| && forall i :: 0 <= i < |lines| ==> r.rof[i] == LowerRoFLine(lines[i])
  {
    EmptyTask(header, RoFTag).(rof := seq(|lines|, i requires 0 <= i < |lines| => LowerRoFLine(lines[i])))
  }

  function SortingTask(header: string, lines: seq<SortingNode>): (r: Result<Task, NumberError>)
    ensures r.Success? ==> r.value.header == header && r.value.kind == SortingTag && WellTagged(r.value)
    ensures r.Success? <==> MapAll(LowerSortingLine, lines).Success?
    ensures r.Failure? ==> r.error == MapAll(LowerSortingLine, lines).error
    ensures r.Success? ==> r.value.sorting == MapAll(LowerSortingLine, lines).value
  {
    var sorting :- MapAll(LowerSortingLine, lines);
    Success(EmptyTask(header, SortingTag).(sorting := sorting))
  }

  function MatchingTask(header: string, lines: seq<MatchingNode>): (r: Result<Task, NumberError>)
    ensures r.Success? ==> r.value.header == header && r.value.kind == MatchingTag && WellTagged(r.value)
    ensures r.Success? <==> MapAll(LowerMatchingLine, lines).Success?
    ensures r.Failure? ==> r.error == MapAll(LowerMatchingLine, lines).error
    ensures r.Success? ==> r.value.matching == MapAll(LowerMatchingLine, lines).value
  {
    var matching :- MapAll(LowerMatchingLine, lines);
    Success(EmptyTask(header, MatchingTag).(matching := matching))
  }

  function MarkingTask(header: string, c: CompositeNode<MarkedWordNode>): (r: Result<Task, NumberError>)
    ensures r.Success? ==> r.value.header == header && r.value.kind == MarkingTag && WellTagged(r.value)
    ensures r.Success? <==> LowerComposite(c, ReadMark).Success?
    ensures r.Failure? ==> r.error == LowerComposite(c, ReadMark).error
    ensures r.Success? ==> r.value.marking == Some(LowerComposite(c, ReadMark).value)
  {
    var marking :- LowerComposite(c, ReadMark);
    Success(EmptyTask(header, MarkingTag).(marking := Some(marking)))
  }

  function ClozeTask(header: string, c: CompositeNode<ClozeWordNode>): (r: Result<Task, NumberError>)
    ensures r.Success? ==> r.value.header == header && r.value.kind == ClozeTag && WellTagged(r.value)
    ensures r.Success? <==> LowerComposite(c, ReadBlank).Success?
    ensures r.Failure? ==> r.error == LowerComposite(c, ReadBlank).error
    ensures r.Success? ==> r.value.cloze == Some(LowerComposite(c, ReadBlank).value)
  {
    var cloze :- LowerComposite(c, ReadBlank);
    Success(EmptyTask(header, ClozeTag).(cloze := Some(cloze)))
  }

  function CorrectionTask(header: string, c: CompositeNode<CorrectionWordNode>): (r: Result<Task, NumberError>)
    ensures r.Success? ==> r.value.header == header && r.value.kind == CorrectionTag && WellTagged(r.value)
    ensures r.Success? <==> LowerComposite(c, ReadCorrection).Success?
    ensures r.Failure? ==> r.error == LowerComposite(c, ReadCorrection).error
    ensures r.Success? ==> r.value.correction == Some(LowerComposite(c, ReadCorrection).value)
  {
    var correction :- LowerComposite(c, ReadCorrection);
    Success(EmptyTask(header, CorrectionTag).(correction := Some(correction)))
  }

  function ChoiceTask(header: string, lines: seq<ChoiceNode>): (r: Result<Task, NumberError>)
    ensures r.Success? ==> r.value.header == header && r.value.kind == ChoiceTag && WellTagged(r.value)
    ensures r.Success? <==> MapAll(LowerChoiceLine, lines).Success?
    ensures r.Failure? ==> r.error == MapAll(LowerChoiceLine, lines).error
    ensures r.Success? ==> r.value.choice == MapAll(LowerChoiceLine, lines).value
  {
    var choice :- MapAll(LowerChoiceLine, lines);
    Success(EmptyTask(header, ChoiceTag).(choice := choice))
  }

  /** visitProg: no task list is an empty program; otherwise every task in
      order, failing at the first malformed point literal. */
  function LowerProgram(p: ProgNode): (r: Result<Program, NumberError>)
    ensures p.tasks.None? ==> r == Success(Program([]))
    ensures p.tasks.Some? ==> (r.Success? <==> forall i :: 0 <= i < |p.tasks.value| ==> LowerTask(p.tasks.value[i]).Success?)
    ensures r.Success? && p.tasks.Some? ==> |r.value.tasks| == |p.tasks.value|
    ensures r.Success? && p.tasks.Some? ==> forall i :: 0 <= i < |p.tasks.value| ==>
      r.value.tasks[i].header == ReadWords(p.tasks.value[i].header) && r.value.tasks[i].kind == TagOf(p.tasks.value[i].task)
    ensures r.Success? ==> forall i :: 0 <= i < |r.value.tasks| ==> WellTagged(r.value.tasks[i])
    ensures r.Success? && p.tasks.Some? ==> forall i :: 0 <= i < |p.tasks.value| ==>
      r.value.tasks[i] == LowerTask(p.tasks.value[i]).value
    ensures r.Failure? ==> p.tasks.Some? && exists k :: (0 <= k < |p.tasks.value| && LowerTask(p.tasks.value[k]).Failure?
      && r.error == LowerTask(p.tasks.value[k]).error
      && forall i :: 0 <= i < k ==> LowerTask(p.tasks.value[i]).Success?)
  {
    if p.tasks.None? then Success(Program([]))
    else
      var tasks :- MapAll(LowerTask, p.tasks.value);
      Success(Program(tasks))
  }

  // ----- what each kind of task holds -----

  /** A sorting task holds its lines, each lowered in order; the first malformed
      point literal among them is the task's error. */
  lemma SortingTaskData(td: TaskDefinitionNode)
    requires td.task.Some? && td.task.value.SortingNodes?
    ensures LowerTask(td).Success? <==> MapAll(LowerSortingLine, td.task.value.sortingLines).Success?
    ensures LowerTask(td).Failure? ==> LowerTask(td).error == MapAll(LowerSortingLine, td.task.value.sortingLines).error
    ensures LowerTask(td).Success? ==> LowerTask(td).value.sorting == MapAll(LowerSortingLine, td.task.value.sortingLines).value
  {
    LowerTaskDispatch(td);
  }

  /** A matching task holds its lines, each lowered in order; the first
      malformed point literal among them is the task's error. */
  lemma MatchingTaskData(td: TaskDefinitionNode)
    requires td.task.Some? && td.task.value.MatchingNodes?
    ensures LowerTask(td).Success? <==> MapAll(LowerMatchingLine, td.task.value.matchingLines).Success?
    ensures LowerTask(td).Failure? ==> LowerTask(td).error == MapAll(LowerMatchingLine, td.task.value.matchingLines).error
    ensures LowerTask(td).Success? ==> LowerTask(td).value.matching == MapAll(LowerMatchingLine, td.task.value.matchingLines).value
  {
    LowerTaskDispatch(td);
  }

  /** A choice task holds its lines, each lowered in order; the first
      malformed point literal among them is the task's error. */
  lemma ChoiceTaskData(td: TaskDefinitionNode)
    requires td.task.Some? && td.task.value.ChoiceNodes?
    ensures LowerTask(td).Success? <==> MapAll(LowerChoiceLine, td.task.value.choiceLines).Success?
    ensures LowerTask(td).Failure? ==> LowerTask(td).error == MapAll(LowerChoiceLine, td.task.value.choiceLines).error
    ensures LowerTask(td).Success? ==> LowerTask(td).value.choice == MapAll(LowerChoiceLine, td.task.value.choiceLines).value
  {
    LowerTaskDispatch(td);
  }

  /** A marking task holds its question and body as lowered; it fails
      exactly when a mark's points are malformed. */
  lemma MarkingTaskData(td: TaskDefinitionNode)
    requires td.task.Some? && td.task.value.MarkingNode?
    ensures LowerTask(td).Success? <==> LowerComposite(td.task.value.marking, ReadMark).Success?
    ensures LowerTask(td).Failure? ==> LowerTask(td).error == LowerComposite(td.task.value.marking, ReadMark).error
    ensures LowerTask(td).Success? ==> LowerTask(td).value.marking == Some(LowerComposite(td.task.value.marking, ReadMark).value)
  {
    LowerTaskDispatch(td);
  }

  /** A cloze task holds its question and body as lowered; it fails exactly
      when a blank's points are malformed. */
  lemma ClozeTaskData(td: TaskDefinitionNode)
    requires td.task.Some? && td.task.value.ClozeNode?
    ensures LowerTask(td).Success? <==> LowerComposite(td.task.value.cloze, ReadBlank).Success?
    ensures LowerTask(td).Failure? ==> LowerTask(td).error == LowerComposite(td.task.value.cloze, ReadBlank).error
    ensures LowerTask(td).Success? ==> LowerTask(td).value.cloze == Some(LowerComposite(td.task.value.cloze, ReadBlank).value)
  {
    LowerTaskDispatch(td);
  }

  /** A correction task holds its question and body as lowered; it fails
      exactly when a correction's points are malformed. */
  lemma CorrectionTaskData(td: TaskDefinitionNode)
    requires td.task.Some? && td.task.value.CorrectionNode?
    ensures LowerTask(td).Success? <==> LowerComposite(td.task.value.correction, ReadCorrection).Success?
    ensures LowerTask(td).Failure? ==> LowerTask(td).error == LowerComposite(td.task.value.correction, ReadCorrection).error
    ensures LowerTask(td).Success? ==> LowerTask(td).value.correction == Some(LowerComposite(td.task.value.correction, ReadCorrection).value)
  {
    LowerTaskDispatch(td);
  }
}
