/** The intermediate representation (IR.h): a loosely tagged record per task,
    holding a tag string and one collection or optional per exercise kind.
    Field defaults of the C++ structs are named constants here. */
module IR {
  import opened Wrappers

  datatype Sentence = Sentence(text: string, punctuation: char)

  /** A SentenceIR as constructed: no text, '.' as punctuation. */
  const DefaultSentence := Sentence("", '.')

  datatype ScoringMode = PartialPerCorrect | AllOrNothing

  datatype TaskPoints = TaskPoints(pointsIfAllCorrect: Option<int>, scoringMode: ScoringMode)

  /** A TaskPointsIR as constructed: no total, partial scoring. */
  const DefaultTaskPoints := TaskPoints(None, PartialPerCorrect)

  /** The scoring mode is AllOrNothing exactly when a total is declared. */
  predicate PointsConsistent(p: TaskPoints) {
    p.scoringMode == AllOrNothing <==> p.pointsIfAllCorrect.Some?
  }

  datatype Answer = Answer(isTrue: bool, reason: Option<Sentence>)

  /** An AnswerIR as constructed: false, no reason. */
  const DefaultAnswer := Answer(false, None)

  datatype TrueFalseLine = TrueFalseLine(question: Sentence, answer: Answer)

  datatype SortingLine = SortingLine(question: Sentence, points: TaskPoints, items: seq<string>)

  datatype MatchingQuestion = MatchingQuestion(prefix: string, slotA: string, middle: string, slotB: string, punctuation: char)

  datatype MatchingItem = MatchingItem(left: string, right: string)

  datatype MatchingLine = MatchingLine(question: MatchingQuestion, points: TaskPoints, pairs: seq<MatchingItem>)

  /** Cloze payload: `(word, points)`. */
  datatype ClozeBlank = ClozeBlank(solution: string, points: int)

  /** Marking payload: `(words)[points]` or `(words)[correction, points]`. */
  datatype MarkedSpan = MarkedSpan(markedText: string, correction: Option<string>, points: int)

  /** Correction payload: `(wrong)[correct, points]`. */
  datatype CorrectionSpan = CorrectionSpan(wrong: string, correct: string, points: int)

  /** A part of an annotated sentence: plain text plus an optional payload,
      as the three C++ part structs have it (not a sum type). */
  datatype Part<P> = Part(text: string, payload: Option<P>)

  datatype AnnotatedSentence<P> = AnnotatedSentence(parts: seq<Part<P>>, punctuation: char)

  datatype AnnotatedTask<P> = AnnotatedTask(question: Sentence, sentences: seq<AnnotatedSentence<P>>)

  type ClozeTask = AnnotatedTask<ClozeBlank>
  type MarkingTask = AnnotatedTask<MarkedSpan>
  type CorrectionTask = AnnotatedTask<CorrectionSpan>

  datatype ChoiceOption = ChoiceOption(text: string, points: int, isCorrect: bool)

  datatype ChoiceLine = ChoiceLine(question: Sentence, options: seq<ChoiceOption>)

  /** The tags lowering writes into TaskIR::type. */
  const RoFTag := "RoF"
  const SortingTag := "Umordnung"
  const MatchingTag := "Zuordnung"
  const MarkingTag := "Markierung"
  const ClozeTag := "L\U{FC}ckentext"
  const CorrectionTag := "Textkorrektur"
  const ChoiceTag := "Auswahl"
  const UnknownTag := "Unknown"

  datatype Task = Task(
    header: string,
    kind: string,
    rof: seq<TrueFalseLine>,
    sorting: seq<SortingLine>,
    matching: seq<MatchingLine>,
    marking: Option<MarkingTask>,
    cloze: Option<ClozeTask>,
    correction: Option<CorrectionTask>,
    choice: seq<ChoiceLine>)

  /** A TaskIR with only header and tag set. */
  function EmptyTask(header: string, kind: string): Task {
    Task(header, kind, [], [], [], None, None, None, [])
  }

  datatype Program = Program(tasks: seq<Task>)
}
