/** The parse tree the lowering walks, reduced to what it reads. A grammar
    node that the lowering detokenizes is given by its run of tokens; a node
    whose text the source takes verbatim (`word`, point literals) by that
    text; a child the source tests for presence by an Option. */
module Cst {
  import opened Wrappers
  import opened Tokens

  /** The tokens an `endless_words` node spans. */
  type Run = seq<Token>

  /** `sentence: endless_words PUNCTUATION`; `punct` is the punctuation
      token's text. */
  datatype SentenceNode = SentenceNode(words: Option<Run>, punct: Option<string>)

  /** `reason: sentence | endless_words`. */
  datatype ReasonNode = ReasonNode(sentence: Option<SentenceNode>, words: Option<Run>)

  /** `true_false_answer`: the true alternative, or false with an optional reason. */
  datatype AnswerNode = AnswerNode(answerTrue: bool, reason: Option<ReasonNode>)

  datatype TrueFalseNode = TrueFalseNode(question: Option<SentenceNode>, answer: AnswerNode)

  /** A sorting line; each `item` may hold a `word` (its text). */
  datatype SortingNode = SortingNode(question: Option<SentenceNode>, points: Option<string>, items: seq<Option<string>>)

  /** `endless_words '(' word ')' endless_words '(' word ')' PUNCTUATION`;
      `punct` is the first character of the punctuation token. */
  datatype MatchingQuestionNode = MatchingQuestionNode(prefix: Option<Run>, slotA: string, middle: Option<Run>, slotB: string, punct: char)

  /** A matching line; each `matching_item` lists its `word` texts. */
  datatype MatchingNode = MatchingNode(question: MatchingQuestionNode, points: Option<string>, items: seq<seq<string>>)

  /** `marked_word: '(' endless_words ')' ('[' endless_words ',' points ']' | '[' points ']')`. */
  datatype MarkedWordNode = MarkedWordNode(words: Option<Run>, correction: Option<Run>, points: string)

  /** `cloze_word: '(' word ',' points ')'`. */
  datatype ClozeWordNode = ClozeWordNode(word: string, points: string)

  /** `correction_word: '(' word ')' '[' word ',' points ']'`. */
  datatype CorrectionWordNode = CorrectionWordNode(wrong: string, correct: string, points: string)

  /** `endless_words? (annotation endless_words?)+ PUNCTUATION`, as the
      parser hands it over: all `endless_words` children in order, all
      annotation children in order, and the punctuation character. */
  datatype AnnotatedSentenceNode<A> = AnnotatedSentenceNode(runs: seq<Run>, annotations: seq<A>, punct: char)

  /** `((sentence | annotated_sentence)+ NEWLINE?)*`, whose children the
      parser exposes as two lists. */
  datatype BodyNode<A> = BodyNode(annotated: seq<AnnotatedSentenceNode<A>>, plain: seq<SentenceNode>)

  datatype CompositeNode<A> = CompositeNode(question: Option<SentenceNode>, body: Option<BodyNode<A>>)

  datatype CorrectChoiceNode = CorrectChoiceNode(words: Option<Run>, points: string)

  /** `false_choices`: its `endless_words` children and its (possibly fewer)
      negative point literals. */
  datatype FalseChoicesNode = FalseChoicesNode(words: seq<Run>, points: seq<string>)

  datatype ChoiceNode = ChoiceNode(question: Option<SentenceNode>, correct: seq<CorrectChoiceNode>, falseChoices: Option<FalseChoicesNode>)

  /** `task`: which keyword alternative was parsed, with its lines or body;
      `NoKeyword` stands for a task node that matched none of them. */
  datatype TaskNode =
    | RoFNode(rofLines: seq<TrueFalseNode>)
    | SortingNodes(sortingLines: seq<SortingNode>)
    | MatchingNodes(matchingLines: seq<MatchingNode>)
    | MarkingNode(marking: CompositeNode<MarkedWordNode>)
    | ClozeNode(cloze: CompositeNode<ClozeWordNode>)
    | CorrectionNode(correction: CompositeNode<CorrectionWordNode>)
    | ChoiceNodes(choiceLines: seq<ChoiceNode>)
    | NoKeyword

  /** `task_definition: endless_words task`. */
  datatype TaskDefinitionNode = TaskDefinitionNode(header: Option<Run>, task: Option<TaskNode>)

  /** `prog: tasks NEWLINE? EOF`. */
  datatype ProgNode = ProgNode(tasks: Option<seq<TaskDefinitionNode>>)
}
