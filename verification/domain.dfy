/** The typed domain model (Domain.h): one variant per exercise kind, each
    with the task header and exactly the data of its kind. */
module Domain {
  import opened Wrappers
  import opened IR

  datatype TaskD =
    | RoFD(header: string, rofLines: seq<TrueFalseLine>)
    | SortingD(header: string, sortingLines: seq<SortingLine>)
    | MatchingD(header: string, matchingLines: seq<MatchingLine>)
    | MarkingD(header: string, marking: MarkingTask)
    | ClozeD(header: string, cloze: ClozeTask)
    | CorrectionD(header: string, correction: CorrectionTask)
    | ChoiceD(header: string, choiceLines: seq<ChoiceLine>)

  datatype ProgramD = ProgramD(tasks: seq<TaskD>)

  /** The ASCII spelling of the cloze kind used by taskKind, which differs
      from the tag lowering writes ("L\U{FC}ckentext"). */
  const ClozeKind := "Lueckentext"

  /** taskKind: the kind string written as the task's "type". */
  function TaskKind(t: TaskD): (k: string)
    ensures k != UnknownTag
    ensures t.ClozeD? <==> k == ClozeKind
    ensures !t.ClozeD? ==> k == IRTagOf(t)
  {
    match t
    case RoFD(_, _) => "RoF"
    case SortingD(_, _) => "Umordnung"
    case MatchingD(_, _) => "Zuordnung"
    case MarkingD(_, _) => "Markierung"
    case ClozeD(_, _) => "Lueckentext"
    case CorrectionD(_, _) => "Textkorrektur"
    case ChoiceD(_, _) => "Auswahl"
  }

  /** The tag the IR uses for the kind of `t`. */
  function IRTagOf(t: TaskD): string {
    match t
    case RoFD(_, _) => RoFTag
    case SortingD(_, _) => SortingTag
    case MatchingD(_, _) => MatchingTag
    case MarkingD(_, _) => MarkingTag
    case ClozeD(_, _) => ClozeTag
    case CorrectionD(_, _) => CorrectionTag
    case ChoiceD(_, _) => ChoiceTag
  }

  /** The same task as an IR record: its tag and the one field of its kind. */
  function ToIR(t: TaskD): (r: Task)
    ensures r.header == t.header && r.kind == IRTagOf(t)
  {
    match t
    case RoFD(h, lines) => EmptyTask(h, RoFTag).(rof := lines)
    case SortingD(h, lines) => EmptyTask(h, SortingTag).(sorting := lines)
    case MatchingD(h, lines) => EmptyTask(h, MatchingTag).(matching := lines)
    case MarkingD(h, m) => EmptyTask(h, MarkingTag).(marking := Some(m))
    case ClozeD(h, c) => EmptyTask(h, ClozeTag).(cloze := Some(c))
    case CorrectionD(h, c) => EmptyTask(h, CorrectionTag).(correction := Some(c))
    case ChoiceD(h, lines) => EmptyTask(h, ChoiceTag).(choice := lines)
  }
}
