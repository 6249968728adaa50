/** Conversion of the IR to the domain model (DomainConvert.cpp): the tag
    selects the variant, the variant takes the header and the data of its
    kind, and the three composite kinds must carry their record. The
    source throws a runtime_error at the first task it cannot convert. */
module Convert {
  import opened Wrappers
  import opened IR
  import opened Domain
  import Lowering
  import Cst

  datatype ConvertError =
    | MissingPayload(kind: string)
    | UnknownTaskType(kind: string)
    | UnknownTask(header: string)

  /** The text of the runtime_error the source throws. */
  function Message(e: ConvertError): string {
    match e
    case MissingPayload(k) => k + " task missing payload"
    case UnknownTaskType(k) => "Unknown task type in convertTask(): " + k
    case UnknownTask(h) => "Cannot convert task with type=Unknown (header=" + h + ")"
  }

  /** The tags convertTask accepts; the cloze kind in both spellings. */
  predicate Recognized(kind: string) {
    kind in {RoFTag, SortingTag, MatchingTag, MarkingTag, ClozeTag, ClozeKind, CorrectionTag, ChoiceTag}
  }

  /** The record a composite kind needs is present. */
  predicate HasPayload(t: Task) {
    && (t.kind == MarkingTag ==> t.marking.Some?)
    && (t.kind == ClozeTag || t.kind == ClozeKind ==> t.cloze.Some?)
    && (t.kind == CorrectionTag ==> t.correction.Some?)
  }

  /** The IR tag a recognized kind stands for. */
  function CanonicalTag(kind: string): string {
    if kind == ClozeKind then ClozeTag else kind
  }

  /** convertTask. */
  function ConvertTask(t: Task): (r: Result<TaskD, ConvertError>)
    ensures !Recognized(t.kind) ==> r == Failure(UnknownTaskType(t.kind))
    ensures Recognized(t.kind) ==> (r.Success? <==> HasPayload(t))
    ensures r.Success? ==> r.value.header == t.header && IRTagOf(r.value) == CanonicalTag(t.kind)
    ensures r.Failure? && Recognized(t.kind) ==>
      r.error == MissingPayload(if t.kind == ClozeTag then ClozeKind else t.kind)
  {
    if t.kind == RoFTag then Success(RoFD(t.header, t.rof))
    else if t.kind == SortingTag then Success(SortingD(t.header, t.sorting))
    else if t.kind == MatchingTag then Success(MatchingD(t.header, t.matching))
    else if t.kind == MarkingTag then
      if t.marking.None? then Failure(MissingPayload(MarkingTag)) else Success(MarkingD(t.header, t.marking.value))
    else if t.kind == ClozeTag || t.kind == ClozeKind then
      if t.cloze.None? then Failure(MissingPayload(ClozeKind)) else Success(ClozeD(t.header, t.cloze.value))
    else if t.kind == CorrectionTag then
      if t.correction.None? then Failure(MissingPayload(CorrectionTag)) else Success(CorrectionD(t.header, t.correction.value))
    else if t.kind == ChoiceTag then Success(ChoiceD(t.header, t.choice))
    else Failure(UnknownTaskType(t.kind))
  }

  /** One task inside convertProgram: "Unknown" is rejected with the header
      before convertTask sees it. */
  function ConvertOne(t: Task): (r: Result<TaskD, ConvertError>)
    ensures t.kind == UnknownTag ==> r == Failure(UnknownTask(t.header))
    ensures t.kind != UnknownTag ==> r == ConvertTask(t)
  {
    if t.kind == UnknownTag then Failure(UnknownTask(t.header)) else ConvertTask(t)
  }

  /** convertProgram: every task in order, stopping at the first failure. */
  function ConvertProgram(p: Program): (r: Result<ProgramD, ConvertError>)
    ensures r.Success? <==> forall i :: 0 <= i < |p.tasks| ==> p.tasks[i].kind != UnknownTag && ConvertTask(p.tasks[i]).Success?
    ensures r.Success? ==> |r.value.tasks| == |p.tasks|
    ensures r.Success? ==> forall i :: 0 <= i < |p.tasks| ==> r.value.tasks[i] == ConvertTask(p.tasks[i]).value
    ensures r.Failure? ==> exists k :: (0 <= k < |p.tasks| && ConvertOne(p.tasks[k]).Failure?
      && r.error == ConvertOne(p.tasks[k]).error
      && forall i :: 0 <= i < k ==> ConvertOne(p.tasks[i]).Success?)
  {
    var tasks :- MapAll(ConvertOne, p.tasks);
    Success(ProgramD(tasks))
  }

  /** Converting the IR form of a domain task gives the task back. */
  lemma ConvertInvertsToIR(d: TaskD)
    ensures ConvertTask(ToIR(d)) == Success(d)
  {
    match d
    case RoFD(_, _) =>
    case SortingD(_, _) =>
    case MatchingD(_, _) =>
    case MarkingD(_, _) =>
    case ClozeD(_, _) =>
    case CorrectionD(_, _) =>
    case ChoiceD(_, _) =>
  }

  /** A well-tagged task with a lowering tag other than "Unknown" converts,
      and converting loses nothing: its IR form is the task itself. */
  lemma WellTaggedTaskConverts(t: Task)
    requires Lowering.WellTagged(t)
    requires t.kind in {RoFTag, SortingTag, MatchingTag, MarkingTag, ClozeTag, CorrectionTag, ChoiceTag}
    ensures ConvertTask(t).Success?
    ensures ToIR(ConvertTask(t).value) == t
  {
    var p := Lowering.Populated(t);
    assert p <= {t.kind};
    if t.kind != RoFTag { assert RoFTag !in p; }
    if t.kind != SortingTag { assert SortingTag !in p; }
    if t.kind != MatchingTag { assert MatchingTag !in p; }
    if t.kind != MarkingTag { assert MarkingTag !in p; }
    if t.kind != ClozeTag { assert ClozeTag !in p; }
    if t.kind != CorrectionTag { assert CorrectionTag !in p; }
    if t.kind != ChoiceTag { assert ChoiceTag !in p; }
  }

  /** convertProgram reports the first task that does not convert. */
  lemma FirstFailureReported(p: Program, k: int)
    requires 0 <= k < |p.tasks| && ConvertOne(p.tasks[k]).Failure?
    requires forall i :: 0 <= i < k ==> ConvertOne(p.tasks[i]).Success?
    ensures ConvertProgram(p) == Failure(ConvertOne(p.tasks[k]).error)
  {
    var r := ConvertProgram(p);
    var j :| 0 <= j < |p.tasks| && ConvertOne(p.tasks[j]).Failure? && r.error == ConvertOne(p.tasks[j]).error
      && forall i :: 0 <= i < j ==> ConvertOne(p.tasks[i]).Success?;
    if j < k {
      assert false;
    } else if j > k {
      assert false;
    }
  }

  /** Every task the lowering produces either converts without loss or is
      an "Unknown" task, which makes the whole program fail. */
  lemma LoweredProgramConverts(prog: Cst.ProgNode, ir: Program)
    requires Lowering.LowerProgram(prog) == Success(ir)
    ensures ConvertProgram(ir).Success? <==> forall i :: 0 <= i < |ir.tasks| ==> ir.tasks[i].kind != UnknownTag
    ensures ConvertProgram(ir).Success? ==> forall i :: 0 <= i < |ir.tasks| ==> ToIR(ConvertProgram(ir).value.tasks[i]) == ir.tasks[i]
  {
    forall i | 0 <= i < |ir.tasks| && ir.tasks[i].kind != UnknownTag
      ensures ConvertTask(ir.tasks[i]).Success? && ToIR(ConvertTask(ir.tasks[i]).value) == ir.tasks[i]
    {
      LoweredTagIsKnown(prog, ir, i);
      WellTaggedTaskConverts(ir.tasks[i]);
    }
  }

  lemma LoweredTagIsKnown(prog: Cst.ProgNode, ir: Program, i: int)
    requires Lowering.LowerProgram(prog) == Success(ir)
    requires 0 <= i < |ir.tasks|
    ensures Lowering.WellTagged(ir.tasks[i])
    ensures ir.tasks[i].kind in {RoFTag, SortingTag, MatchingTag, MarkingTag, ClozeTag, CorrectionTag, ChoiceTag, UnknownTag}
  {
    var ts := prog.tasks.value;
    assert ir.tasks[i].kind == Lowering.TagOf(ts[i].task);
  }
}
