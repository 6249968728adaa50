/** The stages main.cpp runs after parsing: visitProg builds the IR,
    convertProgram types it, and writeDomainToFile writes the re-indented
    serialization. A malformed point literal, an unconvertible task and a
    serialization the re-indenter underflows on are the three ways a parsed
    program fails to produce output. */
module Pipeline {
  import opened Wrappers
  import Numbers
  import IR
  import Cst
  import Lowering
  import Convert
  import Json
  import DomainJson
  import Domain
  import Pretty
  import PrintedLayout

  datatype StageError =
    | LowerFailed(number: Numbers.NumberError)
    | ConvertFailed(convert: Convert.ConvertError)
    | WriteFailed

  /** The file contents writeDomainToFile produces for a program, re-indented
      as the source does it. It fails exactly when, by the source's quote
      tracking, some prefix of the serialized text closes more brackets than
      it opened; otherwise it only inserts line breaks and indentation. A
      serialization without a backslash is written exactly as the
      escape-aware printer writes it. */
  function Written(d: Domain.ProgramD): (r: Option<string>)
    ensures
      var json := DomainJson.DomainToJson(d);
      r.None? <==> exists k :: 0 < k <= |json| && Pretty.Depth(json[..k]) < 0
    ensures
      var lay := Pretty.Layout(Pretty.AsWritten, Pretty.Start, DomainJson.DomainToJson(d));
      r.Some? ==>
        && lay.Some?
        && r.value == Pretty.Render(lay.value.1)
        && Pretty.Originals(lay.value.1) == DomainJson.DomainToJson(d)
    ensures '\\' !in DomainJson.DomainToJson(d) ==> r == Some(WrittenIntended(d))
  {
    Pretty.AsWrittenOutcome(DomainJson.DomainToJson(d));
    Pretty.PrettyAsWritten(DomainJson.DomainToJson(d))
  }

  /** The file contents with escape-aware re-indenting: re-indenting never
      fails on serialized text, and it only inserts line breaks and
      indentation. */
  function WrittenIntended(d: Domain.ProgramD): (r: string)
    ensures
      var lay := Pretty.Layout(Pretty.Corrected, Pretty.Start, DomainJson.DomainToJson(d));
      && lay.Some?
      && r == Pretty.Render(lay.value.1)
      && Pretty.Originals(lay.value.1) == DomainJson.DomainToJson(d)
  {
    PrintedLayout.PrettyOfPrinted(DomainJson.ProgramJson(d));
    Pretty.PrettyJson(DomainJson.DomainToJson(d)).value
  }

  /** The text written for a parsed program, or the stage that failed. */
  function Compile(p: Cst.ProgNode): (r: Result<string, StageError>)
    ensures Lowering.LowerProgram(p).Failure? ==> r == Failure(LowerFailed(Lowering.LowerProgram(p).error))
    ensures Lowering.LowerProgram(p).Success? && Convert.ConvertProgram(Lowering.LowerProgram(p).value).Failure? ==>
      r == Failure(ConvertFailed(Convert.ConvertProgram(Lowering.LowerProgram(p).value).error))
    ensures Lowering.LowerProgram(p).Success? && Convert.ConvertProgram(Lowering.LowerProgram(p).value).Success? ==>
      var w := Written(Convert.ConvertProgram(Lowering.LowerProgram(p).value).value);
      && (w.None? ==> r == Failure(WriteFailed))
      && (w.Some? ==> r == Success(w.value))
  {
    match Lowering.LowerProgram(p)
    case Failure(e) => Failure(LowerFailed(e))
    case Success(ir) =>
      match Convert.ConvertProgram(ir)
      case Failure(e) => Failure(ConvertFailed(e))
      case Success(d) =>
        match Written(d)
        case None => Failure(WriteFailed)
        case Some(s) => Success(s)
  }

  /** The run with the escape-aware printer: the writing stage cannot fail. */
  function CompileIntended(p: Cst.ProgNode): (r: Result<string, StageError>)
    ensures Lowering.LowerProgram(p).Failure? ==> r == Failure(LowerFailed(Lowering.LowerProgram(p).error))
    ensures Lowering.LowerProgram(p).Success? ==>
      (r.Success? <==> Convert.ConvertProgram(Lowering.LowerProgram(p).value).Success?)
    ensures r.Success? ==> r.value == WrittenIntended(Convert.ConvertProgram(Lowering.LowerProgram(p).value).value)
    ensures Lowering.LowerProgram(p).Success? && Convert.ConvertProgram(Lowering.LowerProgram(p).value).Failure? ==>
      r == Failure(ConvertFailed(Convert.ConvertProgram(Lowering.LowerProgram(p).value).error))
  {
    match Lowering.LowerProgram(p)
    case Failure(e) => Failure(LowerFailed(e))
    case Success(ir) =>
      match Convert.ConvertProgram(ir)
      case Failure(e) => Failure(ConvertFailed(e))
      case Success(d) => Success(WrittenIntended(d))
  }

  /** Once the points parse, a run stops only at a task the grammar gave no
      kind keyword, or at a serialized text on which the source's
      re-indenter underflows. */
  lemma CompileFailsOnlyOnUnknown(p: Cst.ProgNode, ir: IR.Program)
    requires Lowering.LowerProgram(p) == Success(ir)
    ensures Compile(p).Success? <==>
      && (forall i :: 0 <= i < |ir.tasks| ==> ir.tasks[i].kind != IR.UnknownTag)
      && Convert.ConvertProgram(ir).Success?
      && (var json := DomainJson.DomainToJson(Convert.ConvertProgram(ir).value);
          forall k :: 0 < k <= |json| ==> Pretty.Depth(json[..k]) >= 0)
  {
    Convert.LoweredProgramConverts(p, ir);
  }

  /** With the escape-aware printer, only a task with no kind keyword stops
      a run whose points parse. */
  lemma CompileIntendedFailsOnlyOnUnknown(p: Cst.ProgNode, ir: IR.Program)
    requires Lowering.LowerProgram(p) == Success(ir)
    ensures CompileIntended(p).Success? <==> forall i :: 0 <= i < |ir.tasks| ==> ir.tasks[i].kind != IR.UnknownTag
  {
    Convert.LoweredProgramConverts(p, ir);
  }

  /** The two printers can only part ways on a program whose serialized
      text holds a backslash. */
  lemma CompileDiffersOnlyOnBackslash(p: Cst.ProgNode)
    ensures Compile(p) == CompileIntended(p)
      || (&& Lowering.LowerProgram(p).Success?
          && Convert.ConvertProgram(Lowering.LowerProgram(p).value).Success?
          && '\\' in DomainJson.DomainToJson(Convert.ConvertProgram(Lowering.LowerProgram(p).value).value))
  {
  }

  /** An "Unknown" task in a program whose points all parse is reported
      with its header, and it is the first one that is reported. */
  lemma FirstUnknownIsReported(p: Cst.ProgNode, ir: IR.Program, k: int)
    requires Lowering.LowerProgram(p) == Success(ir)
    requires 0 <= k < |ir.tasks| && ir.tasks[k].kind == IR.UnknownTag
    requires forall i :: 0 <= i < k ==> ir.tasks[i].kind != IR.UnknownTag
    ensures Compile(p) == Failure(ConvertFailed(Convert.UnknownTask(ir.tasks[k].header)))
  {
    forall i | 0 <= i < k ensures Convert.ConvertOne(ir.tasks[i]).Success? {
      Convert.LoweredTagIsKnown(p, ir, i);
      Convert.WellTaggedTaskConverts(ir.tasks[i]);
    }
    Convert.FirstFailureReported(ir, k);
  }

  /** A true answer read from the parse tree is written without "reason". */
  lemma TrueAnswerHasNoReasonKey(a: Cst.AnswerNode)
    requires a.answerTrue
    ensures !DomainJson.HasKey(DomainJson.AnswerJson(Lowering.LowerAnswer(a)), Json.Reason)
  {
    DomainJson.ReasonKeyIffPresent(Lowering.LowerAnswer(a));
  }
}
