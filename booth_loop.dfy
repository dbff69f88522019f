/**
 * The booth's main loop (`main` in src/capture.py): find a printer, build the
 * uploader, open the lights and the camera, then run trigger, capture,
 * compose, print and upload cycles until an exception ends it. What goes
 * wrong, and where, is an input: each cycle says which phase raises what.
 */
module BoothLoop {
  import opened Wrappers
  import opened Devices
  import GPhotoCamera
  import Printing
  import Upload

  /** The statements of the inner `try` block, in order. */
  datatype Step =
    | NewStrip | CaptureFiles | ProcessingAnimation | ComposeStrip | SaveStrip
    | PrintStrip | ComposeSquare | SaveSquare | UploadSquare

  datatype Phase = ReadyAnimation | WaitForInput | Body(step: Step) | CompleteAnimation

  /** An `Exception`, or a `KeyboardInterrupt` (which is not one). */
  datatype Fault = Error | Interrupt

  /** One pass of the capture loop: the exception each phase raises, if any. */
  datatype Cycle = Cycle(faults: map<Phase, Fault>)

  datatype MainEvent =
    | FoundPrinter(name: string) | NoPrinter
    | LightsOn | CameraOpened
    | Ran(phase: Phase) | Logged(step: Step)
    | CameraClosed | LightsOff

  /**
   * What goes wrong before the loop: `get_printer()` raising (an `Error`
   * when `cups.Connection()` reaches no server) or interrupted, `LedLightUi()`
   * raising, and a `KeyboardInterrupt` arriving while `Camera.__enter__` is
   * still retrying after the camera's last scripted answer.
   */
  datatype Setup = Setup(lookup: Option<Fault>, lights: Option<Fault>, retriesInterrupted: bool)

  /** How `main` ends; `StillRunning` when the inputs run out while it is still looping or retrying. */
  datatype Outcome = Stopped(interruptRecorded: bool) | Crashed | StillRunning

  function FaultAt(c: Cycle, p: Phase): Option<Fault> {
    if p in c.faults then Some(c.faults[p]) else None
  }

  /** The steps of one cycle; the print is skipped when no printer was found. */
  function BodySteps(hasPrinter: bool): seq<Step> {
    [NewStrip, CaptureFiles, ProcessingAnimation, ComposeStrip, SaveStrip] +
    (if hasPrinter then [PrintStrip] else []) +
    [ComposeSquare, SaveSquare, UploadSquare]
  }

  datatype BodyRun = BodyRun(events: seq<MainEvent>, interrupted: bool)

  /** The inner `try`: an `Exception` is logged and ends the body, a `KeyboardInterrupt` escapes it. */
  function RunBody(c: Cycle, steps: seq<Step>): BodyRun
    decreases |steps|
  {
    if steps == [] then BodyRun([], false)
    else match FaultAt(c, Body(steps[0]))
      case None =>
        var rest := RunBody(c, steps[1..]);
        BodyRun([Ran(Body(steps[0]))] + rest.events, rest.interrupted)
      case Some(Error) => BodyRun([Logged(steps[0])], false)
      case Some(Interrupt) => BodyRun([], true)
  }

  /** A pass finishes, or an exception escapes the `with` block while `capturing` has the given value. */
  datatype CycleEnd = Finished | Escaped(fault: Fault, capturing: bool)

  datatype CycleRun = CycleRun(events: seq<MainEvent>, end: CycleEnd)

  /** One pass of `while not keyboard_interrupt`. */
  function CycleSpec(c: Cycle, hasPrinter: bool): CycleRun {
    match FaultAt(c, ReadyAnimation)
    case Some(f) => CycleRun([], Escaped(f, false))
    case None =>
      match FaultAt(c, WaitForInput)
      case Some(f) => CycleRun([Ran(ReadyAnimation)], Escaped(f, false))
      case None =>
        var started := [Ran(ReadyAnimation), Ran(WaitForInput)];
        var body := RunBody(c, BodySteps(hasPrinter));
        if body.interrupted then CycleRun(started + body.events, Escaped(Interrupt, true))
        else match FaultAt(c, CompleteAnimation)
          case Some(f) => CycleRun(started + body.events, Escaped(f, true))
          case None => CycleRun(started + body.events + [Ran(CompleteAnimation)], Finished)
  }

  datatype LoopRun = LoopRun(events: seq<MainEvent>, escaped: Option<(Fault, bool)>)

  /** The passes of the loop until one lets an exception escape. */
  function LoopSpec(cycles: seq<Cycle>, hasPrinter: bool): LoopRun
    decreases |cycles|
  {
    if cycles == [] then LoopRun([], None)
    else
      var run := CycleSpec(cycles[0], hasPrinter);
      match run.end
      case Finished =>
        var rest := LoopSpec(cycles[1..], hasPrinter);
        LoopRun(run.events + rest.events, rest.escaped)
      case Escaped(f, capturing) => LoopRun(run.events, Some((f, capturing)))
  }

  /** `Uploader(*args)`: the constructor takes exactly a key file and a destination; any other arity raises `TypeError`. */
  function UploaderArity(args: seq<Option<string>>): (r: bool)
    ensures r <==> |args| == 2
  {
    |args| == 2
  }

  /**
   * `main()`, given the setup faults, the printers CUPS reports, the
   * arguments passed to `Uploader`, the camera's answers to `init()`, and the
   * passes of the loop. A `KeyboardInterrupt` before the loop is caught with
   * `capturing` false, so `main` returns without recording it.
   */
  function MainSpec(setup: Setup, printers: seq<string>, uploaderArgs: seq<Option<string>>,
                    initOutcomes: seq<GPhotoCamera.InitOutcome>, cycles: seq<Cycle>)
    : (seq<MainEvent>, Outcome)
  {
    match setup.lookup
    case Some(Error) => ([], Crashed)
    case Some(Interrupt) => ([], Stopped(false))
    case None =>
      var printer := Printing.FirstPrinter(printers);
      var found := if printer.Some? then [FoundPrinter(printer.value)] else [NoPrinter];
      if !UploaderArity(uploaderArgs) then (found, Crashed)
      else match setup.lights
        case Some(Error) => (found, Crashed)
        case Some(Interrupt) => (found, Stopped(false))
        case None =>
          match GPhotoCamera.EnterSpec(initOutcomes).result
          case StillRetrying =>
            if setup.retriesInterrupted then (found + [LightsOn, LightsOff], Stopped(false))
            else (found + [LightsOn], StillRunning)
          case Fatal(_) => (found + [LightsOn, LightsOff], Crashed)
          case Entered =>
            var loop := LoopSpec(cycles, printer.Some?);
            var running := found + [LightsOn, CameraOpened] + loop.events;
            match loop.escaped
            case None => (running, StillRunning)
            case Some((Interrupt, capturing)) => (running + [CameraClosed, LightsOff], Stopped(capturing))
            case Some((Error, _)) => (running + [CameraClosed, LightsOff], Crashed)
  }

  // ------------------------------------------------------------ imperative

  /** Unfolds `RunBody` on the steps from `i` on. */
  lemma RunBodyStep(c: Cycle, steps: seq<Step>, i: nat)
    requires i < |steps|
    ensures var rest := RunBody(c, steps[i + 1..]);
      RunBody(c, steps[i..]) ==
        match FaultAt(c, Body(steps[i]))
        case None => BodyRun([Ran(Body(steps[i]))] + rest.events, rest.interrupted)
        case Some(Error) => BodyRun([Logged(steps[i])], false)
        case Some(Interrupt) => BodyRun([], true)
  {
    assert steps[i..][0] == steps[i] && steps[i..][1..] == steps[i + 1..];
  }

  /** The inner `try` over `steps`: stops at the first step that raises. */
  method RunSteps(c: Cycle, steps: seq<Step>) returns (events: seq<MainEvent>, interrupted: bool)
    ensures RunBody(c, steps) == BodyRun(events, interrupted)
  {
    events := [];
    interrupted := false;
    var failed := false;
    var i := 0;
    while i < |steps| && !failed
      invariant 0 <= i <= |steps|
      decreases |steps| - i, !failed
      invariant !failed ==> (RunBody(c, steps) ==
        BodyRun(events + RunBody(c, steps[i..]).events, RunBody(c, steps[i..]).interrupted))
      invariant failed ==> RunBody(c, steps) == BodyRun(events, false)
    {
      var f := FaultAt(c, Body(steps[i]));
      RunBodyStep(c, steps, i);
      if f == Some(Interrupt) {
        return events, true;
      } else if f == Some(Error) {
        events := events + [Logged(steps[i])];
        failed := true;
      } else {
        events := events + [Ran(Body(steps[i]))];
        i := i + 1;
      }
    }
    if !failed {
      assert steps[i..] == [];
    }
  }

  /** One pass of the loop, with the value `capturing` holds when an exception escapes it. */
  method RunCycle(c: Cycle, hasPrinter: bool) returns (events: seq<MainEvent>, fault: Option<Fault>, capturing: bool)
    ensures CycleSpec(c, hasPrinter) == CycleRun(events, if fault.None? then Finished else Escaped(fault.value, capturing))
  {
    capturing := false;
    events := [];
    fault := FaultAt(c, ReadyAnimation);
    if fault.Some? {
      return;
    }
    events := [Ran(ReadyAnimation)];
    fault := FaultAt(c, WaitForInput);
    if fault.Some? {
      return;
    }
    events := events + [Ran(WaitForInput)];
    capturing := true;
    var done, interrupted := RunSteps(c, BodySteps(hasPrinter));
    events := events + done;
    if interrupted {
      return events, Some(Interrupt), true;
    }
    fault := FaultAt(c, CompleteAnimation);
    if fault.Some? {
      return;
    }
    events := events + [Ran(CompleteAnimation)];
    capturing := false;
  }

  /** Unfolds `LoopSpec` on the passes from `k` on. */
  lemma LoopSpecStep(cycles: seq<Cycle>, k: nat, hasPrinter: bool)
    requires k < |cycles|
    ensures var run := CycleSpec(cycles[k], hasPrinter);
            var rest := LoopSpec(cycles[k + 1..], hasPrinter);
            LoopSpec(cycles[k..], hasPrinter) ==
              if run.end.Finished? then LoopRun(run.events + rest.events, rest.escaped)
              else LoopRun(run.events, Some((run.end.fault, run.end.capturing)))
  {
    assert cycles[k..][0] == cycles[k] && cycles[k..][1..] == cycles[k + 1..];
  }

  /** `while not keyboard_interrupt`: passes run until an exception escapes one, with `capturing` as it was then. */
  method RunLoop(cycles: seq<Cycle>, hasPrinter: bool) returns (events: seq<MainEvent>, escaped: Option<Fault>, capturing: bool)
    ensures LoopSpec(cycles, hasPrinter) == LoopRun(events, if escaped.None? then None else Some((escaped.value, capturing)))
  {
    events := [];
    escaped := None;
    capturing := false;
    var k := 0;
    while escaped.None? && k < |cycles|
      invariant 0 <= k <= |cycles|
      invariant escaped.None? ==> (LoopSpec(cycles, hasPrinter) ==
        LoopRun(events + LoopSpec(cycles[k..], hasPrinter).events, LoopSpec(cycles[k..], hasPrinter).escaped))
      invariant escaped.Some? ==> LoopSpec(cycles, hasPrinter) == LoopRun(events, Some((escaped.value, capturing)))
    {
      var cycleEvents, fault, nowCapturing := RunCycle(cycles[k], hasPrinter);
      LoopSpecStep(cycles, k, hasPrinter);
      events := events + cycleEvents;
      capturing := nowCapturing;
      escaped := fault;
      k := k + 1;
    }
    if escaped.None? {
      assert cycles[k..] == [];
    }
  }

  /**
   * `main()` with `Uploader` given `uploaderArgs`: the setup, the `while`
   * loop over the passes, the `capturing` flag, and the `KeyboardInterrupt`
   * handler.
   */
  method RunMain(setup: Setup, printers: seq<string>, uploaderArgs: seq<Option<string>>,
                 initOutcomes: seq<GPhotoCamera.InitOutcome>, cycles: seq<Cycle>)
    returns (events: seq<MainEvent>, outcome: Outcome)
    ensures (events, outcome) == MainSpec(setup, printers, uploaderArgs, initOutcomes, cycles)
  {
    var keyboardInterrupt := false;
    var capturing := false;
    if setup.lookup == Some(Interrupt) {
      return [], Stopped(keyboardInterrupt);
    }
    var lookup := Printing.GetPrinter(if setup.lookup == Some(Error) then None else Some(printers));
    if lookup.Err? {
      return [], Crashed;
    }
    var printer := lookup.value;
    events := if printer != null then [FoundPrinter(printer.name)] else [NoPrinter];
    ghost var found := events;
    if |uploaderArgs| != 2 {
      return events, Crashed;
    }
    var uploader := new Upload.Uploader(uploaderArgs[0], uploaderArgs[1]);
    if setup.lights == Some(Error) {
      return events, Crashed;
    } else if setup.lights == Some(Interrupt) {
      return events, Stopped(keyboardInterrupt);
    }

    events := events + [LightsOn];
    var trace := new Trace();
    var camera := new GPhotoCamera.Camera(trace);
    var entered := camera.Enter(initOutcomes);
    if entered.StillRetrying? {
      if setup.retriesInterrupted {
        assert events + [LightsOff] == found + [LightsOn, LightsOff];
        return events + [LightsOff], Stopped(keyboardInterrupt);
      }
      return events, StillRunning;
    } else if entered.Fatal? {
      assert events + [LightsOff] == found + [LightsOn, LightsOff];
      return events + [LightsOff], Crashed;
    }
    events := events + [CameraOpened];
    ghost var opening := events;
    assert opening == found + [LightsOn, CameraOpened];

    var hasPrinter := printer != null;
    var loopEvents, escaped;
    loopEvents, escaped, capturing := RunLoop(cycles, hasPrinter);
    events := events + loopEvents;
    assert events == opening + loopEvents;
    if escaped.None? {
      return events, StillRunning;
    }
    camera.Exit();
    events := events + [CameraClosed, LightsOff];
    assert events == found + [LightsOn, CameraOpened] + loopEvents + [CameraClosed, LightsOff];
    if escaped.value == Interrupt {
      if capturing {
        keyboardInterrupt := true;
      }
      outcome := Stopped(keyboardInterrupt);
    } else {
      outcome := Crashed;
    }
  }
}

module BoothLoopProperties {
  import opened Wrappers
  import opened BoothLoop
  import GPhotoCamera

  /** The events of steps that all ran cleanly. */
  function RanSteps(steps: seq<Step>): (r: seq<MainEvent>)
    ensures |r| == |steps|
    ensures forall i :: 0 <= i < |steps| ==> r[i] == Ran(Body(steps[i]))
  {
    seq(|steps|, i requires 0 <= i < |steps| => Ran(Body(steps[i])))
  }

  predicate CleanUpTo(c: Cycle, steps: seq<Step>, k: nat)
    requires k <= |steps|
  {
    forall j :: 0 <= j < k ==> FaultAt(c, Body(steps[j])).None?
  }

  /** Steps before the first one that raises run in order and are all reported. */
  lemma {:induction false} RunBodyCleanPrefix(c: Cycle, steps: seq<Step>, k: nat)
    requires k <= |steps| && CleanUpTo(c, steps, k)
    ensures RunBody(c, steps) ==
      BodyRun(RanSteps(steps[..k]) + RunBody(c, steps[k..]).events, RunBody(c, steps[k..]).interrupted)
  {
    if k == 0 {
      assert steps[..0] == [] && steps[0..] == steps;
    } else {
      RunBodyCleanPrefix(c, steps, k - 1);
      var tail := steps[k - 1..];
      assert tail[0] == steps[k - 1] && tail[1..] == steps[k..];
      assert RanSteps(steps[..k]) == RanSteps(steps[..k - 1]) + [Ran(Body(steps[k - 1]))];
    }
  }

  /** The cycle up to its body: both animations and the trigger ran without a fault. */
  predicate Triggered(c: Cycle) {
    FaultAt(c, ReadyAnimation).None? && FaultAt(c, WaitForInput).None?
  }

  /**
   * An `Exception` in step `k` is logged, the later steps are skipped, and
   * the pass still ends with `complete_animation`.
   */
  lemma ErrorSkipsRestOfCycle(c: Cycle, hasPrinter: bool, k: nat)
    requires Triggered(c) && FaultAt(c, CompleteAnimation).None?
    requires k < |BodySteps(hasPrinter)| && CleanUpTo(c, BodySteps(hasPrinter), k)
    requires FaultAt(c, Body(BodySteps(hasPrinter)[k])) == Some(Error)
    ensures var steps := BodySteps(hasPrinter);
      CycleSpec(c, hasPrinter) ==
        CycleRun([Ran(ReadyAnimation), Ran(WaitForInput)] + RanSteps(steps[..k]) + [Logged(steps[k]), Ran(CompleteAnimation)], Finished)
  {
    var steps := BodySteps(hasPrinter);
    RunBodyCleanPrefix(c, steps, k);
    assert steps[k..][0] == steps[k];
  }

  /**
   * A `KeyboardInterrupt` in step `k` ends the pass at once: `complete_animation`
   * does not run, and it escapes with `capturing` set.
   */
  lemma InterruptEndsCycleAtOnce(c: Cycle, hasPrinter: bool, k: nat)
    requires Triggered(c)
    requires k < |BodySteps(hasPrinter)| && CleanUpTo(c, BodySteps(hasPrinter), k)
    requires FaultAt(c, Body(BodySteps(hasPrinter)[k])) == Some(Interrupt)
    ensures var steps := BodySteps(hasPrinter);
      CycleSpec(c, hasPrinter) ==
        CycleRun([Ran(ReadyAnimation), Ran(WaitForInput)] + RanSteps(steps[..k]), Escaped(Interrupt, true))
  {
    var steps := BodySteps(hasPrinter);
    RunBodyCleanPrefix(c, steps, k);
    assert steps[k..][0] == steps[k];
  }

  /** A pass where nothing raises runs every step, in order, between the animations. */
  lemma CleanCycle(c: Cycle, hasPrinter: bool)
    requires c.faults == map[]
    ensures CycleSpec(c, hasPrinter) ==
      CycleRun([Ran(ReadyAnimation), Ran(WaitForInput)] + RanSteps(BodySteps(hasPrinter)) + [Ran(CompleteAnimation)], Finished)
  {
    var steps := BodySteps(hasPrinter);
    RunBodyCleanPrefix(c, steps, |steps|);
    assert steps[..|steps|] == steps && steps[|steps|..] == [];
  }

  /** Whether an event reports a given step, run or failed. */
  predicate Reports(e: MainEvent, s: Step) {
    e == Ran(Body(s)) || e == Logged(s)
  }

  lemma {:induction false} BodyReportsOnlyItsSteps(c: Cycle, steps: seq<Step>, s: Step)
    requires s !in steps
    ensures forall e | e in RunBody(c, steps).events :: !Reports(e, s)
  {
    if steps != [] && FaultAt(c, Body(steps[0])).None? {
      BodyReportsOnlyItsSteps(c, steps[1..], s);
    }
  }

  lemma {:induction false} LoopReportsOnlyItsSteps(cycles: seq<Cycle>, hasPrinter: bool, s: Step)
    requires s !in BodySteps(hasPrinter)
    ensures forall e | e in LoopSpec(cycles, hasPrinter).events :: !Reports(e, s)
  {
    if cycles != [] {
      BodyReportsOnlyItsSteps(cycles[0], BodySteps(hasPrinter), s);
      LoopReportsOnlyItsSteps(cycles[1..], hasPrinter, s);
    }
  }

  /** Nothing went wrong before the camera was asked to open. */
  predicate SetupClean(setup: Setup) {
    setup.lookup.None? && setup.lights.None?
  }

  /** With no printer, no pass ever runs `print_image`. */
  lemma NoPrinterNoPrint(setup: Setup, uploaderArgs: seq<Option<string>>,
                         initOutcomes: seq<GPhotoCamera.InitOutcome>, cycles: seq<Cycle>)
    ensures forall e | e in MainSpec(setup, [], uploaderArgs, initOutcomes, cycles).0 :: !Reports(e, PrintStrip)
  {
    LoopReportsOnlyItsSteps(cycles, false, PrintStrip);
  }

  /** Once the camera is open, a first pass without faults prints exactly when a printer was found. */
  lemma PrintsIffPrinterFound(setup: Setup, printers: seq<string>, keyfile: Option<string>, scpDst: Option<string>,
                              initOutcomes: seq<GPhotoCamera.InitOutcome>, cycles: seq<Cycle>)
    requires SetupClean(setup) && GPhotoCamera.EnterSpec(initOutcomes).result.Entered?
    requires |cycles| > 0 && cycles[0].faults == map[]
    ensures Ran(Body(PrintStrip)) in MainSpec(setup, printers, [keyfile, scpDst], initOutcomes, cycles).0 <==> printers != []
  {
    var events := MainSpec(setup, printers, [keyfile, scpDst], initOutcomes, cycles).0;
    if printers == [] {
      NoPrinterNoPrint(setup, [keyfile, scpDst], initOutcomes, cycles);
      assert Reports(Ran(Body(PrintStrip)), PrintStrip);
    } else {
      CleanCycle(cycles[0], true);
      var first := RanSteps(BodySteps(true));
      assert first[5] == Ran(Body(PrintStrip));
      var loop := LoopSpec(cycles, true);
      assert loop.events == CycleSpec(cycles[0], true).events + LoopSpec(cycles[1..], true).events;
      assert Ran(Body(PrintStrip)) in loop.events;
    }
  }

  /** The events of a pass whose print raises an `Exception`. */
  lemma PrintFailureCycle(c: Cycle, hasPrinter: bool)
    requires hasPrinter
    requires Triggered(c) && FaultAt(c, CompleteAnimation).None?
    requires CleanUpTo(c, BodySteps(hasPrinter), 5)
    requires FaultAt(c, Body(PrintStrip)) == Some(Error)
    ensures CycleSpec(c, hasPrinter).events ==
      [Ran(ReadyAnimation), Ran(WaitForInput), Ran(Body(NewStrip)), Ran(Body(CaptureFiles)),
       Ran(Body(ProcessingAnimation)), Ran(Body(ComposeStrip)), Ran(Body(SaveStrip)),
       Logged(PrintStrip), Ran(CompleteAnimation)]
  {
    var steps := BodySteps(hasPrinter);
    assert steps[5] == PrintStrip;
    ErrorSkipsRestOfCycle(c, hasPrinter, 5);
    var before := [NewStrip, CaptureFiles, ProcessingAnimation, ComposeStrip, SaveStrip];
    assert steps[..5] == before;
    var ran := RanSteps(before);
    assert ran == [Ran(Body(NewStrip)), Ran(Body(CaptureFiles)), Ran(Body(ProcessingAnimation)),
                   Ran(Body(ComposeStrip)), Ran(Body(SaveStrip))];
  }

  /**
   * Printing and uploading share one `try`: a failed print is logged and
   * skips the square composite, its save and the upload of that pass.
   */
  lemma PrintFailureSkipsUpload(c: Cycle, hasPrinter: bool)
    requires hasPrinter
    requires Triggered(c) && FaultAt(c, CompleteAnimation).None?
    requires CleanUpTo(c, BodySteps(hasPrinter), 5)
    requires FaultAt(c, Body(PrintStrip)) == Some(Error)
    ensures var events := CycleSpec(c, hasPrinter).events;
      Logged(PrintStrip) in events && Ran(CompleteAnimation) in events &&
      Ran(Body(ComposeSquare)) !in events && Ran(Body(SaveSquare)) !in events && Ran(Body(UploadSquare)) !in events
  {
    PrintFailureCycle(c, hasPrinter);
  }

  /** Passes after the first one an exception escapes never run. */
  lemma {:induction false} LoopStopsAt(cycles: seq<Cycle>, hasPrinter: bool, k: nat)
    requires k < |cycles|
    requires forall j :: 0 <= j < k ==> CycleSpec(cycles[j], hasPrinter).end.Finished?
    requires CycleSpec(cycles[k], hasPrinter).end.Escaped?
    ensures LoopSpec(cycles, hasPrinter) == LoopSpec(cycles[..k + 1], hasPrinter)
    ensures var end := CycleSpec(cycles[k], hasPrinter).end;
      LoopSpec(cycles, hasPrinter).escaped == Some((end.fault, end.capturing))
  {
    var prefix := cycles[..k + 1];
    assert prefix[0] == cycles[0];
    if k > 0 {
      LoopStopsAt(cycles[1..], hasPrinter, k - 1);
      assert prefix[1..] == cycles[1..][..k];
    }
  }

  /**
   * The pass an interrupt escapes decides how `main` stops: the interrupt is
   * recorded exactly when it arrived after `wait_for_input` returned.
   */
  lemma InterruptRecordedIffCapturing(setup: Setup, printers: seq<string>, keyfile: Option<string>, scpDst: Option<string>,
                                      initOutcomes: seq<GPhotoCamera.InitOutcome>, cycles: seq<Cycle>, k: nat)
    requires SetupClean(setup) && GPhotoCamera.EnterSpec(initOutcomes).result.Entered?
    requires k < |cycles|
    requires forall j :: 0 <= j < k ==> CycleSpec(cycles[j], printers != []).end.Finished?
    requires CycleSpec(cycles[k], printers != []).end.Escaped? && CycleSpec(cycles[k], printers != []).end.fault == Interrupt
    ensures MainSpec(setup, printers, [keyfile, scpDst], initOutcomes, cycles).1 == Stopped(Triggered(cycles[k]))
  {
    LoopStopsAt(cycles, printers != [], k);
  }

  /** Any other exception escaping a pass (an animation or `wait_for_input` failing) ends `main` with an error. */
  lemma EscapedErrorCrashes(setup: Setup, printers: seq<string>, keyfile: Option<string>, scpDst: Option<string>,
                            initOutcomes: seq<GPhotoCamera.InitOutcome>, cycles: seq<Cycle>, k: nat)
    requires SetupClean(setup) && GPhotoCamera.EnterSpec(initOutcomes).result.Entered?
    requires k < |cycles|
    requires forall j :: 0 <= j < k ==> CycleSpec(cycles[j], printers != []).end.Finished?
    requires CycleSpec(cycles[k], printers != []).end.Escaped? && CycleSpec(cycles[k], printers != []).end.fault == Error
    ensures MainSpec(setup, printers, [keyfile, scpDst], initOutcomes, cycles).1 == Crashed
    ensures !Triggered(cycles[k]) || FaultAt(cycles[k], CompleteAnimation) == Some(Error)
  {
    LoopStopsAt(cycles, printers != [], k);
  }

  /**
   * An interrupt before the camera is open (during the printer lookup, while
   * the lights start, or while the camera is still retrying) is caught with
   * `capturing` false: `main` returns without recording it, and lights that
   * were switched on are switched off.
   */
  lemma InterruptBeforeOpenIsNotRecorded(setup: Setup, printers: seq<string>, uploaderArgs: seq<Option<string>>,
                                         initOutcomes: seq<GPhotoCamera.InitOutcome>, cycles: seq<Cycle>)
    requires setup.lookup == Some(Interrupt) ||
      (setup.lookup.None? && UploaderArity(uploaderArgs) &&
        (setup.lights == Some(Interrupt) ||
          (setup.lights.None? && GPhotoCamera.EnterSpec(initOutcomes).result.StillRetrying? && setup.retriesInterrupted)))
    ensures var (events, outcome) := MainSpec(setup, printers, uploaderArgs, initOutcomes, cycles);
      outcome == Stopped(false) && CameraOpened !in events &&
      (LightsOn in events ==> events[|events| - 1] == LightsOff)
  {
  }

  /** The `with` block: once the camera is open, however `main` ends, the camera closes and then the lights go off. */
  lemma TeardownAfterOpen(setup: Setup, printers: seq<string>, uploaderArgs: seq<Option<string>>,
                          initOutcomes: seq<GPhotoCamera.InitOutcome>, cycles: seq<Cycle>)
    ensures var (events, outcome) := MainSpec(setup, printers, uploaderArgs, initOutcomes, cycles);
      outcome != StillRunning && CameraOpened in events ==>
        |events| >= 2 && events[|events| - 2..] == [CameraClosed, LightsOff]
  {
    var (events, outcome) := MainSpec(setup, printers, uploaderArgs, initOutcomes, cycles);
    var printer := Printing.FirstPrinter(printers);
    var found := if printer.Some? then [FoundPrinter(printer.value)] else [NoPrinter];
    assert CameraOpened !in found;
    if setup.lookup.Some? {
      assert events == [];
    } else if !UploaderArity(uploaderArgs) || setup.lights.Some? {
      assert events == found;
    } else {
      var entered := GPhotoCamera.EnterSpec(initOutcomes).result;
      if entered.StillRetrying? {
        assert events == found + [LightsOn] || events == found + [LightsOn, LightsOff];
      } else if entered.Fatal? {
        assert events == found + [LightsOn, LightsOff];
      } else {
        var loop := LoopSpec(cycles, printer.Some?);
        if loop.escaped.Some? {
          assert events == found + [LightsOn, CameraOpened] + loop.events + [CameraClosed, LightsOff];
        }
      }
    }
  }

  /** `Uploader()` as written at line 155: the constructor needs two arguments, so `main` raises before the lights come on. */
  lemma AsWrittenNeverStarts(setup: Setup, printers: seq<string>, initOutcomes: seq<GPhotoCamera.InitOutcome>, cycles: seq<Cycle>)
    requires setup.lookup.None?
    ensures var (events, outcome) := MainSpec(setup, printers, [], initOutcomes, cycles);
      outcome == Crashed && |events| == 1 && LightsOn !in events
  {
  }

  /** With the uploader given its key file and destination, a booth whose camera opens completes a clean first pass, upload included. */
  lemma ConfiguredBoothRunsCycle(setup: Setup, printers: seq<string>, keyfile: Option<string>, scpDst: Option<string>,
                                 initOutcomes: seq<GPhotoCamera.InitOutcome>, cycles: seq<Cycle>)
    requires SetupClean(setup) && GPhotoCamera.EnterSpec(initOutcomes).result.Entered?
    requires |cycles| > 0 && cycles[0].faults == map[]
    ensures var events := MainSpec(setup, printers, [keyfile, scpDst], initOutcomes, cycles).0;
      Ran(Body(UploadSquare)) in events && Ran(CompleteAnimation) in events
  {
    var h := printers != [];
    CleanCycle(cycles[0], h);
    var steps := BodySteps(h);
    assert steps[|steps| - 1] == UploadSquare;
    var first := RanSteps(steps);
    assert first[|steps| - 1] == Ran(Body(UploadSquare));
    var run := CycleSpec(cycles[0], h);
    assert Ran(Body(UploadSquare)) in run.events && Ran(CompleteAnimation) in run.events;
    assert LoopSpec(cycles, h).events == run.events + LoopSpec(cycles[1..], h).events;
  }
}
