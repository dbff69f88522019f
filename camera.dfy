/**
 * The gphoto2 camera wrapper (src/camera.py): the libgphoto2 log filter, the
 * retry-forever device initialisation, capture, save and release.
 */
module GPhotoCamera {
  import opened Wrappers
  import opened Strings
  import Paths
  import opened Devices

  // libgphoto2 log levels (GPLogLevel).
  const GP_LOG_ERROR: int := 0
  const GP_LOG_VERBOSE: int := 1
  const GP_LOG_DEBUG: int := 2
  const GP_LOG_DATA: int := 3

  // Python `logging` levels.
  const DEBUG: int := 10
  const WARNING: int := 30

  // libgphoto2 result codes the initialisation loop treats as transient.
  const GP_ERROR: int := -1
  const GP_ERROR_IO_USB_CLAIM: int := -53
  const GP_ERROR_MODEL_NOT_FOUND: int := -105

  /** The Python log level a libgphoto2 message is forwarded at. */
  function LogLevel(level: int): (r: int)
    ensures r == WARNING <==> level !in {GP_LOG_DEBUG, GP_LOG_VERBOSE, GP_LOG_DATA}
    ensures level == GP_LOG_DEBUG ==> r == DEBUG
    ensures level == GP_LOG_VERBOSE ==> r == DEBUG - 3
    ensures level == GP_LOG_DATA ==> r == DEBUG - 6
    ensures r <= WARNING
  {
    if level == GP_LOG_ERROR then WARNING
    else if level == GP_LOG_DEBUG then DEBUG
    else if level == GP_LOG_VERBOSE then DEBUG - 3
    else if level == GP_LOG_DATA then DEBUG - 6
    else WARNING
  }

  /** The libusb complaint the filter is meant to silence. */
  const ClaimMessage: string :=
    "'libusb_claim_interface (port->pl->dh, port->settings.usb.interface)' failed: Access denied (insufficient permissions) (-3)"

  datatype LogRecord = LogRecord(level: int, message: string)

  /**
   * `_log_callback`: the parenthesised literal is a single bytes value, not a
   * tuple, so the test is a substring test against the claim message.
   */
  function LogCallback(level: int, message: string): (r: Option<LogRecord>)
    ensures r.None? <==> IsSubstring(message, ClaimMessage)
    ensures r.Some? ==> r.value.message == message && r.value.level == LogLevel(level)
  {
    if IsSubstring(message, ClaimMessage) then None else Some(LogRecord(LogLevel(level), message))
  }

  /** Any piece of the claim message, however short (even the empty message), is dropped. */
  lemma ClaimMessageFragmentsDropped(level: int, i: nat, j: nat)
    requires i <= j <= |ClaimMessage|
    ensures LogCallback(level, ClaimMessage[i..j]).None?
  {
    assert OccursAt(ClaimMessage[i..j], ClaimMessage, i);
  }

  /** A message with a character that never occurs in the claim message is always logged. */
  lemma ForeignMessageLogged(level: int, message: string, k: nat)
    requires k < |message| && message[k] !in ClaimMessage
    ensures LogCallback(level, message) == Some(LogRecord(LogLevel(level), message))
  {
    if i :| 0 <= i <= |ClaimMessage| && OccursAt(message, ClaimMessage, i) {
      assert false;
    }
  }

  /** The outcome of one `init()` call on the device. */
  datatype InitOutcome = InitOk | InitError(code: int)

  predicate Transient(code: int) {
    code == GP_ERROR_MODEL_NOT_FOUND || code == GP_ERROR_IO_USB_CLAIM || code == GP_ERROR
  }

  /** Seconds slept after a transient error before the next `init()`. */
  function Backoff(code: int): (seconds: nat)
    requires Transient(code)
    ensures seconds == (if code == GP_ERROR then 5 else 2)
  {
    if code == GP_ERROR_MODEL_NOT_FOUND then 2
    else if code == GP_ERROR_IO_USB_CLAIM then 2
    else 5
  }

  /**
   * How `__enter__` ends: ready, with a non-transient error re-raised, or —
   * when the scripted answers run out — still retrying.
   */
  datatype EnterResult = Entered | Fatal(code: int) | StillRetrying

  datatype EnterRun = EnterRun(result: EnterResult, events: seq<Event>)

  /** The calls `__enter__` makes when `init()` answers with `outcomes`, in order. */
  function EnterSpec(outcomes: seq<InitOutcome>): EnterRun {
    if outcomes == [] then EnterRun(StillRetrying, [])
    else match outcomes[0]
      case InitOk => EnterRun(Entered, [InitCall])
      case InitError(code) =>
        if Transient(code) then
          var rest := EnterSpec(outcomes[1..]);
          EnterRun(rest.result, [InitCall, Slept(Backoff(code))] + rest.events)
        else EnterRun(Fatal(code), [InitCall])
  }

  function InitCalls(events: seq<Event>): nat {
    if events == [] then 0 else (if events[0] == InitCall then 1 else 0) + InitCalls(events[1..])
  }

  function TotalSleep(events: seq<Event>): nat {
    if events == [] then 0 else (if events[0].Slept? then events[0].seconds else 0) + TotalSleep(events[1..])
  }

  function Occurrences(codes: seq<int>, code: int): nat {
    if codes == [] then 0 else (if codes[0] == code then 1 else 0) + Occurrences(codes[1..], code)
  }

  function Failures(codes: seq<int>): (r: seq<InitOutcome>)
    ensures |r| == |codes| && forall i :: 0 <= i < |codes| ==> r[i] == InitError(codes[i])
  {
    seq(|codes|, i requires 0 <= i < |codes| => InitError(codes[i]))
  }

  /**
   * Transient failures followed by a success: `init()` is called once per
   * failure plus once more, and the sleeps add up to 2 s per missing-model or
   * claim error and 5 s per generic error.
   */
  lemma {:induction false} RetryUntilReady(codes: seq<int>)
    requires forall i :: 0 <= i < |codes| ==> Transient(codes[i])
    ensures EnterSpec(Failures(codes) + [InitOk]).result == Entered
    ensures InitCalls(EnterSpec(Failures(codes) + [InitOk]).events) == |codes| + 1
    ensures TotalSleep(EnterSpec(Failures(codes) + [InitOk]).events) ==
      2 * (Occurrences(codes, GP_ERROR_MODEL_NOT_FOUND) + Occurrences(codes, GP_ERROR_IO_USB_CLAIM)) +
      5 * Occurrences(codes, GP_ERROR)
  {
    var outcomes := Failures(codes) + [InitOk];
    if codes == [] {
      assert outcomes == [InitOk];
    } else {
      assert outcomes[1..] == Failures(codes[1..]) + [InitOk];
      RetryUntilReady(codes[1..]);
      var rest := EnterSpec(outcomes[1..]);
      var c := codes[0];
      assert EnterSpec(outcomes).events == [InitCall, Slept(Backoff(c))] + rest.events;
      assert ([InitCall, Slept(Backoff(c))] + rest.events)[1..] == [Slept(Backoff(c))] + rest.events;
      assert ([Slept(Backoff(c))] + rest.events)[1..] == rest.events;
    }
  }

  /** A non-transient error ends initialisation at once: no further `init()`, whatever would follow. */
  lemma {:induction false} FatalErrorStopsRetrying(codes: seq<int>, code: int, later: seq<InitOutcome>)
    requires forall i :: 0 <= i < |codes| ==> Transient(codes[i])
    requires !Transient(code)
    ensures EnterSpec(Failures(codes) + [InitError(code)] + later).result == Fatal(code)
    ensures InitCalls(EnterSpec(Failures(codes) + [InitError(code)] + later).events) == |codes| + 1
  {
    var outcomes := Failures(codes) + [InitError(code)] + later;
    if codes == [] {
      assert outcomes[0] == InitError(code);
      assert EnterSpec(outcomes).events == [InitCall];
      assert [InitCall][1..] == [];
    } else {
      assert outcomes[1..] == Failures(codes[1..]) + [InitError(code)] + later;
      FatalErrorStopsRetrying(codes[1..], code, later);
      var rest := EnterSpec(outcomes[1..]);
      var c := codes[0];
      assert EnterSpec(outcomes).events == [InitCall, Slept(Backoff(c))] + rest.events;
      assert ([InitCall, Slept(Backoff(c))] + rest.events)[1..] == [Slept(Backoff(c))] + rest.events;
      assert ([Slept(Backoff(c))] + rest.events)[1..] == rest.events;
    }
  }

  /** `os.path.splitext(file_path)[0] + os.path.splitext(capture.name)[1]`. */
  function SaveTarget(filePath: string, captureName: string): string {
    Paths.SplitExt(filePath).0 + Paths.SplitExt(captureName).1
  }

  /** A base path without an extension gets the capture's extension appended. */
  lemma SaveTargetAppendsExtension(filePath: string, captureName: string)
    requires Paths.SplitExt(filePath).1 == []
    ensures SaveTarget(filePath, captureName) == filePath + Paths.SplitExt(captureName).1
  {
  }

  /** A path that already carries the capture's extension comes back unchanged. */
  lemma SaveTargetKeepsExtendedPath(stem: string, captureName: string)
    requires Paths.SplitExt(captureName).1 != []
    requires Paths.NamedLastComponent(stem)
    ensures SaveTarget(stem + Paths.SplitExt(captureName).1, captureName) == stem + Paths.SplitExt(captureName).1
  {
    Paths.ExtensionShape(captureName);
    Paths.SplitExtOfStemAndExtension(stem, Paths.SplitExt(captureName).1);
  }

  /** Saving to the path `save` returned names the same file again. */
  lemma SaveTargetIdempotent(filePath: string, captureName: string)
    requires Paths.SplitExt(captureName).1 != []
    requires Paths.NamedLastComponent(Paths.SplitExt(filePath).0)
    ensures SaveTarget(SaveTarget(filePath, captureName), captureName) == SaveTarget(filePath, captureName)
  {
    SaveTargetKeepsExtendedPath(Paths.SplitExt(filePath).0, captureName);
  }

  class Camera {
    const trace: Trace
    /** The device has answered `init()` successfully and not been released since. */
    var ready: bool

    /** `Camera()`: a handle on the device, not yet initialised. */
    constructor(trace: Trace)
      ensures this.trace == trace && !ready
    {
      this.trace := trace;
      ready := false;
    }

    /**
     * `__enter__`: call `init()` until it succeeds, sleeping 2 s after a
     * missing-model or USB-claim error and 5 s after a generic error; any other
     * error is raised. `outcomes` are the device's answers in order.
     */
    method Enter(outcomes: seq<InitOutcome>) returns (r: EnterResult)
      modifies this`ready, trace
      ensures r == EnterSpec(outcomes).result
      ensures trace.events == old(trace.events) + EnterSpec(outcomes).events
      ensures ready == (r.Entered? || old(ready))
    {
      var initialized := false;
      var k := 0;
      while !initialized
        invariant 0 <= k <= |outcomes|
        invariant ready == (old(ready) || initialized)
        invariant !initialized ==>
          trace.events + EnterSpec(outcomes[k..]).events == old(trace.events) + EnterSpec(outcomes).events &&
          EnterSpec(outcomes[k..]).result == EnterSpec(outcomes).result
        invariant initialized ==>
          trace.events == old(trace.events) + EnterSpec(outcomes).events && EnterSpec(outcomes).result == Entered
        decreases |outcomes| - k
      {
        if k == |outcomes| {
          return StillRetrying;
        }
        trace.events := trace.events + [InitCall];
        match outcomes[k] {
          case InitOk =>
            initialized := true;
            ready := true;
          case InitError(code) =>
            if code == GP_ERROR_MODEL_NOT_FOUND {
              trace.events := trace.events + [Slept(2)];
            } else if code == GP_ERROR_IO_USB_CLAIM {
              trace.events := trace.events + [Slept(2)];
            } else if code == GP_ERROR {
              trace.events := trace.events + [Slept(5)];
            } else {
              return Fatal(code);
            }
        }
        k := k + 1;
      }
      r := Entered;
    }

    /** `__exit__`: the device is released on every way out of the `with` block. */
    method Exit()
      modifies this`ready, trace
      ensures !ready
      ensures trace.events == old(trace.events) + [CameraExit]
    {
      trace.events := trace.events + [CameraExit];
      ready := false;
    }

    /** `capture()`: one `GP_CAPTURE_IMAGE`; `outcome` is the device's answer. */
    method Capture(outcome: Result<CameraFilePath, int>) returns (r: Result<CameraFilePath, int>)
      modifies trace
      ensures r == outcome
      ensures trace.events == old(trace.events) + [Shot]
    {
      trace.events := trace.events + [Shot];
      r := outcome;
    }

    /** `save(capture, file_path)`: store the capture under the caller's base path plus the capture's own extension. */
    method Save(capture: CameraFilePath, filePath: string) returns (finalPath: string)
      modifies trace
      ensures finalPath == SaveTarget(filePath, capture.name)
      ensures trace.events == old(trace.events) + [SavedCapture(finalPath, capture)]
    {
      var (_, fileExtension) := Paths.SplitExt(capture.name);
      var (withoutExtension, _) := Paths.SplitExt(filePath);
      finalPath := withoutExtension + fileExtension;
      trace.events := trace.events + [SavedCapture(withoutExtension + fileExtension, capture)];
    }
  }
}
