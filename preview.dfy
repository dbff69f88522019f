/**
 * The face-triggered preview booth of main.py: throttled callbacks, the FPS
 * sample window, face presence tracking, the on-screen countdown and the
 * three-photo sequencer. The clock and the frames are inputs; drawing is
 * left out.
 */
module Preview {
  import opened Wrappers

  /** `shift_point`: translates a point by `(x, y)`. */
  function ShiftPoint(pt: (int, int), x: int, y: int): (r: (int, int))
    ensures r.0 - pt.0 == x && r.1 - pt.1 == y
  {
    (pt.0 + x, pt.1 + y)
  }

  lemma ShiftPointUndo(pt: (int, int), x: int, y: int)
    ensures ShiftPoint(ShiftPoint(pt, x, y), -x, -y) == pt
  {
  }

  // ------------------------------------------------------------ throttling

  /** Consecutive times are more than `gap` apart. */
  predicate Spaced(ts: seq<real>, gap: real) {
    forall i :: 0 < i < |ts| ==> ts[i] - ts[i - 1] > gap
  }

  predicate Nondecreasing(ts: seq<real>) {
    forall i :: 0 < i < |ts| ==> ts[i - 1] <= ts[i]
  }

  /** With a non-negative gap, spacing between neighbours is spacing between any two. */
  lemma {:induction false} SpacedPairwise(ts: seq<real>, gap: real)
    requires gap >= 0.0 && Spaced(ts, gap)
    ensures forall i, j :: 0 <= i < j < |ts| ==> ts[j] - ts[i] > gap
  {
    if |ts| > 1 {
      var init := ts[..|ts| - 1];
      SpacedPairwise(init, gap);
      forall i, j | 0 <= i < j < |ts|
        ensures ts[j] - ts[i] > gap
      {
        if j < |ts| - 1 {
          assert init[j] - init[i] > gap;
        } else if i < j - 1 {
          assert init[j - 1] - init[i] > gap;
        }
      }
    }
  }

  /** `RateLimit`: `func` runs at most once every `min_time`; `last_called` starts at 0, "forever ago". */
  class RateLimit {
    const minTime: real
    var lastCalled: real
    /** The times at which `func` ran. */
    var invocations: seq<real>

    ghost predicate Valid()
      reads this
    {
      Spaced([0.0] + invocations, minTime) &&
      lastCalled == ([0.0] + invocations)[|invocations|]
    }

    constructor(minTime: real)
      ensures Valid()
      ensures this.minTime == minTime && lastCalled == 0.0 && invocations == []
    {
      this.minTime := minTime;
      lastCalled := 0.0;
      invocations := [];
    }

    /** `__call__` at clock reading `now`. */
    method Call(now: real) returns (invoked: bool)
      requires Valid()
      modifies this
      ensures Valid()
      ensures invoked <==> now - old(lastCalled) > minTime
      ensures invocations == old(invocations) + (if invoked then [now] else [])
      ensures lastCalled == (if invoked then now else old(lastCalled))
    {
      invoked := now - lastCalled > minTime;
      if invoked {
        ghost var before := [0.0] + invocations;
        invocations := invocations + [now];
        assert [0.0] + invocations == before + [now];
        lastCalled := now;
      }
    }
  }

  /** The calls `WaitLimit` lets through: those more than `gap` after the call before them. */
  function Fired(ts: seq<real>, gap: real): (r: seq<real>)
    ensures |r| <= |ts|
    decreases |ts|
  {
    if |ts| < 2 then []
    else Fired(ts[..|ts| - 1], gap) + (if ts[|ts| - 1] - ts[|ts| - 2] > gap then [ts[|ts| - 1]] else [])
  }

  /**
   * On a clock that does not run backwards, what `WaitLimit` lets through is
   * spaced like `RateLimit`'s: any two runs are more than `gap` apart.
   */
  lemma {:induction false} FiredIsSpaced(ts: seq<real>, gap: real)
    requires |ts| >= 1 && Nondecreasing(ts)
    ensures Spaced([ts[0]] + Fired(ts, gap), gap)
    ensures ([ts[0]] + Fired(ts, gap))[|Fired(ts, gap)|] <= ts[|ts| - 1]
  {
    if |ts| >= 2 {
      var init := ts[..|ts| - 1];
      FiredIsSpaced(init, gap);
      var prev := [ts[0]] + Fired(init, gap);
      assert prev[|prev| - 1] <= ts[|ts| - 2] <= ts[|ts| - 1];
      if ts[|ts| - 1] - ts[|ts| - 2] > gap {
        assert [ts[0]] + Fired(ts, gap) == prev + [ts[|ts| - 1]];
      } else {
        assert [ts[0]] + Fired(ts, gap) == prev;
      }
    }
  }

  /** `WaitLimit`: like `RateLimit`, but every call restarts the wait. */
  class WaitLimit {
    const minTime: real
    var lastCalled: real
    var invocations: seq<real>
    /** Every call, let through or not. */
    ghost var calls: seq<real>

    ghost predicate Valid()
      reads this
    {
      lastCalled == ([0.0] + calls)[|calls|] &&
      invocations == Fired([0.0] + calls, minTime)
    }

    constructor(minTime: real)
      ensures Valid()
      ensures this.minTime == minTime && lastCalled == 0.0 && invocations == [] && calls == []
    {
      this.minTime := minTime;
      lastCalled := 0.0;
      invocations := [];
      calls := [];
    }

    method Call(now: real) returns (invoked: bool)
      requires Valid()
      modifies this
      ensures Valid()
      ensures invoked <==> now - old(lastCalled) > minTime
      ensures invocations == old(invocations) + (if invoked then [now] else [])
      ensures lastCalled == now && calls == old(calls) + [now]
    {
      ghost var before := [0.0] + calls;
      invoked := now - lastCalled > minTime;
      if invoked {
        invocations := invocations + [now];
      }
      lastCalled := now;
      calls := calls + [now];
      assert ([0.0] + calls)[..|calls|] == before;
    }
  }

  // ------------------------------------------------------------ frame rate

  /** `_frame_times[-200:]`. */
  const Window := 200

  /** The last `n` elements, or all of them when there are fewer. */
  function LastN<T>(s: seq<T>, n: nat): (r: seq<T>)
    ensures |r| == if |s| <= n then |s| else n
    ensures forall i :: 0 <= i < |r| ==> r[i] == s[|s| - |r| + i]
  {
    if |s| <= n then s else s[|s| - n..]
  }

  /** Truncating after every append keeps exactly the last samples of the whole history. */
  lemma LastNAppend<T>(history: seq<T>, x: T, n: nat)
    ensures LastN(LastN(history, n) + [x], n) == LastN(history + [x], n)
  {
    var a := LastN(LastN(history, n) + [x], n);
    var b := LastN(history + [x], n);
    assert |a| == |b|;
    forall i | 0 <= i < |a|
      ensures a[i] == b[i]
    {
      if i < |a| - 1 {
        assert a[i] == LastN(history, n)[|LastN(history, n)| + 1 - |a| + i];
      }
    }
  }

  /** `Fps`: one sample per frame after the first, kept in a window of the 200 most recent. */
  class Fps {
    var lastFrameTime: Option<real>
    var frameTimes: seq<real>
    /** Every sample ever recorded. */
    ghost var samples: seq<real>

    ghost predicate Valid()
      reads this
    {
      frameTimes == LastN(samples, Window)
    }

    constructor()
      ensures Valid() && lastFrameTime == None && frameTimes == [] && samples == []
    {
      lastFrameTime := None;
      frameTimes := [];
      samples := [];
    }

    /**
     * `frame(image, now, first_frame)`; `ok` is false where Python raises
     * (`now - None`, or a zero frame time), and then nothing changes.
     */
    method Frame(now: real, firstFrame: bool) returns (ok: bool)
      requires Valid()
      modifies this
      ensures Valid()
      ensures ok <==> firstFrame || (old(lastFrameTime).Some? && now != old(lastFrameTime).value)
      ensures !ok ==> unchanged(this)
      ensures ok && firstFrame ==> frameTimes == old(frameTimes) && samples == old(samples)
      ensures ok && !firstFrame ==> samples == old(samples) + [1.0 / (now - old(lastFrameTime).value)]
      ensures ok ==> lastFrameTime == Some(now) && |frameTimes| <= Window
    {
      if !firstFrame {
        if lastFrameTime.None? || now == lastFrameTime.value {
          return false;
        }
        var frameTime := now - lastFrameTime.value;
        var fps := 1.0 / frameTime;
        LastNAppend(samples, fps, Window);
        frameTimes := LastN(frameTimes + [fps], Window);
        samples := samples + [fps];
      }
      lastFrameTime := Some(now);
      ok := true;
    }
  }

  // ------------------------------------------------------------ faces

  datatype FaceLog = FacesFound(count: nat) | FaceLost

  datatype FaceState = FaceState(lastSeen: real, firstSaw: real, current: nat)

  /** One detection result: faces seen refresh the state; none seen clears it after more than a second. */
  function FaceStep(s: FaceState, now: real, numFaces: nat): FaceState {
    if numFaces > 0 then
      FaceState(now, if s.current == 0 then now else s.firstSaw, numFaces)
    else if now - s.lastSeen > 1.0 then s.(current := 0)
    else s
  }

  /** The log lines one detection result writes. */
  function FaceLogs(s: FaceState, now: real, numFaces: nat): seq<FaceLog> {
    if numFaces > 0 then (if s.current != numFaces then [FacesFound(numFaces)] else [])
    else if now - s.lastSeen > 1.0 && s.current != 0 then [FaceLost]
    else []
  }

  /** Faces count as present after a frame exactly when some are seen, or were seen at most a second ago. */
  lemma FacesPresentIff(s: FaceState, now: real, numFaces: nat)
    ensures FaceStep(s, now, numFaces).current > 0 <==>
      numFaces > 0 || (s.current > 0 && now - s.lastSeen <= 1.0)
  {
  }

  /** `first_saw_face_at` moves only when faces arrive while none were present. */
  lemma FirstSightingOnlyOnArrival(s: FaceState, now: real, numFaces: nat)
    ensures FaceStep(s, now, numFaces).firstSaw != s.firstSaw ==> s.current == 0 && numFaces > 0
    ensures FaceStep(s, now, numFaces).current > 0 ==> FaceStep(s, now, numFaces).firstSaw == (if s.current == 0 then now else s.firstSaw)
  {
  }

  /** "face lost" is logged exactly when present faces time out. */
  lemma FaceLostIff(s: FaceState, now: real, numFaces: nat)
    ensures FaceLost in FaceLogs(s, now, numFaces) <==>
      s.current > 0 && FaceStep(s, now, numFaces).current == 0
  {
  }

  /** `Faces`: presence tracking with a one-second grace period. */
  class Faces {
    var lastSeenFaceAt: real
    var firstSawFaceAt: real
    var numberOfCurrentFaces: nat
    /** Whether `on_face` is set. */
    const hasOnFace: bool
    var onFaceCalls: nat
    var log: seq<FaceLog>

    function State(): FaceState
      reads this
    {
      FaceState(lastSeenFaceAt, firstSawFaceAt, numberOfCurrentFaces)
    }

    constructor(hasOnFace: bool)
      ensures State() == FaceState(0.0, 0.0, 0) && this.hasOnFace == hasOnFace
      ensures onFaceCalls == 0 && log == []
    {
      lastSeenFaceAt := 0.0;
      firstSawFaceAt := 0.0;
      numberOfCurrentFaces := 0;
      this.hasOnFace := hasOnFace;
      onFaceCalls := 0;
      log := [];
    }

    /** `frame` given the number of faces the detector found. */
    method Frame(now: real, numFaces: nat)
      modifies this
      ensures State() == FaceStep(old(State()), now, numFaces)
      ensures log == old(log) + FaceLogs(old(State()), now, numFaces)
      ensures onFaceCalls == old(onFaceCalls) + (if numFaces > 0 && hasOnFace then 1 else 0)
    {
      if numFaces > 0 {
        lastSeenFaceAt := now;
        if numberOfCurrentFaces == 0 {
          firstSawFaceAt := now;
        }
        if numberOfCurrentFaces != numFaces {
          log := log + [FacesFound(numFaces)];
        }
        numberOfCurrentFaces := numFaces;
        if hasOnFace {
          onFaceCalls := onFaceCalls + 1;
        }
      } else {
        if now - lastSeenFaceAt > 1.0 {
          if numberOfCurrentFaces != 0 {
            log := log + [FaceLost];
          }
          numberOfCurrentFaces := 0;
        }
      }
    }
  }

  // ------------------------------------------------------------ countdown

  /** The digit shown: `min(duration, floor(time_left) + 1)`. */
  function Display(duration: int, timeLeft: real): int {
    var d := timeLeft.Floor + 1;
    if duration < d then duration else d
  }

  /** While the countdown runs, the digit stays within 1..duration. */
  lemma DisplayRange(duration: int, timeLeft: real)
    requires 0.0 <= timeLeft < duration as real
    ensures 1 <= Display(duration, timeLeft) <= duration
    ensures Display(duration, timeLeft) == duration <==> timeLeft >= (duration - 1) as real
  {
    assert 0 <= timeLeft.Floor;
    assert timeLeft.Floor as real <= timeLeft < timeLeft.Floor as real + 1.0;
  }

  class Countdown {
    var active: bool
    var duration: int
    var endsAt: real

    constructor()
      ensures !active
    {
      active := false;
      duration := 0;
      endsAt := 0.0;
    }

    /** `start(duration, callback)` with the clock at `now`. */
    method Start(duration: int, now: real)
      modifies this
      ensures active && this.duration == duration && endsAt == now + duration as real
    {
      this.duration := duration;
      active := true;
      endsAt := now + duration as real;
    }

    /**
     * `frame`: `fired` when the time is up (the caller then runs the
     * callback, which `frame` calls last); otherwise the digit on screen.
     */
    method Frame(now: real) returns (fired: bool, shown: Option<int>)
      modifies this
      ensures fired <==> old(active) && endsAt - now < 0.0
      ensures active == (old(active) && !fired)
      ensures duration == old(duration) && endsAt == old(endsAt)
      ensures shown == (if old(active) && !fired then Some(Display(duration, endsAt - now)) else None)
    {
      fired := false;
      shown := None;
      if active {
        var timeLeft := endsAt - now;
        if timeLeft < 0.0 {
          active := false;
          fired := true;
        } else {
          shown := Some(Display(duration, timeLeft));
        }
      }
    }
  }

  // ------------------------------------------------------------ photo sequence

  /** A video frame, identified by its position in the stream. */
  datatype Picture = Picture(frame: nat)

  class PhotoStrip {
    var lastImage: Option<Picture>
    var storedImages: seq<Picture>

    constructor()
      ensures lastImage == None && storedImages == []
    {
      lastImage := None;
      storedImages := [];
    }

    method Reset()
      modifies this
      ensures storedImages == [] && lastImage == old(lastImage)
    {
      storedImages := [];
    }

    /** `snap`: appends the module-level `image` (here `current`), not `last_image`, and only once a frame was seen. */
    method Snap(current: Picture)
      modifies this
      ensures storedImages == old(storedImages) + (if old(lastImage).Some? then [current] else [])
      ensures lastImage == old(lastImage)
    {
      if lastImage.Some? {
        storedImages := storedImages + [current];
      }
    }

    /** `frame` keeps a copy of the frame; drawing the thumbnails is left out. */
    method Frame(image: Picture)
      modifies this
      ensures lastImage == Some(image) && storedImages == old(storedImages)
    {
      lastImage := Some(image);
    }
  }

  /** Photos per session. */
  const Photos := 3
  /** Seconds counted down before each photo. */
  const CountdownSeconds := 3

  /** `PhotoBooth`: on `start`, three countdowns, each ending in a snapshot, then "Done". */
  class PhotoBooth {
    var active: bool
    var done: bool
    var photos: nat
    var countdown: Countdown
    var photostrip: PhotoStrip

    /**
     * A session never starts more than three countdowns; a countdown runs
     * whenever a session is under way and not done; every finished countdown
     * left one snapshot.
     */
    ghost predicate Valid()
      reads this, countdown, photostrip
    {
      photos <= Photos &&
      (!active ==> photos == 0 && !done && !countdown.active) &&
      (active && !done <==> countdown.active) &&
      (done ==> photos == Photos) &&
      (countdown.active ==> photos >= 1 && countdown.duration == CountdownSeconds) &&
      |photostrip.storedImages| == photos - (if countdown.active then 1 else 0)
    }

    constructor()
      ensures Valid() && !active && !done && photos == 0
      ensures fresh(countdown) && fresh(photostrip) && photostrip.storedImages == []
    {
      active := false;
      done := false;
      photos := 0;
      countdown := new Countdown();
      photostrip := new PhotoStrip();
    }

    /** `reset`: a new countdown and strip, and the counters back to their start. */
    method Reset()
      modifies this
      ensures Valid() && !active && !done && photos == 0
      ensures fresh(countdown) && fresh(photostrip) && photostrip.storedImages == []
    {
      active := false;
      done := false;
      photos := 0;
      countdown := new Countdown();
      photostrip := new PhotoStrip();
    }

    /** `countDownPhoto` with the clock at `now`. */
    method CountDownPhoto(now: real)
      requires photos <= Photos
      modifies this, countdown
      ensures countdown == old(countdown) && photostrip == old(photostrip) && active == old(active)
      ensures old(photos) < Photos ==>
        photos == old(photos) + 1 && done == old(done) &&
        countdown.active && countdown.duration == CountdownSeconds && countdown.endsAt == now + CountdownSeconds as real
      ensures old(photos) >= Photos ==> photos == old(photos) && done && unchanged(countdown)
    {
      if photos < Photos {
        countdown.Start(CountdownSeconds, now);
        photos := photos + 1;
      } else {
        done := true;
      }
    }

    /** `start`: a no-op while a session is active. */
    method Start(now: real)
      requires Valid()
      modifies this, countdown
      ensures Valid()
      ensures active && countdown == old(countdown) && photostrip == old(photostrip)
      ensures old(active) ==> photos == old(photos) && done == old(done) && unchanged(old(countdown))
      ensures !old(active) ==> photos == 1 && countdown.active && countdown.endsAt == now + CountdownSeconds as real
    {
      if !active {
        active := true;
        CountDownPhoto(now);
      }
    }

    /**
     * `frame`: the strip keeps the shown frame, the countdown advances, and
     * when it runs out `takePhoto` snaps the current raw frame and starts the
     * next countdown with the clock at `restartAt`.
     */
    method Frame(shown: Picture, current: Picture, now: real, restartAt: real) returns (digit: Option<int>, doneBanner: bool)
      requires Valid()
      modifies this, countdown, photostrip
      ensures Valid()
      ensures countdown == old(countdown) && photostrip == old(photostrip) && active == old(active)
      ensures photostrip.lastImage == Some(shown)
      ensures digit == (if old(countdown.active) && old(countdown.endsAt) - now >= 0.0
        then Some(Display(CountdownSeconds, old(countdown.endsAt) - now)) else None)
      ensures digit.Some? ==> 1 <= digit.value <= CountdownSeconds
      ensures old(countdown.active) && old(countdown.endsAt) - now < 0.0 ==>
        photostrip.storedImages == old(photostrip.storedImages) + [current] &&
        (old(photos) < Photos ==> (photos == old(photos) + 1 && !done &&
          countdown.active && countdown.endsAt == restartAt + CountdownSeconds as real)) &&
        (old(photos) == Photos ==> done && !countdown.active)
      ensures !(old(countdown.active) && old(countdown.endsAt) - now < 0.0) ==>
        photos == old(photos) && done == old(done) && photostrip.storedImages == old(photostrip.storedImages) &&
        countdown.active == old(countdown.active) && countdown.endsAt == old(countdown.endsAt)
      ensures doneBanner == done
    {
      photostrip.Frame(shown);
      var fired;
      fired, digit := countdown.Frame(now);
      if digit.Some? {
        assert 0 <= (countdown.endsAt - now).Floor;
      }
      if fired {
        photostrip.Snap(current);
        CountDownPhoto(restartAt);
      }
      doneBanner := done;
    }
  }
}
