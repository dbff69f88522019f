/**
 * The booth's view of its hardware: one ordered trace of the calls it makes
 * on the camera, the LED and the file system, shared by every device object.
 */
module Devices {
  import opened Imaging

  /** Where a capture is stored on the camera (gphoto2's `CameraFilePath`). */
  datatype CameraFilePath = CameraFilePath(folder: string, name: string)

  datatype Event =
    | InitCall                                                // `camera.init()`
    | Slept(seconds: nat)                                     // `time.sleep(seconds)`
    | CameraExit                                              // `camera.exit()`
    | Blink(n: int)                                           // `lights.countdown_animation(n)`
    | Shot                                                    // `camera.capture(GP_CAPTURE_IMAGE)`
    | SavedCapture(path: string, source: CameraFilePath)      // `camera_file.save(path)`
    | WroteJpeg(path: string, quality: int, pixels: seq<seq<Pixel>>)  // `img.save(path, "JPEG", quality=...)`

  class Trace {
    var events: seq<Event>

    constructor()
      ensures events == []
    {
      events := [];
    }
  }

  /** The LED ring: only the countdown the capture sequence waits on is modelled. */
  class LedLights {
    const trace: Trace

    constructor(trace: Trace)
      ensures this.trace == trace
    {
      this.trace := trace;
    }

    /** Blink `n` times and stay lit: the last blink cues the shot. */
    method CountdownAnimation(n: int)
      modifies trace
      ensures trace.events == old(trace.events) + [Blink(n)]
    {
      trace.events := trace.events + [Blink(n)];
    }
  }
}
