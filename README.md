# Photo booth capture core, modelled in Dafny

This project models the bookkeeping of an unattended photo booth: the Python
program waits for a button, counts down on an LED ring, takes three shots
with a gphoto2 camera and saves them, composites them into two template
layouts, prints the strip on a CUPS printer and uploads the square by `scp`.
It also models the older face-triggered preview booth (`main.py`). Device
answers, the clock, directory listings and the connectivity flag are inputs.
Pixels are symbolic: each pixel records where it came from.

Modules, in dependency order:

- `Wrappers`: `Option` and `Result`.
- `Strings`: decimal rendering of counters, `startswith`, substring search,
  Python's code-point string order and a reference sort.
- `Paths`: `posixpath.join` and `posixpath.splitext`. `SplitExt` is defined
  recursively from the end of the path: the last dot of the last component,
  unless only dots precede it in that component.
- `Layouts`, `Templates` (src/templates.py) and `LegacyTemplates`
  (templates.py): slot geometry and the two fixed layouts.
- `Imaging`: images as `array2` of symbolic pixels, with open, fit, copy and
  an in-place paste.
- `Devices`: one ordered trace of device calls, and the LED countdown.
- `GPhotoCamera` (src/camera.py): the libgphoto2 log filter, the
  retry-forever `__enter__`, capture, save and release.
- `Printing` (src/printer.py) and `LegacyPrinting` (printer.py): the job
  counter and first-printer discovery.
- `Upload` (src/upload.py): the upload decision.
- `CaptureSession` (src/capture.py): `read_file`, `PhotoStrip`, the
  template cache, compositing and the print canvas.
- `BoothLoop` and `BoothLoopProperties` (src/capture.py `main`): the
  capture loop with its exception handling and the `capturing` flag.
- `Preview` (main.py): the throttles, the FPS window, face tracking, the
  countdown and the three-photo sequencer.

Where the design description and the code disagree, the model follows the
code:

- A `KeyboardInterrupt` ends `main` at once, even in the middle of a cycle.
  It is recorded only when `capturing` was set. It is not deferred to the end
  of the cycle (src/capture.py:169-199).
- The print canvas height adds `bot_right_inset[0]` (36), not `[1]` (130),
  so the canvas is 1254 by 1848 (src/capture.py:129-130).
- `read_files` sorts names as text, so `image_10` comes before `image_2`.
- Printing and uploading are not independent. The print, the square
  composite, its save and the upload share one `try` block
  (src/capture.py:174-193), so an `Exception` from `print_image` skips the
  square and its upload for that pass (`PrintFailureSkipsUpload`).

The capture id is a string in which `""` stands for both falsy values,
`None` and `""`; `capture_id or ...` treats them alike. The key file and
destination are optional strings, because `None` and `""` behave
differently there. `os.path.dirname(__file__)` in src/templates.py
is taken to be `src`.

## Model

| member | source | states |
|---|---|---|
| Strings.NatToString | src/capture.py:65 | `"{}".format(n)` is a non-empty run of decimal digits, at least two for n >= 10 |
| Strings.NatToStringInjective | src/capture.py:65 | different shot indices render to different text |
| Strings.CounterThenTailInjective | src/printer.py:15 | a rendered counter followed by a tail that does not start with a digit splits back into counter and tail |
| Strings.LexLessEqCommonPrefix | src/capture.py:80 | a shared prefix does not change how two names compare |
| Strings.LexLessEqTotal | src/capture.py:80 | any two strings are ordered one way or the other |
| Strings.LexLessEqReflexive | src/capture.py:80 | every string is ordered before or equal to itself |
| Strings.LexLessEqTransitive | src/capture.py:80 | the string order is transitive |
| Strings.LexLessEqAntisymmetric | src/capture.py:80 | strings ordered both ways are equal |
| Strings.Insert | src/capture.py:80 | inserting into a sorted list keeps it sorted and adds exactly that element |
| Strings.SortStrings | src/capture.py:80 | the result is sorted and a permutation of the input |
| Strings.SortedPermutationUnique | src/capture.py:80 | two sorted orderings of the same strings are equal, so `SortStrings` is what `list.sort()` produces |
| Paths.JoinRelative | src/capture.py:44 | joining a relative name puts the directory plus at most one `/` in front of it |
| Paths.ExtensionStart | src/camera.py:66-67 | the extension starts at a dot inside the path, or is empty |
| Paths.SplitExt | src/camera.py:66-67 | root and extension concatenate back to the path; a non-empty extension starts with a dot |
| Paths.ExtensionShape | src/camera.py:66 | a returned extension is a dot followed by no dot and no `/` |
| Paths.SplitExtOfStemAndExtension | src/camera.py:66-73 | a named stem plus an extension splits back into exactly that stem and extension |
| Paths.SplitExtOfJoinedPlainName | src/capture.py:65 | a dot-free name joined to any directory has no extension, even when the directory holds dots |
| Paths.JoinedPlainNameIsNamed | src/capture.py:65 | a joined name that does not start with a dot has a named last component |
| Layouts.DisjointMeansNoSharedPixel | src/templates.py:9-11 | disjoint placements share no pixel |
| Layouts.Flatten | src/capture.py:103-107 | every placement of every slot is in the flattened list, and nothing else |
| Layouts.FlattenThree | src/templates.py:7-12 | a three-slot layout flattens to its slots in order |
| Templates.Square | src/templates.py:5-14 | the square layout has three slots of one placement each, and no two placements overlap |
| Templates.Strips | src/templates.py:16-26 | the strips layout has three slots of two placements each; no two overlap, and all lie inside the 1190x1760 base image the print path assumes |
| Templates.SameSlotCount | src/templates.py:7-24 | both layouts have 3 slots, so one capture set fills both |
| LegacyTemplates.Square | templates.py:3-11 | the older square layout has exactly the current slots, so it is disjoint too |
| LegacyTemplates.Strips | templates.py:13-22 | the older strips layout has exactly the current slots, so it is disjoint and fits the print base too |
| Imaging.Open | src/capture.py:91 | a new image of the asset's size holding the asset's pixels |
| Imaging.NewCanvas | src/capture.py:126-132 | a new blank image of the given size |
| Imaging.Fit | src/capture.py:108-112 | a new image of exactly the requested size filled from the source |
| Imaging.Copy | src/capture.py:102 | a new image with the same size and pixels; the original is untouched |
| Imaging.Paste | src/capture.py:113 | the pasted image overwrites its rectangle, clipped to the target; every other pixel keeps its value |
| Imaging.Snapshot | src/capture.py:85 | the image's pixels as a value, pixel for pixel |
| Devices.LedLights.CountdownAnimation | src/capture.py:55 | one countdown of n blinks is appended to the trace |
| GPhotoCamera.LogLevel | src/camera.py:13-21 | DEBUG, DEBUG-3 and DEBUG-6 for the debug, verbose and data levels; WARNING exactly for every other level |
| GPhotoCamera.LogCallback | src/camera.py:23-28 | a message is dropped exactly when it is a substring of the libusb claim message; otherwise it is logged unchanged at the mapped level |
| GPhotoCamera.ClaimMessageFragmentsDropped | src/camera.py:23-26 | every piece of the claim message, the empty message included, is dropped |
| GPhotoCamera.ForeignMessageLogged | src/camera.py:23-28 | a message with a character absent from the claim message is always logged |
| GPhotoCamera.Backoff | src/camera.py:45-51 | 5 s after code -1, 2 s after the model-not-found and USB-claim errors |
| GPhotoCamera.RetryUntilReady | src/camera.py:39-54 | after transient failures and then a success, `init()` is called once per failure plus once, and the sleeps add up to 2 s per not-found or claim error plus 5 s per generic error |
| GPhotoCamera.FatalErrorStopsRetrying | src/camera.py:52-53 | a non-transient code is raised at once, whatever the device would answer next |
| GPhotoCamera.SaveTargetAppendsExtension | src/camera.py:66-73 | a base path without an extension gets the capture's extension appended |
| GPhotoCamera.SaveTargetKeepsExtendedPath | src/camera.py:66-73 | a path that already carries the capture's extension comes back unchanged |
| GPhotoCamera.SaveTargetIdempotent | src/camera.py:66-78 | saving again to the returned path names the same file |
| GPhotoCamera.Camera.constructor | src/camera.py:33-35 | a new handle is not initialised |
| GPhotoCamera.Camera.Enter | src/camera.py:37-54 | the result and the calls made (init, sleeps) are those of `EnterSpec` on the device's answers; the camera is ready exactly when `init()` succeeded |
| GPhotoCamera.Camera.Exit | src/camera.py:56-58 | the device is released and `exit()` is recorded |
| GPhotoCamera.Camera.Capture | src/camera.py:60-62 | one shot is recorded and the device's answer returned |
| GPhotoCamera.Camera.Save | src/camera.py:64-78 | the file is saved to, and the call returns, the base path's root plus the capture's own extension |
| Printing.JobTitleInjective | src/printer.py:15 | job titles `"{count}_{file}"` never collide |
| Printing.NumberedJobsHaveDistinctTitles | src/printer.py:9-25 | all jobs of one printer have different titles |
| Printing.Connection.constructor | src/printer.py:30-31 | a connection reports the given printers and holds no jobs |
| Printing.Printer.constructor | src/printer.py:4-7 | a new printer keeps its name and starts counting at 0 |
| Printing.Printer.PrintFile | src/printer.py:9-26 | an accepted job is titled with the current count, goes to this printer with the eight fixed options, and then the count goes up by 1 and the job id is returned; when `printFile` raises, nothing changes |
| Printing.FirstPrinter | src/printer.py:31-34 | none exactly when no printer exists, otherwise the first reported |
| Printing.GetPrinter | src/printer.py:29-34 | raises exactly when `cups.Connection()` reaches no server; otherwise null exactly when no printer exists, else a fresh handle on the first printer with count 0 |
| LegacyPrinting.LegacyPrinter.constructor | printer.py:4-7 | a new printer starts counting at 0 |
| LegacyPrinting.LegacyPrinter.PrintFile | printer.py:10-23 | the same numbering with the five fixed options; no job id is returned |
| LegacyPrinting.GetPrinter | printer.py:26-31 | raises exactly when no server answers; otherwise null exactly when no printer exists, else the first printer |
| Upload.InternetChecker.constructor | src/upload.py:24-25 | the connectivity flag starts false |
| Upload.Uploader.constructor | src/upload.py:44-47 | keeps key file and destination; its checker starts offline |
| Upload.Uploader.UploadFile | src/upload.py:49-61 | "not configured" exactly when neither key file nor destination is truthy, and skipped exactly when offline. Online with one of the two `None`, `TypeError` is raised and nothing runs. Otherwise exactly one `scp -i keyfile file dst` runs with a 10 s limit: exit 0 is success, non-zero a logged failure, and a timeout propagates |
| CaptureSession.ReadFile | src/capture.py:27-39 | JPEG exactly for `.jpg`/`.jpeg`, raw exactly for `.arw`, and an error naming the extension for anything else |
| CaptureSession.ReadFileIsCaseSensitive | src/capture.py:28-38 | `.JPG` and `.ARW` are refused, `.jpg` is accepted |
| CaptureSession.ImagePathShape | src/capture.py:65-66 | shot i is saved at the directory, `image_`, the index and then the camera's extension |
| CaptureSession.ShotSaveIsIdempotent | src/capture.py:43-66 | `image_<i>` has no extension even under a dotted capture directory, so saving to the returned path again names the same file |
| CaptureSession.Rounds | src/capture.py:54-58 | n rounds are 3n calls |
| CaptureSession.RoundsAt | src/capture.py:54-58 | round i is countdown(5), capture, then a 1 s sleep |
| CaptureSession.RoundsSaveNothing | src/capture.py:54-58 | the capture loop saves nothing |
| CaptureSession.FirstFailure | src/capture.py:54-57 | the first failed capture, with every earlier capture successful |
| CaptureSession.SavedPaths | src/capture.py:62-66 | one path per capture |
| CaptureSession.Captured | src/capture.py:52-57 | the captures the camera returned, in shot order |
| CaptureSession.CaptureFilesNames | src/capture.py:62-68 | on success there is one file per shot, the i-th being `image_<i>` plus that capture's extension |
| CaptureSession.CaptureFilesOrder | src/capture.py:54-66 | every capture comes before every save, and shot s is cued by a 5-blink countdown |
| CaptureSession.SavedPathsDiffer | src/capture.py:65-66 | two shots are saved at different paths, whatever extensions the camera gives them |
| CaptureSession.CounterTailsDiffer | src/capture.py:65 | behind a common prefix, different counters followed by non-digits never coincide |
| CaptureSession.CapturedFilesFillBothTemplates | src/capture.py:177-187 | `main` captures one shot per strips slot, so on success both templates get one file per slot and neither composite fails the slot-count check |
| CaptureSession.CapturedFilesDistinct | src/capture.py:62-68 | the files of one session are pairwise distinct, so no shot overwrites another |
| CaptureSession.ImageEntries | src/capture.py:76-78 | keeps each entry starting with `image_` as often as listed, and nothing else |
| CaptureSession.JoinAll | src/capture.py:81 | each name is joined to the directory, in order |
| CaptureSession.ImageNamesOrder | src/capture.py:77-80 | shot names compare as their counters do as text |
| CaptureSession.ListingOrderIsTextual | src/capture.py:80 | `image_10` sorts before `image_2` |
| CaptureSession.TakeShots | src/capture.py:54-58 | the result and the calls made equal `ShotsSpec` of the camera's answers; a failed capture raises its code |
| CaptureSession.PhotoStrip.constructor | src/capture.py:42-44 | an empty id falls back to the current time; the directory is `capture/<id>` |
| CaptureSession.PhotoStrip.CaptureFiles | src/capture.py:48-68 | the result and every call made equal `CaptureFilesSpec`: all shots, then each capture saved as `image_<i>` in shot order |
| CaptureSession.PhotoStrip.SaveShots | src/capture.py:62-68 | returns the saved paths in shot order and records one save per capture |
| CaptureSession.PhotoStrip.ReadFiles | src/capture.py:70-81 | the `image_` entries of the listing, sorted as text and joined to the capture directory; `count` is unused |
| CaptureSession.PhotoStrip.SaveFinalImg | src/capture.py:83-86 | writes the image as JPEG at quality 90 to `capture/<id>/<name>_<id>.jpg` and returns that path |
| CaptureSession.FinalImagesAreNotShots | src/capture.py:65-84 | a composite named after either template never lands on a shot's file |
| CaptureSession.TemplateCache.constructor | src/capture.py:88 | the cache starts empty |
| CaptureSession.TemplateCache.Get | src/capture.py:89-92 | an asset is opened only on its first request; later requests return the cached image and change nothing |
| CaptureSession.SlotJobs | src/capture.py:107-113 | one paste per placement of the slot, in order, all of the slot's photo |
| CaptureSession.JobsFollowLayout | src/capture.py:103-113 | the pastes follow the layout's placements in slot-then-placement order, photo i in slot i |
| CaptureSession.DisjointPastesShowOwnPhoto | src/capture.py:107-113 | with non-overlapping placements, a pixel shows the photo of the placement that covers it |
| CaptureSession.UncoveredShowsTemplate | src/capture.py:102-113 | a pixel no placement covers keeps the template's pixel |
| CaptureSession.SlotShowsItsPhoto | src/capture.py:103-113 | with a disjoint layout, every pixel of a placement of slot s shows photo s fitted to that placement |
| CaptureSession.FirstError | src/capture.py:103-106 | all photos decode exactly when no result is an error; otherwise the first error is reported |
| CaptureSession.FirstErrorAt | src/capture.py:103-106 | the reported error is that of the first failed read |
| CaptureSession.DecodeAllStopsAt | src/capture.py:104-106 | decoding stops at the first file `read_file` refuses |
| CaptureSession.DecodeAllSucceeds | src/capture.py:103-106 | when every file decodes, the sources are the decoded files in order |
| CaptureSession.PasteSlot | src/capture.py:107-113 | the canvas afterwards is the composite of the earlier pastes plus this slot's pastes |
| CaptureSession.FillLayout | src/capture.py:103-113 | stops at the first unreadable photo; otherwise the canvas is the composite of every paste of the layout |
| CaptureSession.CreateImgFromTemplate | src/capture.py:94-115 | fails exactly when the file count differs from the slot count, or a file is unreadable; otherwise a fresh copy of the cached asset with photo i pasted at every placement of slot i; the cached asset is unchanged |
| CaptureSession.PrintableSizeValues | src/capture.py:121-132 | the print canvas is 1254 by 1848, so the bottom margin is 36, not 130 |
| CaptureSession.PrintImage | src/capture.py:117-136 | writes the composite at (28, 52) on a blank canvas to `./toprint.jpg` at quality 97 and submits exactly one print of that file |
| BoothLoop.UploaderArity | src/upload.py:44 | the uploader is constructed exactly when given a key file and a destination |
| BoothLoop.RunSteps | src/capture.py:174-193 | the steps run in order until one raises: an `Exception` is logged and ends the body; a `KeyboardInterrupt` escapes |
| BoothLoop.RunCycle | src/capture.py:169-196 | one pass of the loop, with the value of `capturing` when an exception escapes it |
| BoothLoop.RunLoop | src/capture.py:169-196 | passes run until an exception escapes one |
| BoothLoop.RunMain | src/capture.py:138-199 | the calls made and the way `main` ends are exactly `MainSpec` of the inputs: the setup faults (printer lookup, lights, an interrupt while the camera retries), the printers, the uploader arguments, the camera's answers and the passes |
| BoothLoopProperties.RanSteps | src/capture.py:174-189 | one event per cleanly run step, in order |
| BoothLoopProperties.RunBodyCleanPrefix | src/capture.py:174-190 | steps before the first one that raises all run, in order |
| BoothLoopProperties.ErrorSkipsRestOfCycle | src/capture.py:174-196 | an `Exception` in step k is logged, the later steps are skipped, and the pass still ends with `complete_animation` |
| BoothLoopProperties.InterruptEndsCycleAtOnce | src/capture.py:169-199 | a `KeyboardInterrupt` in step k ends the pass at once with `capturing` set; `complete_animation` does not run |
| BoothLoopProperties.CleanCycle | src/capture.py:169-196 | a pass where nothing raises runs every step in order between the animations |
| BoothLoopProperties.BodyReportsOnlyItsSteps | src/capture.py:174-193 | the body reports only steps it was given |
| BoothLoopProperties.LoopReportsOnlyItsSteps | src/capture.py:169-196 | the loop reports only steps of the body |
| BoothLoopProperties.NoPrinterNoPrint | src/capture.py:184-185 | with no printer, no pass ever runs `print_image` |
| BoothLoopProperties.PrintsIffPrinterFound | src/capture.py:149-185 | with the camera open and a clean first pass, the strip is printed exactly when a printer was found |
| BoothLoopProperties.LoopStopsAt | src/capture.py:169-199 | passes after the first one that lets an exception escape never run |
| BoothLoopProperties.InterruptRecordedIffCapturing | src/capture.py:169-199 | the interrupt is recorded exactly when it arrived after `wait_for_input` returned |
| BoothLoopProperties.EscapedErrorCrashes | src/capture.py:169-199 | any other exception escaping a pass ends `main` with an error, and it came from an animation or `wait_for_input` |
| BoothLoopProperties.PrintFailureCycle | src/capture.py:174-196 | a pass whose print raises runs the five steps before it, logs the print error and ends with `complete_animation` |
| BoothLoopProperties.PrintFailureSkipsUpload | src/capture.py:184-193 | a failed print is logged and skips the square composite, its save and the upload of that pass |
| BoothLoopProperties.InterruptBeforeOpenIsNotRecorded | src/capture.py:146-199 | an interrupt during the printer lookup, the lights' start or the camera's retries is caught with `capturing` false: `main` returns without recording it, the camera never opened, and lights that came on go off |
| BoothLoopProperties.TeardownAfterOpen | src/capture.py:157-199 | once the camera is open, however `main` stops, the camera is released and then the lights go off |
| BoothLoopProperties.AsWrittenNeverStarts | src/capture.py:155 | as written, `main` raises after the printer lookup and before the lights come on |
| BoothLoopProperties.ConfiguredBoothRunsCycle | src/capture.py:155-196 | with the uploader given its two arguments and the camera open, a clean first pass runs through the upload and the closing animation |
| Preview.ShiftPoint | main.py:42-43 | the point moves by exactly (x, y) |
| Preview.ShiftPointUndo | main.py:42-43 | shifting back by (-x, -y) restores the point |
| Preview.SpacedPairwise | main.py:66-70 | with a non-negative minimum, neighbours more than `min_time` apart means any two calls are |
| Preview.RateLimit.constructor | main.py:61-64 | `last_called` starts at 0 and nothing has run |
| Preview.RateLimit.Call | main.py:66-70 | `func` runs exactly when more than `min_time` passed since the last run; only a run updates `last_called`; the runs stay spaced |
| Preview.Fired | main.py:77-81 | at most one run per call |
| Preview.FiredIsSpaced | main.py:72-81 | on a clock that does not go back, the runs are spaced as `RateLimit`'s are |
| Preview.WaitLimit.constructor | main.py:61-64 | `last_called` starts at 0 and nothing has run |
| Preview.WaitLimit.Call | main.py:77-81 | `func` runs exactly when more than `min_time` passed since the previous call of any kind; every call updates `last_called` |
| Preview.LastN | main.py:93 | the last n elements, in order |
| Preview.LastNAppend | main.py:92-93 | truncating after every append keeps exactly the last 200 of all samples |
| Preview.Fps.constructor | main.py:84-85 | no previous frame and no samples |
| Preview.Fps.Frame | main.py:87-110 | the first frame records nothing; a later one records one sample and keeps the last 200; a missing or equal previous time raises and changes nothing |
| Preview.FacesPresentIff | main.py:127-149 | faces count as present exactly when some are seen, or were seen at most a second ago |
| Preview.FirstSightingOnlyOnArrival | main.py:134-136 | `first_saw_face_at` moves only when faces arrive while none were present |
| Preview.FaceLostIff | main.py:146-149 | "face lost" is logged exactly when present faces time out |
| Preview.Faces.constructor | main.py:114-119 | all counters and times start at 0 |
| Preview.Faces.Frame | main.py:121-149 | the new state and log are `FaceStep`/`FaceLogs` of the old state; `on_face` runs once per frame with faces when set |
| Preview.DisplayRange | main.py:170 | while the countdown runs, the digit lies in 1..duration and equals duration only in the first second |
| Preview.Countdown.constructor | main.py:152 | a new countdown is inactive |
| Preview.Countdown.Start | main.py:154-158 | active, ending `duration` seconds after now |
| Preview.Countdown.Frame | main.py:160-175 | the callback fires exactly once, when an active countdown's time left drops below 0, and deactivates it; otherwise the digit is shown |
| Preview.PhotoStrip.constructor | main.py:178-183 | no frame seen and no stored images |
| Preview.PhotoStrip.Reset | main.py:185-186 | the stored images are emptied |
| Preview.PhotoStrip.Snap | main.py:188-190 | appends the current raw frame, not `last_image`, and only once a frame was seen |
| Preview.PhotoStrip.Frame | main.py:192-193 | keeps the frame as `last_image` |
| Preview.PhotoBooth.constructor | main.py:204-205 | a fresh countdown and strip; inactive, not done, no photos |
| Preview.PhotoBooth.Reset | main.py:226-231 | restores `photos = 0`, `active = False` and `done = False`, with a new countdown and strip |
| Preview.PhotoBooth.CountDownPhoto | main.py:233-238 | below 3 photos, a 3 s countdown starts and the count goes up; otherwise the session is done |
| Preview.PhotoBooth.Start | main.py:221-224 | does nothing while active; otherwise starts the first countdown |
| Preview.PhotoBooth.Frame | main.py:207-242 | the strip keeps the shown frame. While the countdown runs, the digit is `min(3, floor(time left) + 1)`. A finished countdown snaps the current frame, then either restarts the countdown 3 s after `restartAt` or ends the session. Any other frame changes no counter. At most 3 countdowns run per session, and a finished session holds 3 photos |

## Left out

- Pixel work is not modelled: `ImageOps.fit` resampling, raw demosaicing, JPEG encoding, the cv2 drawing calls and `mse`. Pixels only name where they came from.
- Logging output is not modelled, except the upload outcome lines and the face log lines, which are results.
- The LED animations and `wait_for_input` (src/lights.py, src/button_input.py) are not modelled. Only the countdown is a trace event. In the main loop they are phases whose exception, if any, is an input.
- The `InternetChecker` thread and the `internet()` socket probe are not modelled: they are concurrency and network I/O. `connection_active` is an input. Only its initial `False` is modelled.
- `os.makedirs` is not modelled. `os.listdir`, `datetime.now()` and `time.time()` are inputs.
- `Camera.__init__` registering the log callback with libgphoto2 is not modelled. Neither is `camera_file.save` failing; a save always succeeds.
- BoothLoop.RunMain: the steps inside the cycle are abstract. Their own behaviour is modelled by the `CaptureSession`, `Printing` and `Upload` members. Whether each step raises is an input.
- BoothLoop.RunMain: the `__main__` handler (src/capture.py:203-207) only logs. The model reports it as the `Crashed` outcome.
- BoothLoop.RunMain: the scripted inputs can run out. The model then reports `StillRunning` for a loop that would go on forever, or for a camera still retrying that no interrupt stops.
- BoothLoop.RunMain: an interrupt during camera retries is one flag. It stops the retries after the camera's last scripted answer; when the camera would have answered is not modelled.
- Preview.Fps.Frame: samples are exact real reciprocals. Floating-point rounding and the displayed average are not modelled.
- Preview.Fps.Frame: the first append goes to the class-level `_frame_times` list shared by all instances. That aliasing is not modelled; the program has one instance.
- GPhotoCamera.LogCallback: the message is text. The source receives bytes and decodes them as UTF-8 (src/camera.py:28), so a malformed message raises inside the callback; that error is not modelled.
- Preview.PhotoBooth.Frame: the clock `takePhoto` reads to restart the countdown is a separate input, `restartAt`.
- Preview.Faces.Frame: the Haar detector is not modelled; it is replaced by its face count. `on_face` is counted, not run.
- main.py's top-level video loop, argparse, the SIGINT handler and the threaded video stream are process plumbing, so they are not modelled.
- The root-level capture.py and camera.py are superseded drafts and are not part of this model.

## Findings

| source | as written | input that shows it | evidently intended | confidence | as-written member | corrected member |
|---|---|---|---|---|---|---|
| src/capture.py:155 | `uploader = Uploader()` calls a constructor that takes `keyfile` and `scpdst` (src/upload.py:44) with no arguments | any run: `TypeError` is raised right after the printer lookup, so `main` ends before the lights, the camera or any cycle start | construct the uploader with a key file and a destination | high (not executed) | BoothLoopProperties.AsWrittenNeverStarts | BoothLoopProperties.ConfiguredBoothRunsCycle |
