/**
 * One capture session (src/capture.py): reading photos by extension, taking
 * and saving the shots, listing them back, the template cache, compositing a
 * layout, and the print canvas.
 */
module CaptureSession {
  import opened Wrappers
  import opened Strings
  import Paths
  import opened Layouts
  import opened Imaging
  import opened Devices
  import opened GPhotoCamera
  import opened Printing
  import Templates

  // ---------------------------------------------------------------- read_file

  datatype ReadError = UnknownExtension(extension: string)

  /** `read_file`: `.jpg`/`.jpeg` open directly, `.arw` is demosaiced, anything else raises. */
  function ReadFile(filePath: string): (r: Result<Source, ReadError>)
    ensures r == Ok(JpegFile(filePath)) <==> Paths.SplitExt(filePath).1 in {".jpg", ".jpeg"}
    ensures r == Ok(RawFile(filePath)) <==> Paths.SplitExt(filePath).1 == ".arw"
    ensures r.Err? <==> Paths.SplitExt(filePath).1 !in {".jpg", ".jpeg", ".arw"}
    ensures r.Err? ==> r.error == UnknownExtension(Paths.SplitExt(filePath).1)
  {
    var (_, fileExtension) := Paths.SplitExt(filePath);
    if fileExtension in {".jpg", ".jpeg"} then Ok(JpegFile(filePath))
    else if fileExtension == ".arw" then Ok(RawFile(filePath))
    else Err(UnknownExtension(fileExtension))
  }

  /** The extension test is case-sensitive: an upper-case `.JPG` is refused. */
  lemma ReadFileIsCaseSensitive(stem: string)
    requires Paths.NamedLastComponent(stem)
    ensures ReadFile(stem + ".JPG") == Err(UnknownExtension(".JPG"))
    ensures ReadFile(stem + ".ARW") == Err(UnknownExtension(".ARW"))
    ensures ReadFile(stem + ".jpg") == Ok(JpegFile(stem + ".jpg"))
  {
    Paths.SplitExtOfStemAndExtension(stem, ".JPG");
    Paths.SplitExtOfStemAndExtension(stem, ".ARW");
    Paths.SplitExtOfStemAndExtension(stem, ".jpg");
  }

  // ------------------------------------------------------ file naming helpers

  const ImagePrefix: string := "image_"

  /** `os.path.join(capture_dir, "image_{}".format(index))`. */
  function ImagePath(dir: string, index: nat): string {
    Paths.Join(dir, ImagePrefix + NatToString(index))
  }

  /** A shot's file name holds neither a dot nor a slash. */
  lemma ShotNameIsPlain(index: nat)
    ensures forall k :: 0 <= k < |ImagePrefix + NatToString(index)| ==>
      (ImagePrefix + NatToString(index))[k] != '.' && (ImagePrefix + NatToString(index))[k] != '/'
  {
    var name := ImagePrefix + NatToString(index);
    forall k | 0 <= k < |name| ensures name[k] != '.' && name[k] != '/' {
      if k >= |ImagePrefix| {
        assert name[k] == NatToString(index)[k - |ImagePrefix|];
      }
    }
  }

  /** The path a shot ends up at: its ordinal name plus the camera's extension. */
  lemma ImagePathShape(dir: string, index: nat, captureName: string)
    ensures SaveTarget(ImagePath(dir, index), captureName) ==
      (Paths.JoinPrefix(dir) + ImagePrefix) + (NatToString(index) + Paths.SplitExt(captureName).1)
  {
    var name := ImagePrefix + NatToString(index);
    ShotNameIsPlain(index);
    Paths.SplitExtOfJoinedPlainName(dir, name);
    Paths.JoinRelative(dir, name);
    var pre, ext := Paths.JoinPrefix(dir), Paths.SplitExt(captureName).1;
    assert SaveTarget(ImagePath(dir, index), captureName) == pre + name + ext;
    assert pre + name + ext == (pre + ImagePrefix) + (NatToString(index) + ext);
  }

  /**
   * Saving a shot again to the path `save` returned for it names the same
   * file, whatever dots the capture directory holds (the ISO time stamp of
   * the default capture id has one): only the last component is searched
   * for an extension.
   */
  lemma ShotSaveIsIdempotent(dir: string, index: nat, captureName: string)
    requires Paths.SplitExt(captureName).1 != []
    ensures Paths.SplitExt(ImagePath(dir, index)) == (ImagePath(dir, index), [])
    ensures SaveTarget(SaveTarget(ImagePath(dir, index), captureName), captureName) ==
      SaveTarget(ImagePath(dir, index), captureName)
  {
    var name := ImagePrefix + NatToString(index);
    ShotNameIsPlain(index);
    Paths.SplitExtOfJoinedPlainName(dir, name);
    Paths.JoinedPlainNameIsNamed(dir, name);
    SaveTargetIdempotent(ImagePath(dir, index), captureName);
  }

  /** `os.path.join(capture_dir, "{}_{}.jpg".format(name, capture_id))`. */
  function FinalImagePath(dir: string, name: string, captureId: string): string {
    Paths.Join(dir, name + "_" + captureId + ".jpg")
  }

  // ------------------------------------------------------ capture_files spec

  const CountdownBlinks: int := 5
  const SettleSeconds: nat := 1

  /** `n` rounds of countdown, shot and settle delay. */
  function Rounds(n: nat): (r: seq<Event>)
    ensures |r| == 3 * n
  {
    if n == 0 then [] else Rounds(n - 1) + [Blink(CountdownBlinks), Shot, Slept(SettleSeconds)]
  }

  /** Each round cues the shot with the countdown, then shoots, then waits. */
  lemma {:induction false} RoundsAt(n: nat, i: nat)
    requires i < n
    ensures Rounds(n)[3 * i] == Blink(CountdownBlinks)
    ensures Rounds(n)[3 * i + 1] == Shot
    ensures Rounds(n)[3 * i + 2] == Slept(SettleSeconds)
  {
    if i < n - 1 {
      RoundsAt(n - 1, i);
    }
  }

  /** The countdown rounds save nothing. */
  lemma {:induction false} RoundsSaveNothing(n: nat)
    ensures forall j :: 0 <= j < |Rounds(n)| ==> !Rounds(n)[j].SavedCapture?
  {
    if n > 0 {
      RoundsSaveNothing(n - 1);
      assert forall j :: 0 <= j < 3 * (n - 1) ==> Rounds(n)[j] == Rounds(n - 1)[j];
    }
  }

  /** The index of the first failed capture, or the number of captures when none failed. */
  function FirstFailure(outcomes: seq<Result<CameraFilePath, int>>): (k: nat)
    ensures k <= |outcomes|
    ensures forall i :: 0 <= i < k ==> outcomes[i].Ok?
    ensures k < |outcomes| ==> outcomes[k].Err?
  {
    if outcomes == [] then 0
    else if outcomes[0].Err? then 0
    else 1 + FirstFailure(outcomes[1..])
  }

  /** Where shot i of `captures` is saved: its ordinal name plus the extension the camera gave it. */
  function SavedPaths(dir: string, captures: seq<CameraFilePath>): (r: seq<string>)
    ensures |r| == |captures|
  {
    seq(|captures|, i requires 0 <= i < |captures| => SaveTarget(ImagePath(dir, i), captures[i].name))
  }

  function SaveEvents(paths: seq<string>, captures: seq<CameraFilePath>): (r: seq<Event>)
    requires |paths| == |captures|
    ensures |r| == |captures|
  {
    seq(|captures|, i requires 0 <= i < |captures| => SavedCapture(paths[i], captures[i]))
  }

  function Captured(outcomes: seq<Result<CameraFilePath, int>>): (r: seq<CameraFilePath>)
    requires forall i :: 0 <= i < |outcomes| ==> outcomes[i].Ok?
    ensures |r| == |outcomes| && forall i :: 0 <= i < |outcomes| ==> outcomes[i] == Ok(r[i])
  {
    seq(|outcomes|, i requires 0 <= i < |outcomes| && outcomes[i].Ok? => outcomes[i].value)
  }

  datatype ShotRun = ShotRun(events: seq<Event>, result: Result<seq<CameraFilePath>, int>)

  /** The first loop of `capture_files`: countdown, capture and settle per shot; a failed capture raises. */
  function ShotsSpec(outcomes: seq<Result<CameraFilePath, int>>): ShotRun {
    var k := FirstFailure(outcomes);
    if k < |outcomes| then ShotRun(Rounds(k) + [Blink(CountdownBlinks), Shot], Err(outcomes[k].error))
    else ShotRun(Rounds(|outcomes|), Ok(Captured(outcomes)))
  }

  datatype CaptureRun = CaptureRun(events: seq<Event>, result: Result<seq<string>, int>)

  /**
   * What `capture_files` does when the camera answers its captures with
   * `outcomes`: every shot first, then every save; a failed capture raises
   * before anything is saved.
   */
  function CaptureFilesSpec(dir: string, outcomes: seq<Result<CameraFilePath, int>>): CaptureRun {
    var shots := ShotsSpec(outcomes);
    match shots.result
    case Err(code) => CaptureRun(shots.events, Err(code))
    case Ok(captures) =>
      var paths := SavedPaths(dir, captures);
      CaptureRun(shots.events + SaveEvents(paths, captures), Ok(paths))
  }

  /** On success there is one file per shot: the ordinal name plus the capture's extension. */
  lemma CaptureFilesNames(dir: string, outcomes: seq<Result<CameraFilePath, int>>)
    requires CaptureFilesSpec(dir, outcomes).result.Ok?
    ensures |CaptureFilesSpec(dir, outcomes).result.value| == |outcomes|
    ensures forall i :: 0 <= i < |outcomes| ==> (outcomes[i].Ok? &&
      CaptureFilesSpec(dir, outcomes).result.value[i] ==
        ImagePath(dir, i) + Paths.SplitExt(outcomes[i].value.name).1)
  {
    var captures := Captured(outcomes);
    assert CaptureFilesSpec(dir, outcomes).result.value == SavedPaths(dir, captures);
    forall i | 0 <= i < |outcomes|
      ensures SavedPaths(dir, captures)[i] == ImagePath(dir, i) + Paths.SplitExt(captures[i].name).1
    {
      ImagePathShape(dir, i, captures[i].name);
      Paths.JoinRelative(dir, ImagePrefix + NatToString(i));
    }
  }

  /**
   * `main` asks for as many shots as the strips layout has slots. When the
   * captures succeed, both templates get one file per slot, so neither
   * composite fails the slot-count check of `create_img_from_template`.
   */
  lemma CapturedFilesFillBothTemplates(dir: string, outcomes: seq<Result<CameraFilePath, int>>)
    requires |outcomes| == |Templates.Strips().layout|
    requires CaptureFilesSpec(dir, outcomes).result.Ok?
    ensures |CaptureFilesSpec(dir, outcomes).result.value| == |Templates.Strips().layout|
    ensures |CaptureFilesSpec(dir, outcomes).result.value| == |Templates.Square().layout|
  {
    CaptureFilesNames(dir, outcomes);
  }

  /** Every capture happens before any save, and every shot is cued by a countdown. */
  lemma CaptureFilesOrder(dir: string, outcomes: seq<Result<CameraFilePath, int>>)
    requires CaptureFilesSpec(dir, outcomes).result.Ok?
    ensures var ev := CaptureFilesSpec(dir, outcomes).events;
      forall i, j :: 0 <= i < |ev| && 0 <= j < |ev| && ev[i] == Shot && ev[j].SavedCapture? ==> i < j
    ensures var ev := CaptureFilesSpec(dir, outcomes).events;
      forall s :: 0 <= s < |outcomes| ==> ev[3 * s] == Blink(CountdownBlinks) && ev[3 * s + 1] == Shot
  {
    var n := |outcomes|;
    var ev := CaptureFilesSpec(dir, outcomes).events;
    var saves := SaveEvents(SavedPaths(dir, Captured(outcomes)), Captured(outcomes));
    assert ev == Rounds(n) + saves;
    forall i | 3 * n <= i < |ev| ensures ev[i].SavedCapture? {
      assert ev[i] == saves[i - 3 * n];
    }
    RoundsSaveNothing(n);
    assert forall j :: 0 <= j < 3 * n ==> ev[j] == Rounds(n)[j];
    forall s | 0 <= s < n ensures ev[3 * s] == Blink(CountdownBlinks) && ev[3 * s + 1] == Shot {
      RoundsAt(n, s);
    }
  }

  /** Two different shots of a session are saved at different paths, whatever extensions the camera gives them. */
  lemma SavedPathsDiffer(dir: string, i: nat, j: nat, nameI: string, nameJ: string)
    requires i != j
    ensures SaveTarget(ImagePath(dir, i), nameI) != SaveTarget(ImagePath(dir, j), nameJ)
  {
    var pre := Paths.JoinPrefix(dir) + ImagePrefix;
    var extI, extJ := Paths.SplitExt(nameI).1, Paths.SplitExt(nameJ).1;
    ImagePathShape(dir, i, nameI);
    ImagePathShape(dir, j, nameJ);
    CounterTailsDiffer(pre, i, j, extI, extJ);
  }

  /** Behind a common prefix, different counters followed by non-digits never coincide. */
  lemma CounterTailsDiffer(pre: string, i: nat, j: nat, extI: string, extJ: string)
    requires i != j && StartsWithNonDigit(extI) && StartsWithNonDigit(extJ)
    ensures pre + (NatToString(i) + extI) != pre + (NatToString(j) + extJ)
  {
    var tailI, tailJ := NatToString(i) + extI, NatToString(j) + extJ;
    assert (pre + tailI)[|pre|..] == tailI && (pre + tailJ)[|pre|..] == tailJ;
    if pre + tailI == pre + tailJ {
      CounterThenTailInjective(i, j, extI, extJ);
    }
  }

  /** The files of one session are pairwise different, so no shot overwrites another. */
  lemma CapturedFilesDistinct(dir: string, outcomes: seq<Result<CameraFilePath, int>>)
    requires CaptureFilesSpec(dir, outcomes).result.Ok?
    ensures var files := CaptureFilesSpec(dir, outcomes).result.value;
      forall i, j :: 0 <= i < j < |files| ==> files[i] != files[j]
  {
    var captures := Captured(outcomes);
    var files := SavedPaths(dir, captures);
    forall i, j | 0 <= i < j < |files| ensures files[i] != files[j] {
      SavedPathsDiffer(dir, i, j, captures[i].name, captures[j].name);
    }
  }

  // -------------------------------------------------------------- read_files

  /** The directory entries `read_files` keeps, in listing order. */
  function ImageEntries(entries: seq<string>): (r: seq<string>)
    ensures forall e :: multiset(r)[e] == if StartsWith(e, ImagePrefix) then multiset(entries)[e] else 0
  {
    if entries == [] then []
    else
      var last := entries[|entries| - 1];
      assert entries == entries[..|entries| - 1] + [last];
      ImageEntries(entries[..|entries| - 1]) + (if StartsWith(last, ImagePrefix) then [last] else [])
  }

  /** `[os.path.join(dir, f) for f in names]`. */
  function JoinAll(dir: string, names: seq<string>): (r: seq<string>)
    ensures |r| == |names| && forall i :: 0 <= i < |names| ==> r[i] == Paths.Join(dir, names[i])
  {
    seq(|names|, i requires 0 <= i < |names| => Paths.Join(dir, names[i]))
  }

  lemma ImageEntriesStep(entries: seq<string>, k: nat)
    requires k < |entries|
    ensures ImageEntries(entries[..k + 1]) ==
      ImageEntries(entries[..k]) + (if StartsWith(entries[k], ImagePrefix) then [entries[k]] else [])
  {
    assert entries[..k + 1][..k] == entries[..k];
  }

  /** Shot names compare as their counters do as text, not as numbers. */
  lemma ImageNamesOrder(i: nat, j: nat)
    ensures LexLessEq(ImagePrefix + NatToString(i), ImagePrefix + NatToString(j)) <==>
      LexLessEq(NatToString(i), NatToString(j))
  {
    LexLessEqCommonPrefix(ImagePrefix, NatToString(i), NatToString(j));
  }

  /** So the listing puts the eleventh shot before the third. */
  lemma ListingOrderIsTextual()
    ensures SortStrings([ImagePrefix + "2", ImagePrefix + "10"]) == [ImagePrefix + "10", ImagePrefix + "2"]
  {
    var s := [ImagePrefix + "10", ImagePrefix + "2"];
    LexLessEqCommonPrefix(ImagePrefix, "10", "2");
    assert LexLessEq("10", "2");
    assert Sorted(s);
    assert multiset(s) == multiset([ImagePrefix + "2", ImagePrefix + "10"]);
    SortedPermutationUnique(SortStrings([ImagePrefix + "2", ImagePrefix + "10"]), s);
  }

  // --------------------------------------------------------------- PhotoStrip

  /** The first loop of `capture_files`, against the camera's answers `outcomes`. */
  method TakeShots(lights: LedLights, camera: Camera, count: nat, outcomes: seq<Result<CameraFilePath, int>>)
    returns (r: Result<seq<CameraFilePath>, int>)
    requires lights.trace == camera.trace
    requires |outcomes| == count
    modifies camera.trace
    ensures r == ShotsSpec(outcomes).result
    ensures camera.trace.events == old(camera.trace.events) + ShotsSpec(outcomes).events
  {
    var trace := camera.trace;
    var captures: seq<CameraFilePath> := [];
    var index := 0;
    while index < count
      invariant 0 <= index <= count && |captures| == index
      invariant forall i :: 0 <= i < index ==> outcomes[i] == Ok(captures[i])
      invariant trace.events == old(trace.events) + Rounds(index)
    {
      lights.CountdownAnimation(CountdownBlinks);
      var capture := camera.Capture(outcomes[index]);
      if capture.Err? {
        assert FirstFailure(outcomes) == index;
        return Err(capture.error);
      }
      captures := captures + [capture.value];
      trace.events := trace.events + [Slept(SettleSeconds)];
      index := index + 1;
    }
    assert captures == Captured(outcomes);
    r := Ok(captures);
  }

  class PhotoStrip {
    const captureId: string
    const captureDir: string

    /** `PhotoStrip(capture_id)`: an empty id falls back to the current time in ISO form. */
    constructor(captureId: string, now: string)
      ensures this.captureId == (if captureId != "" then captureId else now)
      ensures captureDir == Paths.Join("capture", this.captureId)
    {
      this.captureId := if captureId != "" then captureId else now;
      captureDir := Paths.Join("capture", if captureId != "" then captureId else now);
    }

    /**
     * `capture_files(lights, camera, count)`: `count` rounds of countdown and
     * capture, then each capture saved as `image_<i>` in shot order.
     * `outcomes` are the camera's answers to the captures.
     */
    method CaptureFiles(lights: LedLights, camera: Camera, count: nat, outcomes: seq<Result<CameraFilePath, int>>)
      returns (r: Result<seq<string>, int>)
      requires lights.trace == camera.trace
      requires |outcomes| == count
      modifies camera.trace
      ensures r == CaptureFilesSpec(captureDir, outcomes).result
      ensures camera.trace.events == old(camera.trace.events) + CaptureFilesSpec(captureDir, outcomes).events
    {
      var shots := TakeShots(lights, camera, count, outcomes);
      if shots.Err? {
        return Err(shots.error);
      }
      var files := SaveShots(camera, shots.value);
      r := Ok(files);
    }

    /** The second loop of `capture_files`: save capture i as `image_<i>` in the capture directory. */
    method SaveShots(camera: Camera, captures: seq<CameraFilePath>) returns (files: seq<string>)
      modifies camera.trace
      ensures files == SavedPaths(captureDir, captures)
      ensures camera.trace.events == old(camera.trace.events) + SaveEvents(files, captures)
    {
      var trace := camera.trace;
      ghost var paths := SavedPaths(captureDir, captures);
      ghost var events := SaveEvents(paths, captures);
      files := [];
      var index := 0;
      while index < |captures|
        invariant 0 <= index <= |captures|
        invariant files == paths[..index]
        invariant trace.events == old(trace.events) + events[..index]
      {
        var savedPath := Paths.Join(captureDir, ImagePrefix + NatToString(index));
        var saved := camera.Save(captures[index], savedPath);
        assert paths[..index + 1] == paths[..index] + [saved];
        assert events[..index + 1] == events[..index] + [SavedCapture(saved, captures[index])];
        files := files + [saved];
        index := index + 1;
      }
      assert paths[..index] == paths && events[..index] == events;
    }

    /**
     * `read_files(count)`: the `image_` entries of the capture directory
     * (given as `entries`, in listing order), sorted as text and joined to it.
     * `count` is not used.
     */
    method ReadFiles(count: int, entries: seq<string>) returns (paths: seq<string>)
      ensures paths == JoinAll(captureDir, SortStrings(ImageEntries(entries)))
    {
      var files: seq<string> := [];
      var k := 0;
      while k < |entries|
        invariant 0 <= k <= |entries|
        invariant files == ImageEntries(entries[..k])
      {
        ImageEntriesStep(entries, k);
        if StartsWith(entries[k], ImagePrefix) {
          files := files + [entries[k]];
        }
        k := k + 1;
      }
      assert entries[..k] == entries;
      paths := JoinAll(captureDir, SortStrings(files));
    }

    /** `save_final_img(img, name)`: write the composite as JPEG, quality 90, and return its path. */
    method SaveFinalImg(trace: Trace, img: Canvas, name: string) returns (path: string)
      modifies trace
      ensures path == FinalImagePath(captureDir, name, captureId)
      ensures trace.events == old(trace.events) + [WroteJpeg(path, 90, Snapshot(img))]
    {
      path := Paths.Join(captureDir, name + "_" + captureId + ".jpg");
      trace.events := trace.events + [WroteJpeg(path, 90, Snapshot(img))];
    }
  }

  /** A composite named after either template never lands on a shot's file. */
  lemma FinalImagesAreNotShots(dir: string, captureId: string, index: nat, captureName: string, name: string)
    requires name == "square" || name == "photo_strips"
    ensures FinalImagePath(dir, name, captureId) != SaveTarget(ImagePath(dir, index), captureName)
  {
    ImagePathShape(dir, index, captureName);
    var tail := name + "_" + captureId + ".jpg";
    Paths.JoinRelative(dir, tail);
    var pre := Paths.JoinPrefix(dir);
    assert FinalImagePath(dir, name, captureId)[|pre|] == name[0];
    assert ((pre + ImagePrefix) + (NatToString(index) + Paths.SplitExt(captureName).1))[|pre|] == 'i';
  }

  // ---------------------------------------------------------- template cache

  predicate NoDuplicates(s: seq<string>) {
    forall i, j :: 0 <= i < j < |s| ==> s[i] != s[j]
  }

  /** `_CACHED_TEMPLATES`: template assets loaded once and kept for the process lifetime. */
  class TemplateCache {
    var images: map<string, Canvas>
    /** The files `Image.open` was called on, in order. */
    ghost var loaded: seq<string>

    /** Each asset is loaded at most once, and the cached images keep the asset's own pixels. */
    ghost predicate Valid()
      reads this, images.Values
    {
      (forall f :: f in images <==> f in loaded) &&
      NoDuplicates(loaded) &&
      forall f, x, y :: f in images && 0 <= x < images[f].Length0 && 0 <= y < images[f].Length1 ==>
        images[f][x, y] == Background(f, x, y)
    }

    constructor()
      ensures Valid() && images == map[] && loaded == []
    {
      images := map[];
      loaded := [];
    }

    /** `get_template_image(template)`: open the asset (of dimensions `size`) on first use only. */
    method Get(template: Template, size: Size) returns (img: Canvas)
      requires Valid()
      modifies this
      ensures Valid()
      ensures template.file in images && images[template.file] == img
      ensures template.file in old(images) ==> img == old(images)[template.file] && images == old(images) && loaded == old(loaded)
      ensures template.file !in old(images) ==>
        fresh(img) && img.Length0 == size.w && img.Length1 == size.h &&
        images == old(images)[template.file := img] && loaded == old(loaded) + [template.file]
    {
      if template.file !in images {
        img := Open(template.file, size);
        images := images[template.file := img];
        loaded := loaded + [template.file];
      }
      img := images[template.file];
    }
  }

  // ------------------------------------------------- create_img_from_template

  /** One `final.paste(ImageOps.fit(source, size), position)`. */
  datatype PasteJob = PasteJob(source: Source, placement: Placement)

  function SlotJobs(source: Source, slot: Slot): (r: seq<PasteJob>)
    ensures |r| == |slot| && forall j :: 0 <= j < |slot| ==> r[j] == PasteJob(source, slot[j])
  {
    seq(|slot|, j requires 0 <= j < |slot| => PasteJob(source, slot[j]))
  }

  /** All pastes of a layout in the order the code makes them: slot by slot, placement by placement. */
  function Jobs(sources: seq<Source>, layout: seq<Slot>): seq<PasteJob>
    requires |sources| == |layout|
    decreases |layout|
  {
    if layout == [] then []
    else Jobs(sources[..|layout| - 1], layout[..|layout| - 1]) + SlotJobs(sources[|layout| - 1], layout[|layout| - 1])
  }

  /** The pixel at (x, y) after the pastes `jobs` onto a copy of the asset `file`: the last paste covering it wins. */
  function Composite(file: string, jobs: seq<PasteJob>, x: int, y: int): Pixel {
    if jobs == [] then Background(file, x, y)
    else
      var job := jobs[|jobs| - 1];
      if Covers(job.placement, x, y) then
        Fitted(job.source, job.placement.size, x - job.placement.position.x, y - job.placement.position.y)
      else Composite(file, jobs[..|jobs| - 1], x, y)
  }

  /** The placements of the jobs are the layout's placements, in the same order. */
  lemma {:induction false} JobsFollowLayout(sources: seq<Source>, layout: seq<Slot>)
    requires |sources| == |layout|
    ensures |Jobs(sources, layout)| == |Flatten(layout)|
    ensures forall k :: 0 <= k < |Flatten(layout)| ==> Jobs(sources, layout)[k].placement == Flatten(layout)[k]
    ensures forall s, j :: 0 <= s < |layout| && 0 <= j < |layout[s]| ==> PasteJob(sources[s], layout[s][j]) in Jobs(sources, layout)
    decreases |layout|
  {
    if layout != [] {
      var n := |layout| - 1;
      JobsFollowLayout(sources[..n], layout[..n]);
      var front := Jobs(sources[..n], layout[..n]);
      var back := SlotJobs(sources[n], layout[n]);
      assert Jobs(sources, layout) == front + back;
      assert Flatten(layout) == Flatten(layout[..n]) + layout[n];
      forall s, j | 0 <= s < |layout| && 0 <= j < |layout[s]|
        ensures PasteJob(sources[s], layout[s][j]) in Jobs(sources, layout)
      {
        if s < n {
          assert sources[..n][s] == sources[s] && layout[..n][s] == layout[s];
          assert PasteJob(sources[s], layout[s][j]) in front;
        } else {
          assert back[j] == PasteJob(sources[s], layout[s][j]);
        }
      }
    }
  }

  predicate JobsDisjoint(jobs: seq<PasteJob>) {
    forall i, j :: 0 <= i < j < |jobs| ==> Disjoint(jobs[i].placement, jobs[j].placement)
  }

  /** Without overlaps, a pixel covered by a paste shows that paste's photo whatever the order. */
  lemma {:induction false} DisjointPastesShowOwnPhoto(file: string, jobs: seq<PasteJob>, job: PasteJob, x: int, y: int)
    requires JobsDisjoint(jobs)
    requires job in jobs && Covers(job.placement, x, y)
    ensures Composite(file, jobs, x, y) ==
      Fitted(job.source, job.placement.size, x - job.placement.position.x, y - job.placement.position.y)
    decreases |jobs|
  {
    var n := |jobs| - 1;
    var k :| 0 <= k < |jobs| && jobs[k] == job;
    if k < n {
      assert Disjoint(jobs[k].placement, jobs[n].placement);
      DisjointMeansNoSharedPixel(jobs[k].placement, jobs[n].placement, x, y);
      assert jobs[..n][k] == job;
      DisjointPastesShowOwnPhoto(file, jobs[..n], job, x, y);
    }
  }

  /** A pixel no paste covers keeps the template asset's pixel. */
  lemma {:induction false} UncoveredShowsTemplate(file: string, jobs: seq<PasteJob>, x: int, y: int)
    requires forall job :: job in jobs ==> !Covers(job.placement, x, y)
    ensures Composite(file, jobs, x, y) == Background(file, x, y)
    decreases |jobs|
  {
    if jobs != [] {
      var n := |jobs| - 1;
      assert jobs[n] in jobs;
      forall job | job in jobs[..n] ensures !Covers(job.placement, x, y) {
        assert job in jobs;
      }
      UncoveredShowsTemplate(file, jobs[..n], x, y);
    }
  }

  /**
   * For a layout whose placements do not overlap (both shipped templates),
   * every pixel of every placement of slot s shows photo s, fitted to that placement.
   */
  lemma SlotShowsItsPhoto(file: string, sources: seq<Source>, layout: seq<Slot>, s: nat, j: nat, x: int, y: int)
    requires |sources| == |layout| && PairwiseDisjoint(Flatten(layout))
    requires s < |layout| && j < |layout[s]| && Covers(layout[s][j], x, y)
    ensures Composite(file, Jobs(sources, layout), x, y) ==
      Fitted(sources[s], layout[s][j].size, x - layout[s][j].position.x, y - layout[s][j].position.y)
  {
    JobsFollowLayout(sources, layout);
    var jobs := Jobs(sources, layout);
    assert JobsDisjoint(jobs) by {
      forall a, b | 0 <= a < b < |jobs| ensures Disjoint(jobs[a].placement, jobs[b].placement) {
        assert jobs[a].placement == Flatten(layout)[a] && jobs[b].placement == Flatten(layout)[b];
      }
    }
    DisjointPastesShowOwnPhoto(file, jobs, PasteJob(sources[s], layout[s][j]), x, y);
  }

  datatype ComposeError = SlotMismatch | Unreadable(error: ReadError)

  /** The sources of a sequence of decode results, or the first error among them. */
  function FirstError(results: seq<Result<Source, ReadError>>): (r: Result<seq<Source>, ReadError>)
    ensures r.Ok? <==> forall i :: 0 <= i < |results| ==> results[i].Ok?
    ensures r.Ok? ==> |r.value| == |results| && forall i :: 0 <= i < |results| ==> results[i] == Ok(r.value[i])
    ensures r.Err? ==> exists i :: (0 <= i < |results| && results[i] == Err(r.error) &&
      forall j :: 0 <= j < i ==> results[j].Ok?)
  {
    if results == [] then Ok([])
    else if results[0].Err? then Err(results[0].error)
    else
      var rest := FirstError(results[1..]);
      assert forall i :: 1 <= i < |results| ==> results[i] == results[1..][i - 1];
      if rest.Err? then
        assert exists i :: (1 <= i < |results| && results[i] == Err(rest.error) &&
          forall j :: 0 <= j < i ==> results[j].Ok?);
        rest
      else Ok([results[0].value] + rest.value)
  }

  /** Every file decoded by `read_file`, or the error of the first that cannot be. */
  function DecodeAll(files: seq<string>): (r: Result<seq<Source>, ReadError>) {
    FirstError(seq(|files|, i requires 0 <= i < |files| => ReadFile(files[i])))
  }

  /** The error reported is that of the first failed result. */
  lemma FirstErrorAt(results: seq<Result<Source, ReadError>>, index: nat)
    requires index < |results| && results[index].Err?
    requires forall i :: 0 <= i < index ==> results[i].Ok?
    ensures FirstError(results) == Err(results[index].error)
  {
  }

  /** Decoding stops at the first file `read_file` refuses. */
  lemma DecodeAllStopsAt(files: seq<string>, sources: seq<Source>, index: nat)
    requires index < |files| && |sources| == index
    requires forall i :: 0 <= i < index ==> ReadFile(files[i]) == Ok(sources[i])
    requires ReadFile(files[index]).Err?
    ensures DecodeAll(files) == Err(ReadFile(files[index]).error)
  {
    var results := seq(|files|, i requires 0 <= i < |files| => ReadFile(files[i]));
    assert forall i :: 0 <= i < |files| ==> results[i] == ReadFile(files[i]);
    FirstErrorAt(results, index);
  }

  /** When every file decodes, the sources are the decoded files in order. */
  lemma DecodeAllSucceeds(files: seq<string>, sources: seq<Source>)
    requires |sources| == |files|
    requires forall i :: 0 <= i < |files| ==> ReadFile(files[i]) == Ok(sources[i])
    ensures DecodeAll(files) == Ok(sources)
  {
    var results := seq(|files|, i requires 0 <= i < |files| => ReadFile(files[i]));
    assert DecodeAll(files) == FirstError(results);
    assert forall i :: 0 <= i < |files| ==> results[i] == Ok(sources[i]);
    var r := FirstError(results);
    assert r.Ok?;
    assert r.value == sources;
  }

  /** Paste a fitted copy of `source` at each placement of `slot`, in order. */
  method PasteSlot(final: Canvas, source: Source, slot: Slot, ghost file: string, ghost done: seq<PasteJob>)
    modifies final
    requires forall x, y :: 0 <= x < final.Length0 && 0 <= y < final.Length1 ==>
      final[x, y] == Composite(file, done, x, y)
    ensures forall x, y :: 0 <= x < final.Length0 && 0 <= y < final.Length1 ==>
      final[x, y] == Composite(file, done + SlotJobs(source, slot), x, y)
  {
    var j := 0;
    assert done + SlotJobs(source, slot[..0]) == done;
    while j < |slot|
      invariant 0 <= j <= |slot|
      invariant forall x, y :: 0 <= x < final.Length0 && 0 <= y < final.Length1 ==>
        final[x, y] == Composite(file, done + SlotJobs(source, slot[..j]), x, y)
    {
      var placement := slot[j];
      var resized := Fit(source, placement.size);
      Paste(final, resized, placement.position.x, placement.position.y);
      assert done + SlotJobs(source, slot[..j + 1]) == (done + SlotJobs(source, slot[..j])) + [PasteJob(source, placement)];
      j := j + 1;
    }
    assert slot[..j] == slot;
  }

  /**
   * `create_img_from_template(files, template)`: fetch the cached asset, insist
   * on one file per slot, then paste a fitted copy of photo i at every
   * placement of slot i onto a copy of the asset. `assetSize` is the asset's
   * size, used if it has to be loaded.
   */
  method CreateImgFromTemplate(cache: TemplateCache, files: seq<string>, template: Template, assetSize: Size)
    returns (r: Result<Canvas, ComposeError>)
    requires cache.Valid()
    modifies cache
    ensures cache.Valid()
    ensures template.file in cache.images
    ensures template.file in old(cache.images) ==> cache.images == old(cache.images) && cache.loaded == old(cache.loaded)
    ensures r == Err(SlotMismatch) <==> |files| != |template.layout|
    ensures |files| == |template.layout| ==> (r.Ok? <==> DecodeAll(files).Ok?)
    ensures |files| == |template.layout| && DecodeAll(files).Err? ==> r == Err(Unreadable(DecodeAll(files).error))
    ensures r.Ok? ==>
      fresh(r.value) &&
      r.value.Length0 == cache.images[template.file].Length0 &&
      r.value.Length1 == cache.images[template.file].Length1 &&
      forall x, y :: 0 <= x < r.value.Length0 && 0 <= y < r.value.Length1 ==>
        r.value[x, y] == Composite(template.file, Jobs(DecodeAll(files).value, template.layout), x, y)
  {
    var templateImage := cache.Get(template, assetSize);
    var layout := template.layout;
    if |files| != |layout| {
      return Err(SlotMismatch);
    }
    var final := Copy(templateImage);
    var failure, sources := FillLayout(final, files, layout, template.file);
    if failure.Some? {
      DecodeAllStopsAt(files, sources, |sources|);
      return Err(Unreadable(failure.value));
    }
    DecodeAllSucceeds(files, sources);
    r := Ok(final);
  }

  /** One more slot of photos extends the pastes by that slot's pastes. */
  lemma JobsStep(sources: seq<Source>, layout: seq<Slot>, index: nat, source: Source)
    requires index < |layout| && |sources| == index
    ensures Jobs(sources + [source], layout[..index + 1]) == Jobs(sources, layout[..index]) + SlotJobs(source, layout[index])
  {
    assert layout[..index + 1][..index] == layout[..index];
    assert (sources + [source])[..index] == sources;
  }

  /** One more photo read extends the photos read so far. */
  lemma ReadStep(files: seq<string>, sources: seq<Source>, source: Source)
    requires |sources| < |files|
    requires forall i :: 0 <= i < |sources| ==> ReadFile(files[i]) == Ok(sources[i])
    requires ReadFile(files[|sources|]) == Ok(source)
    ensures forall i :: 0 <= i < |sources| + 1 ==> ReadFile(files[i]) == Ok((sources + [source])[i])
  {
  }

  /**
   * The loop of `create_img_from_template` over the slots: read photo i and
   * paste it at the placements of slot i; stop at the first unreadable photo.
   */
  method FillLayout(final: Canvas, files: seq<string>, layout: seq<Slot>, ghost file: string)
    returns (failure: Option<ReadError>, ghost sources: seq<Source>)
    requires |files| == |layout|
    requires forall x, y :: 0 <= x < final.Length0 && 0 <= y < final.Length1 ==> final[x, y] == Background(file, x, y)
    modifies final
    ensures |sources| <= |files|
    ensures forall i :: 0 <= i < |sources| ==> ReadFile(files[i]) == Ok(sources[i])
    ensures failure.Some? ==> |sources| < |files| && ReadFile(files[|sources|]) == Err(failure.value)
    ensures failure.None? ==> |sources| == |files| && forall x, y :: 0 <= x < final.Length0 && 0 <= y < final.Length1 ==>
      final[x, y] == Composite(file, Jobs(sources, layout), x, y)
  {
    sources := [];
    var index := 0;
    while index < |layout|
      invariant 0 <= index <= |layout| && |sources| == index
      invariant forall i :: 0 <= i < index ==> ReadFile(files[i]) == Ok(sources[i])
      invariant forall x, y :: 0 <= x < final.Length0 && 0 <= y < final.Length1 ==>
        final[x, y] == Composite(file, Jobs(sources, layout[..index]), x, y)
    {
      var img := ReadFile(files[index]);
      if img.Err? {
        return Some(img.error), sources;
      }
      PasteSlot(final, img.value, layout[index], file, Jobs(sources, layout[..index]));
      JobsStep(sources, layout, index, img.value);
      ReadStep(files, sources, img.value);
      sources := sources + [img.value];
      index := index + 1;
    }
    assert layout[..index] == layout;
    failure := None;
  }

  // ------------------------------------------------------------- print_image

  const BaseImageSize: Size := Size(1190, 1760)
  const TopLeftInset: Point := Point(28, 52)
  const BotRightInset: Point := Point(36, 130)
  const PrintPath: string := "./toprint.jpg"
  const PrintQuality: int := 97

  /** The print canvas: base size plus both insets, where the height adds `bot_right_inset[0]`. */
  function PrintableSize(): Size {
    Size(BaseImageSize.w + TopLeftInset.x + BotRightInset.x, BaseImageSize.h + TopLeftInset.y + BotRightInset.x)
  }

  /** The canvas is 1254 by 1848, so the bottom margin is 36 pixels rather than the 130 of the inset. */
  lemma PrintableSizeValues()
    ensures PrintableSize() == Size(1254, 1848)
    ensures PrintableSize().h - TopLeftInset.y - BaseImageSize.h == BotRightInset.x != BotRightInset.y
  {
  }

  /** Pixel (x, y) of the print canvas: the composite shifted by the top-left inset, black around it. */
  function PrintedPixels(img: Canvas): (s: seq<seq<Pixel>>)
    reads img
  {
    var size := PrintableSize();
    seq(size.w, x reads img => seq(size.h, y reads img =>
      if InPaste(TopLeftInset.x, TopLeftInset.y, img.Length0, img.Length1, x, y)
      then img[x - TopLeftInset.x, y - TopLeftInset.y] else Blank))
  }

  /**
   * `print_image(printer, img)`: paste the composite at the top-left inset of
   * a blank canvas, write it to `./toprint.jpg` and print that file once.
   */
  method PrintImage(trace: Trace, printer: Printer, img: Canvas, outcome: SubmitOutcome) returns (r: Result<(), PrintError>)
    requires printer.Valid()
    modifies trace, printer`count, printer.conn`jobs
    ensures printer.Valid()
    ensures trace.events == old(trace.events) + [WroteJpeg(PrintPath, PrintQuality, PrintedPixels(img))]
    ensures outcome.Accepted? ==> (r.Ok? && printer.count == old(printer.count) + 1 &&
      printer.conn.jobs == old(printer.conn.jobs) + [Job(printer.name, PrintPath, JobTitle(old(printer.count), PrintPath), Options)])
    ensures outcome.Raised? ==> r.Err? && printer.count == old(printer.count) && printer.conn.jobs == old(printer.conn.jobs)
  {
    var printable := NewCanvas(PrintableSize());
    Paste(printable, img, TopLeftInset.x, TopLeftInset.y);
    var pixels := Snapshot(printable);
    assert pixels == PrintedPixels(img) by {
      var expected := PrintedPixels(img);
      assert |pixels| == |expected|;
      forall x | 0 <= x < |pixels| ensures pixels[x] == expected[x] {
        assert |pixels[x]| == |expected[x]|;
      }
    }
    trace.events := trace.events + [WroteJpeg(PrintPath, PrintQuality, pixels)];
    var job := printer.PrintFile(PrintPath, outcome);
    r := if job.Ok? then Ok(()) else Err(job.error);
  }
}
