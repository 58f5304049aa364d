/**
  `processScenes` of backend/storyToScenes.js: for every scene, speech is
  synthesised through the binary cache, images are acquired through a
  chain of three strategies, and progress is reported; then the video is
  assembled. Scenes are processed one after another (the source runs two
  at a time). The speech synthesiser, the image generator and the
  fallback generator are parameters.
*/
module Processing {
  import opened Results
  import opened JsText
  import opened Files
  import opened Cache
  import opened Scenes
  import Assembly

  /** The external services `processScenes` calls. */
  datatype Services = Services(
    hash: string -> string,                               // SHA-1 hex digest
    synthesize: (Scene, string) -> Result<seq<bv8>>,       // `synthesizeSpeech(scene, path)`: the audio it writes
    generate: string -> Result<seq<string>>,               // `generateImages(prompt)`
    fallback: (string, nat) -> Result<seq<string>>)        // `fallbackGenerateImagesChatGPT(description, n)`

  /** `path.join(__dirname, "audio", `scene_${n}.mp3`)`. */
  function NarrationPath(n: int): string {
    "backend/audio/scene_" + IntToString(n) + ".mp3"
  }

  /** `scene.ttl || scene.narration`: an unset or empty `ttl` falls back to
      the narration. */
  function SpeechText(s: Scene): string {
    if s.ttl.Some? && s.ttl.value != [] then s.ttl.value else s.narration
  }

  function SpeechKey(s: Scene): seq<string> {
    ["tts", SpeechText(s)]
  }

  function ImagesKey(description: string): seq<string> {
    ["images", description]
  }

  const SafeSuffix: string := ". Please render fully family-friendly."

  /** The number of images asked of the fallback. */
  const FallbackCount: nat := 2

  // ---------------------------------------------------------------------
  // Speech.

  /** The speech producer: synthesise into the scene's narration file and
      return its path. */
  function SpeechProducer(svc: Services, s: Scene): Fs -> Run<BinValue> {
    fs =>
      var path := NarrationPath(s.sceneNumber);
      match svc.synthesize(s, path)
      case Err(e) => Run(Err(e), fs)
      case Ok(audio) => Run(Ok(FilePath(path)), fs[path := Bytes(audio)])
  }

  /** `cachedWithLog(["tts", ttl || narration], ..., "binary")`. */
  function Speak(svc: Services, fs: Fs, s: Scene): Call<string> {
    CachedBinary(fs, svc.hash, SpeechKey(s), SpeechProducer(svc, s))
  }

  /** The speech of a scene lands in the cache file of its speech text;
      the synthesiser runs only on a miss, and when it succeeds so does
      the call. */
  lemma {:induction false} SpeakStores(svc: Services, fs: Fs, s: Scene)
    ensures var c := Speak(svc, fs, s);
      var file := BinPath(MakeKey(svc.hash, SpeechKey(s)));
      && (c.out.Ok? ==> c.out.value == file && file in c.fs)
      && (c.produced <==> file !in fs)
      && (c.produced ==> (c.out.Ok? <==> svc.synthesize(s, NarrationPath(s.sceneNumber)).Ok?))
  {
  }

  /** Two scenes with the same speech text share one audio file: once the
      first has been spoken, the second is a hit and nothing is
      synthesised for it. */
  lemma {:induction false} SameSpeechShared(svc: Services, fs: Fs, s1: Scene, s2: Scene)
    requires SpeechText(s1) == SpeechText(s2)
    requires Speak(svc, fs, s1).out.Ok?
    ensures var first := Speak(svc, fs, s1);
      var second := Speak(svc, first.fs, s2);
      !second.produced && second.out == first.out
  {
  }

  // ---------------------------------------------------------------------
  // Images.

  /** The three ways of getting images, in the order they are tried. */
  datatype Source = CachedPrimary | SafePrimary | Fallback

  const Strategies: seq<Source> := [CachedPrimary, SafePrimary, Fallback]

  function ToJson(paths: seq<string>): (j: Json)
    ensures j.JArray? && |j.items| == |paths|
  {
    JArray(seq(|paths|, i requires 0 <= i < |paths| => JString(paths[i])))
  }

  /** The image paths a cached document lists, when it is a list of
      strings. */
  function FromJson(j: Json): Option<seq<string>> {
    if j.JArray? && forall i :: 0 <= i < |j.items| ==> j.items[i].JString?
    then Some(seq(|j.items|, i requires 0 <= i < |j.items| => j.items[i].str))
    else None
  }

  lemma {:induction false} JsonRoundTrip(paths: seq<string>)
    ensures FromJson(ToJson(paths)) == Some(paths)
  {
    var back := FromJson(ToJson(paths));
    assert back.Some?;
    assert back.value == paths;
  }

  /** The generator's images as a cached JSON document. */
  function ImagesProducer(svc: Services, description: string): Fs -> Run<Json> {
    fs =>
      match svc.generate(description)
      case Err(e) => Run(Err(e), fs)
      case Ok(paths) => Run(Ok(ToJson(paths)), fs)
  }

  function CachedImages(svc: Services, fs: Fs, description: string): Call<Json> {
    CachedJson(fs, svc.hash, ImagesKey(description), ImagesProducer(svc, description))
  }

  /** What one strategy yields when it is tried (the cached primary against
      the file system `fs`). */
  function Attempt(svc: Services, fs: Fs, description: string, src: Source): Result<seq<string>> {
    match src
    case CachedPrimary =>
      (match CachedImages(svc, fs, description).out
       case Err(e) => Err(e)
       case Ok(j) =>
         (match FromJson(j)
          case None => Err("cached images are not a list")
          case Some(paths) => Ok(paths)))
    case SafePrimary => svc.generate(description + SafeSuffix)
    case Fallback => svc.fallback(description, FallbackCount)
  }

  /** A strategy's result is taken when it succeeded with at least one
      image; the fallback's is taken even when it is empty. */
  predicate Accepts(src: Source, r: Result<seq<string>>) {
    r.Ok? && (src == Fallback || |r.value| > 0)
  }

  /** The images of one scene, the strategies tried, and the file system
      after the cache lookup. */
  datatype Acquired = Acquired(out: Result<seq<string>>, tried: seq<Source>, fs: Fs)

  /** The nested `try`/`catch` of the source: the cached primary, then, when
      it throws or yields nothing, the uncached primary with the
      family-friendly prompt, then, when that throws or yields nothing,
      the fallback for two images, whose result is taken as it is (and
      whose error rejects). */
  function AcquireImages(svc: Services, fs: Fs, description: string): Acquired {
    var call := CachedImages(svc, fs, description);
    var first := match call.out
      case Err(e) => Err(e)
      case Ok(j) => (match FromJson(j) case None => Err("cached images are not a list") case Some(p) => Ok(p));
    if first.Ok? && |first.value| > 0 then Acquired(first, [CachedPrimary], call.fs)
    else
      var second := svc.generate(description + SafeSuffix);
      if second.Ok? && |second.value| > 0 then Acquired(second, [CachedPrimary, SafePrimary], call.fs)
      else
        Acquired(svc.fallback(description, FallbackCount), Strategies, call.fs)
  }

  /** Image acquisition follows the strategy list: the strategies tried are
      a non-empty prefix of it, every one but the last was not accepted,
      and the result is the last one's when it is accepted and an error
      otherwise (which only the fallback can give). */
  lemma {:induction false} AcquireFollowsStrategies(svc: Services, fs: Fs, description: string)
    ensures var a := AcquireImages(svc, fs, description);
      var last := a.tried[|a.tried| - 1];
      && 1 <= |a.tried| <= |Strategies|
      && a.tried == Strategies[..|a.tried|]
      && (forall i :: 0 <= i < |a.tried| - 1 ==> !Accepts(a.tried[i], Attempt(svc, fs, description, a.tried[i])))
      && (Accepts(last, Attempt(svc, fs, description, last)) ==> a.out == Attempt(svc, fs, description, last))
      && (!Accepts(last, Attempt(svc, fs, description, last)) ==> last == Fallback && a.out.Err?)
      && a.fs == CachedImages(svc, fs, description).fs
  {
    var a := AcquireImages(svc, fs, description);
    if |a.tried| == 1 {
      assert Strategies[..1] == [CachedPrimary];
    } else if |a.tried| == 2 {
      assert Strategies[..2] == [CachedPrimary, SafePrimary];
    } else {
      assert Strategies[..3] == Strategies;
    }
  }

  /** An empty image list is cached like any other: once stored, the cached
      primary never produces again for that description, and every later
      acquisition goes on to the family-friendly retry. */
  lemma {:induction false} EmptyListStaysCached(svc: Services, fs: Fs, description: string)
    requires JsonPath(MakeKey(svc.hash, ImagesKey(description))) in fs
    requires fs[JsonPath(MakeKey(svc.hash, ImagesKey(description)))] == JsonDoc(ToJson([]))
    ensures var a := AcquireImages(svc, fs, description);
      !CachedImages(svc, fs, description).produced && |a.tried| >= 2 && a.fs == fs
  {
    JsonRoundTrip([]);
  }

  // ---------------------------------------------------------------------
  // Progress.

  datatype Stage =
    | Synthesizing(scene: int)      // "Scene n: synthesizing speech…"
    | GeneratingImages(scene: int)  // "Scene n: generating images…"
    | Completed(scene: int)         // "Completed scene n"
    | Stitching                     // "Stitching final video…"

  /** One `onProgress(done, total, stage)` call. */
  datatype Progress = Progress(done: nat, total: nat, stage: Stage)

  /** The three reports of scene `s`, processed when `done` scenes are. */
  function SceneReports(s: Scene, done: nat, total: nat): seq<Progress> {
    [Progress(done, total, Synthesizing(s.sceneNumber)),
     Progress(done, total, GeneratingImages(s.sceneNumber)),
     Progress(done + 1, total, Completed(s.sceneNumber))]
  }

  // ---------------------------------------------------------------------
  // All scenes.

  /** The outcome of `processScenes`: the scenes with their audio and
      images, or what rejected; the file system after; the progress
      reports made. */
  datatype Processed = Processed(out: Result<seq<Scene>>, fs: Fs, reports: seq<Progress>)

  /** One scene, `done` of `total` being finished: speech, then images,
      with the reports made on the way. A speech or fallback error rejects
      after the reports made so far. */
  function ProcessScene(svc: Services, fs: Fs, s: Scene, done: nat, total: nat): (r: Processed)
    ensures fs.Keys <= r.fs.Keys
    ensures r.out.Ok? ==> |r.out.value| == 1 && r.reports == SceneReports(s, done, total)
    ensures r.out.Ok? ==>
      && r.out.value[0] == s.(audio := r.out.value[0].audio, images := r.out.value[0].images)
      && r.out.value[0].audio == Some(BinPath(MakeKey(svc.hash, SpeechKey(s))))
      && r.out.value[0].audio.value in r.fs
      && AcquireImages(svc, Speak(svc, fs, s).fs, s.description).out == Ok(r.out.value[0].images)
  {
    var spoken := Speak(svc, fs, s);
    var synth := Progress(done, total, Synthesizing(s.sceneNumber));
    match spoken.out
    case Err(e) => Processed(Err(e), spoken.fs, [synth])
    case Ok(audio) =>
      var got := AcquireImages(svc, spoken.fs, s.description);
      var gen := Progress(done, total, GeneratingImages(s.sceneNumber));
      match got.out
      case Err(e) => Processed(Err(e), got.fs, [synth, gen])
      case Ok(images) =>
        Processed(Ok([s.(audio := Some(audio), images := images)]), got.fs,
                  [synth, gen, Progress(done + 1, total, Completed(s.sceneNumber))])
  }

  /** The scenes from `scenes`, `done` of `total` being finished. */
  function ProcessFrom(svc: Services, fs: Fs, scenes: seq<Scene>, done: nat, total: nat): (r: Processed)
    ensures fs.Keys <= r.fs.Keys
    ensures r.out.Ok? ==> |r.out.value| == |scenes|
    ensures r.out.Ok? ==> |r.reports| == 3 * |scenes|
    decreases |scenes|
  {
    if scenes == [] then Processed(Ok([]), fs, [])
    else
      var one := ProcessScene(svc, fs, scenes[0], done, total);
      match one.out
      case Err(e) => one
      case Ok(s1) =>
        var rest := ProcessFrom(svc, one.fs, scenes[1..], done + 1, total);
        var reports := one.reports + rest.reports;
        match rest.out
        case Err(e) => Processed(Err(e), rest.fs, reports)
        case Ok(ss) => Processed(Ok(s1 + ss), rest.fs, reports)
  }

  /** `processScenes(scenes)`: every scene in turn, then "Stitching" with
      `done` as it stands. */
  function ProcessScenes(svc: Services, fs: Fs, scenes: seq<Scene>): (r: Processed)
    ensures r.out.Ok? ==> |r.out.value| == |scenes|
  {
    var run := ProcessFrom(svc, fs, scenes, 0, |scenes|);
    match run.out
    case Err(_) => run
    case Ok(_) => Processed(run.out, run.fs, run.reports + [Progress(|scenes|, |scenes|, Stitching)])
  }

  /** The reports of `scenes` processed one after another from `done`
      finished scenes on, when none of them fails. */
  function ExpectedReports(scenes: seq<Scene>, done: nat, total: nat): (r: seq<Progress>)
    ensures |r| == 3 * |scenes|
    decreases |scenes|
  {
    if scenes == [] then [] else SceneReports(scenes[0], done, total) + ExpectedReports(scenes[1..], done + 1, total)
  }

  /** The number of scenes completed once report `j` of a run is made. */
  function DoneBy(j: nat): nat {
    j / 3 + (if j % 3 == 2 then 1 else 0)
  }

  lemma {:induction false} DoneByBounds(j: nat, n: nat)
    requires j < 3 * n
    ensures DoneBy(j) <= n
    ensures DoneBy(j) <= DoneBy(j + 1)
    ensures DoneBy(3 * n) == n
  {
  }

  /** Report `j` of the expected ones: `done` counts the scenes completed
      by then, the total never changes, and every third report is the
      completion of the next scene. */
  lemma {:induction false} ExpectedAt(scenes: seq<Scene>, done: nat, total: nat, j: nat)
    requires j < 3 * |scenes|
    ensures var p := ExpectedReports(scenes, done, total)[j];
      && p.done == done + DoneBy(j)
      && p.total == total
      && (j % 3 == 2 ==> p.stage == Completed(scenes[j / 3].sceneNumber))
    decreases |scenes|
  {
    var rest := ExpectedReports(scenes[1..], done + 1, total);
    assert ExpectedReports(scenes, done, total) == SceneReports(scenes[0], done, total) + rest;
    if j >= 3 {
      ExpectedAt(scenes[1..], done + 1, total, j - 3);
      assert (j - 3) / 3 == j / 3 - 1 && (j - 3) % 3 == j % 3;
      assert scenes[1..][j / 3 - 1] == scenes[j / 3];
    }
  }

  /** A run that finishes makes exactly the expected reports. */
  lemma {:induction false} ProcessFromReports(svc: Services, fs: Fs, scenes: seq<Scene>, done: nat, total: nat)
    requires ProcessFrom(svc, fs, scenes, done, total).out.Ok?
    ensures ProcessFrom(svc, fs, scenes, done, total).reports == ExpectedReports(scenes, done, total)
    decreases |scenes|
  {
    if scenes != [] {
      var one := ProcessScene(svc, fs, scenes[0], done, total);
      ProcessFromReports(svc, one.fs, scenes[1..], done + 1, total);
    }
  }

  /** The expected reports followed by "Stitching" have the promised shape. */
  lemma {:induction false} ReportsShape(scenes: seq<Scene>, reports: seq<Progress>)
    requires reports == ExpectedReports(scenes, 0, |scenes|) + [Progress(|scenes|, |scenes|, Stitching)]
    ensures var n := |scenes|;
      && |reports| == 3 * n + 1
      && reports[3 * n] == Progress(n, n, Stitching)
      && (forall i :: 0 <= i < n ==> reports[3 * i + 2] == Progress(i + 1, n, Completed(scenes[i].sceneNumber)))
      && (forall j :: 0 <= j < |reports| ==> reports[j].done <= reports[j].total == n)
      && (forall j :: 0 <= j < |reports| - 1 ==> reports[j].done <= reports[j + 1].done)
  {
    var n := |scenes|;
    forall j | 0 <= j < 3 * n
      ensures reports[j].done == DoneBy(j) && reports[j].total == n
    {
      ExpectedAt(scenes, 0, n, j);
    }
    forall j | 0 <= j < |reports|
      ensures reports[j].done == DoneBy(j) <= n && reports[j].total == n
    {
      if j < 3 * n { DoneByBounds(j, n); } else { DoneByBounds(0, 1); assert DoneBy(3 * n) == n; }
    }
    forall j | 0 <= j < |reports| - 1
      ensures reports[j].done <= reports[j + 1].done
    {
      DoneByBounds(j, n);
    }
    forall i | 0 <= i < n
      ensures reports[3 * i + 2] == Progress(i + 1, n, Completed(scenes[i].sceneNumber))
    {
      ExpectedAt(scenes, 0, n, 3 * i + 2);
      assert (3 * i + 2) / 3 == i && (3 * i + 2) % 3 == 2;
    }
  }

  /** A finished run reports three times per scene in input order, "done"
      counting the completed scenes exactly and never passing the total,
      and ends with "Stitching" at `done == total`. */
  lemma {:induction false} ProgressCounts(svc: Services, fs: Fs, scenes: seq<Scene>)
    requires ProcessScenes(svc, fs, scenes).out.Ok?
    ensures var r := ProcessScenes(svc, fs, scenes);
      var n := |scenes|;
      && |r.reports| == 3 * n + 1
      && r.reports[3 * n] == Progress(n, n, Stitching)
      && (forall i :: 0 <= i < n ==> r.reports[3 * i + 2] == Progress(i + 1, n, Completed(scenes[i].sceneNumber)))
      && (forall j :: 0 <= j < |r.reports| ==> r.reports[j].done <= r.reports[j].total == n)
      && (forall j :: 0 <= j < |r.reports| - 1 ==> r.reports[j].done <= r.reports[j + 1].done)
  {
    var n := |scenes|;
    var r := ProcessScenes(svc, fs, scenes);
    ProcessFromReports(svc, fs, scenes, 0, n);
    assert r.reports == ExpectedReports(scenes, 0, n) + [Progress(n, n, Stitching)];
    ReportsShape(scenes, r.reports);
  }

  /** What processing made of scene `s` when its turn began with the files
      `before`: `t` is `s` with its text unchanged, with the cache file of
      its speech text as audio, present in `files`, and with the images
      acquisition returned for its description once its speech was done. */
  predicate ProcessedAs(svc: Services, before: Fs, files: Fs, s: Scene, t: Scene) {
    && t == s.(audio := t.audio, images := t.images)
    && t.audio == Some(BinPath(MakeKey(svc.hash, SpeechKey(s))))
    && t.audio.value in files
    && AcquireImages(svc, Speak(svc, before, s).fs, s.description).out == Ok(t.images)
  }

  /** A finished run keeps the scenes in order with their text unchanged,
      gives each the cache file of its speech text as audio, which exists
      afterwards, and gives scene `i` the images its description acquired
      in the files left by the run over the scenes before it. */
  lemma {:induction false} ProcessFromScenes(svc: Services, fs: Fs, scenes: seq<Scene>, done: nat, total: nat)
    requires ProcessFrom(svc, fs, scenes, done, total).out.Ok?
    ensures var r := ProcessFrom(svc, fs, scenes, done, total);
      forall i :: 0 <= i < |scenes| ==>
        ProcessedAs(svc, ProcessFrom(svc, fs, scenes[..i], done, total).fs, r.fs, scenes[i], r.out.value[i])
    decreases |scenes|
  {
    if scenes != [] {
      var r := ProcessFrom(svc, fs, scenes, done, total);
      var one := ProcessScene(svc, fs, scenes[0], done, total);
      var rest := ProcessFrom(svc, one.fs, scenes[1..], done + 1, total);
      ProcessFromSplit(svc, fs, scenes, done, total);
      ProcessFromScenes(svc, one.fs, scenes[1..], done + 1, total);
      HeadProcessed(svc, fs, scenes[0], done, total, r.fs);
      forall i | 0 <= i < |scenes|
        ensures ProcessedAs(svc, ProcessFrom(svc, fs, scenes[..i], done, total).fs, r.fs, scenes[i], r.out.value[i])
      {
        if i > 0 {
          PrefixRunFiles(svc, fs, scenes, done, total, i);
          assert r.out.value[i] == rest.out.value[i - 1] && scenes[i] == scenes[1..][i - 1];
        } else {
          assert scenes[..0] == [];
        }
      }
    }
  }

  /** A finished run over a non-empty list is its first scene's run
      followed by the run over the others. */
  lemma {:induction false} ProcessFromSplit(svc: Services, fs: Fs, scenes: seq<Scene>, done: nat, total: nat)
    requires scenes != [] && ProcessFrom(svc, fs, scenes, done, total).out.Ok?
    ensures var r := ProcessFrom(svc, fs, scenes, done, total);
      var one := ProcessScene(svc, fs, scenes[0], done, total);
      var rest := ProcessFrom(svc, one.fs, scenes[1..], done + 1, total);
      && one.out.Ok? && rest.out.Ok?
      && r.out.value == one.out.value + rest.out.value
      && r.fs == rest.fs
      && one.fs.Keys <= r.fs.Keys
  {
  }

  /** Once the first scene succeeds, the files after the first `i` scenes
      are the files after the next `i - 1` scenes run from its files. */
  lemma {:induction false} PrefixRunFiles(svc: Services, fs: Fs, scenes: seq<Scene>, done: nat, total: nat, i: nat)
    requires 0 < i <= |scenes|
    requires ProcessScene(svc, fs, scenes[0], done, total).out.Ok?
    ensures var one := ProcessScene(svc, fs, scenes[0], done, total);
      ProcessFrom(svc, fs, scenes[..i], done, total).fs
        == ProcessFrom(svc, one.fs, scenes[1..][..i - 1], done + 1, total).fs
  {
    assert scenes[..i][0] == scenes[0];
    assert scenes[..i][1..] == scenes[1..][..i - 1];
  }

  lemma {:induction false} HeadProcessed(svc: Services, fs: Fs, s: Scene, done: nat, total: nat, files: Fs)
    requires ProcessScene(svc, fs, s, done, total).out.Ok?
    requires ProcessScene(svc, fs, s, done, total).fs.Keys <= files.Keys
    ensures ProcessedAs(svc, fs, files, s, ProcessScene(svc, fs, s, done, total).out.value[0])
  {
  }

  /** A speech error rejects the whole run: the first scene's synthesis
      failing on a cache miss leaves no scenes and no "Completed" report. */
  lemma {:induction false} SpeechErrorRejects(svc: Services, fs: Fs, scenes: seq<Scene>)
    requires scenes != []
    requires BinPath(MakeKey(svc.hash, SpeechKey(scenes[0]))) !in fs
    requires svc.synthesize(scenes[0], NarrationPath(scenes[0].sceneNumber)).Err?
    ensures var r := ProcessScenes(svc, fs, scenes);
      r.out.Err? && |r.reports| == 1 && r.reports[0].stage == Synthesizing(scenes[0].sceneNumber)
  {
  }

  // ---------------------------------------------------------------------
  // Processing, then assembly.

  /** `processScenes` through to `createVideoFromScenes`: the files that
      exist for assembly are the ones in the file system after processing
      together with the downloaded images `downloaded`. */
  function Pipeline(svc: Services, fs: Fs, scenes: seq<Scene>, downloaded: set<string>,
                    probe: string -> Result<real>, outputPath: string): (r: Option<Assembly.Outcome>)
    ensures r.Some? <==> ProcessScenes(svc, fs, scenes).out.Ok?
    ensures r.Some? ==>
      var p := ProcessScenes(svc, fs, scenes);
      r.value == Assembly.CreateVideo(p.out.value, p.fs.Keys + downloaded, probe, outputPath)
  {
    var p := ProcessScenes(svc, fs, scenes);
    match p.out
    case Err(_) => None
    case Ok(done) => Some(Assembly.CreateVideo(done, p.fs.Keys + downloaded, probe, outputPath))
  }

  /** Every processed scene's audio exists when assembly looks for it, so
      after a finished run a scene gets a clip exactly when one of its
      images exists. */
  lemma {:induction false} ProcessedScenesEligibleIff(svc: Services, fs: Fs, scenes: seq<Scene>, downloaded: set<string>)
    requires ProcessScenes(svc, fs, scenes).out.Ok?
    ensures var p := ProcessScenes(svc, fs, scenes);
      forall i :: 0 <= i < |p.out.value| ==>
        var existing := p.fs.Keys + downloaded;
        Assembly.Eligible(p.out.value[i], existing) <==> Assembly.ExistingImages(p.out.value[i].images, existing) != []
  {
    var p := ProcessScenes(svc, fs, scenes);
    var run := ProcessFrom(svc, fs, scenes, 0, |scenes|);
    ProcessFromScenes(svc, fs, scenes, 0, |scenes|);
    assert p.out == run.out && p.fs == run.fs;
  }
}
