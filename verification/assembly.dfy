/**
  The planning side of backend/createVideoFromScenes.js: which scenes get a
  clip, which images and timing each clip uses, and how the clips are put
  together at the end. File existence is a set of paths, the audio
  duration comes from a `probe` parameter standing in for ffprobe, and the
  ffmpeg runs themselves are described by the `Clip` they would render.
*/
module Assembly {
  import opened Results
  import opened JsText
  import opened Scenes
  import opened Timing
  import opened FilterGraph

  /** `path.join(__dirname, "temp_clips")`. */
  const TempDir: string := "backend/temp_clips"

  /** The clip of scene `n`: `temp_clips/scene_<n>.mp4`. */
  function SceneOut(n: int): string {
    TempDir + "/scene_" + IntToString(n) + ".mp4"
  }

  /** The silent cross-faded video of scene `n`, before the audio is merged. */
  function IntermediateOut(n: int): string {
    TempDir + "/scene_" + IntToString(n) + "_img.mp4"
  }

  /** The concat demuxer's list file. */
  const ListPath: string := TempDir + "/concat.txt"

  // ---------------------------------------------------------------------
  // Eligibility.

  /** `(scene.images || []).filter(f => fs.existsSync(f))`. */
  function ExistingImages(images: seq<string>, existing: set<string>): (r: seq<string>)
    ensures |r| <= |images|
    ensures forall f :: f in r <==> f in images && f in existing
  {
    if images == [] then []
    else if images[0] in existing then [images[0]] + ExistingImages(images[1..], existing)
    else ExistingImages(images[1..], existing)
  }

  /** The filter keeps order: filtering a concatenation concatenates the
      filtered parts, so with the one-image case the existing images come
      out in their original order, repeats included. */
  lemma {:induction false} ExistingImagesAppend(a: seq<string>, b: seq<string>, existing: set<string>)
    ensures ExistingImages(a + b, existing) == ExistingImages(a, existing) + ExistingImages(b, existing)
    decreases |a|
  {
    if a == [] {
      assert a + b == b;
    } else {
      assert (a + b)[0] == a[0] && (a + b)[1..] == a[1..] + b;
      ExistingImagesAppend(a[1..], b, existing);
    }
  }

  /** One image is kept exactly when it exists. */
  lemma {:induction false} ExistingImagesSingle(f: string, existing: set<string>)
    ensures ExistingImages([f], existing) == if f in existing then [f] else []
  {
    assert [f][1..] == [];
  }

  /** A scene gets a clip when one of its images and its audio file exist. */
  predicate Eligible(s: Scene, existing: set<string>) {
    ExistingImages(s.images, existing) != [] && s.audio.Some? && s.audio.value in existing
  }

  /** The scenes that get a clip, in input order. */
  function EligibleScenes(scenes: seq<Scene>, existing: set<string>): (r: seq<Scene>)
    ensures |r| <= |scenes|
    ensures forall i :: 0 <= i < |r| ==> Eligible(r[i], existing)
  {
    if scenes == [] then []
    else if Eligible(scenes[0], existing) then [scenes[0]] + EligibleScenes(scenes[1..], existing)
    else EligibleScenes(scenes[1..], existing)
  }

  /** The scene filter keeps input order: filtering a concatenation
      concatenates the filtered parts (the one-scene case is `SkippedIff`). */
  lemma {:induction false} EligibleScenesAppend(a: seq<Scene>, b: seq<Scene>, existing: set<string>)
    ensures EligibleScenes(a + b, existing) == EligibleScenes(a, existing) + EligibleScenes(b, existing)
    decreases |a|
  {
    if a == [] {
      assert a + b == b;
    } else {
      assert (a + b)[0] == a[0] && (a + b)[1..] == a[1..] + b;
      EligibleScenesAppend(a[1..], b, existing);
    }
  }

  /** The scenes kept are exactly the eligible ones. */
  lemma {:induction false} EligibleScenesMembers(scenes: seq<Scene>, existing: set<string>)
    ensures forall s :: s in EligibleScenes(scenes, existing) <==> s in scenes && Eligible(s, existing)
  {
    if scenes != [] {
      EligibleScenesMembers(scenes[1..], existing);
      assert scenes == [scenes[0]] + scenes[1..];
    }
  }

  /** A scene is skipped exactly when none of its images exists or its
      audio file does not. */
  lemma {:induction false} SkippedIff(s: Scene, existing: set<string>)
    ensures EligibleScenes([s], existing) == [] <==>
      ((forall f :: f in s.images ==> f !in existing) || s.audio.None? || s.audio.value !in existing)
  {
    var imgs := ExistingImages(s.images, existing);
    if imgs != [] {
      assert imgs[0] in s.images && imgs[0] in existing;
    }
    assert [s][1..] == [];
  }

  // ---------------------------------------------------------------------
  // One clip.

  /** What ffmpeg is asked to render for one scene: a looped still image,
      or a cross-fade of several images followed by an audio merge. */
  datatype Clip =
    | StillClip(image: string, audio: string, duration: real, out: string)
    | CrossfadeClip(images: seq<string>, segments: seq<real>, graph: seq<Node>,
                    audio: string, duration: real, intermediate: string, out: string)

  /** The images a clip shows. */
  function ClipImages(c: Clip): seq<string> {
    match c
    case StillClip(img, _, _, _) => [img]
    case CrossfadeClip(imgs, _, _, _, _, _, _) => imgs
  }

  /** The clip of an eligible scene whose audio lasts `d` seconds: one
      existing image loops when there is only one, and also when only one
      slot fits; otherwise the first `Slots` existing images are
      cross-faded. */
  function PlanClip(s: Scene, existing: set<string>, d: real): Clip
    requires Eligible(s, existing)
  {
    var imgs := ExistingImages(s.images, existing);
    var audio := s.audio.value;
    var out := SceneOut(s.sceneNumber);
    if |imgs| == 1 then StillClip(imgs[0], audio, d, out)
    else
      var k := Slots(d, |imgs|);
      var picked := imgs[..k];
      if k == 1 then StillClip(picked[0], audio, d, out)
      else
        var segs := Segments(d, k);
        CrossfadeClip(picked, segs, BuildGraph(k, Offsets(segs)), audio, d, IntermediateOut(s.sceneNumber), out)
  }

  /** A clip shows the first `Slots` existing images, loops a still image
      exactly when one slot fits, plays the scene's audio for its whole
      length into `scene_<n>.mp4`, and, when it cross-fades, splits the
      length into segments of at least `minSec` that add up to it, joined
      by a well-wired graph of `2k - 1` nodes. */
  lemma {:induction false} PlanClipFacts(s: Scene, existing: set<string>, d: real)
    requires Eligible(s, existing)
    ensures var c := PlanClip(s, existing, d);
      var imgs := ExistingImages(s.images, existing);
      var k := Slots(d, |imgs|);
      && ClipImages(c) == imgs[..k]
      && (c.StillClip? <==> k == 1)
      && c.audio == s.audio.value && c.duration == d
      && c.out == SceneOut(s.sceneNumber)
      && (c.CrossfadeClip? ==>
            && Sum(c.segments) == d
            && (forall j :: 0 <= j < |c.segments| ==> c.segments[j] >= MinSec)
            && |c.graph| == 2 * k - 1
            && WellWired(c.graph)
            && c.intermediate == IntermediateOut(s.sceneNumber))
  {
    var imgs := ExistingImages(s.images, existing);
    var k := Slots(d, |imgs|);
    var c := PlanClip(s, existing, d);
    if |imgs| == 1 {
      assert c == StillClip(imgs[0], s.audio.value, d, SceneOut(s.sceneNumber));
      assert imgs[..1] == [imgs[0]];
    } else if k == 1 {
      assert c == StillClip(imgs[..1][0], s.audio.value, d, SceneOut(s.sceneNumber));
      assert imgs[..1] == [imgs[0]];
    } else {
      var segs := Segments(d, k);
      assert c == CrossfadeClip(imgs[..k], segs, BuildGraph(k, Offsets(segs)), s.audio.value, d,
        IntermediateOut(s.sceneNumber), SceneOut(s.sceneNumber));
      CrossfadeClipFacts(d, |imgs|);
    }
  }

  /** The segments and graph of a cross-fade over `n` images lasting `d`. */
  lemma {:induction false} CrossfadeClipFacts(d: real, n: nat)
    requires Slots(d, n) >= 2
    ensures var k := Slots(d, n);
      var segs := Segments(d, k);
      && Sum(segs) == d
      && (forall j :: 0 <= j < |segs| ==> segs[j] >= MinSec)
      && |BuildGraph(k, Offsets(segs))| == 2 * k - 1
      && WellWired(BuildGraph(k, Offsets(segs)))
  {
    var k := Slots(d, n);
    SegmentsAtLeastMinSec(d, n);
    GraphWellWired(k, Offsets(Segments(d, k)));
  }

  /** A scene shorter than two slots loops its first existing image, however
      many images exist. */
  lemma {:induction false} ShortSceneIsStill(s: Scene, existing: set<string>, d: real)
    requires Eligible(s, existing) && d < 2.0 * MinSec
    ensures PlanClip(s, existing, d) == StillClip(ExistingImages(s.images, existing)[0], s.audio.value, d, SceneOut(s.sceneNumber))
  {
  }

  /** The cross-fade clip, spelled out. */
  lemma {:induction false} PlanClipCrossfade(s: Scene, existing: set<string>, d: real)
    requires Eligible(s, existing) && Slots(d, |ExistingImages(s.images, existing)|) >= 2
    ensures var imgs := ExistingImages(s.images, existing);
      var k := Slots(d, |imgs|);
      var segs := Segments(d, k);
      && PlanClip(s, existing, d).CrossfadeClip?
      && PlanClip(s, existing, d).segments == segs
      && PlanClip(s, existing, d).graph == BuildGraph(k, Offsets(segs))
  {
  }

  /** The cross-fade graph of `k` images over `d` seconds serialises to the
      text the source builds, and each transition starts strictly after the
      one before, at 2 seconds or later. */
  lemma {:induction false} CrossfadeTimeline(d: real, n: nat, fmt: real -> string)
    requires Slots(d, n) >= 2
    ensures var segs := Segments(d, Slots(d, n));
      var g := BuildGraph(Slots(d, n), Offsets(segs));
      && Serialize(g, fmt) == FilterAsBuilt(segs, fmt)
      && (forall j :: |segs| <= j < |g| ==> g[j].Xfade? && g[j].offset >= 2.0)
      && (forall j :: |segs| <= j < |g| - 1 ==> g[j].offset < g[j + 1].offset)
  {
    var k := Slots(d, n);
    var segs := Segments(d, k);
    SerializeMatchesSource(segs, fmt);
    OffsetsIncreasing(d, n);
    CrossfadeOffsets(k, Offsets(segs));
  }

  /** A cross-fade clip's filter text is the one the source builds, and its
      transitions start at 2 seconds or later, each after the one before. */
  lemma {:induction false} CrossfadeFilter(s: Scene, existing: set<string>, d: real, fmt: real -> string)
    requires Eligible(s, existing) && Slots(d, |ExistingImages(s.images, existing)|) >= 2
    ensures var c := PlanClip(s, existing, d);
      && c.CrossfadeClip?
      && |c.segments| >= 2
      && Serialize(c.graph, fmt) == FilterAsBuilt(c.segments, fmt)
      && (forall j :: |c.segments| <= j < |c.graph| ==> c.graph[j].Xfade? && c.graph[j].offset >= 2.0)
      && (forall j :: |c.segments| <= j < |c.graph| - 1 ==> c.graph[j].offset < c.graph[j + 1].offset)
  {
    PlanClipCrossfade(s, existing, d);
    CrossfadeTimeline(d, |ExistingImages(s.images, existing)|, fmt);
  }

  /** Cross-fade node `j` carries offset `j - k`. */
  lemma {:induction false} CrossfadeOffsets(k: nat, offsets: seq<real>)
    requires k >= 2 && |offsets| == k - 1
    ensures var g := BuildGraph(k, offsets);
      forall j :: k <= j < |g| ==> g[j].Xfade? && g[j].offset == offsets[j - k]
  {
    forall j | k <= j < 2 * k - 1
      ensures BuildGraph(k, offsets)[j].Xfade? && BuildGraph(k, offsets)[j].offset == offsets[j - k]
    {
      GraphShape(k, offsets, j);
    }
  }

  // ---------------------------------------------------------------------
  // All clips.

  /** Every eligible scene's audio could be probed. */
  predicate AllProbed(scenes: seq<Scene>, probe: string -> Result<real>) {
    forall i :: 0 <= i < |scenes| ==> scenes[i].audio.Some? && probe(scenes[i].audio.value).Ok?
  }

  /** The clips of a list of eligible scenes, one per scene in order. */
  function PlanAll(scenes: seq<Scene>, existing: set<string>, probe: string -> Result<real>): (r: seq<Clip>)
    requires forall i :: 0 <= i < |scenes| ==> Eligible(scenes[i], existing)
    requires AllProbed(scenes, probe)
    ensures |r| == |scenes|
  {
    if scenes == [] then []
    else
      assert AllProbed(scenes[1..], probe) by {
        forall i | 0 <= i < |scenes| - 1
          ensures scenes[1..][i].audio.Some? && probe(scenes[1..][i].audio.value).Ok?
        {
          assert scenes[1..][i] == scenes[i + 1];
        }
      }
      [PlanClip(scenes[0], existing, probe(scenes[0].audio.value).value)] + PlanAll(scenes[1..], existing, probe)
  }

  /** Clip `i` is the clip of scene `i`. */
  lemma {:induction false} PlanAllAt(scenes: seq<Scene>, existing: set<string>, probe: string -> Result<real>, i: nat)
    requires forall j :: 0 <= j < |scenes| ==> Eligible(scenes[j], existing)
    requires AllProbed(scenes, probe)
    requires i < |scenes|
    ensures PlanAll(scenes, existing, probe)[i] == PlanClip(scenes[i], existing, probe(scenes[i].audio.value).value)
  {
    if i > 0 {
      assert AllProbed(scenes[1..], probe) by {
        forall j | 0 <= j < |scenes| - 1
          ensures scenes[1..][j].audio.Some? && probe(scenes[1..][j].audio.value).Ok?
        {
          assert scenes[1..][j] == scenes[j + 1];
        }
      }
      PlanAllAt(scenes[1..], existing, probe, i - 1);
      assert scenes[1..][i - 1] == scenes[i];
    }
  }

  /** Probing one more scene first: the run goes on exactly when its probe
      succeeds and the rest do. */
  lemma {:induction false} ProbedCons(s: Scene, rest: seq<Scene>, probe: string -> Result<real>)
    requires s.audio.Some? && probe(s.audio.value).Ok?
    ensures AllProbed([s] + rest, probe) <==> AllProbed(rest, probe)
  {
    var e := [s] + rest;
    assert forall i :: 0 < i < |e| ==> e[i] == rest[i - 1];
    if AllProbed(e, probe) {
      forall i | 0 <= i < |rest|
        ensures rest[i].audio.Some? && probe(rest[i].audio.value).Ok?
      {
        assert rest[i] == e[i + 1];
      }
    }
  }

  /** The clip of a scene probed first comes first. */
  lemma {:induction false} PlanAllCons(s: Scene, rest: seq<Scene>, existing: set<string>, probe: string -> Result<real>, d: real)
    requires Eligible(s, existing) && probe(s.audio.value) == Ok(d)
    requires forall i :: 0 <= i < |rest| ==> Eligible(rest[i], existing)
    requires AllProbed([s] + rest, probe) && AllProbed(rest, probe)
    ensures PlanAll([s] + rest, existing, probe) == [PlanClip(s, existing, d)] + PlanAll(rest, existing, probe)
  {
    assert ([s] + rest)[1..] == rest;
  }

  lemma {:induction false} ProbedStep(s: Scene, rest: seq<Scene>, existing: set<string>, probe: string -> Result<real>, d: real)
    requires Eligible(s, existing) && probe(s.audio.value) == Ok(d)
    requires forall i :: 0 <= i < |rest| ==> Eligible(rest[i], existing)
    ensures AllProbed([s] + rest, probe) <==> AllProbed(rest, probe)
    ensures AllProbed(rest, probe) ==>
      PlanAll([s] + rest, existing, probe) == [PlanClip(s, existing, d)] + PlanAll(rest, existing, probe)
  {
    ProbedCons(s, rest, probe);
    if AllProbed(rest, probe) {
      PlanAllCons(s, rest, existing, probe, d);
    }
  }

  /** The `for (const scene of scenes)` loop: skip a scene that is not
      eligible, probe the audio of one that is (a probe failure ends the
      whole run), and append its clip. */
  function AssembleFrom(scenes: seq<Scene>, existing: set<string>, probe: string -> Result<real>, acc: seq<Clip>): (r: Result<seq<Clip>>)
    ensures var e := EligibleScenes(scenes, existing);
      && (r.Ok? <==> AllProbed(e, probe))
      && (r.Ok? ==> r.value == acc + PlanAll(e, existing, probe))
    decreases |scenes|
  {
    if scenes == [] then Ok(acc)
    else
      var s := scenes[0];
      var rest := EligibleScenes(scenes[1..], existing);
      if !Eligible(s, existing) then AssembleFrom(scenes[1..], existing, probe, acc)
      else match probe(s.audio.value)
        case Err(e) => assert EligibleScenes(scenes, existing)[0] == s; Err(e)
        case Ok(d) =>
          var r := AssembleFrom(scenes[1..], existing, probe, acc + [PlanClip(s, existing, d)]);
          assert EligibleScenes(scenes, existing) == [s] + rest;
          AssembleStep(s, rest, existing, probe, acc, d, r);
          r
  }

  /** The step of `AssembleFrom` at an eligible scene whose probe succeeds. */
  lemma {:induction false} AssembleStep(s: Scene, rest: seq<Scene>, existing: set<string>, probe: string -> Result<real>, acc: seq<Clip>, d: real, r: Result<seq<Clip>>)
    requires Eligible(s, existing) && probe(s.audio.value) == Ok(d)
    requires forall i :: 0 <= i < |rest| ==> Eligible(rest[i], existing)
    requires r.Ok? <==> AllProbed(rest, probe)
    requires r.Ok? ==> r.value == acc + [PlanClip(s, existing, d)] + PlanAll(rest, existing, probe)
    ensures r.Ok? <==> AllProbed([s] + rest, probe)
    ensures r.Ok? ==> r.value == acc + PlanAll([s] + rest, existing, probe)
  {
    ProbedStep(s, rest, existing, probe, d);
    if r.Ok? {
      AppendAssoc(acc, [PlanClip(s, existing, d)], PlanAll(rest, existing, probe));
    }
  }

  lemma AppendAssoc<T>(a: seq<T>, b: seq<T>, c: seq<T>)
    ensures a + b + c == a + (b + c)
  {
  }


  /** The clips of a run, or the error that ended it. */
  function Assemble(scenes: seq<Scene>, existing: set<string>, probe: string -> Result<real>): (r: Result<seq<Clip>>)
    ensures var e := EligibleScenes(scenes, existing);
      && (r.Ok? <==> AllProbed(e, probe))
      && (r.Ok? ==> r.value == PlanAll(e, existing, probe))
  {
    AssembleFrom(scenes, existing, probe, [])
  }

  // ---------------------------------------------------------------------
  // Concatenation.

  /** How the clips become the output file. */
  datatype ConcatPlan =
    | NoOutput                                             // no clip: nothing is written
    | CopyClip(from: string, to: string)                   // one clip: copied as is
    | ConcatList(list: string, manifest: string, to: string) // several: concat demuxer

  function ManifestLine(p: string): string {
    "file '" + p + "'"
  }

  function ManifestLines(videos: seq<string>): (r: seq<string>)
    ensures |r| == |videos|
    ensures forall i :: 0 <= i < |videos| ==> r[i] == ManifestLine(videos[i])
  {
    seq(|videos|, i requires 0 <= i < |videos| => ManifestLine(videos[i]))
  }

  /** `sceneVideos.map(f => `file '${f}'`).join("\n")`. */
  function Manifest(videos: seq<string>): string {
    Join(ManifestLines(videos), "\n")
  }

  function ConcatDecision(videos: seq<string>, outputPath: string): (r: ConcatPlan)
    ensures r.NoOutput? <==> videos == []
    ensures r.CopyClip? <==> |videos| == 1
    ensures r.CopyClip? ==> r.from == videos[0] && r.to == outputPath
    ensures r.ConcatList? ==> r.list == ListPath && r.to == outputPath
  {
    if |videos| == 0 then NoOutput
    else if |videos| == 1 then CopyClip(videos[0], outputPath)
    else ConcatList(ListPath, Manifest(videos), outputPath)
  }

  /** The lines of a text, split at every `\n`. */
  function Lines(s: string): (r: seq<string>)
    ensures |r| >= 1
    decreases |s|
  {
    if s == [] then [[]]
    else if s[0] == '\n' then [[]] + Lines(s[1..])
    else var rest := Lines(s[1..]); [[s[0]] + rest[0]] + rest[1..]
  }

  /** The path on one manifest line, if it has the `file '...'` form. */
  function LinePath(l: string): Option<string> {
    if |l| >= 7 && l[..6] == "file '" && l[|l| - 1] == '\'' then Some(l[6..|l| - 1]) else None
  }

  /** The paths a manifest lists, in order. */
  function ParseManifest(m: string): (r: Option<seq<string>>) {
    var ls := Lines(m);
    if forall i :: 0 <= i < |ls| ==> LinePath(ls[i]).Some?
    then Some(seq(|ls|, i requires 0 <= i < |ls| => LinePath(ls[i]).value))
    else None
  }

  lemma {:induction false} LinesNoNewline(x: string)
    requires '\n' !in x
    ensures Lines(x) == [x]
    decreases |x|
  {
    if x != [] {
      LinesNoNewline(x[1..]);
      assert [x[0]] + x[1..] == x;
    }
  }

  lemma {:induction false} LinesCons(x: string, rest: string)
    requires '\n' !in x
    ensures Lines(x + "\n" + rest) == [x] + Lines(rest)
    decreases |x|
  {
    if x == [] {
      assert x + "\n" + rest == ['\n'] + rest;
      assert (['\n'] + rest)[1..] == rest;
    } else {
      var s := x + "\n" + rest;
      assert s[1..] == x[1..] + "\n" + rest;
      LinesCons(x[1..], rest);
      assert [x[0]] + x[1..] == x;
    }
  }

  /** Splitting a `\n`-join of newline-free texts at `\n` gives them back. */
  lemma {:induction false} LinesOfJoin(xs: seq<string>)
    requires |xs| >= 1
    requires forall i :: 0 <= i < |xs| ==> '\n' !in xs[i]
    ensures Lines(Join(xs, "\n")) == xs
    decreases |xs|
  {
    if |xs| == 1 {
      LinesNoNewline(xs[0]);
    } else {
      assert xs == [xs[0]] + xs[1..];
      JoinCons(xs[0], xs[1..], "\n");
      LinesCons(xs[0], Join(xs[1..], "\n"));
      LinesOfJoin(xs[1..]);
    }
  }

  /** The manifest lists the clips one per line, in the order they were
      produced, when no path contains a newline. */
  lemma {:induction false} ManifestRoundTrip(videos: seq<string>)
    requires |videos| >= 1
    requires forall i :: 0 <= i < |videos| ==> '\n' !in videos[i]
    ensures ParseManifest(Manifest(videos)) == Some(videos)
  {
    var lines := ManifestLines(videos);
    forall i | 0 <= i < |lines|
      ensures '\n' !in lines[i] && LinePath(lines[i]) == Some(videos[i])
    {
      var l := lines[i];
      assert l[..6] == "file '";
      assert l[6..|l| - 1] == videos[i];
    }
    LinesOfJoin(lines);
    var parsed := ParseManifest(Manifest(videos));
    assert parsed.Some?;
    assert parsed.value == videos;
  }

  // ---------------------------------------------------------------------
  // The whole run.

  /** How a call ends: the clips and the concat step, or the error the
      blanket `catch` logged. */
  datatype Outcome = Built(clips: seq<Clip>, concat: ConcatPlan) | Logged(reason: string)

  function ClipOuts(clips: seq<Clip>): (r: seq<string>)
    ensures |r| == |clips|
    ensures forall i :: 0 <= i < |clips| ==> r[i] == clips[i].out
  {
    seq(|clips|, i requires 0 <= i < |clips| => clips[i].out)
  }

  /** `createVideoFromScenes(scenes, outputPath)`. */
  function CreateVideo(scenes: seq<Scene>, existing: set<string>, probe: string -> Result<real>, outputPath: string): (r: Outcome)
    ensures r.Built? <==> Assemble(scenes, existing, probe).Ok?
  {
    match Assemble(scenes, existing, probe)
    case Err(e) => Logged(e)
    case Ok(clips) => Built(clips, ConcatDecision(ClipOuts(clips), outputPath))
  }

  /** The clip paths of the eligible scenes, in input order. */
  function SceneOuts(e: seq<Scene>): (r: seq<string>)
    ensures |r| == |e|
    ensures forall i :: 0 <= i < |e| ==> r[i] == SceneOut(e[i].sceneNumber)
  {
    seq(|e|, i requires 0 <= i < |e| => SceneOut(e[i].sceneNumber))
  }

  /** The clips of a run are written to the eligible scenes' clip paths, in
      input order. */
  lemma {:induction false} AssembledOuts(scenes: seq<Scene>, existing: set<string>, probe: string -> Result<real>)
    requires Assemble(scenes, existing, probe).Ok?
    ensures ClipOuts(Assemble(scenes, existing, probe).value) == SceneOuts(EligibleScenes(scenes, existing))
  {
    var e := EligibleScenes(scenes, existing);
    var clips := Assemble(scenes, existing, probe).value;
    forall i | 0 <= i < |e|
      ensures clips[i].out == SceneOut(e[i].sceneNumber)
    {
      PlanAllAt(e, existing, probe, i);
      PlanClipFacts(e[i], existing, probe(e[i].audio.value).value);
    }
  }

  lemma {:induction false} SceneOutOneLine(n: int)
    ensures '\n' !in SceneOut(n)
  {
    var digits := IntToString(n);
    assert forall c :: c in digits ==> c == '-' || IsDigit(c);
  }

  /** The clip paths are the eligible scenes' `scene_<n>.mp4`, in input
      order; no eligible scene writes nothing, one is copied, and several
      are listed in a manifest that names them in that order. */
  lemma {:induction false} CreateVideoConcat(scenes: seq<Scene>, existing: set<string>, probe: string -> Result<real>, outputPath: string)
    requires CreateVideo(scenes, existing, probe, outputPath).Built?
    ensures var e := EligibleScenes(scenes, existing);
      var r := CreateVideo(scenes, existing, probe, outputPath);
      && ClipOuts(r.clips) == SceneOuts(e)
      && (r.concat.NoOutput? <==> e == [])
      && (|e| == 1 ==> r.concat == CopyClip(SceneOut(e[0].sceneNumber), outputPath))
      && (|e| >= 2 ==> r.concat.ConcatList? && ParseManifest(r.concat.manifest) == Some(SceneOuts(e)))
  {
    var outs := SceneOuts(EligibleScenes(scenes, existing));
    AssembledOuts(scenes, existing, probe);
    if |outs| >= 2 {
      forall i | 0 <= i < |outs|
        ensures '\n' !in outs[i]
      {
        SceneOutOneLine(EligibleScenes(scenes, existing)[i].sceneNumber);
      }
      ManifestRoundTrip(outs);
    }
  }

  /** Distinct scene numbers give distinct clip paths. */
  lemma {:induction false} SceneOutInjective(a: int, b: int)
    requires SceneOut(a) == SceneOut(b)
    ensures a == b
  {
    var p := TempDir + "/scene_";
    var sa := IntToString(a);
    var sb := IntToString(b);
    assert |sa| == |sb|;
    assert sa == SceneOut(a)[|p|..|p| + |sa|];
    assert sb == SceneOut(b)[|p|..|p| + |sb|];
    IntToStringInjective(a, b);
  }
}
