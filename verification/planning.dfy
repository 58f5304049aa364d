/**
  `planScenes` of backend/storyToScenes.js: the story is chunked, each
  chunk is sent to the language model through the JSON cache under the key
  `["planScenes", type, chunk]`, the Markdown code fences are stripped from
  the reply, the reply is parsed into scenes, and each chunk's scene numbers
  are shifted by the number of scenes planned before it.

  The language model and `JSON.parse` are parameters (`Planner`); the prompt
  text is not modelled beyond the number it asks the model to start at.
*/
module Planning {
  import opened Results
  import opened JsText
  import opened Files
  import opened Cache
  import opened Scenes
  import opened Chunking
  import JsSplit

  /** `chunkStory(story, 2000)`. */
  const ChunkLen: nat := 2000

  datatype Planner = Planner(
    /** The chat completion for (type, first scene number asked for, chunk). */
    complete: (string, int, string) -> Result<string>,
    /** `JSON.parse` of a reply into a list of scenes; `Err` when it throws
        or yields something that is not a list. */
    parse: string -> Result<seq<Scene>>,
    /** SHA-1, as a hex digest. */
    hash: string -> string)

  /** The outcome of planning: the scenes (or the error), the file system
      after it, and how many times the language model was called. */
  datatype Plan = Plan(out: Result<seq<Scene>>, fs: Fs, modelCalls: nat)

  const FenceJson: string := "```json"

  /** A code fence "```" starts at position `i` of `t`. */
  predicate FenceAt(t: string, i: nat) {
    i + 3 <= |t| && t[i] == '`' && t[i + 1] == '`' && t[i + 2] == '`'
  }

  predicate StartsWith(t: string, prefix: string) {
    |prefix| <= |t| && t[..|prefix|] == prefix
  }

  /** `text.replace(/```json|```/g, "")`: scanning left to right, a
      "```json" is removed, else a "```" is removed, else the character is
      kept. */
  function StripFences(text: string): (r: string)
    ensures |r| <= |text|
    decreases |text|
  {
    if StartsWith(text, FenceJson) then StripFences(text[|FenceJson|..])
    else if FenceAt(text, 0) then StripFences(text[3..])
    else if |text| == 0 then []
    else [text[0]] + StripFences(text[1..])
  }

  /** `t` contains no code fence. */
  predicate NoFence(t: string) {
    forall i :: 0 <= i < |t| ==> !FenceAt(t, i)
  }

  lemma {:induction false} JsonFenceIsFence(t: string)
    requires StartsWith(t, FenceJson)
    ensures FenceAt(t, 0)
  {
    assert t[..|FenceJson|][0] == t[0] && t[..|FenceJson|][1] == t[1] && t[..|FenceJson|][2] == t[2];
  }

  /** A character other than a backtick at the front is kept. */
  lemma {:induction false} KeepsFirst(t: string)
    requires |t| > 0 && t[0] != '`'
    ensures StripFences(t) == [t[0]] + StripFences(t[1..])
  {
    if StartsWith(t, FenceJson) { JsonFenceIsFence(t); }
  }

  lemma {:induction false} NoBacktickUnchanged(text: string)
    requires '`' !in text
    ensures StripFences(text) == text
    decreases |text|
  {
    if |text| > 0 {
      KeepsFirst(text);
      NoBacktickUnchanged(text[1..]);
    }
  }

  /** Stripping a text that does not start with two backticks gives a text
      that does not either. */
  lemma {:induction false} NoDoubleBacktickStart(t: string)
    requires |t| < 2 || t[0] != '`' || t[1] != '`'
    ensures var r := StripFences(t); |r| < 2 || r[0] != '`' || r[1] != '`'
  {
    if |t| > 0 && t[0] != '`' {
      KeepsFirst(t);
    } else if |t| > 0 {
      if StartsWith(t, FenceJson) { JsonFenceIsFence(t); }
      var x := t[1..];
      assert StripFences(t) == [t[0]] + StripFences(x);
      if |x| > 0 {
        KeepsFirst(x);
      }
    }
  }

  /** The stripped reply contains no code fence at all. */
  lemma {:induction false} StripLeavesNoFence(text: string)
    ensures NoFence(StripFences(text))
    decreases |text|
  {
    if StartsWith(text, FenceJson) {
      StripLeavesNoFence(text[|FenceJson|..]);
    } else if FenceAt(text, 0) {
      StripLeavesNoFence(text[3..]);
    } else if |text| > 0 {
      var x := text[1..];
      StripLeavesNoFence(x);
      if text[0] == '`' {
        NoDoubleBacktickStart(x);
      }
      assert StripFences(text) == [text[0]] + StripFences(x);
      ConsNoFence(text[0], StripFences(x));
    }
  }

  /** A character put in front of a fence-free text starts no fence unless
      the text opens with two backticks. */
  lemma {:induction false} ConsNoFence(c: char, rest: string)
    requires NoFence(rest)
    requires c == '`' ==> |rest| < 2 || rest[0] != '`' || rest[1] != '`'
    ensures NoFence([c] + rest)
  {
    var r := [c] + rest;
    forall i | 0 <= i < |r|
      ensures !FenceAt(r, i)
    {
      if i > 0 {
        assert !FenceAt(rest, i - 1);
      }
    }
  }

  /** A text without fences is left alone. */
  lemma {:induction false} NoFenceUnchanged(text: string)
    requires NoFence(text)
    ensures StripFences(text) == text
    decreases |text|
  {
    if |text| > 0 {
      assert !FenceAt(text, 0);
      if StartsWith(text, FenceJson) { JsonFenceIsFence(text); }
      assert NoFence(text[1..]) by {
        forall i | 0 <= i < |text[1..]|
          ensures !FenceAt(text[1..], i)
        {
          assert !FenceAt(text, i + 1);
        }
      }
      NoFenceUnchanged(text[1..]);
    }
  }

  /** Stripping twice is stripping once. */
  lemma {:induction false} StripIdempotent(text: string)
    ensures StripFences(StripFences(text)) == StripFences(text)
  {
    StripLeavesNoFence(text);
    NoFenceUnchanged(StripFences(text));
  }

  /** `scenes.forEach(s => s.scene_number += sceneOffset)`. */
  function Renumber(scenes: seq<Scene>, offset: int): (r: seq<Scene>)
    ensures |r| == |scenes|
    ensures forall i :: 0 <= i < |r| ==> r[i] == scenes[i].(sceneNumber := r[i].sceneNumber)
    ensures forall m :: NumberedFrom(scenes, m) ==> NumberedFrom(r, m + offset)
  {
    seq(|scenes|, i requires 0 <= i < |scenes| => scenes[i].(sceneNumber := scenes[i].sceneNumber + offset))
  }

  /** Shifting back by the same offset restores the scenes. */
  lemma {:induction false} RenumberRoundTrip(scenes: seq<Scene>, offset: int)
    ensures Renumber(Renumber(scenes, offset), -offset) == scenes
  {
    var back := Renumber(Renumber(scenes, offset), -offset);
    forall i | 0 <= i < |scenes| ensures back[i] == scenes[i] {
      assert Renumber(scenes, offset)[i].sceneNumber == scenes[i].sceneNumber + offset;
    }
  }

  function PlanKey(style: string, chunk: string): seq<string> {
    ["planScenes", style, chunk]
  }

  /** The cached producer: the model's reply, trimmed. It writes no file. */
  function ReplyProducer(planner: Planner, style: string, firstNumber: int, chunk: string): Fs -> Run<Json> {
    (fs: Fs) =>
      match planner.complete(style, firstNumber, chunk)
      case Err(e) => Run(Err(e), fs)
      case Ok(content) => Run(Ok(JString(Trim(content))), fs)
  }

  /** The loop over the chunks; `acc` holds the scenes planned so far, and
      its length is the offset of the next chunk. */
  function PlanChunks(fs: Fs, chunks: seq<string>, style: string, acc: seq<Scene>, planner: Planner): (r: Plan)
    ensures r.out.Ok? ==> |r.out.value| >= |acc| && r.out.value[..|acc|] == acc
    ensures r.modelCalls <= |chunks|
    decreases |chunks|
  {
    if |chunks| == 0 then Plan(Ok(acc), fs, 0)
    else
      var chunk := chunks[0];
      var call := CachedJson(fs, planner.hash, PlanKey(style, chunk), ReplyProducer(planner, style, |acc| + 1, chunk));
      var calls: nat := if call.produced then 1 else 0;
      match call.out
      case Err(e) => Plan(Err(e), call.fs, calls)
      case Ok(JString(reply)) =>
        (match planner.parse(StripFences(reply))
         case Err(e) => Plan(Err(e), call.fs, calls)
         case Ok(scenes) =>
           var next := acc + Renumber(scenes, |acc|);
           var rest := PlanChunks(call.fs, chunks[1..], style, next, planner);
           assert rest.out.Ok? ==> rest.out.value[..|acc|] == next[..|acc|];
           Plan(rest.out, rest.fs, calls + rest.modelCalls))
      case Ok(_) => Plan(Err("chatText.replace is not a function"), call.fs, calls)
  }

  /** A successful plan holds the first chunk's reply, as parsed, right after
      `acc`, with every scene number raised by `|acc|` and nothing else of
      the scene changed. */
  lemma {:induction false} PlanChunksShiftsReply(fs: Fs, chunks: seq<string>, style: string, acc: seq<Scene>, planner: Planner)
    requires |chunks| > 0
    ensures var r := PlanChunks(fs, chunks, style, acc, planner);
      var call := CachedJson(fs, planner.hash, PlanKey(style, chunks[0]), ReplyProducer(planner, style, |acc| + 1, chunks[0]));
      r.out.Ok? ==>
        && call.out.Ok? && call.out.value.JString?
        && var parsed := planner.parse(StripFences(call.out.value.str));
           && parsed.Ok?
           && |r.out.value| >= |acc| + |parsed.value|
           && forall i :: 0 <= i < |parsed.value| ==>
                r.out.value[|acc| + i] == parsed.value[i].(sceneNumber := parsed.value[i].sceneNumber + |acc|)
  {
    var r := PlanChunks(fs, chunks, style, acc, planner);
    var call := CachedJson(fs, planner.hash, PlanKey(style, chunks[0]), ReplyProducer(planner, style, |acc| + 1, chunks[0]));
    if r.out.Ok? && call.out.Ok? && call.out.value.JString? {
      var parsed := planner.parse(StripFences(call.out.value.str));
      if parsed.Ok? {
        var next := acc + Renumber(parsed.value, |acc|);
        var rest := PlanChunks(call.fs, chunks[1..], style, next, planner);
        assert r.out == rest.out;
        ShiftedAfter(r.out.value, acc, parsed.value);
      }
    }
  }

  /** A list that starts with `acc` followed by `parsed` renumbered holds
      each parsed scene, shifted, right after `acc`. */
  lemma {:induction false} ShiftedAfter(out: seq<Scene>, acc: seq<Scene>, parsed: seq<Scene>)
    requires |out| >= |acc| + |parsed|
    requires out[..|acc| + |parsed|] == acc + Renumber(parsed, |acc|)
    ensures forall i :: 0 <= i < |parsed| ==>
      out[|acc| + i] == parsed[i].(sceneNumber := parsed[i].sceneNumber + |acc|)
  {
    forall i | 0 <= i < |parsed|
      ensures out[|acc| + i] == parsed[i].(sceneNumber := parsed[i].sceneNumber + |acc|)
    {
      assert out[..|acc| + |parsed|][|acc| + i] == Renumber(parsed, |acc|)[i];
    }
  }

  /** `planScenes(story, type)`. */
  function PlanScenes(fs: Fs, story: string, style: string, planner: Planner): (r: Plan)
    ensures story == [] ==> r.out.Err? && r.fs == fs && r.modelCalls == 0
  {
    if story == [] then Plan(Err("Story input is required"), fs, 0)
    else PlanChunks(fs, ChunkStory(story, ChunkLen), style, [], planner)
  }

  /** A story that is one blank stretch has no chunk to plan: the plan is
      empty, not an error, and neither the cache nor the model is used.
      Any other non-empty story has at least one chunk. */
  lemma {:induction false} BlankStoryPlansNothing(fs: Fs, story: string, style: string, planner: Planner)
    ensures JsSplit.IsMatchText(JsSplit.BlankLine, story) ==> PlanScenes(fs, story, style, planner) == Plan(Ok([]), fs, 0)
    ensures story != [] && !JsSplit.IsMatchText(JsSplit.BlankLine, story) ==> |ChunkStory(story, ChunkLen)| > 0
  {
    NoChunksIff(story, ChunkLen);
  }

  /** The model numbers the scenes of every reply it gives 1, 2, ... */
  ghost predicate RepliesNumberedFromOne(planner: Planner) {
    forall t :: planner.parse(t).Ok? ==> NumberedFrom(planner.parse(t).value, 1)
  }

  lemma {:induction false} PlanChunksContiguous(fs: Fs, chunks: seq<string>, style: string, acc: seq<Scene>, planner: Planner)
    requires RepliesNumberedFromOne(planner)
    requires NumberedFrom(acc, 1)
    ensures var r := PlanChunks(fs, chunks, style, acc, planner); r.out.Ok? ==> NumberedFrom(r.out.value, 1)
    decreases |chunks|
  {
    if |chunks| > 0 {
      var chunk := chunks[0];
      var call := CachedJson(fs, planner.hash, PlanKey(style, chunk), ReplyProducer(planner, style, |acc| + 1, chunk));
      if call.out.Ok? && call.out.value.JString? {
        var parsed := planner.parse(StripFences(call.out.value.str));
        if parsed.Ok? {
          var next := acc + Renumber(parsed.value, |acc|);
          assert NumberedFrom(parsed.value, 1);
          assert NumberedFrom(next, 1) by {
            forall i | 0 <= i < |next| ensures next[i].sceneNumber == 1 + i {
              if i >= |acc| { assert next[i] == Renumber(parsed.value, |acc|)[i - |acc|]; }
            }
          }
          PlanChunksContiguous(call.fs, chunks[1..], style, next, planner);
        }
      }
    }
  }

  /** When the model numbers every chunk's scenes from 1, the shifted
      numbers of the whole plan run 1, 2, ..., N without gap or repeat. */
  lemma {:induction false} PlanNumbersContiguous(fs: Fs, story: string, style: string, planner: Planner)
    requires RepliesNumberedFromOne(planner)
    ensures var r := PlanScenes(fs, story, style, planner); r.out.Ok? ==> NumberedFrom(r.out.value, 1)
  {
    if story != [] {
      PlanChunksContiguous(fs, ChunkStory(story, ChunkLen), style, [], planner);
    }
  }

  /** Every file of `a` is in `b` with the same contents. */
  ghost predicate Extends(a: Fs, b: Fs) {
    forall k :: k in a ==> k in b && b[k] == a[k]
  }

  lemma {:induction false} PlanChunksGrows(fs: Fs, chunks: seq<string>, style: string, acc: seq<Scene>, planner: Planner)
    ensures Extends(fs, PlanChunks(fs, chunks, style, acc, planner).fs)
    decreases |chunks|
  {
    if |chunks| > 0 {
      var chunk := chunks[0];
      var call := CachedJson(fs, planner.hash, PlanKey(style, chunk), ReplyProducer(planner, style, |acc| + 1, chunk));
      assert Extends(fs, call.fs);
      if call.out.Ok? && call.out.value.JString? {
        var parsed := planner.parse(StripFences(call.out.value.str));
        if parsed.Ok? {
          PlanChunksGrows(call.fs, chunks[1..], style, acc + Renumber(parsed.value, |acc|), planner);
        }
      }
    }
  }

  lemma {:induction false} PlanChunksReplay(fs: Fs, chunks: seq<string>, style: string, acc: seq<Scene>,
                                            planner: Planner, other: (string, int, string) -> Result<string>, g: Fs)
    requires PlanChunks(fs, chunks, style, acc, planner).out.Ok?
    requires Extends(PlanChunks(fs, chunks, style, acc, planner).fs, g)
    ensures PlanChunks(g, chunks, style, acc, planner.(complete := other))
         == Plan(PlanChunks(fs, chunks, style, acc, planner).out, g, 0)
    decreases |chunks|
  {
    if |chunks| > 0 {
      var chunk := chunks[0];
      var key := PlanKey(style, chunk);
      var call := CachedJson(fs, planner.hash, key, ReplyProducer(planner, style, |acc| + 1, chunk));
      var reply := call.out.value.str;
      var next := acc + Renumber(planner.parse(StripFences(reply)).value, |acc|);
      PlanChunksGrows(call.fs, chunks[1..], style, next, planner);
      assert g[JsonPath(MakeKey(planner.hash, key))] == JsonDoc(JString(reply));
      PlanChunksReplay(call.fs, chunks[1..], style, next, planner, other, g);
    }
  }

  /** Planning the same story again over the cache the first run left
      calls the language model not once and yields the same scenes,
      whatever the model would answer now. */
  lemma {:induction false} ReplanIsCached(fs: Fs, story: string, style: string, planner: Planner, other: (string, int, string) -> Result<string>)
    requires PlanScenes(fs, story, style, planner).out.Ok?
    ensures var first := PlanScenes(fs, story, style, planner);
      PlanScenes(first.fs, story, style, planner.(complete := other)) == Plan(first.out, first.fs, 0)
  {
    var first := PlanScenes(fs, story, style, planner);
    PlanChunksReplay(fs, ChunkStory(story, ChunkLen), style, [], planner, other, first.fs);
  }
}
