# AI story video generator — a Dafny model of the pipeline core

This project models the backend core of the story-to-video generator.
A story is cut into chunks. A language model plans the scenes of each chunk, and the scene numbers are shifted so that they run on across chunks. Every scene then gets
narration audio (through a content-addressed disk cache) and images (through
a chain of three strategies), with progress reports on the way. Finally every
eligible scene becomes a clip — a still image, or a cross-fade of several
images timed to the audio — and the clips are copied or concatenated into
the output video. The SSML conversion of the narration text is modelled too.

Modules follow the source files:

- `Cache` (backend/cache.js): `makeKey` and the two kinds of `cached` lookups
  over a file system modelled as a map from path to contents.
- `Ssml` (backend/tts.js): `convertToSSML`, with a decoder that recovers the
  sentences from its output.
- `Chunking`, `Planning`, `Processing` (backend/storyToScenes.js):
  `chunkStory`, `planScenes` (fence stripping, renumbering, caching) and
  `processScenes` (speech, image strategies, progress, hand-off to assembly).
- `Timing`, `FilterGraph`, `Assembly` (backend/createVideoFromScenes.js):
  slots and segment durations, the xfade offsets, the filter graph with its
  text form, eligibility, the per-scene clip plan, and the concat decision
  with its manifest.
- `JsText`, `JsSplit`, `Files`, `Scenes`, `Results`: the JavaScript string
  operations the core relies on (`trim`, `join`, number-to-string, and
  `split` for the two regular expressions used), JSON values and files,
  the scene record, and `Option`/`Result`.

The language model, `JSON.parse`, SHA-1, the speech synthesiser, the image
generators and ffprobe are function-typed parameters. Durations are exact
reals. Scenes are processed one after another.

Notes on what the code does:

- Clips are concatenated in input order. They are not sorted by scene number.
- A speech-synthesis error, or an error from the fallback image generator, rejects `processScenes` as a whole. It does not skip the scene.
- The fallback's result is taken even when it is empty. The scene then has no images and gets no clip.
- An error while assembling (a failed probe) is caught by the blanket `catch` of `createVideoFromScenes`. No video is produced, and the error is not passed on.
- No eligible scene means nothing is written, and no error is raised.
- A non-empty story that is one blank stretch, white space of two or more characters that starts and ends with a line feed (such as `"\n\n"` or `"\n \n"`), plans zero scenes. It is not an error. Every other non-empty story has at least one chunk and reaches the model or the cache. This includes `"\n"` and `" \n \n "`.

## Model

| member | source | states |
|---|---|---|
| Cache.JoinedPartsShareEntry | backend/cache.js:12-14 | key parts are joined with "\|\|" before hashing, so for all strings `a`, `b` the parts `[a + "\|\|" + b]` and `[a, b]` name the same cache entry |
| Cache.CachedJson | backend/cache.js:23-45 | a JSON lookup is a hit exactly when the key's `.json` file exists; a hit returns the stored document and writes nothing; a miss returns exactly what the producer returned, and on success the file system is the producer's with the value stored under the key; a failing producer leaves only its own writes |
| Cache.CachedBinary | backend/cache.js:23-58 | a binary lookup is a hit exactly when the key's file exists, and then returns that path; every success returns the key's file, which then exists; on a miss a producer error is an error, a buffer succeeds with its bytes stored under the key, a path succeeds exactly when that file exists and its content is then copied to the key, and any other result is an error |
| Cache.JsonRepeatIsHit | backend/cache.js:29-45 | after a successful JSON lookup, the same key is a hit with the same value, whatever the producer, and changes no file |
| Cache.BinaryRepeatIsHit | backend/cache.js:33-58 | after a successful binary lookup, the same key is a hit with the same path and changes no file |
| Cache.KindsApart | backend/cache.js:24-26 | for hex digests the JSON file `<key>.json` and the binary file `<key>` never coincide |
| Cache.JsonEntryIsNotBinaryHit | backend/cache.js:25-36 | a stored JSON entry does not make a binary lookup of the same key a hit, unless the JSON producer itself wrote the binary file |
| Cache.BinaryEntryIsNotJsonHit | backend/cache.js:25-36 | a stored binary entry does not make a JSON lookup of the same key a hit, unless the binary producer itself wrote the JSON file |
| JsText.Trim | backend/tts.js:15 | the result is the input without its leading and trailing JavaScript whitespace: a contiguous slice whose ends are not whitespace, empty exactly when the input is all whitespace |
| JsText.IntToStringRoundTrip | backend/storyToScenes.js:204-207 | the decimal text of a scene number is an optional minus sign and digits, and reads back as the same number |
| JsText.IntToStringInjective | backend/storyToScenes.js:204-207 | distinct scene numbers give distinct decimal texts |
| JsSplit.SplitParts | backend/storyToScenes.js:24 | `split` cuts the text into pieces and separators that put back together give the text |
| JsSplit.SplitSepsAreMatches | backend/storyToScenes.js:24 | every separator removed by `split` is a match of the pattern |
| JsSplit.SplitPiecesMatchFree | backend/storyToScenes.js:24 | no piece left by `split` contains a match of the pattern |
| JsSplit.SplitWholeIff | backend/storyToScenes.js:24 | `split` returns the text as its only piece exactly when the pattern does not match in it |
| JsSplit.BlankOnlyIff | backend/storyToScenes.js:24 | every piece of the blank-line split is empty exactly when the text is empty or is one blank stretch (white space of two or more characters that starts and ends with a line feed) |
| JsSplit.SentenceSplitPoints | backend/tts.js:13 | the sentence split cuts only after a `.`, `?` or `!`, and removes only runs of whitespace |
| JsSplit.BlankLineSplitPoints | backend/storyToScenes.js:24 | the paragraph split cuts at the first line feed of a blank stretch (the piece before it does not end in a line feed) and through its last one (the piece after it has no line feed in its leading white space); every separator is white space that starts and ends with a line feed |
| Ssml.NonEmpty | backend/tts.js:14 | `filter(Boolean)` returns only non-empty strings, drops a lone empty string and keeps a list with no empty string unchanged |
| Ssml.NonEmptyAppend | backend/tts.js:14 | the filter distributes over concatenation, so together with the one-element cases it keeps exactly the non-empty strings, in order |
| Ssml.ConvertToSsml | backend/tts.js:10-22 | the result is wrapped in `<speak>` … `</speak>` |
| Ssml.BodyRoundTrip | backend/tts.js:17-19 | the body (sentence, break tag, joined by spaces) decodes back to the sentence list when no sentence contains `<` |
| Ssml.SsmlRoundTrip | backend/tts.js:10-22 | for a text without `<`, the SSML decodes back to exactly the trimmed, non-empty sentences of the text |
| Ssml.NoAngleInSentences | backend/tts.js:12-15 | splitting, filtering and trimming introduce no `<` |
| Ssml.SsmlEmptyIff | backend/tts.js:12-21 | the SSML is the bare `<speak></speak>` exactly when the text is empty |
| Ssml.BlankNarrationKeepsBreak | backend/tts.js:12-19 | a non-empty all-whitespace text trims to an empty sentence after the filter, so the SSML still holds one break tag |
| Chunking.Truncate | backend/storyToScenes.js:31 | a paragraph is cut to its first `maxLen` characters and kept whole when it fits |
| Chunking.ChunkStory | backend/storyToScenes.js:23-38 | every chunk is non-empty and at most `maxLen` characters |
| Chunking.PackEmptyIff | backend/storyToScenes.js:28-37 | with `maxLen >= 1` the loop pushes no chunk exactly when every paragraph is empty |
| Chunking.NoChunksIff | backend/storyToScenes.js:23-38 | with `maxLen >= 1` a story gives no chunk exactly when it is empty or one blank stretch |
| Chunking.PackLossless | backend/storyToScenes.js:28-36 | from any buffer on, the chunks joined by a blank line equal the buffer and the (cut) paragraphs joined by a blank line |
| Chunking.ChunksPreserveParagraphs | backend/storyToScenes.js:23-38 | the chunks joined by a blank line are the paragraphs, each cut to `maxLen`, joined by a blank line: nothing is lost, reordered or duplicated |
| Chunking.PackGreedy | backend/storyToScenes.js:28-36 | no two neighbouring chunks would fit together within `maxLen` |
| Chunking.ChunksGreedy | backend/storyToScenes.js:23-38 | the packing is greedy: no two neighbouring chunks of a story could have been one chunk |
| Chunking.PackIsFirstFit | backend/storyToScenes.js:23-38 | for non-empty paragraphs the chunks are exactly the first-fit groups: each chunk is the longest run of the next paragraphs whose blank-line join fits in `maxLen` (a paragraph too long alone is cut and stands alone), and the next chunk starts with the paragraph that did not fit |
| Planning.StripLeavesNoFence | backend/storyToScenes.js:168 | after removing "```json" and "```" the reply contains no code fence |
| Planning.NoFenceUnchanged | backend/storyToScenes.js:168 | a reply without fences is left as it is |
| Planning.NoBacktickUnchanged | backend/storyToScenes.js:168 | a reply without a backtick is left as it is |
| Planning.StripIdempotent | backend/storyToScenes.js:168 | stripping fences twice is stripping once |
| Planning.Renumber | backend/storyToScenes.js:172 | only the scene number changes, and scenes numbered from `m` come out numbered from `m + offset`; the exact per-scene shift is stated by Planning.PlanChunksShiftsReply |
| Planning.RenumberRoundTrip | backend/storyToScenes.js:172 | shifting by an offset and back restores the scenes exactly |
| Planning.PlanChunks | backend/storyToScenes.js:58-175 | the scenes of earlier chunks are kept as a prefix, and the model is called at most once per chunk |
| Planning.PlanChunksShiftsReply | backend/storyToScenes.js:150-174 | on success the first chunk's reply, as parsed, follows the earlier scenes, each scene unchanged except for its number, which is raised by the number of earlier scenes |
| Planning.PlanScenes | backend/storyToScenes.js:52-53 | an empty story is an error, touches no file and calls no model |
| Planning.BlankStoryPlansNothing | backend/storyToScenes.js:52-58 | a story that is one blank stretch plans no scenes without error, cache use or model call; any other non-empty story has at least one chunk to plan |
| Planning.PlanNumbersContiguous | backend/storyToScenes.js:171-174 | when the model numbers each reply from 1, the planned scenes are numbered 1, 2, …, N across all chunks |
| Planning.PlanChunksGrows | backend/storyToScenes.js:150-165 | planning only adds cache files and never changes an existing one |
| Planning.ReplanIsCached | backend/storyToScenes.js:150-165 | planning the same story again over the cache the first run left calls the model zero times and gives the same scenes |
| Processing.SpeakStores | backend/storyToScenes.js:208-215 | the audio of a scene is the cache file of its `ttl \|\| narration` text; the synthesiser runs only on a miss, and then the call succeeds exactly when synthesis does |
| Processing.SameSpeechShared | backend/storyToScenes.js:208-215 | two scenes with the same speech text share one audio file; the second is a hit |
| Processing.JsonRoundTrip | backend/storyToScenes.js:225-229 | an image list stored as a JSON document reads back as the same list |
| Processing.AcquireFollowsStrategies | backend/storyToScenes.js:223-241 | the strategies tried are a non-empty prefix of (cached primary, family-friendly primary, fallback for 2); each strategy before the last failed or gave no image; the result is the last strategy's, or an error only the fallback can raise |
| Processing.EmptyListStaysCached | backend/storyToScenes.js:225-235 | a cached empty image list is a hit every time, so the family-friendly retry always runs for that description |
| Processing.ProcessScene | backend/storyToScenes.js:197-247 | a finished scene keeps its text, gets its speech cache file as audio (which then exists), gets as images exactly what acquisition returned after the speech step, and makes the three reports synthesizing, generating, completed |
| Processing.ProcessFrom | backend/storyToScenes.js:195-249 | files are only added; a finished run returns one scene per input scene and three reports per scene |
| Processing.ProcessFromScenes | backend/storyToScenes.js:196-247 | a finished run keeps the scenes in order with their text unchanged, each with its speech cache file as audio, which exists afterwards, and with exactly the images that acquisition returned for its description in the files left by the scenes before it, once its own speech was done |
| Processing.ProcessScenes | backend/storyToScenes.js:184-256 | a finished run returns as many scenes as it was given |
| Processing.ProgressCounts | backend/storyToScenes.js:191-252 | a finished run makes 3N+1 reports; report 3i+2 is "completed" for scene i with done = i+1; done never decreases and never exceeds the total N; the last report is "stitching" at N of N |
| Processing.SpeechErrorRejects | backend/storyToScenes.js:199-215 | a synthesis error on a cache miss for the first scene rejects the run after one report and completes no scene |
| Processing.Pipeline | backend/storyToScenes.js:251-253 | the video is assembled exactly when every scene was processed, and then from the processed scenes with the files the run left plus the downloaded images |
| Processing.ProcessedScenesEligibleIff | backend/storyToScenes.js:251-253 | after a finished run every scene's audio exists for assembly, so a scene gets a clip exactly when one of its images exists |
| Timing.Slots | backend/createVideoFromScenes.js:66-68 | the slot count lies between 1 and the image count; it is 1 exactly when there is at most one image or the audio is shorter than two `minSec`; with two or more slots each slot gets at least `minSec` seconds; and it is the largest such count: either every image is used or one more slot would not fit |
| Timing.Segments | backend/createVideoFromScenes.js:99-107 | the segment durations are `k` equal shares that add up to the audio duration |
| Timing.SegmentsAtLeastMinSec | backend/createVideoFromScenes.js:66-107 | with two or more slots every segment lasts at least `minSec` (3) seconds |
| Timing.OffsetsClosedForm | backend/createVideoFromScenes.js:128-138 | the i-th xfade starts at the sum of the first i segments minus the 1-second fade, clamped at 0 |
| Timing.OffsetsIncreasing | backend/createVideoFromScenes.js:128-138 | with two or more slots the xfade offsets are at least 2 seconds and strictly increasing |
| Timing.NineSecondsThreeImages | backend/createVideoFromScenes.js:66-107 | nine seconds of audio with three images give three slots of three seconds each |
| FilterGraph.GraphDefinedBeforeUse | backend/createVideoFromScenes.js:123-138 | every label a node consumes is an input stream or is produced by an earlier node |
| FilterGraph.GraphAllConsumed | backend/createVideoFromScenes.js:123-138 | every produced label except `[vout]` is consumed by a later node |
| FilterGraph.GraphUniqueConsumers | backend/createVideoFromScenes.js:123-138 | no label is consumed twice |
| FilterGraph.GraphUniqueProducers | backend/createVideoFromScenes.js:123-138 | no label is produced twice |
| FilterGraph.GraphWellWired | backend/createVideoFromScenes.js:123-138 | the first `k` nodes are exactly the scale nodes, and the graph is well wired: produced once, consumed once, defined before use, ending in `[vout]` |
| FilterGraph.XfadeLoopSteps | backend/createVideoFromScenes.js:128-138 | the source's xfade loop appends one `;`-separated step per image after the first |
| FilterGraph.SerializeMatchesSource | backend/createVideoFromScenes.js:123-138 | the text of the typed graph is exactly the `filter_complex` string the source builds |
| Assembly.ExistingImages | backend/createVideoFromScenes.js:31 | the images kept are exactly the listed images that exist |
| Assembly.EligibleScenesMembers | backend/createVideoFromScenes.js:30-32 | the scenes that get a clip are exactly the input scenes with an existing image and existing audio |
| Assembly.ExistingImagesAppend | backend/createVideoFromScenes.js:31 | the image filter distributes over concatenation, so it keeps the existing images in their listed order, repeats included |
| Assembly.ExistingImagesSingle | backend/createVideoFromScenes.js:31 | a single image is kept exactly when its file exists |
| Assembly.EligibleScenesAppend | backend/createVideoFromScenes.js:30-32 | the scene filter distributes over concatenation, so eligible scenes stay in input order |
| Assembly.SkippedIff | backend/createVideoFromScenes.js:31-32 | a scene is skipped exactly when none of its images exists, or its audio is unset or missing |
| Assembly.PlanClipFacts | backend/createVideoFromScenes.js:34-141 | a clip shows the first `Slots` existing images; it loops a still image exactly when one slot fits; it plays the whole audio into `scene_<n>.mp4`; a cross-fade's segments add up to the duration, each lasts at least `minSec`, and its graph of 2k-1 nodes is well wired |
| Assembly.ShortSceneIsStill | backend/createVideoFromScenes.js:66-97 | audio shorter than six seconds always gives a still clip of the first existing image |
| Assembly.PlanClipCrossfade | backend/createVideoFromScenes.js:99-138 | a scene with two or more slots becomes a cross-fade clip over the even segments of its slots and the graph built from their offsets |
| Assembly.CrossfadeFilter | backend/createVideoFromScenes.js:123-138 | a scene with two or more slots gets a cross-fade whose graph prints as the source's filter string, and its xfade offsets are at least 2 and strictly increasing |
| Assembly.AssembleFrom | backend/createVideoFromScenes.js:30-184 | the loop succeeds exactly when every eligible scene's audio can be probed, and then yields one clip per eligible scene in input order |
| Assembly.Assemble | backend/createVideoFromScenes.js:15-184 | assembly succeeds exactly when every eligible scene's audio can be probed, and then gives the planned clip of each eligible scene in order |
| Assembly.ConcatDecision | backend/createVideoFromScenes.js:186-193 | no clip means no output, one clip is copied to the output path, and two or more go through the concat list file |
| Assembly.ManifestRoundTrip | backend/createVideoFromScenes.js:192-193 | the concat manifest lists back exactly the clip paths, in order |
| Assembly.CreateVideo | backend/createVideoFromScenes.js:15-207 | a video plan is built exactly when assembly succeeds; otherwise the error is only logged |
| Assembly.AssembledOuts | backend/createVideoFromScenes.js:30-184 | the clips are written to the `scene_<n>.mp4` paths of the eligible scenes, in input order |
| Assembly.CreateVideoConcat | backend/createVideoFromScenes.js:186-202 | a built run writes nothing when no scene is eligible and copies the only clip when one is; with two or more, the manifest lists the eligible scenes' clips in input order |
| Assembly.SceneOutInjective | backend/createVideoFromScenes.js:35 | distinct scene numbers give distinct clip paths |

## Left out

- ffmpeg and ffprobe runs: encoding, the `-t` duration arguments and render failures are not modelled. A clip describes what would be rendered. The probe is a parameter.
- `Number.prototype.toString` of durations and offsets is the `fmt` parameter of the filter serialiser. Floating-point rounding of the segment durations is not modelled.
- SHA-1 is the `hash` parameter. `JSON.stringify`/`JSON.parse` of cached documents are not modelled, except for image lists (`Processing.JsonRoundTrip`). Parsing the planner's reply is the `parse` parameter.
- Concurrency (`pLimit(2)`, `pLimit(1)`, `Promise.all`) is left out. Scenes are processed one after another, so the interleaving of progress reports from concurrent scenes is not modelled. Under `pLimit(2)` (backend/storyToScenes.js:189) two scenes in flight at once with the same `ttl || narration` (line 209) or the same `description` (line 226) can both miss the cache and both run the producer. So Processing.SameSpeechShared ("the second is a hit") and the cache's "the producer runs once per key" hold only for the sequential order modelled here.
- The prompt texts and the OpenAI chat call are left out. The model's reply is the `complete` parameter.
- Image scraping and downloading (backend/imageGen.js, backend/fallbackImageGenChatGPT.js) are not part of this model. Their results are the `generate` and `fallback` parameters. Downloaded image files enter assembly as the `downloaded` set.
- The Google text-to-speech client in backend/tts.js is the `synthesize` parameter. `synthesizeSpeech` is therefore not modelled. That covers its use of an undefined `GOOGLE_APPLICATION_CREDENTIALS` identifier, and the fact that storyToScenes.js passes it the scene object rather than its text.
- The HTTP server and the frontend are not part of this model.
- JavaScript strings are UTF-16 code units. The model uses Dafny characters, so lengths of non-BMP text may differ.
- `__dirname` is written as the relative directory "backend".
- Creating directories (`mkdirSync`) is not modelled.
- The log lines of `cachedWithLog` and of the cache are not modelled.
- A cached image document that is not a list of strings counts as a failed first strategy. In the source, a document without a truthy `length` also fails it, but a string or a list of non-strings would be taken as the scene's images.
- Chunking.PackLossless: the lossless join is stated only for lists of non-empty paragraphs. An empty paragraph that meets an empty buffer is dropped by the packing, so the plain equality does not hold there.
- Chunking.ChunksPreserveParagraphs: it has the same restriction to non-empty paragraphs as `Chunking.PackLossless`.
- Chunking.PackIsFirstFit: it has the same restriction to non-empty paragraphs, and needs `maxLen >= 1`; an empty paragraph meeting an empty buffer vanishes from the packing but would form a group.
- Planning.PlanNumbersContiguous: contiguous numbering is proved only for replies numbered from 1. The prompt asks the model to start at the offset plus one (backend/storyToScenes.js:64 and 124), and the code then adds the offset again (line 172); a reply that follows the prompt gets numbers shifted twice. The cache key of a chunk also leaves the offset out, so a cached reply is reused at any offset.
- A failed render is not modelled. In the source it goes to the same blanket `catch` as a failed probe, which `Assembly.CreateVideo` models as `Logged`.
