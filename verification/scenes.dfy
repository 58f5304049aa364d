/** The scene record shared by planning, processing and video assembly. */
module Scenes {
  import opened Results

  /** One narrated unit of the story. `audio` is unset until speech has
      been synthesised; `images` is empty until images have been acquired
      (`scene.images || []`). */
  datatype Scene = Scene(
    sceneNumber: int,
    narration: string,
    description: string,
    ttl: Option<string>,
    audio: Option<string>,
    images: seq<string>)

  /** The scenes are numbered `from`, `from + 1`, ... in list order. */
  predicate NumberedFrom(scenes: seq<Scene>, from: int) {
    forall i :: 0 <= i < |scenes| ==> scenes[i].sceneNumber == from + i
  }
}
