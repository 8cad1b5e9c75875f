/** The two records the editor works on, and their default values. */
module Records {
  import opened Dict

  /**
   * One entry of the timeline. `sequence` is the 1-based number shown to the
   * user, `timestamp` the `MM:SS-MM:SS` label; `startTime` and `duration` are
   * whole seconds.
   */
  datatype TimelineSequence = TimelineSequence(
    sequence: int,
    timestamp: string,
    action: string,
    audio: string,
    startTime: int,
    duration: int)

  /** Category name to its list of elements, in insertion order. */
  type Categories = Dict<string, seq<string>>

  /** The prompt's metadata; `roomDescription` is exported as `environment_description`. */
  datatype MetadataFields = MetadataFields(
    promptName: string,
    baseStyle: string,
    aspectRatio: string,
    roomDescription: string,
    cameraSetup: string,
    keyElements: seq<string>,
    elementCategories: Categories,
    negativePrompts: seq<string>)

  const DefaultMetadata := MetadataFields("", "cinematic, photorealistic, 4K", "16:9", "", "", [], [], [])

  /** The default entry (a one-second slot at the start) carrying the given number. */
  function DefaultSequence(number: int): TimelineSequence {
    TimelineSequence(number, "00:00-00:01", "", "", 0, 1)
  }

  /** The timeline a new prompt starts with. */
  const InitialTimeline := [DefaultSequence(1)]
}
