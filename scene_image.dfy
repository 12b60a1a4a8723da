/**
 * The deterministic part of the scene-image flow: the horror tier chosen
 * from the turn count, and the check on the image model's response.  The
 * image model is the `generate` parameter.
 */
module SceneImage {
  import opened Common

  const NoMediaError := "Image generation failed or returned no media URL."

  /** The four visual-style guidances, from mildest to most extreme. */
  datatype HorrorTier = BMovie | RisingTension | Disturbing | Extreme

  /** Position of a tier in the escalation, 0 for the mildest. */
  function Rank(tier: HorrorTier): (n: nat)
    ensures n < 4
  {
    match tier
    case BMovie => 0
    case RisingTension => 1
    case Disturbing => 2
    case Extreme => 3
  }

  /** The if/else-if chain on `turnCount`. */
  function SelectTier(turnCount: int): (tier: HorrorTier)
    ensures tier == BMovie <==> turnCount <= 4
    ensures tier == RisingTension <==> 5 <= turnCount <= 9
    ensures tier == Disturbing <==> 10 <= turnCount <= 14
    ensures tier == Extreme <==> turnCount >= 15
  {
    if turnCount <= 4 then BMovie
    else if turnCount <= 9 then RisingTension
    else if turnCount <= 14 then Disturbing
    else Extreme
  }

  /** A later turn never gets a milder tier. */
  lemma SelectTierMonotone(a: int, b: int)
    requires a <= b
    ensures Rank(SelectTier(a)) <= Rank(SelectTier(b))
  {
  }

  datatype ImageInput = ImageInput(sceneDescription: string, turnCount: int)
  datatype ImageOutput = ImageOutput(imageDataUri: string)

  /** What the flow asks the image model for. */
  datatype ImagePrompt = ImagePrompt(sceneDescription: string, turnCount: int, guidance: HorrorTier)

  /** A media part whose `url` may be absent. */
  datatype Media = Media(url: Option<string>)

  /** `!media || !media.url`: absent media, an absent URL or an empty URL. */
  predicate MissingUrl(media: Option<Media>) {
    media.None? || media.value.url.None? || media.value.url.value == ""
  }

  /**
   * The flow: the image model is asked with the tier of the turn count; an
   * error it throws passes through, and a response without a usable URL is
   * an error of the flow's own.
   */
  function GenerateSceneImageFlow(input: ImageInput, generate: ImagePrompt -> Result<Option<Media>, string>)
    : (r: Result<ImageOutput, string>)
    ensures var response := generate(ImagePrompt(input.sceneDescription, input.turnCount, SelectTier(input.turnCount)));
            (response.Failure? ==> r == Failure(response.error)) &&
            (response.Success? ==>
               (r.Failure? <==> MissingUrl(response.value)) &&
               (r.Failure? ==> r.error == NoMediaError) &&
               (r.Success? ==> r.value.imageDataUri == response.value.value.url.value && r.value.imageDataUri != ""))
  {
    match generate(ImagePrompt(input.sceneDescription, input.turnCount, SelectTier(input.turnCount)))
    case Failure(e) => Failure(e)
    case Success(media) =>
      if MissingUrl(media) then Failure(NoMediaError)
      else Success(ImageOutput(media.value.url.value))
  }
}
