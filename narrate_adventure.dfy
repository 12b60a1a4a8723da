/**
 * The deterministic part of the narration flow: the caller's vitals are
 * clamped before they reach the story-telling model, and the model's answer,
 * which is untrusted, is sanitised before it is returned.  The model itself
 * is the `prompt` parameter of `NarrateAdventureFlow`.
 */
module NarrateAdventure {
  import opened Common
  import Text

  /** Largest health of either party (the literal 2 of the clamping code). */
  const MaxHealth := 2
  /** Largest stamina of either party. */
  const MaxStamina := 3

  const NoOutputError := "Narrate adventure flow did not produce an output. The story fades to black..."

  /** What the caller sends; "gemini" is the AI companion. */
  datatype NarrateInput = NarrateInput(
    userChoice: string,
    geminiChoice: string,
    currentSceneDescription: string,
    playerHealth: int,
    geminiHealth: int,
    playerStamina: int,
    geminiStamina: int,
    turnCount: int,
    currentInventory: seq<string>)

  /** What the model answers, and (after sanitising) what the flow returns. */
  datatype NarrateOutput = NarrateOutput(
    narration: string,
    sceneDescription: string,
    challenge: string,
    updatedPlayerHealth: int,
    updatedGeminiHealth: int,
    updatedPlayerStamina: int,
    updatedGeminiStamina: int,
    isGameOver: bool,
    newItemFound: Option<string>,
    itemUsed: Option<string>,
    playerLostHealthThisTurn: Option<bool>,
    geminiLostHealthThisTurn: Option<bool>)

  /** `Math.max(lo, Math.min(v, hi))`. */
  function Clamp(v: int, lo: int, hi: int): (r: int)
    requires lo <= hi
    ensures lo <= r <= hi
    ensures lo <= v <= hi ==> r == v
    ensures v < lo ==> r == lo
    ensures hi < v ==> r == hi
  {
    var m := if v < hi then v else hi;
    if lo < m then m else lo
  }

  /** `Math.max(0, v)`. */
  function FloorAtZero(v: int): (r: int)
    ensures r >= 0
    ensures v >= 0 ==> r == v
    ensures v < 0 ==> r == 0
  {
    if v < 0 then 0 else v
  }

  /** The input actually handed to the model. */
  function SafeInput(input: NarrateInput): (safe: NarrateInput)
    ensures safe.turnCount >= 1
    ensures 0 <= safe.playerHealth <= MaxHealth && 0 <= safe.geminiHealth <= MaxHealth
    ensures 0 <= safe.playerStamina <= MaxStamina && 0 <= safe.geminiStamina <= MaxStamina
    ensures input.turnCount >= 1 ==> safe.turnCount == input.turnCount
    ensures input.turnCount < 1 ==> safe.turnCount == 1
    ensures safe.playerHealth == Clamp(input.playerHealth, 0, MaxHealth)
    ensures safe.geminiHealth == Clamp(input.geminiHealth, 0, MaxHealth)
    ensures safe.playerStamina == Clamp(input.playerStamina, 0, MaxStamina)
    ensures safe.geminiStamina == Clamp(input.geminiStamina, 0, MaxStamina)
    ensures 0 <= input.playerHealth <= MaxHealth ==> safe.playerHealth == input.playerHealth
    ensures 0 <= input.geminiHealth <= MaxHealth ==> safe.geminiHealth == input.geminiHealth
    ensures 0 <= input.playerStamina <= MaxStamina ==> safe.playerStamina == input.playerStamina
    ensures 0 <= input.geminiStamina <= MaxStamina ==> safe.geminiStamina == input.geminiStamina
    // the choices, the scene and the inventory pass through as they are
    ensures safe == input.(turnCount := safe.turnCount,
                           playerHealth := safe.playerHealth, geminiHealth := safe.geminiHealth,
                           playerStamina := safe.playerStamina, geminiStamina := safe.geminiStamina)
  {
    input.(turnCount := if input.turnCount < 1 then 1 else input.turnCount,
           playerHealth := Clamp(input.playerHealth, 0, MaxHealth),
           geminiHealth := Clamp(input.geminiHealth, 0, MaxHealth),
           playerStamina := Clamp(input.playerStamina, 0, MaxStamina),
           geminiStamina := Clamp(input.geminiStamina, 0, MaxStamina))
  }

  /** Clamping the input a second time changes nothing. */
  lemma SafeInputIdempotent(input: NarrateInput)
    ensures SafeInput(SafeInput(input)) == SafeInput(input)
  {
  }

  /** The vitals a sanitised answer always has. */
  predicate SaneVitals(o: NarrateOutput) {
    o.updatedPlayerHealth >= 0 && o.updatedGeminiHealth >= 0 &&
    0 <= o.updatedPlayerStamina <= MaxStamina && 0 <= o.updatedGeminiStamina <= MaxStamina &&
    (o.updatedPlayerHealth == 0 || o.updatedGeminiHealth == 0 ==> o.isGameOver) &&
    o.newItemFound != Some("") && o.itemUsed != Some("")
  }

  /**
   * The answer the flow returns for the model's `output`; `input` is the
   * caller's original input, not the clamped one.
   */
  function Sanitise(input: NarrateInput, output: NarrateOutput): (r: NarrateOutput)
    ensures SaneVitals(r)
    // health is only floored at zero: there is no upper clamp
    ensures output.updatedPlayerHealth >= 0 ==> r.updatedPlayerHealth == output.updatedPlayerHealth
    ensures output.updatedGeminiHealth >= 0 ==> r.updatedGeminiHealth == output.updatedGeminiHealth
    ensures output.updatedPlayerHealth < 0 ==> r.updatedPlayerHealth == 0
    ensures output.updatedGeminiHealth < 0 ==> r.updatedGeminiHealth == 0
    ensures 0 <= output.updatedPlayerStamina <= MaxStamina ==> r.updatedPlayerStamina == output.updatedPlayerStamina
    ensures 0 <= output.updatedGeminiStamina <= MaxStamina ==> r.updatedGeminiStamina == output.updatedGeminiStamina
    ensures r.updatedPlayerStamina == Clamp(output.updatedPlayerStamina, 0, MaxStamina)
    ensures r.updatedGeminiStamina == Clamp(output.updatedGeminiStamina, 0, MaxStamina)
    // a dead party ends the game; otherwise the model's own flag decides
    ensures output.updatedPlayerHealth <= 0 || output.updatedGeminiHealth <= 0 ==> r.isGameOver
    ensures output.updatedPlayerHealth > 0 && output.updatedGeminiHealth > 0 ==> r.isGameOver == output.isGameOver
    // an empty item name means no item
    ensures r.newItemFound == Text.NullIfEmpty(output.newItemFound)
    ensures r.itemUsed == Text.NullIfEmpty(output.itemUsed)
    // a health-loss flag survives only when health really went down
    ensures r.playerLostHealthThisTurn.Some? && r.geminiLostHealthThisTurn.Some?
    ensures r.playerLostHealthThisTurn.value <==>
              output.playerLostHealthThisTurn == Some(true) && output.updatedPlayerHealth < input.playerHealth
    ensures r.geminiLostHealthThisTurn.value <==>
              output.geminiLostHealthThisTurn == Some(true) && output.updatedGeminiHealth < input.geminiHealth
    // the story text passes through
    ensures r.narration == output.narration && r.sceneDescription == output.sceneDescription &&
            r.challenge == output.challenge
  {
    var finalPlayerHealth := FloorAtZero(output.updatedPlayerHealth);
    var finalGeminiHealth := FloorAtZero(output.updatedGeminiHealth);
    var gameOver := finalPlayerHealth <= 0 || finalGeminiHealth <= 0;
    NarrateOutput(
      output.narration, output.sceneDescription, output.challenge,
      finalPlayerHealth, finalGeminiHealth,
      Clamp(output.updatedPlayerStamina, 0, MaxStamina),
      Clamp(output.updatedGeminiStamina, 0, MaxStamina),
      gameOver || output.isGameOver,
      Text.NullIfEmpty(output.newItemFound),
      Text.NullIfEmpty(output.itemUsed),
      Some(output.playerLostHealthThisTurn == Some(true) && output.updatedPlayerHealth < input.playerHealth),
      Some(output.geminiLostHealthThisTurn == Some(true) && output.updatedGeminiHealth < input.geminiHealth))
  }

  /**
   * An answer whose vitals are already sane comes back unchanged apart from
   * the two health-loss flags.
   */
  lemma SanitiseKeepsSaneAnswer(input: NarrateInput, output: NarrateOutput)
    requires SaneVitals(output)
    ensures Sanitise(input, output) ==
              output.(playerLostHealthThisTurn := Sanitise(input, output).playerLostHealthThisTurn,
                      geminiLostHealthThisTurn := Sanitise(input, output).geminiLostHealthThisTurn)
  {
  }

  /** Sanitising twice gives the same vitals, items and game-over flag as once. */
  lemma SanitiseIdempotentOnVitals(input: NarrateInput, output: NarrateOutput)
    ensures var once := Sanitise(input, output);
            var twice := Sanitise(input, once);
            twice.(playerLostHealthThisTurn := once.playerLostHealthThisTurn,
                   geminiLostHealthThisTurn := once.geminiLostHealthThisTurn) == once
  {
    SanitiseKeepsSaneAnswer(input, Sanitise(input, output));
  }

  /**
   * The whole flow: the model sees only the clamped input, an error thrown by
   * the model call passes through, a missing answer is an error of its own,
   * and any answer is sanitised against the original input.
   */
  function NarrateAdventureFlow(input: NarrateInput, prompt: NarrateInput -> Result<Option<NarrateOutput>, string>)
    : (r: Result<NarrateOutput, string>)
    ensures var answer := prompt(SafeInput(input));
            (answer.Failure? ==> r == Failure(answer.error)) &&
            (answer == Success(None) ==> r == Failure(NoOutputError)) &&
            (answer.Success? && answer.value.Some? ==> r == Success(Sanitise(input, answer.value.value)))
    ensures r.Success? ==> SaneVitals(r.value)
  {
    match prompt(SafeInput(input))
    case Failure(e) => Failure(e)
    case Success(None) => Failure(NoOutputError)
    case Success(Some(output)) => Success(Sanitise(input, output))
  }
}
