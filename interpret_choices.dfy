/**
 * The deterministic part of the companion's decision flow: what happens when
 * the model gives no answer, and how an answer naming an option that was not
 * offered is corrected.  The model's answer and the random draw of the
 * fallback are parameters.
 */
module InterpretChoices {
  import opened Common

  const NoOutputChoice := "Stay put and observe."
  const NoOutputReasoning := "System fallback: A random choice was made due to an unexpected error in decision processing."
  const InvalidChoiceFallback := "Observe the surroundings."
  const CorrectionNote := " (System corrected to a valid choice from the list)."

  datatype InterpretInput = InterpretInput(
    sceneDescription: string,
    availableChoices: seq<string>,
    currentGeminiHealth: int)

  datatype InterpretOutput = InterpretOutput(chosenOption: string, reasoning: string)

  /**
   * `choices[i] || fallback`: a missing entry (the list is empty) and an
   * empty-string entry both give the fallback.
   */
  function EntryOr(choices: seq<string>, i: nat, fallback: string): (r: string)
    ensures i < |choices| && choices[i] != "" ==> r == choices[i]
    ensures i >= |choices| || choices[i] == "" ==> r == fallback
  {
    if i < |choices| && choices[i] != "" then choices[i] else fallback
  }

  /** True when the random draw `pick` is an index `Math.floor(Math.random() * n)` can produce. */
  predicate IsDraw(choices: seq<string>, pick: nat) {
    choices == [] || pick < |choices|
  }

  /**
   * The flow as written, from the model's answer on.  `output` is that
   * answer (None when it gave none) and `pick` the random index drawn for
   * the no-answer fallback.
   */
  function InterpretChoicesFlow(input: InterpretInput, output: Option<InterpretOutput>, pick: nat)
    : (r: InterpretOutput)
    requires IsDraw(input.availableChoices, pick)
    // no answer: some offered entry, or the fixed fallback, with the fixed reasoning
    ensures output.None? ==> r.reasoning == NoOutputReasoning
    ensures output.None? ==> r.chosenOption in input.availableChoices || r.chosenOption == NoOutputChoice
    ensures output.None? && input.availableChoices == [] ==> r.chosenOption == NoOutputChoice
    // a valid answer is returned unchanged
    ensures output.Some? && output.value.chosenOption in input.availableChoices ==> r == output.value
    // an invalid answer is replaced by the first entry (or a fallback) and the reasoning is annotated
    ensures output.Some? && output.value.chosenOption !in input.availableChoices ==>
              r.reasoning == output.value.reasoning + CorrectionNote
    ensures output.Some? && output.value.chosenOption !in input.availableChoices &&
            input.availableChoices != [] && input.availableChoices[0] != ""
            ==> r.chosenOption == input.availableChoices[0]
    ensures output.Some? && output.value.chosenOption !in input.availableChoices && input.availableChoices == [] ==>
              r.chosenOption == InvalidChoiceFallback
    // with a non-empty list of non-empty entries the choice is always on the list
    ensures input.availableChoices != [] && (forall k :: 0 <= k < |input.availableChoices| ==> input.availableChoices[k] != "") ==>
              r.chosenOption in input.availableChoices
  {
    match output
    case None =>
      InterpretOutput(EntryOr(input.availableChoices, pick, NoOutputChoice), NoOutputReasoning)
    case Some(answer) =>
      if answer.chosenOption !in input.availableChoices then
        InterpretOutput(EntryOr(input.availableChoices, 0, InvalidChoiceFallback), answer.reasoning + CorrectionNote)
      else
        answer
  }

  /**
   * The whole flow around the model call: an error thrown by the call passes
   * through, and an answer (or its absence) is handled as above.
   */
  function RunInterpretChoices(input: InterpretInput, prompt: InterpretInput -> Result<Option<InterpretOutput>, string>,
                               pick: nat): (r: Result<InterpretOutput, string>)
    requires IsDraw(input.availableChoices, pick)
    ensures prompt(input).Failure? ==> r == Failure(prompt(input).error)
    ensures prompt(input).Success? ==> r == Success(InterpretChoicesFlow(input, prompt(input).value, pick))
    ensures r.Success? && input.availableChoices != [] &&
            (forall k :: 0 <= k < |input.availableChoices| ==> input.availableChoices[k] != "") ==>
              r.value.chosenOption in input.availableChoices
  {
    match prompt(input)
    case Failure(e) => Failure(e)
    case Success(output) => Success(InterpretChoicesFlow(input, output, pick))
  }

  /**
   * Because of the `||` fallbacks, an empty-string entry lets a choice
   * outside the offered list through: an invalid answer over the list [""]
   * comes back as "Observe the surroundings.".
   */
  lemma EmptyEntryEscapesList()
    ensures var input := InterpretInput("a cellar", [""], 2);
            InterpretChoicesFlow(input, Some(InterpretOutput("Run", "why not")), 0).chosenOption
              !in input.availableChoices
  {
  }

  /**
   * The flow as its comments describe it: the fallback strings are used only
   * when the list is empty.
   */
  function InterpretChoicesFlowCorrected(input: InterpretInput, output: Option<InterpretOutput>, pick: nat)
    : (r: InterpretOutput)
    requires IsDraw(input.availableChoices, pick)
    ensures input.availableChoices != [] ==> r.chosenOption in input.availableChoices
    ensures input.availableChoices == [] ==>
              r.chosenOption == (if output.None? then NoOutputChoice
                                 else if output.value.chosenOption in input.availableChoices then output.value.chosenOption
                                 else InvalidChoiceFallback)
    ensures output.Some? && output.value.chosenOption in input.availableChoices ==> r == output.value
    ensures output.None? ==> r.reasoning == NoOutputReasoning
    ensures output.Some? && output.value.chosenOption !in input.availableChoices ==>
              r.reasoning == output.value.reasoning + CorrectionNote
  {
    var choices := input.availableChoices;
    match output
    case None =>
      InterpretOutput(if choices != [] then choices[pick] else NoOutputChoice, NoOutputReasoning)
    case Some(answer) =>
      if answer.chosenOption !in choices then
        InterpretOutput(if choices != [] then choices[0] else InvalidChoiceFallback, answer.reasoning + CorrectionNote)
      else
        answer
  }

  /** The two versions agree whenever no offered entry is the empty string. */
  lemma CorrectedAgreesWithoutEmptyEntries(input: InterpretInput, output: Option<InterpretOutput>, pick: nat)
    requires IsDraw(input.availableChoices, pick)
    requires forall k :: 0 <= k < |input.availableChoices| ==> input.availableChoices[k] != ""
    ensures InterpretChoicesFlowCorrected(input, output, pick) == InterpretChoicesFlow(input, output, pick)
  {
  }
}
