/**
 * The game page's state machine.  One `GameState` record is updated by the
 * page's handlers: the opening narration, a player's turn (the companion's
 * decision, then the narration), error reporting, restart and the companion
 * hint request.  The two AI services are passed in as functions from the
 * request the page sends to the outcome it gets back (a value, or the text
 * of the error that was thrown).
 *
 * `GameState` and the transition functions below specify the page; the
 * class `DualDreadPage` keeps the record's fields and updates them in the
 * order the handlers do, and each of its methods is proved to produce the
 * state the matching function describes.
 */
module GamePage {
  import opened Common
  import Text
  import NarrateAdventure

  datatype GameState = GameState(
    narration: string,
    sceneDescription: string,
    challenge: string,
    availableChoices: seq<string>,
    userSelectedChoice: Option<string>,
    geminiSelectedChoice: Option<string>,
    geminiReasoning: Option<string>,
    geminiHint: Option<string>,
    geminiIsStuck: bool,
    isPlayerTurn: bool,
    gameOver: bool,
    errorMessage: Option<string>,
    turnCount: nat)

  const OpeningScene := "You and your AI companion awaken in a dark, eerie cellar. A palpable sense of dread hangs in the air. The only light flickers from a distant, unknown source..."

  /** The state before the opening narration has arrived. */
  const InitialGameState := GameState("", OpeningScene, "", [], None, None, None, None, false, false, false, None, 0)

  /** The fixed pool the offered choices are drawn from. */
  const ChoicesPool: seq<string> := [
    "Cautiously investigate the immediate surroundings.",
    "Try to find a way out of this area.",
    "Communicate with your companion about the situation.",
    "Listen carefully for any sounds or clues.",
    "Search for any useful items nearby.",
    "Examine the most unsettling feature of the room."
  ]

  const OpeningUserChoice := "We've awakened in this dreadful place."
  const OpeningGeminiChoice := "I sense danger. We must be cautious."
  const InitFailureMessage := "Failed to initialize game narration"
  const TurnFailureMessage := "Failed to process turn"

  /** What the page sends to the companion's decision service. */
  datatype InterpretRequest = InterpretRequest(sceneDescription: string, playerChoices: seq<string>, geminiStuck: bool)

  /** What the page reads from the companion's answer. */
  datatype CompanionReply = CompanionReply(chosenOption: string, reasoning: string, hint: Option<string>)

  /** What the page sends to the narration service. */
  datatype NarrationRequest = NarrationRequest(userChoice: string, geminiChoice: string, currentSceneDescription: string)

  /** A service call: the answer, or the message of the error it threw. */
  type Interpreter = InterpretRequest -> Result<CompanionReply, string>
  type Narrator = NarrationRequest -> Result<NarrateAdventure.NarrateOutput, string>

  /** `turnCount * 3 mod 6` is 0 on even turns and 3 on odd ones. */
  lemma {:induction false} BaseIndexMod(turnCount: nat)
    ensures (turnCount * 3) % 6 == 3 * (turnCount % 2)
    ensures (turnCount * 3 + 1) % 6 == 3 * (turnCount % 2) + 1
    ensures (turnCount * 3 + 2) % 6 == 3 * (turnCount % 2) + 2
  {
    var q, r := turnCount / 2, turnCount % 2;
    assert turnCount * 3 == 6 * q + 3 * r;
  }

  /** The first half of the pool on even turns, the second half on odd ones. */
  function PoolHalf(turnCount: nat): seq<string> {
    if turnCount % 2 == 0 then ChoicesPool[..3] else ChoicesPool[3..]
  }

  /**
   * `getDynamicChoices`: three consecutive pool entries starting at
   * `turnCount * 3`, wrapping around the pool.  The scene and the challenge
   * are not used.
   */
  function GetDynamicChoices(sceneDescription: string, challenge: string, turnCount: nat): (choices: seq<string>)
    ensures choices == PoolHalf(turnCount)
  {
    var baseIndex := turnCount * 3;
    BaseIndexMod(turnCount);
    [ChoicesPool[baseIndex % |ChoicesPool|],
     ChoicesPool[(baseIndex + 1) % |ChoicesPool|],
     ChoicesPool[(baseIndex + 2) % |ChoicesPool|]]
  }

  /** Every turn offers three different entries of the pool. */
  lemma DynamicChoicesFromPool(sceneDescription: string, challenge: string, turnCount: nat)
    ensures var choices := GetDynamicChoices(sceneDescription, challenge, turnCount);
            |choices| == 3 &&
            (forall k :: 0 <= k < |choices| ==> choices[k] in ChoicesPool) &&
            choices[0] != choices[1] && choices[1] != choices[2] && choices[0] != choices[2]
  {
    var choices := GetDynamicChoices(sceneDescription, challenge, turnCount);
    var d := if turnCount % 2 == 0 then 0 else 3;
    forall k | 0 <= k < 3 ensures choices[k] == ChoicesPool[d + k] {}
    // the entries of each half have different lengths
    assert |ChoicesPool[0]| == 50 && |ChoicesPool[1]| == 35 && |ChoicesPool[2]| == 52;
    assert |ChoicesPool[3]| == 41 && |ChoicesPool[4]| == 35 && |ChoicesPool[5]| == 48;
  }

  /** The offered choices depend on the turn count alone, and repeat every two turns. */
  lemma DynamicChoicesPeriodic(scene1: string, challenge1: string, scene2: string, challenge2: string, turnCount: nat)
    ensures GetDynamicChoices(scene1, challenge1, turnCount) == GetDynamicChoices(scene2, challenge2, turnCount + 2)
    ensures GetDynamicChoices(scene1, challenge1, turnCount) != GetDynamicChoices(scene2, challenge2, turnCount + 1)
  {
  }

  /** The game-over test on a narration: either phrase, in any letter case. */
  predicate IsGameOverText(narration: string, challenge: string) {
    Text.Includes(Text.Lower(narration), "game over") ||
    Text.Includes(Text.Lower(challenge), "you have perished")
  }

  /** `phrase` occurs at index `i` of `s` once `s` is lower-cased. */
  predicate PhraseAt(s: string, phrase: string, i: nat) {
    i + |phrase| <= |s| && Text.Lower(s[i..i + |phrase|]) == phrase
  }

  /**
   * The game ends exactly when the narration contains "game over" or the
   * challenge contains "you have perished", whatever the letter case.
   */
  lemma GameOverTextMeansPhrase(narration: string, challenge: string)
    ensures IsGameOverText(narration, challenge) <==>
              (exists i :: PhraseAt(narration, "game over", i)) ||
              (exists i :: PhraseAt(challenge, "you have perished", i))
  {
    if Text.Includes(Text.Lower(narration), "game over") {
      var i := Text.IncludesWitness(Text.Lower(narration), "game over");
      Text.LowerSlice(narration, i, i + 9);
      assert PhraseAt(narration, "game over", i);
    }
    if Text.Includes(Text.Lower(challenge), "you have perished") {
      var i := Text.IncludesWitness(Text.Lower(challenge), "you have perished");
      Text.LowerSlice(challenge, i, i + 17);
      assert PhraseAt(challenge, "you have perished", i);
    }
    if i: nat :| PhraseAt(narration, "game over", i) {
      Text.LowerSlice(narration, i, i + 9);
      Text.IncludesAt(Text.Lower(narration), "game over", i);
    }
    if i: nat :| PhraseAt(challenge, "you have perished", i) {
      Text.LowerSlice(challenge, i, i + 17);
      Text.IncludesAt(Text.Lower(challenge), "you have perished", i);
    }
  }

  /** `handleError`: the message is shown and the player may act again. */
  function WithError(s: GameState, error: string, message: string): GameState {
    s.(errorMessage := Some(message + ": " + error), isPlayerTurn := true)
  }

  /** The opening request: fixed first actions in the fixed opening scene. */
  function OpeningRequest(): NarrationRequest {
    NarrationRequest(OpeningUserChoice, OpeningGeminiChoice, InitialGameState.sceneDescription)
  }

  /** `initializeGame`, given the narration service's answer to the opening request. */
  function Initialized(s: GameState, narrate: Narrator): GameState
  {
    var cleared := s.(errorMessage := None);
    match narrate(OpeningRequest())
    case Failure(e) => WithError(cleared, e, InitFailureMessage)
    case Success(n) =>
      cleared.(narration := n.narration,
               sceneDescription := n.sceneDescription,
               challenge := n.challenge,
               availableChoices := GetDynamicChoices(n.sceneDescription, n.challenge, cleared.turnCount),
               isPlayerTurn := true,
               turnCount := cleared.turnCount + 1)
  }

  /**
   * The opening narration gives the player the turn; on success it takes the
   * story, offers the choices of the current turn count and advances it by
   * one, on failure it only reports the error.
   */
  lemma InitializedState(s: GameState, narrate: Narrator)
    ensures Initialized(s, narrate).gameOver == s.gameOver && Initialized(s, narrate).isPlayerTurn
    ensures narrate(OpeningRequest()).Success? ==>
              var r, n := Initialized(s, narrate), narrate(OpeningRequest()).value;
              r.turnCount == s.turnCount + 1 && r.errorMessage == None &&
              r.narration == n.narration && r.sceneDescription == n.sceneDescription && r.challenge == n.challenge &&
              r.availableChoices == GetDynamicChoices(n.sceneDescription, n.challenge, s.turnCount) &&
              r.userSelectedChoice == s.userSelectedChoice && r.geminiSelectedChoice == s.geminiSelectedChoice &&
              r.geminiReasoning == s.geminiReasoning && r.geminiHint == s.geminiHint &&
              r.geminiIsStuck == s.geminiIsStuck
    ensures narrate(OpeningRequest()).Failure? ==>
              Initialized(s, narrate) ==
                s.(errorMessage := Some(InitFailureMessage + ": " + narrate(OpeningRequest()).error), isPlayerTurn := true)
  {
  }

  /**
   * `handleRestartGame`: back to the initial state, then the opening
   * narration.  Nothing of the previous game survives: the choices of both
   * players, the companion's reasoning and hint and the hint request are
   * cleared whatever the narrator answers.
   */
  function Restarted(narrate: Narrator): (r: GameState)
    ensures !r.gameOver && r.isPlayerTurn
    ensures r.userSelectedChoice == None && r.geminiSelectedChoice == None && r.geminiReasoning == None &&
            r.geminiHint == None && !r.geminiIsStuck
    ensures narrate(OpeningRequest()).Success? ==>
              var n := narrate(OpeningRequest()).value;
              r.turnCount == 1 && r.availableChoices == ChoicesPool[..3] && r.errorMessage == None &&
              r.narration == n.narration && r.sceneDescription == n.sceneDescription && r.challenge == n.challenge
    ensures narrate(OpeningRequest()).Failure? ==>
              r.turnCount == 0 && r.availableChoices == [] &&
              r.errorMessage == Some(InitFailureMessage + ": " + narrate(OpeningRequest()).error) &&
              r.narration == "" && r.sceneDescription == OpeningScene && r.challenge == ""
  {
    Initialized(InitialGameState, narrate)
  }

  /** The page accepts a choice only on the player's turn of a running game. */
  predicate AcceptsChoice(s: GameState) {
    !s.gameOver && s.isPlayerTurn
  }

  /** The companion is asked about the state the player chose in. */
  function CompanionRequest(s: GameState): InterpretRequest {
    InterpretRequest(s.sceneDescription, s.availableChoices, s.geminiIsStuck)
  }

  /** The narrator hears both choices and the scene the player chose in. */
  function TurnNarrationRequest(s: GameState, choice: string, reply: CompanionReply): NarrationRequest {
    NarrationRequest(choice, reply.chosenOption, s.sceneDescription)
  }

  /** The turn is accepted and both services answer. */
  predicate TurnCommits(s: GameState, choice: string, interpret: Interpreter, narrate: Narrator) {
    AcceptsChoice(s) &&
    interpret(CompanionRequest(s)).Success? &&
    narrate(TurnNarrationRequest(s, choice, interpret(CompanionRequest(s)).value)).Success?
  }

  /** `handlePlayerChoice` with the companion and the narrator as parameters. */
  function PlayerTurn(s: GameState, choice: string, interpret: Interpreter, narrate: Narrator): GameState
  {
    if !AcceptsChoice(s) then s
    else
      var waiting := AwaitingCompanion(s, choice);
      match interpret(CompanionRequest(s))
      case Failure(e) => FailedTurn(waiting, e)
      case Success(reply) =>
        var decided := CompanionDecided(waiting, reply);
        match narrate(TurnNarrationRequest(s, choice, reply))
        case Failure(e) => FailedTurn(decided, e)
        case Success(n) => Narrated(decided, n, IsGameOverText(n.narration, n.challenge))
  }

  /** The first update of a turn: the player's choice is recorded and the turn is taken away. */
  function AwaitingCompanion(s: GameState, choice: string): GameState {
    s.(userSelectedChoice := Some(choice), isPlayerTurn := false, errorMessage := None,
       geminiSelectedChoice := None, geminiReasoning := None, geminiHint := None)
  }

  /** The second update: the companion's decision is shown. */
  function CompanionDecided(s: GameState, reply: CompanionReply): GameState {
    s.(geminiSelectedChoice := Some(reply.chosenOption),
       geminiReasoning := Some(reply.reasoning),
       geminiHint := Text.NullIfEmpty(reply.hint),
       geminiIsStuck := false)
  }

  /** The last update: the new story is committed, with the game-over verdict computed from it. */
  function Narrated(s: GameState, n: NarrateAdventure.NarrateOutput, newGameOver: bool): GameState {
    s.(narration := n.narration,
       sceneDescription := n.sceneDescription,
       challenge := n.challenge,
       availableChoices := if newGameOver then [] else GetDynamicChoices(n.sceneDescription, n.challenge, s.turnCount),
       isPlayerTurn := !newGameOver,
       gameOver := newGameOver,
       turnCount := s.turnCount + 1)
  }

  /** The catch block of a turn: report the error, give the turn back, forget the player's choice. */
  function FailedTurn(s: GameState, error: string): GameState {
    WithError(s, error, TurnFailureMessage).(isPlayerTurn := true, userSelectedChoice := None)
  }

  /** Outside the player's turn, or after the game has ended, a choice changes nothing. */
  lemma PlayerTurnIgnored(s: GameState, choice: string, interpret: Interpreter, narrate: Narrator)
    requires !AcceptsChoice(s)
    ensures PlayerTurn(s, choice, interpret, narrate) == s
  {
  }

  /** The turn counter advances by exactly one on a committed turn, and only then. */
  lemma PlayerTurnCounter(s: GameState, choice: string, interpret: Interpreter, narrate: Narrator)
    ensures PlayerTurn(s, choice, interpret, narrate).turnCount ==
              if TurnCommits(s, choice, interpret, narrate) then s.turnCount + 1 else s.turnCount
  {
  }

  /**
   * A failed service call reports the error, gives the turn back, forgets the
   * player's choice and leaves the story, the choices and the game-over flag
   * as they were.
   */
  lemma PlayerTurnFailure(s: GameState, choice: string, interpret: Interpreter, narrate: Narrator)
    requires AcceptsChoice(s) && !TurnCommits(s, choice, interpret, narrate)
    ensures var r := PlayerTurn(s, choice, interpret, narrate);
            r.gameOver == s.gameOver && r.turnCount == s.turnCount &&
            r.isPlayerTurn && r.userSelectedChoice == None &&
            r.narration == s.narration && r.sceneDescription == s.sceneDescription &&
            r.challenge == s.challenge && r.availableChoices == s.availableChoices
    ensures interpret(CompanionRequest(s)).Failure? ==>
              var r := PlayerTurn(s, choice, interpret, narrate);
              r.errorMessage == Some(TurnFailureMessage + ": " + interpret(CompanionRequest(s)).error) &&
              r.geminiSelectedChoice == None && r.geminiReasoning == None && r.geminiHint == None &&
              r.geminiIsStuck == s.geminiIsStuck
    ensures interpret(CompanionRequest(s)).Success? ==>
              var r, reply := PlayerTurn(s, choice, interpret, narrate), interpret(CompanionRequest(s)).value;
              r.errorMessage == Some(TurnFailureMessage + ": " + narrate(TurnNarrationRequest(s, choice, reply)).error)
  {
  }

  /**
   * Once the companion has answered, its decision is shown and the hint
   * request is cleared, whether or not the narration then succeeds.
   */
  lemma PlayerTurnCompanionShown(s: GameState, choice: string, interpret: Interpreter, narrate: Narrator)
    requires AcceptsChoice(s) && interpret(CompanionRequest(s)).Success?
    ensures var r, reply := PlayerTurn(s, choice, interpret, narrate), interpret(CompanionRequest(s)).value;
            r.geminiSelectedChoice == Some(reply.chosenOption) && r.geminiReasoning == Some(reply.reasoning) &&
            r.geminiHint == Text.NullIfEmpty(reply.hint) && !r.geminiIsStuck
  {
  }

  /**
   * A committed turn takes the new story; the game ends exactly when the
   * narration or the challenge says so, and then no choice is offered and
   * no one is waited for; otherwise the choices for the turn count before
   * the increment are offered and the player moves next.
   */
  lemma PlayerTurnCommitted(s: GameState, choice: string, interpret: Interpreter, narrate: Narrator)
    requires TurnCommits(s, choice, interpret, narrate)
    ensures var r := PlayerTurn(s, choice, interpret, narrate);
            var n := narrate(TurnNarrationRequest(s, choice, interpret(CompanionRequest(s)).value)).value;
            r.narration == n.narration && r.sceneDescription == n.sceneDescription && r.challenge == n.challenge &&
            r.gameOver == IsGameOverText(n.narration, n.challenge) &&
            r.isPlayerTurn == !r.gameOver &&
            (r.gameOver ==> r.availableChoices == []) &&
            (!r.gameOver ==> r.availableChoices == GetDynamicChoices(n.sceneDescription, n.challenge, s.turnCount)) &&
            r.userSelectedChoice == Some(choice) && r.errorMessage == None
  {
  }

  /** `handleGeminiStuck`: ask for a hint, only on the player's turn of a running game. */
  function GeminiStuck(s: GameState): (r: GameState)
    ensures r.geminiIsStuck <==> s.geminiIsStuck || AcceptsChoice(s)
    ensures r == s.(geminiIsStuck := r.geminiIsStuck)
  {
    if !AcceptsChoice(s) then s else s.(geminiIsStuck := true)
  }

  /**
   * What holds of the page's state between two handler calls: an ended game
   * offers nothing and waits for no one, offered choices are those of the
   * last committed turn, and the player waits only before the opening
   * narration or after the end.
   */
  predicate Consistent(s: GameState) {
    (s.gameOver ==> s.availableChoices == [] && !s.isPlayerTurn && s.turnCount >= 1) &&
    (s.availableChoices != [] ==>
       s.turnCount >= 1 &&
       s.availableChoices == PoolHalf(s.turnCount - 1)) &&
    (!s.isPlayerTurn ==> s.gameOver || s.turnCount == 0)
  }

  lemma InitialStateConsistent()
    ensures Consistent(InitialGameState)
  {
  }

  /** A turn that fails after the choice was accepted leaves a consistent state. */
  lemma FailedTurnKeepsConsistent(s: GameState, choice: string, d: GameState, e: string)
    requires Consistent(s) && AcceptsChoice(s)
    requires d.gameOver == s.gameOver && d.turnCount == s.turnCount && d.availableChoices == s.availableChoices
    ensures Consistent(FailedTurn(d, e))
  {
  }

  /** A committed narration always leaves a consistent state, whatever came before. */
  lemma NarratedIsConsistent(d: GameState, n: NarrateAdventure.NarrateOutput, newGameOver: bool)
    ensures Consistent(Narrated(d, n, newGameOver))
  {
    var r := Narrated(d, n, newGameOver);
    if !newGameOver {
      assert r.availableChoices == PoolHalf(d.turnCount);
    }
  }

  lemma PlayerTurnKeepsConsistent(s: GameState, choice: string, interpret: Interpreter, narrate: Narrator)
    requires Consistent(s)
    ensures Consistent(PlayerTurn(s, choice, interpret, narrate))
  {
    if AcceptsChoice(s) {
      var waiting := AwaitingCompanion(s, choice);
      match interpret(CompanionRequest(s))
      case Failure(e) =>
        FailedTurnKeepsConsistent(s, choice, waiting, e);
      case Success(reply) =>
        var decided := CompanionDecided(waiting, reply);
        match narrate(TurnNarrationRequest(s, choice, reply))
        case Failure(e) =>
          FailedTurnKeepsConsistent(s, choice, decided, e);
        case Success(n) =>
          NarratedIsConsistent(decided, n, IsGameOverText(n.narration, n.challenge));
    }
  }

  /** The opening narration runs only on a game that has not ended (mount and restart). */
  lemma InitializedKeepsConsistent(s: GameState, narrate: Narrator)
    requires Consistent(s) && !s.gameOver
    ensures Consistent(Initialized(s, narrate))
  {
    match narrate(OpeningRequest())
    case Failure(_) =>
    case Success(n) =>
      assert Initialized(s, narrate).availableChoices == PoolHalf(s.turnCount);
  }

  lemma GeminiStuckKeepsConsistent(s: GameState)
    requires Consistent(s)
    ensures Consistent(GeminiStuck(s))
  {
  }

  /** The choices a consistent state offers always come from the pool and are distinct. */
  lemma OfferedChoicesFromPool(s: GameState)
    requires Consistent(s) && s.availableChoices != []
    ensures |s.availableChoices| == 3
    ensures s.availableChoices == if s.turnCount % 2 == 1 then ChoicesPool[..3] else ChoicesPool[3..]
  {
  }

  /**
   * The page component.  Its one piece of game state is the `GameState`
   * record; every `setGameState(prev => ({ ...prev, ... }))` of a handler is
   * one assignment of an updated record, in the handler's order.
   */
  class DualDreadPage {
    var gameState: GameState

    /** `useState(initialGameState)`. */
    constructor ()
      ensures gameState == InitialGameState
    {
      gameState := InitialGameState;
    }

    method HandleError(error: string, message: string)
      modifies this
      ensures gameState == WithError(old(gameState), error, message)
    {
      gameState := gameState.(errorMessage := Some(message + ": " + error), isPlayerTurn := true);
    }

    method InitializeGame(narrate: Narrator)
      modifies this
      ensures gameState == Initialized(old(gameState), narrate)
      ensures Consistent(old(gameState)) && !old(gameState).gameOver ==> Consistent(gameState)
    {
      if Consistent(gameState) && !gameState.gameOver {
        InitializedKeepsConsistent(gameState, narrate);
      }
      gameState := gameState.(errorMessage := None);
      var response := narrate(OpeningRequest());
      match response {
        case Success(n) =>
          gameState := gameState.(narration := n.narration,
                                  sceneDescription := n.sceneDescription,
                                  challenge := n.challenge,
                                  availableChoices := GetDynamicChoices(n.sceneDescription, n.challenge, gameState.turnCount),
                                  isPlayerTurn := true,
                                  turnCount := gameState.turnCount + 1);
        case Failure(e) =>
          HandleError(e, InitFailureMessage);
      }
    }

    method HandlePlayerChoice(playerChoice: string, interpret: Interpreter, narrate: Narrator)
      modifies this
      ensures gameState == PlayerTurn(old(gameState), playerChoice, interpret, narrate)
      ensures Consistent(old(gameState)) ==> Consistent(gameState)
    {
      if Consistent(gameState) {
        PlayerTurnKeepsConsistent(gameState, playerChoice, interpret, narrate);
      }
      if gameState.gameOver || !gameState.isPlayerTurn {
        return;
      }
      // both requests are built from the state the player chose in
      var current := gameState;

      gameState := gameState.(userSelectedChoice := Some(playerChoice), isPlayerTurn := false, errorMessage := None,
                              geminiSelectedChoice := None, geminiReasoning := None, geminiHint := None);
      var reply := interpret(InterpretRequest(current.sceneDescription, current.availableChoices, current.geminiIsStuck));
      if reply.Failure? {
        FailTurn(reply.error);
        return;
      }
      gameState := gameState.(geminiSelectedChoice := Some(reply.value.chosenOption),
                              geminiReasoning := Some(reply.value.reasoning),
                              geminiHint := Text.NullIfEmpty(reply.value.hint),
                              geminiIsStuck := false);
      var narrated := narrate(NarrationRequest(playerChoice, reply.value.chosenOption, current.sceneDescription));
      if narrated.Failure? {
        FailTurn(narrated.error);
        return;
      }
      var n := narrated.value;
      var newGameOver := IsGameOverText(n.narration, n.challenge);
      gameState := gameState.(narration := n.narration,
                              sceneDescription := n.sceneDescription,
                              challenge := n.challenge,
                              availableChoices := if newGameOver then [] else GetDynamicChoices(n.sceneDescription, n.challenge, gameState.turnCount),
                              isPlayerTurn := !newGameOver,
                              gameOver := newGameOver,
                              turnCount := gameState.turnCount + 1);
    }

    /** The catch block of `handlePlayerChoice`. */
    method FailTurn(error: string)
      modifies this
      ensures gameState == FailedTurn(old(gameState), error)
    {
      HandleError(error, TurnFailureMessage);
      gameState := gameState.(isPlayerTurn := true, userSelectedChoice := None);
    }

    method HandleRestartGame(narrate: Narrator)
      modifies this
      ensures gameState == Restarted(narrate)
      ensures Consistent(gameState)
    {
      InitialStateConsistent();
      gameState := InitialGameState;
      InitializeGame(narrate);
    }

    method HandleGeminiStuck()
      modifies this
      ensures gameState == GeminiStuck(old(gameState))
      ensures Consistent(old(gameState)) ==> Consistent(gameState)
    {
      if Consistent(gameState) {
        GeminiStuckKeepsConsistent(gameState);
      }
      if gameState.gameOver || !gameState.isPlayerTurn {
        return;
      }
      gameState := gameState.(geminiIsStuck := true);
    }
  }
}
