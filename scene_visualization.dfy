/**
 * The string logic of the scene-visualisation panel: the two-word hint
 * derived from the scene description for the placeholder image, the
 * image's alternative text, and the shortened error notice.
 */
module SceneVisualization {
  import opened Common
  import opened Text

  const DefaultHint := "horror scene"
  const AltPrefix := "Visualization of: "
  const DefaultAlt := "Scene visualization"
  const Ellipsis := "..."
  /** Longest part of a description or an error shown before the ellipsis. */
  const ShownLength := 100

  /** The keywords a hint prefers, including one that contains a space. */
  const CommonWords: seq<string> :=
    ["dark", "eerie", "cellar", "forest", "monster", "shadow", "ruins", "abandoned", "creepy",
     "mysterious", "blood", "operating room", "coffin", "manor", "fog", "ocean", "metallic", "decay"]

  /** A token is a keyword when it is one once `.` and `,` are removed. */
  predicate IsKeyword(word: string) {
    StripPunctuation(word) in CommonWords
  }

  /** A token the fallback accepts. */
  predicate IsLong(word: string) {
    |word| > 3
  }

  /** The lower-cased description split on whitespace runs. */
  function Tokens(desc: string): (words: seq<string>)
    ensures |words| >= 1
    ensures forall k :: 0 <= k < |words| ==> NoWhitespace(words[k])
  {
    Words(Lower(desc))
  }

  /**
   * The tokens are the pieces of the lower-cased description between its
   * maximal whitespace runs: glued back with those runs they give the
   * lower-cased description, and only the first and the last can be empty.
   */
  lemma TokensRebuildDescription(desc: string)
    ensures |Tokens(desc)| == |Separators(Lower(desc))| + 1
    ensures Interleave(Tokens(desc), Separators(Lower(desc))) == Lower(desc)
    ensures forall k :: 0 < k < |Tokens(desc)| - 1 ==> Tokens(desc)[k] != ""
  {
    WordsRebuildText(Lower(desc));
    WordsInnerPiecesNotEmpty(Lower(desc));
  }

  /** A keyword token is never empty, because no keyword is. */
  lemma KeywordNotEmpty(word: string)
    requires IsKeyword(word)
    ensures word != ""
  {
  }

  /** `getHintFromDescription`. */
  function HintFromDescription(desc: Option<string>): (hint: string)
    ensures hint != ""
    ensures desc == None || desc == Some("") ==> hint == DefaultHint
  {
    if desc == None || desc == Some("") then DefaultHint
    else
      var words := Tokens(desc.value);
      var found := Filter(words, IsKeyword);
      if |found| > 0 then
        KeywordNotEmpty(found[0]);
        JoinSpace(Take(found, 2))
      else
        var generic := Take(Filter(words, IsLong), 2);
        if |generic| > 0 then JoinSpace(generic) else DefaultHint
  }

  /** A token without whitespace can never match the two-word keyword. */
  lemma OperatingRoomNeverMatches(desc: string, k: nat)
    requires k < |Tokens(desc)|
    ensures StripPunctuation(Tokens(desc)[k]) != "operating room"
  {
    var w := Tokens(desc)[k];
    var stripped := StripPunctuation(w);
    assert forall m :: 0 <= m < |stripped| ==> stripped[m] != ' ';
    assert "operating room"[9] == ' ';
  }

  /**
   * With keyword tokens at `i` and `j` and none before `j` apart from `i`,
   * the hint is those two tokens as they appear in the lower-cased text
   * (with any `.` or `,` still attached), joined by one space.
   */
  lemma HintFromTwoKeywords(desc: string, i: nat, j: nat)
    requires desc != ""
    requires i < j < |Tokens(desc)|
    requires IsKeyword(Tokens(desc)[i]) && IsKeyword(Tokens(desc)[j])
    requires forall k :: 0 <= k < j && k != i ==> !IsKeyword(Tokens(desc)[k])
    ensures HintFromDescription(Some(desc)) == Tokens(desc)[i] + " " + Tokens(desc)[j]
  {
    var words := Tokens(desc);
    FilterFirstTwo(words, IsKeyword, i, j);
    assert Take(Filter(words, IsKeyword), 2) == [words[i], words[j]];
  }

  /** With a single keyword token, the hint is that token. */
  lemma HintFromOneKeyword(desc: string, i: nat)
    requires desc != ""
    requires i < |Tokens(desc)| && IsKeyword(Tokens(desc)[i])
    requires forall k :: 0 <= k < |Tokens(desc)| && k != i ==> !IsKeyword(Tokens(desc)[k])
    ensures HintFromDescription(Some(desc)) == Tokens(desc)[i]
  {
    FilterOnly(Tokens(desc), IsKeyword, i);
  }

  /**
   * Without keywords, the hint is the first two tokens longer than three
   * characters.
   */
  lemma HintFromTwoLongTokens(desc: string, i: nat, j: nat)
    requires desc != ""
    requires forall k :: 0 <= k < |Tokens(desc)| ==> !IsKeyword(Tokens(desc)[k])
    requires i < j < |Tokens(desc)|
    requires IsLong(Tokens(desc)[i]) && IsLong(Tokens(desc)[j])
    requires forall k :: 0 <= k < j && k != i ==> !IsLong(Tokens(desc)[k])
    ensures HintFromDescription(Some(desc)) == Tokens(desc)[i] + " " + Tokens(desc)[j]
  {
    var words := Tokens(desc);
    FilterNone(words, IsKeyword);
    FilterFirstTwo(words, IsLong, i, j);
    assert Take(Filter(words, IsLong), 2) == [words[i], words[j]];
  }

  /** Without keywords and with one long token, the hint is that token. */
  lemma HintFromOneLongToken(desc: string, i: nat)
    requires desc != ""
    requires forall k :: 0 <= k < |Tokens(desc)| ==> !IsKeyword(Tokens(desc)[k])
    requires i < |Tokens(desc)| && IsLong(Tokens(desc)[i])
    requires forall k :: 0 <= k < |Tokens(desc)| && k != i ==> !IsLong(Tokens(desc)[k])
    ensures HintFromDescription(Some(desc)) == Tokens(desc)[i]
  {
    FilterNone(Tokens(desc), IsKeyword);
    FilterOnly(Tokens(desc), IsLong, i);
  }

  /** Without keywords or long tokens, the hint is the default. */
  lemma HintDefault(desc: string)
    requires forall k :: 0 <= k < |Tokens(desc)| ==> !IsKeyword(Tokens(desc)[k]) && !IsLong(Tokens(desc)[k])
    ensures HintFromDescription(Some(desc)) == DefaultHint
  {
    FilterNone(Tokens(desc), IsKeyword);
    FilterNone(Tokens(desc), IsLong);
  }

  /**
   * The image's alt text: a fixed default without a description, otherwise
   * the prefix, the description cut to its first 100 characters, and an
   * ellipsis (added even when nothing was cut).
   */
  function AltText(desc: Option<string>): (alt: string)
    ensures desc == None || desc == Some("") ==> alt == DefaultAlt
    ensures desc.Some? && desc.value != "" ==>
              var shown := if |desc.value| < ShownLength then |desc.value| else ShownLength;
              |alt| == |AltPrefix| + shown + |Ellipsis| &&
              alt[..|AltPrefix|] == AltPrefix &&
              alt[|AltPrefix|..|AltPrefix| + shown] == desc.value[..shown] &&
              alt[|AltPrefix| + shown..] == Ellipsis
  {
    if desc == None || desc == Some("") then DefaultAlt
    else AltPrefix + Take(desc.value, ShownLength) + Ellipsis
  }

  /** The error as shown: cut to 100 characters plus an ellipsis when longer than that. */
  function ErrorText(error: string): (shown: string)
    ensures |error| <= ShownLength ==> shown == error
    ensures |error| > ShownLength ==>
              |shown| == ShownLength + |Ellipsis| &&
              shown[..ShownLength] == error[..ShownLength] && shown[ShownLength..] == Ellipsis
  {
    if |error| > ShownLength then error[..ShownLength] + Ellipsis else error
  }

  /** Shortening an already shortened error changes nothing. */
  lemma ErrorTextIdempotent(error: string)
    ensures ErrorText(ErrorText(error)) == ErrorText(error)
  {
    if |error| > ShownLength {
      var once := ErrorText(error);
      assert once[..ShownLength] + Ellipsis == once;
    }
  }

  /** The error notice, shown only for a non-empty error while no image is loading. */
  function ErrorNotice(error: Option<string>, isLoading: bool): (notice: Option<string>)
    ensures notice.Some? <==> error.Some? && error.value != "" && !isLoading
    ensures notice.Some? ==> |notice.value| <= ShownLength + |Ellipsis| && notice.value != ""
    ensures notice.Some? ==> notice.value == ErrorText(error.value)
  {
    if error.Some? && error.value != "" && !isLoading then Some(ErrorText(error.value)) else None
  }
}
