/**
 * The JavaScript string and array primitives the game's logic relies on:
 * `toLowerCase`, `includes`, `split(/\s+/)`, `replace(/[.,]/g, '')`,
 * `filter`, `slice(0, n)`, `join(" ")` and the `||` fallback on strings.
 */
module Text {
  import opened Common

  /** JavaScript's `\s` character class. */
  predicate IsWhitespace(c: char) {
    c == ' ' || c == '\t' || c == '\n' || c == '\U{000B}' || c == '\U{000C}' || c == '\r' ||
    c == '\U{00A0}' || c == '\U{1680}' || ('\U{2000}' <= c <= '\U{200A}') ||
    c == '\U{2028}' || c == '\U{2029}' || c == '\U{202F}' || c == '\U{205F}' ||
    c == '\U{3000}' || c == '\U{FEFF}'
  }

  predicate NoWhitespace(s: string) {
    forall k :: 0 <= k < |s| ==> !IsWhitespace(s[k])
  }

  /** `toLowerCase` on one character (ASCII letters only). */
  function LowerChar(c: char): (d: char)
    ensures 'A' <= c <= 'Z' ==> 'a' <= d <= 'z' && d as int - c as int == 32
    ensures !('A' <= c <= 'Z') ==> d == c
  {
    if 'A' <= c <= 'Z' then (c as int + 32) as char else c
  }

  /** `s.toLowerCase()`: lowers every character in place. */
  function Lower(s: string): (r: string)
    ensures |r| == |s|
    ensures forall k :: 0 <= k < |s| ==> r[k] == LowerChar(s[k])
  {
    seq(|s|, k requires 0 <= k < |s| => LowerChar(s[k]))
  }

  /** Lowering commutes with taking a slice. */
  lemma LowerSlice(s: string, i: nat, j: nat)
    requires i <= j <= |s|
    ensures Lower(s)[i..j] == Lower(s[i..j])
  {
    forall k | 0 <= k < j - i ensures Lower(s)[i..j][k] == Lower(s[i..j])[k] {
      assert s[i..j][k] == s[i + k];
    }
  }

  /** `s.includes(sub)`: some suffix of `s` starts with `sub`. */
  predicate Includes(s: string, sub: string)
    decreases |s|
  {
    sub <= s || (s != [] && Includes(s[1..], sub))
  }

  /** `Includes` holds as soon as `sub` occurs at some index of `s`. */
  lemma {:induction false} IncludesAt(s: string, sub: string, i: nat)
    requires i + |sub| <= |s| && s[i..i + |sub|] == sub
    ensures Includes(s, sub)
    decreases i
  {
    if i == 0 {
      assert sub == s[..|sub|];
    } else {
      assert s[1..][i - 1..i - 1 + |sub|] == s[i..i + |sub|];
      IncludesAt(s[1..], sub, i - 1);
    }
  }

  /** `Includes` holds only if `sub` occurs at some index of `s`. */
  lemma {:induction false} IncludesWitness(s: string, sub: string) returns (i: nat)
    requires Includes(s, sub)
    ensures i + |sub| <= |s| && s[i..i + |sub|] == sub
    decreases |s|
  {
    if sub <= s {
      i := 0;
    } else {
      var j := IncludesWitness(s[1..], sub);
      assert s[1..][j..j + |sub|] == s[j + 1..j + 1 + |sub|];
      i := j + 1;
    }
  }

  /** Drops a leading run of whitespace. */
  function TrimStart(s: string): (r: string)
    ensures |r| <= |s|
    ensures r == [] || !IsWhitespace(r[0])
  {
    if s != [] && IsWhitespace(s[0]) then TrimStart(s[1..]) else s
  }

  /** True when every character of `s` is whitespace. */
  predicate AllWhitespace(s: string) {
    forall k :: 0 <= k < |s| ==> IsWhitespace(s[k])
  }

  /** The leading run of whitespace that `TrimStart` drops. */
  function LeadingWhitespace(s: string): (lead: string)
    ensures AllWhitespace(lead)
    ensures lead + TrimStart(s) == s
    decreases |s|
  {
    if s != [] && IsWhitespace(s[0]) then
      assert [s[0]] + LeadingWhitespace(s[1..]) + TrimStart(s[1..]) == [s[0]] + s[1..];
      [s[0]] + LeadingWhitespace(s[1..])
    else []
  }

  /**
   * The whitespace runs `split(/\s+/)` cuts at, in order: each maximal run
   * of whitespace in `s`.
   */
  function Separators(s: string): (seps: seq<string>)
    ensures forall k :: 0 <= k < |seps| ==> seps[k] != "" && AllWhitespace(seps[k])
    decreases |s|
  {
    if s == [] then []
    else if IsWhitespace(s[0]) then [[s[0]] + LeadingWhitespace(s[1..])] + Separators(TrimStart(s[1..]))
    else Separators(s[1..])
  }

  /** `ws[0] + seps[0] + ws[1] + ... + seps[n - 1] + ws[n]`: pieces glued back with their separators. */
  function Interleave(ws: seq<string>, seps: seq<string>): string
    requires |ws| == |seps| + 1
    decreases |seps|
  {
    if seps == [] then ws[0] else ws[0] + seps[0] + Interleave(ws[1..], seps[1..])
  }

  /** Gluing after prefixing the first piece is prefixing the glued text. */
  lemma InterleavePrefix(c: string, ws: seq<string>, seps: seq<string>)
    requires |ws| == |seps| + 1
    ensures Interleave([c + ws[0]] + ws[1..], seps) == c + Interleave(ws, seps)
  {
    var ws' := [c + ws[0]] + ws[1..];
    assert ws'[1..] == ws[1..];
  }

  /**
   * `s.split(/\s+/)`: the pieces between maximal runs of whitespace, with an
   * empty first piece when `s` starts with whitespace and an empty last piece
   * when it ends with whitespace.
   */
  function Words(s: string): (ws: seq<string>)
    ensures |ws| >= 1
    ensures forall k :: 0 <= k < |ws| ==> NoWhitespace(ws[k])
    decreases |s|
  {
    if s == [] then [""]
    else if IsWhitespace(s[0]) then [""] + Words(TrimStart(s[1..]))
    else
      var rest := Words(s[1..]);
      [[s[0]] + rest[0]] + rest[1..]
  }

  /** True when gluing the pieces of the split of `s` back together gives `s`. */
  predicate Rebuilds(s: string) {
    |Words(s)| == |Separators(s)| + 1 && Interleave(Words(s), Separators(s)) == s
  }

  /** Gluing a piece and a separator in front of a glued split. */
  lemma InterleaveCons(w: string, sep: string, ws: seq<string>, seps: seq<string>)
    requires |ws| == |seps| + 1
    ensures Interleave([w] + ws, [sep] + seps) == w + sep + Interleave(ws, seps)
  {
    assert ([w] + ws)[1..] == ws && ([sep] + seps)[1..] == seps;
  }

  /** A split that starts at a whitespace run rebuilds when the rest after the run does. */
  lemma WhitespaceStepRebuilds(s: string)
    requires s != [] && IsWhitespace(s[0])
    requires Rebuilds(TrimStart(s[1..]))
    ensures Rebuilds(s)
  {
    var t := TrimStart(s[1..]);
    var lead := LeadingWhitespace(s[1..]);
    assert Words(s) == [""] + Words(t);
    assert Separators(s) == [[s[0]] + lead] + Separators(t);
    InterleaveCons("", [s[0]] + lead, Words(t), Separators(t));
    assert "" + ([s[0]] + lead) + t == [s[0]] + (lead + t);
  }

  /** A split that starts inside a piece rebuilds when the split of the tail does. */
  lemma CharStepRebuilds(s: string)
    requires s != [] && !IsWhitespace(s[0])
    requires Rebuilds(s[1..])
    ensures Rebuilds(s)
  {
    InterleavePrefix([s[0]], Words(s[1..]), Separators(s[1..]));
    assert [s[0]] + s[1..] == s;
  }

  /**
   * The split loses nothing: gluing the pieces back together with the
   * whitespace runs between them gives `s` again.  With `NoWhitespace` on
   * every piece and `WordsInnerPiecesNotEmpty`, this pins the pieces down as
   * the text between maximal whitespace runs.
   */
  lemma {:induction false} WordsRebuildText(s: string)
    ensures |Words(s)| == |Separators(s)| + 1
    ensures Interleave(Words(s), Separators(s)) == s
    decreases |s|
  {
    if s == [] {
    } else if IsWhitespace(s[0]) {
      WordsRebuildText(TrimStart(s[1..]));
      WhitespaceStepRebuilds(s);
    } else {
      WordsRebuildText(s[1..]);
      CharStepRebuilds(s);
    }
  }

  /** Only the first and the last piece of a split can be empty. */
  lemma {:induction false} WordsInnerPiecesNotEmpty(s: string)
    ensures forall k :: 0 < k < |Words(s)| - 1 ==> Words(s)[k] != ""
    decreases |s|
  {
    if s == [] {
    } else if IsWhitespace(s[0]) {
      var t := TrimStart(s[1..]);
      WordsInnerPiecesNotEmpty(t);
      if t != [] {
        assert Words(t)[0] != "";
      }
      assert forall k :: 0 < k < |Words(s)| ==> Words(s)[k] == Words(t)[k - 1];
    } else {
      WordsInnerPiecesNotEmpty(s[1..]);
      assert forall k :: 0 < k < |Words(s)| ==> Words(s)[k] == Words(s[1..])[k];
    }
  }

  /** A string without whitespace splits into itself alone. */
  lemma {:induction false} WordsOfSingleToken(s: string)
    requires NoWhitespace(s)
    ensures Words(s) == [s]
    decreases |s|
  {
    if s != [] {
      assert NoWhitespace(s[1..]);
      WordsOfSingleToken(s[1..]);
      assert [s[0]] + s[1..] == s;
    }
  }

  /** The characters `replace(/[.,]/g, '')` keeps. */
  predicate NotPunctuation(c: char) {
    c != '.' && c != ','
  }

  /** `w.replace(/[.,]/g, '')`: every `.` and `,` removed, every other character kept in order. */
  function StripPunctuation(w: string): (r: string)
    ensures r == Filter(w, NotPunctuation)
    ensures |r| <= |w|
    ensures forall k :: 0 <= k < |r| ==> r[k] != '.' && r[k] != ',' && r[k] in w
  {
    if w == [] then []
    else (if w[0] == '.' || w[0] == ',' then [] else [w[0]]) + StripPunctuation(w[1..])
  }

  /** `s.filter(p)`: the elements satisfying `p`, in their original order. */
  function Filter<T>(s: seq<T>, p: T -> bool): (r: seq<T>)
    ensures |r| <= |s|
    ensures forall k :: 0 <= k < |r| ==> p(r[k]) && r[k] in s
  {
    if s == [] then [] else (if p(s[0]) then [s[0]] else []) + Filter(s[1..], p)
  }

  /** Elements that `p` rejects before index `i` do not show up in the filter. */
  lemma {:induction false} FilterSkips<T>(s: seq<T>, p: T -> bool, i: nat)
    requires i <= |s|
    requires forall k :: 0 <= k < i ==> !p(s[k])
    ensures Filter(s, p) == Filter(s[i..], p)
    decreases i
  {
    if i > 0 {
      assert s[1..][i - 1..] == s[i..];
      FilterSkips(s[1..], p, i - 1);
    }
  }

  /** If `i` is the first index `p` accepts, the filter starts with `s[i]`. */
  lemma FilterFirst<T>(s: seq<T>, p: T -> bool, i: nat)
    requires i < |s| && p(s[i])
    requires forall k :: 0 <= k < i ==> !p(s[k])
    ensures Filter(s, p) == [s[i]] + Filter(s[i + 1..], p)
  {
    FilterSkips(s, p, i);
    assert s[i..][1..] == s[i + 1..];
  }

  /** A filter over elements that `p` all rejects is empty. */
  lemma {:induction false} FilterNone<T>(s: seq<T>, p: T -> bool)
    requires forall k :: 0 <= k < |s| ==> !p(s[k])
    ensures Filter(s, p) == []
  {
    FilterSkips(s, p, |s|);
  }

  /** If `p` accepts exactly `s[i]` and `s[j]` among the first `j + 1` elements, the filter starts with those two. */
  lemma FilterFirstTwo<T>(s: seq<T>, p: T -> bool, i: nat, j: nat)
    requires i < j < |s| && p(s[i]) && p(s[j])
    requires forall k :: 0 <= k < j && k != i ==> !p(s[k])
    ensures |Filter(s, p)| >= 2 && Filter(s, p)[..2] == [s[i], s[j]]
  {
    FilterFirst(s, p, i);
    var rest := s[i + 1..];
    assert rest[j - i - 1] == s[j];
    FilterFirst(rest, p, j - i - 1);
    assert rest[j - i..] == s[j + 1..];
  }

  /** If `p` accepts `s[i]` and nothing else, the filter is exactly `[s[i]]`. */
  lemma FilterOnly<T>(s: seq<T>, p: T -> bool, i: nat)
    requires i < |s| && p(s[i])
    requires forall k :: 0 <= k < |s| && k != i ==> !p(s[k])
    ensures Filter(s, p) == [s[i]]
  {
    FilterFirst(s, p, i);
    FilterNone(s[i + 1..], p);
  }

  /** `s.slice(0, n)`. */
  function Take<T>(s: seq<T>, n: nat): (r: seq<T>)
    ensures |r| == if n < |s| then n else |s|
    ensures r <= s
  {
    if n < |s| then s[..n] else s
  }

  /** `ws.join(" ")`. */
  function JoinSpace(ws: seq<string>): (r: string)
    ensures ws == [] ==> r == ""
    ensures ws != [] ==> ws[0] <= r
    ensures |ws| == 2 ==> r == ws[0] + " " + ws[1]
  {
    if ws == [] then "" else if |ws| == 1 then ws[0] else ws[0] + " " + JoinSpace(ws[1..])
  }

  /** `s || null` on a nullable string: the empty string counts as missing. */
  function NullIfEmpty(s: Option<string>): (r: Option<string>)
    ensures r == None <==> (s == None || s == Some(""))
    ensures r != None ==> r == s
  {
    if s == Some("") then None else s
  }
}
