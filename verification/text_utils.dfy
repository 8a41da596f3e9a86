/** Normalization of team and market names for fuzzy comparison, and short
    team codes. Characters are modelled with Python's ASCII semantics for
    `lower`, `upper`, `isalnum`, `isspace` and `split`. */
module TextUtils {

  // ---------------------------------------------------------------------------
  // Characters
  // ---------------------------------------------------------------------------

  predicate IsAscii(c: char) {
    c as int < 128
  }

  predicate IsUpperLetter(c: char) {
    'A' <= c <= 'Z'
  }

  predicate IsLowerLetter(c: char) {
    'a' <= c <= 'z'
  }

  predicate IsDigit(c: char) {
    '0' <= c <= '9'
  }

  /** `str.isalnum` on an ASCII character. */
  predicate IsAlnum(c: char) {
    IsUpperLetter(c) || IsLowerLetter(c) || IsDigit(c)
  }

  /** `str.isspace` on an ASCII character: tab to carriage return, the four
      separators 0x1C to 0x1F, and the space. */
  predicate IsSpace(c: char) {
    9 <= c as int <= 13 || 28 <= c as int <= 32
  }

  /** The characters `normalize_text` can emit inside a word. */
  predicate IsWordChar(c: char) {
    IsLowerLetter(c) || IsDigit(c)
  }

  function LowerChar(c: char): (r: char)
    ensures IsUpperLetter(c) ==> IsLowerLetter(r) && r as int == c as int + 32
    ensures !IsUpperLetter(c) ==> r == c
  {
    if IsUpperLetter(c) then (c as int + 32) as char else c
  }

  function UpperChar(c: char): (r: char)
    ensures IsLowerLetter(c) ==> IsUpperLetter(r) && r as int + 32 == c as int
    ensures !IsLowerLetter(c) ==> r == c
  {
    if IsLowerLetter(c) then (c as int - 32) as char else c
  }

  // ---------------------------------------------------------------------------
  // Strings
  // ---------------------------------------------------------------------------

  /** `str.lower`. */
  function Lower(s: string): (r: string)
    ensures |r| == |s|
    ensures forall i :: 0 <= i < |s| ==> r[i] == LowerChar(s[i])
  {
    if |s| == 0 then "" else [LowerChar(s[0])] + Lower(s[1..])
  }

  /** `str.upper`. */
  function Upper(s: string): (r: string)
    ensures |r| == |s|
    ensures forall i :: 0 <= i < |s| ==> r[i] == UpperChar(s[i])
  {
    if |s| == 0 then "" else [UpperChar(s[0])] + Upper(s[1..])
  }

  /** The slice `s[:n]`. */
  function Take(s: string, n: nat): (r: string)
    ensures |r| == if |s| <= n then |s| else n
    ensures r == s[..|r|]
  {
    if |s| <= n then s else s[..n]
  }

  /** `str.replace(" ", "")`: every plain space removed. */
  function RemoveSpaces(s: string): (r: string)
    ensures ' ' !in r
    ensures |r| <= |s|
  {
    if |s| == 0 then ""
    else (if s[0] == ' ' then "" else [s[0]]) + RemoveSpaces(s[1..])
  }

  /** `"".join(parts)`. */
  function Concat(parts: seq<string>): string {
    if |parts| == 0 then "" else parts[0] + Concat(parts[1..])
  }

  /** `sep.join(parts)`. */
  function JoinWith(parts: seq<string>, sep: string): string {
    if |parts| == 0 then ""
    else if |parts| == 1 then parts[0]
    else parts[0] + sep + JoinWith(parts[1..], sep)
  }

  /** `s.split(c)` with an explicit one-character separator: the pieces between
      separators, empty ones included, so there is always at least one. */
  function SplitOn(s: string, c: char): (r: seq<string>)
    ensures |r| > 0
    ensures forall i :: 0 <= i < |r| ==> c !in r[i]
  {
    if |s| == 0 then [""]
    else
      var rest := SplitOn(s[1..], c);
      if s[0] == c then [""] + rest
      else [[s[0]] + rest[0]] + rest[1..]
  }

  /** Joining the pieces of a split with the separator gives the string back. */
  lemma {:induction false} SplitOnJoin(s: string, c: char)
    ensures JoinWith(SplitOn(s, c), [c]) == s
  {
    if |s| > 0 {
      var rest := SplitOn(s[1..], c);
      SplitOnJoin(s[1..], c);
      assert s == [s[0]] + s[1..];
      if s[0] == c {
        assert SplitOn(s, c) == [""] + rest;
        assert ([""] + rest)[1..] == rest;
      } else {
        var r := [[s[0]] + rest[0]] + rest[1..];
        assert r[1..] == rest[1..];
        if |rest| == 1 {
          assert rest == [rest[0]];
        } else {
          assert JoinWith(rest, [c]) == rest[0] + [c] + JoinWith(rest[1..], [c]);
        }
      }
    }
  }

  // ---------------------------------------------------------------------------
  // normalize_text
  // ---------------------------------------------------------------------------

  /** Encoding to ASCII with errors ignored: every non-ASCII character dropped. */
  function AsciiOnly(s: string): (r: string)
    ensures forall i :: 0 <= i < |r| ==> IsAscii(r[i])
  {
    if |s| == 0 then ""
    else (if IsAscii(s[0]) then [s[0]] else "") + AsciiOnly(s[1..])
  }

  /** Keeps letters, digits and whitespace; anything else becomes a space. */
  function CleanChar(c: char): char {
    if IsAlnum(c) || IsSpace(c) then c else ' '
  }

  function Clean(s: string): (r: string)
    ensures |r| == |s|
    ensures forall i :: 0 <= i < |s| ==> r[i] == CleanChar(s[i])
  {
    if |s| == 0 then "" else [CleanChar(s[0])] + Clean(s[1..])
  }

  /** Length of the longest prefix of `s` free of whitespace. */
  function WordLength(s: string): (n: nat)
    ensures n <= |s|
    ensures forall i :: 0 <= i < n ==> !IsSpace(s[i])
    ensures n < |s| ==> IsSpace(s[n])
  {
    if |s| == 0 || IsSpace(s[0]) then 0 else 1 + WordLength(s[1..])
  }

  /** `str.split()` without a separator: the maximal runs of non-whitespace. */
  function Words(s: string): (r: seq<string>)
    ensures forall k :: 0 <= k < |r| ==> |r[k]| > 0
    ensures (forall i :: 0 <= i < |s| ==> IsWordChar(s[i]) || IsSpace(s[i])) ==>
              forall k :: 0 <= k < |r| ==> forall i :: 0 <= i < |r[k]| ==> IsWordChar(r[k][i])
    decreases |s|
  {
    if |s| == 0 then []
    else if IsSpace(s[0]) then Words(s[1..])
    else
      var n := WordLength(s);
      [s[..n]] + Words(s[n..])
  }

  /** Lower-case letters, digits and single inner spaces only. */
  ghost predicate Canonical(s: string) {
    && (forall i :: 0 <= i < |s| ==> IsWordChar(s[i]) || s[i] == ' ')
    && (|s| > 0 ==> s[0] != ' ' && s[|s| - 1] != ' ')
    && (forall i :: 0 <= i < |s| - 1 ==> s[i] != ' ' || s[i + 1] != ' ')
  }

  /** Lower-cases, drops non-ASCII characters, turns every other character
      that is neither a letter, a digit nor whitespace into a space, and
      collapses whitespace into single spaces with none at either end. */
  function NormalizeText(value: string): (r: string)
    ensures Canonical(r)
  {
    var cleaned := Clean(Lower(AsciiOnly(value)));
    var words := Words(cleaned);
    CleanedChars(AsciiOnly(value));
    JoinCanonical(words);
    JoinWith(words, " ")
  }

  lemma CleanedChars(s: string)
    requires forall i :: 0 <= i < |s| ==> IsAscii(s[i])
    ensures forall i :: 0 <= i < |Clean(Lower(s))| ==> IsWordChar(Clean(Lower(s))[i]) || IsSpace(Clean(Lower(s))[i])
  {
  }

  lemma {:induction false} JoinCanonical(words: seq<string>)
    requires forall k :: 0 <= k < |words| ==> |words[k]| > 0
    requires forall k :: 0 <= k < |words| ==> forall i :: 0 <= i < |words[k]| ==> IsWordChar(words[k][i])
    ensures Canonical(JoinWith(words, " "))
  {
    if |words| > 1 {
      JoinCanonical(words[1..]);
      var rest := JoinWith(words[1..], " ");
      var r := words[0] + " " + rest;
      assert JoinWith(words, " ") == r;
      assert |rest| > 0 by {
        assert |words[1..][0]| > 0;
        JoinLength(words[1..]);
      }
      forall i | 0 <= i < |r| - 1 ensures r[i] != ' ' || r[i + 1] != ' ' {
        if i < |words[0]| - 1 {
          assert r[i] == words[0][i];
        } else if i == |words[0]| - 1 {
          assert r[i] == words[0][i];
        } else if i == |words[0]| {
          assert r[i + 1] == rest[0];
        } else {
          assert r[i] == rest[i - |words[0]| - 1];
          assert r[i + 1] == rest[i - |words[0]|];
        }
      }
    }
  }

  lemma {:induction false} JoinLength(words: seq<string>)
    requires |words| > 0
    ensures |JoinWith(words, " ")| >= |words[0]|
  {
  }

  /** A canonical string is a fixed point of `NormalizeText`. */
  lemma CanonicalFixed(s: string)
    requires Canonical(s)
    ensures NormalizeText(s) == s
  {
    AsciiOnlyKeeps(s);
    LowerKeeps(s);
    CleanKeeps(s);
    WordsJoin(s);
  }

  lemma {:induction false} AsciiOnlyKeeps(s: string)
    requires forall i :: 0 <= i < |s| ==> IsAscii(s[i])
    ensures AsciiOnly(s) == s
  {
    if |s| > 0 {
      AsciiOnlyKeeps(s[1..]);
    }
  }

  lemma LowerKeeps(s: string)
    requires forall i :: 0 <= i < |s| ==> !IsUpperLetter(s[i])
    ensures Lower(s) == s
  {
    assert forall i :: 0 <= i < |s| ==> Lower(s)[i] == s[i];
  }

  lemma CleanKeeps(s: string)
    requires forall i :: 0 <= i < |s| ==> IsWordChar(s[i]) || s[i] == ' '
    ensures Clean(s) == s
  {
    assert forall i :: 0 <= i < |s| ==> Clean(s)[i] == s[i];
  }

  /** Splitting a canonical string on whitespace and joining the words with
      single spaces gives it back. */
  lemma {:induction false} WordsJoin(s: string)
    requires Canonical(s)
    ensures JoinWith(Words(s), " ") == s
    ensures |s| > 0 ==> |Words(s)| > 0
    decreases |s|
  {
    if |s| > 0 {
      var n := WordLength(s);
      assert IsWordChar(s[0]);
      if n == |s| {
        SingleWord(s);
      } else {
        var tail := s[n + 1..];
        CanonicalTail(s, n);
        WordsSkipSpace(s, n);
        WordsJoin(tail);
        var ws := Words(tail);
        JoinCons(s[..n], ws);
        SplitAround(s, n);
      }
    }
  }

  lemma SingleWord(s: string)
    requires |s| > 0 && WordLength(s) == |s|
    ensures Words(s) == [s]
    ensures JoinWith(Words(s), " ") == s
  {
    assert s[|s|..] == "";
    assert s[..|s|] == s;
  }

  lemma SplitAround(s: string, n: nat)
    requires n < |s| && s[n] == ' '
    ensures s == s[..n] + " " + s[n + 1..]
  {
  }

  lemma JoinCons(w: string, ws: seq<string>)
    requires |ws| > 0
    ensures JoinWith([w] + ws, " ") == w + " " + JoinWith(ws, " ")
  {
    assert ([w] + ws)[1..] == ws;
  }

  lemma CanonicalTail(s: string, n: nat)
    requires Canonical(s) && |s| > 0 && n == WordLength(s) && n < |s|
    ensures n > 0 && s[n] == ' ' && |s[n + 1..]| > 0 && Canonical(s[n + 1..])
  {
    var tail := s[n + 1..];
    assert forall i :: 0 <= i < |tail| ==> tail[i] == s[n + 1 + i];
  }

  lemma WordsSkipSpace(s: string, n: nat)
    requires |s| > 0 && !IsSpace(s[0]) && n == WordLength(s) && n < |s| && s[n] == ' '
    ensures Words(s) == [s[..n]] + Words(s[n + 1..])
  {
    assert s[n..][1..] == s[n + 1..];
  }

  /** Normalizing twice is normalizing once. */
  lemma NormalizeTextIdempotent(value: string)
    ensures NormalizeText(NormalizeText(value)) == NormalizeText(value)
  {
    CanonicalFixed(NormalizeText(value));
  }

  /** Length of the longest prefix of `s` made of letters and digits. */
  function AlnumRun(s: string): (n: nat)
    ensures n <= |s|
    ensures forall i :: 0 <= i < n ==> IsAlnum(s[i])
    ensures n < |s| ==> !IsAlnum(s[n])
  {
    if |s| == 0 || !IsAlnum(s[0]) then 0 else 1 + AlnumRun(s[1..])
  }

  /** The maximal runs of letters and digits of `s`, each lower-cased, in
      order: the words `normalize_text` is meant to keep. Every other
      character only separates runs. */
  function Tokens(s: string): seq<string>
    decreases |s|
  {
    if |s| == 0 then []
    else if !IsAlnum(s[0]) then Tokens(s[1..])
    else
      var n := AlnumRun(s);
      [Lower(s[..n])] + Tokens(s[n..])
  }

  /** The output of `normalize_text` is the input's ASCII letter-and-digit
      runs, lower-cased, in input order, joined by single spaces. */
  lemma NormalizeTextTokens(value: string)
    ensures NormalizeText(value) == JoinWith(Tokens(AsciiOnly(value)), " ")
  {
    var a := AsciiOnly(value);
    WordsAreTokens(Clean(Lower(a)), a);
  }

  /** "A-b" normalizes to "a b": the hyphen only separates. */
  lemma NormalizeTextExample(v: string)
    requires v == "A-b"
    ensures NormalizeText(v) == "a b"
  {
    AsciiOnlyKeeps(v);
    ExampleTokens(v);
    NormalizeTextTokens(v);
    JoinPair("a", "b");
  }

  lemma ExampleTokens(v: string)
    requires v == "A-b"
    ensures Tokens(v) == ["a", "b"]
  {
    assert Lower(v[..1]) == "a";
    TokensStep(v, 1, "a");
    var rest := v[2..];
    assert AlnumRun(rest) == 1 by {
      assert rest[1..] == "";
    }
    assert rest[..1] == "b" && rest[1..] == "";
    assert Lower("b") == "b";
  }

  lemma JoinPair(a: string, b: string)
    ensures JoinWith([a, b], " ") == a + " " + b
  {
    assert [a, b][1..] == [b];
  }

  /** One run of `Tokens`: a run of length `n` followed by a separator. */
  lemma TokensStep(s: string, n: nat, w: string)
    requires 0 < n < |s| && IsAlnum(s[0]) && !IsAlnum(s[n])
    requires forall i :: 0 <= i < n ==> IsAlnum(s[i])
    requires Lower(s[..n]) == w
    ensures Tokens(s) == [w] + Tokens(s[n + 1..])
  {
    AlnumRunIs(s, n);
    assert s[n..][1..] == s[n + 1..];
  }

  lemma {:induction false} AlnumRunIs(s: string, n: nat)
    requires n < |s| && !IsAlnum(s[n])
    requires forall i :: 0 <= i < n ==> IsAlnum(s[i])
    ensures AlnumRun(s) == n
    decreases n
  {
    if n > 0 {
      AlnumRunIs(s[1..], n - 1);
    }
  }

  /** `t` is `s` lower-cased and cleaned, character by character. */
  ghost predicate Cleans(t: string, s: string) {
    |t| == |s| && forall i :: 0 <= i < |s| ==> t[i] == CleanChar(LowerChar(s[i]))
  }

  /** Cleaning turns a character into whitespace exactly when it is not a
      letter or digit, and keeps a letter or digit lower-cased. */
  lemma CleanLowerChar(c: char)
    ensures IsSpace(CleanChar(LowerChar(c))) <==> !IsAlnum(c)
    ensures IsAlnum(c) ==> CleanChar(LowerChar(c)) == LowerChar(c)
  {
  }

  lemma {:induction false} RunLengths(t: string, s: string)
    requires Cleans(t, s)
    ensures WordLength(t) == AlnumRun(s)
    decreases |s|
  {
    if |s| > 0 {
      CleanLowerChar(s[0]);
      if IsAlnum(s[0]) {
        assert Cleans(t[1..], s[1..]);
        RunLengths(t[1..], s[1..]);
      }
    }
  }

  /** The whitespace-separated words of the cleaned text are the tokens of
      the original. */
  lemma {:induction false} WordsAreTokens(t: string, s: string)
    requires Cleans(t, s)
    ensures Words(t) == Tokens(s)
    decreases |s|
  {
    if |s| > 0 {
      CleanLowerChar(s[0]);
      if !IsAlnum(s[0]) {
        assert Cleans(t[1..], s[1..]);
        WordsAreTokens(t[1..], s[1..]);
      } else {
        RunLengths(t, s);
        var n := AlnumRun(s);
        forall i | 0 <= i < n ensures t[..n][i] == Lower(s[..n])[i] {
          CleanLowerChar(s[i]);
        }
        assert t[..n] == Lower(s[..n]);
        assert Cleans(t[n..], s[n..]);
        WordsAreTokens(t[n..], s[n..]);
      }
    }
  }

  // ---------------------------------------------------------------------------
  // short_team_code
  // ---------------------------------------------------------------------------

  /** Drops empty pieces and the connective "and". */
  function KeepWords(parts: seq<string>): (r: seq<string>)
    ensures forall k :: 0 <= k < |r| ==> r[k] != "" && r[k] != "and"
    ensures |r| <= |parts|
  {
    if |parts| == 0 then []
    else (if parts[0] != "" && parts[0] != "and" then [parts[0]] else []) + KeepWords(parts[1..])
  }

  /** The words a team code is built from: the normalized name split on
      spaces, without empty pieces and without "and". */
  function TeamWords(value: string): seq<string> {
    KeepWords(SplitOn(NormalizeText(value), ' '))
  }

  /** The first character of every word. */
  function Initials(words: seq<string>): (r: string)
    requires forall k :: 0 <= k < |words| ==> words[k] != ""
    ensures |r| == |words|
    ensures forall k :: 0 <= k < |words| ==> r[k] == words[k][0]
  {
    if |words| == 0 then "" else [words[0][0]] + Initials(words[1..])
  }

  /** The upper-cased initials of two or more words, at most four. */
  function InitialsCode(words: seq<string>): (r: string)
    requires |words| >= 2 && forall k :: 0 <= k < |words| ==> words[k] != ""
    ensures |r| == if |words| < 4 then |words| else 4
    ensures forall i :: 0 <= i < |r| ==> r[i] == UpperChar(words[i][0]) && !IsLowerLetter(r[i])
  {
    var initials := Initials(words);
    var r := Take(Upper(initials), 4);
    assert forall i :: 0 <= i < |r| ==> r[i] == Upper(initials)[i];
    r
  }

  /** The first three characters, upper-cased. */
  function PrefixCode(s: string): (r: string)
    ensures |r| == if |s| <= 3 then |s| else 3
  {
    Upper(Take(s, 3))
  }

  /** An abbreviated team code such as "MU" for "Manchester United". */
  function ShortTeamCode(value: string): (r: string)
    ensures 1 <= |r| <= 4
    ensures value == "" ==> r == "?"
    ensures |r| <= 3 || forall i :: 0 <= i < |r| ==> !IsLowerLetter(r[i])
  {
    if value == "" then "?"
    else
      var normalized := NormalizeText(value);
      if normalized == "" then BlankCode(value)
      else WordsCode(KeepWords(SplitOn(normalized, ' ')), normalized, value)
  }

  /** The code of a name that normalizes to nothing: its first three
      characters other than spaces, upper-cased, or "?" when there are none. */
  function BlankCode(value: string): (r: string)
    ensures 1 <= |r| <= 3
  {
    var cleaned := RemoveSpaces(Upper(value));
    if cleaned == "" then "?" else Take(cleaned, 3)
  }

  /** The code of a name with a non-empty normalization, from its kept words. */
  function WordsCode(words: seq<string>, normalized: string, value: string): (r: string)
    requires value != ""
    requires forall k :: 0 <= k < |words| ==> words[k] != ""
    ensures 1 <= |r| <= 4
    ensures |r| <= 3 || forall i :: 0 <= i < |r| ==> !IsLowerLetter(r[i])
  {
    if |words| == 0 then
      var cleaned := RemoveSpaces(normalized);
      if cleaned == "" then "?" else PrefixCode(cleaned)
    else if |words| >= 2 then InitialsCode(words)
    else
      var cleaned := Concat(words);
      if cleaned != "" then PrefixCode(cleaned) else PrefixCode(value)
  }

  lemma NoWordsWhenBlank(value: string)
    ensures NormalizeText(value) == "" ==> TeamWords(value) == []
  {
    assert SplitOn("", ' ') == [""];
    assert KeepWords([""]) == [];
  }

  /** With two or more words, the code is their upper-cased initials, at most four. */
  lemma ShortTeamCodeInitials(value: string)
    requires |TeamWords(value)| >= 2
    ensures var ws := TeamWords(value);
            var r := ShortTeamCode(value);
            |r| == (if |ws| < 4 then |ws| else 4)
            && forall i :: 0 <= i < |r| ==> r[i] == UpperChar(ws[i][0])
  {
    NoWordsWhenBlank(value);
    assert value != "";
  }

  /** With exactly one word, the code is its first three characters upper-cased. */
  lemma ShortTeamCodeOneWord(value: string)
    requires |TeamWords(value)| == 1
    ensures var w := TeamWords(value)[0];
            ShortTeamCode(value) == Upper(Take(w, 3))
  {
    var ws := TeamWords(value);
    NoWordsWhenBlank(value);
    assert value != "";
    assert Concat(ws) == ws[0] by {
      assert ws[1..] == [];
    }
  }
}
