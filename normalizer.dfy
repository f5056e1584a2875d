/**
  The text normaliser `SentimentModel.preprocess_text` (app.py:27-32):
  lower-case the text, delete every character that is neither an ASCII letter
  nor whitespace, replace each run of whitespace by one space and strip the ends.

  Characters are Unicode scalar values. Whitespace is Python's str.isspace(),
  which is also what `\s` matches in a str pattern and what str.strip() removes.
*/
module Normalizer {

  predicate IsAsciiUpper(c: char) { 'A' <= c <= 'Z' }

  predicate IsAsciiLower(c: char) { 'a' <= c <= 'z' }

  predicate IsAsciiLetter(c: char) { IsAsciiUpper(c) || IsAsciiLower(c) }

  /** The characters CPython's str.isspace() accepts. */
  predicate IsWhitespace(c: char) {
    || ('\t' <= c <= '\r')
    || ('\U{1C}' <= c <= '\U{1F}')
    || c == ' '
    || c == '\U{85}'
    || c == '\U{A0}'
    || c == '\U{1680}'
    || ('\U{2000}' <= c <= '\U{200A}')
    || c == '\U{2028}'
    || c == '\U{2029}'
    || c == '\U{202F}'
    || c == '\U{205F}'
    || c == '\U{3000}'
  }

  /** The two non-ASCII characters whose lower-case form contains an ASCII letter. */
  const DottedCapitalI: char := '\U{130}'
  const KelvinSign: char := '\U{212A}'
  const CombiningDotAbove: char := '\U{307}'

  /** The character sequence str.lower() produces for one character. */
  function LowerChar(c: char): string
  {
    if IsAsciiUpper(c) then [(c as int + 32) as char]
    else if c == DottedCapitalI then ['i', CombiningDotAbove]
    else if c == KelvinSign then ['k']
    else [c]
  }

  /** str.lower() (app.py:29). */
  function Lower(s: string): string
  {
    if s == [] then [] else LowerChar(s[0]) + Lower(s[1..])
  }

  /** lower() leaves no ASCII capital behind. */
  lemma {:induction false} LowerHasNoUpper(s: string)
    ensures forall i :: 0 <= i < |Lower(s)| ==> !IsAsciiUpper(Lower(s)[i])
  {
    if s != [] {
      LowerHasNoUpper(s[1..]);
      var l := LowerChar(s[0]);
      var r := Lower(s[1..]);
      assert forall i :: |l| <= i < |l + r| ==> (l + r)[i] == r[i - |l|];
    }
  }

  /** What the character class `[^a-zA-Z\s]` leaves alone. */
  predicate IsKept(c: char) { IsAsciiLetter(c) || IsWhitespace(c) }

  /** re.sub(r'[^a-zA-Z\s]', '', s) (app.py:30). */
  function RemoveDisallowed(s: string): string
  {
    if s == [] then []
    else if IsKept(s[0]) then [s[0]] + RemoveDisallowed(s[1..])
    else RemoveDisallowed(s[1..])
  }

  /** The substitution keeps only letters and whitespace, all taken from its input. */
  lemma {:induction false} RemoveDisallowedKeeps(s: string)
    ensures |RemoveDisallowed(s)| <= |s|
    ensures forall i :: 0 <= i < |RemoveDisallowed(s)| ==> IsKept(RemoveDisallowed(s)[i]) && RemoveDisallowed(s)[i] in s
  {
    if s != [] {
      RemoveDisallowedKeeps(s[1..]);
      var r := RemoveDisallowed(s[1..]);
      assert forall c :: c in s[1..] ==> c in s;
      if IsKept(s[0]) {
        assert forall i :: 1 <= i < |[s[0]] + r| ==> ([s[0]] + r)[i] == r[i - 1];
      }
    }
  }

  /** Drops the leading whitespace. */
  function TrimStart(s: string): (r: string)
    ensures |r| <= |s|
  {
    if s != [] && IsWhitespace(s[0]) then TrimStart(s[1..]) else s
  }

  /** TrimStart yields the suffix that starts at the first non-whitespace character. */
  lemma {:induction false} TrimStartSpec(s: string)
    ensures TrimStart(s) == s[|s| - |TrimStart(s)|..]
    ensures forall i :: 0 <= i < |s| - |TrimStart(s)| ==> IsWhitespace(s[i])
    ensures TrimStart(s) != [] ==> !IsWhitespace(TrimStart(s)[0])
  {
    if s != [] && IsWhitespace(s[0]) {
      TrimStartSpec(s[1..]);
      assert forall i :: 1 <= i < |s| ==> s[i] == s[1..][i - 1];
    }
  }

  /** Drops the trailing whitespace. */
  function TrimEnd(s: string): (r: string)
    ensures |r| <= |s|
  {
    if s != [] && IsWhitespace(s[|s| - 1]) then TrimEnd(s[..|s| - 1]) else s
  }

  /** TrimEnd yields the prefix that ends at the last non-whitespace character. */
  lemma {:induction false} TrimEndSpec(s: string)
    ensures TrimEnd(s) == s[..|TrimEnd(s)|]
    ensures forall i :: |TrimEnd(s)| <= i < |s| ==> IsWhitespace(s[i])
    ensures TrimEnd(s) != [] ==> !IsWhitespace(TrimEnd(s)[|TrimEnd(s)| - 1])
  {
    if s != [] && IsWhitespace(s[|s| - 1]) {
      TrimEndSpec(s[..|s| - 1]);
    }
  }

  /** str.strip() with no argument. */
  function Strip(s: string): string
  {
    TrimEnd(TrimStart(s))
  }

  /** re.sub(r'\s+', ' ', s) (app.py:31): every maximal run of whitespace
      becomes a single space. */
  function CollapseWhitespace(s: string): string
    decreases |s|
  {
    if s == [] then []
    else if IsWhitespace(s[0]) then [' '] + CollapseWhitespace(TrimStart(s[1..]))
    else [s[0]] + CollapseWhitespace(s[1..])
  }

  /** After collapsing, whitespace survives only as spaces, and every other
      character comes from the input. */
  lemma {:induction false} CollapseCharacters(s: string)
    decreases |s|
    ensures forall i :: 0 <= i < |CollapseWhitespace(s)| && IsWhitespace(CollapseWhitespace(s)[i]) ==> CollapseWhitespace(s)[i] == ' '
    ensures forall i :: 0 <= i < |CollapseWhitespace(s)| && !IsWhitespace(CollapseWhitespace(s)[i]) ==> CollapseWhitespace(s)[i] in s
  {
    if s != [] {
      var rest := if IsWhitespace(s[0]) then TrimStart(s[1..]) else s[1..];
      if IsWhitespace(s[0]) {
        TrimStartSpec(s[1..]);
      }
      var j := |s| - |rest|;
      assert rest == s[j..];
      CollapseCharacters(rest);
      var c := CollapseWhitespace(rest);
      var r := CollapseWhitespace(s);
      assert r == [r[0]] + c;
      forall i | 0 <= i < |r|
        ensures IsWhitespace(r[i]) ==> r[i] == ' '
        ensures !IsWhitespace(r[i]) ==> r[i] in s
      {
        if i == 0 {
          assert r[0] == if IsWhitespace(s[0]) then ' ' else s[0];
        } else {
          assert r[i] == c[i - 1];
          assert IsWhitespace(c[i - 1]) ==> c[i - 1] == ' ';
          assert !IsWhitespace(c[i - 1]) ==> c[i - 1] in rest;
          if !IsWhitespace(r[i]) {
            var k :| 0 <= k < |rest| && rest[k] == r[i];
            assert s[j + k] == r[i];
          }
        }
      }
    }
  }

  /** The collapsed text is empty only for the empty input, starts with
      whitespace exactly when the input does, and never has two whitespace
      characters in a row. */
  lemma {:induction false} CollapseSingleRuns(s: string)
    decreases |s|
    ensures CollapseWhitespace(s) == [] <==> s == []
    ensures CollapseWhitespace(s) != [] ==> (IsWhitespace(CollapseWhitespace(s)[0]) <==> IsWhitespace(s[0]))
    ensures forall i :: 0 <= i < |CollapseWhitespace(s)| - 1 ==> !IsWhitespace(CollapseWhitespace(s)[i]) || !IsWhitespace(CollapseWhitespace(s)[i + 1])
  {
    if s != [] {
      var rest := if IsWhitespace(s[0]) then TrimStart(s[1..]) else s[1..];
      if IsWhitespace(s[0]) {
        TrimStartSpec(s[1..]);
      }
      CollapseSingleRuns(rest);
      var c := CollapseWhitespace(rest);
      var r := CollapseWhitespace(s);
      assert r == [r[0]] + c;
      assert forall i :: 1 <= i < |r| ==> r[i] == c[i - 1];
    }
  }

  /** SentimentModel.preprocess_text (app.py:27-32). */
  function Normalize(text: string): string
  {
    Strip(CollapseWhitespace(RemoveDisallowed(Lower(text))))
  }

  /** The shape of every normalised text: lower-case ASCII letters and single
      spaces, with no space at either end. */
  predicate IsNormalized(t: string)
  {
    && (forall i :: 0 <= i < |t| ==> IsAsciiLower(t[i]) || t[i] == ' ')
    && (t != [] ==> t[0] != ' ' && t[|t| - 1] != ' ')
    && (forall i :: 0 <= i < |t| - 1 ==> t[i] != ' ' || t[i + 1] != ' ')
  }

  /** Lower-case ASCII letters and spaces, never two spaces in a row: the shape
      of a text after the whitespace runs are collapsed. */
  predicate IsSingleSpaced(t: string)
  {
    && (forall i :: 0 <= i < |t| ==> IsAsciiLower(t[i]) || t[i] == ' ')
    && (forall i :: 0 <= i < |t| - 1 ==> t[i] != ' ' || t[i + 1] != ' ')
  }

  lemma LowerThenRemoveDisallowed(text: string)
    ensures forall i :: 0 <= i < |RemoveDisallowed(Lower(text))| ==>
      IsAsciiLower(RemoveDisallowed(Lower(text))[i]) || IsWhitespace(RemoveDisallowed(Lower(text))[i])
  {
    var a := Lower(text);
    var b := RemoveDisallowed(a);
    LowerHasNoUpper(text);
    RemoveDisallowedKeeps(a);
    forall i | 0 <= i < |b| ensures IsAsciiLower(b[i]) || IsWhitespace(b[i]) {
      assert IsKept(b[i]) && b[i] in a;
    }
  }

  lemma CollapseSingleSpaced(b: string)
    requires forall i :: 0 <= i < |b| ==> IsAsciiLower(b[i]) || IsWhitespace(b[i])
    ensures IsSingleSpaced(CollapseWhitespace(b))
  {
    var c := CollapseWhitespace(b);
    CollapseCharacters(b);
    CollapseSingleRuns(b);
    forall i | 0 <= i < |c| ensures IsAsciiLower(c[i]) || c[i] == ' ' {
      if !IsWhitespace(c[i]) {
        assert c[i] in b;
      }
    }
  }

  lemma SingleSpacedSlice(c: string, i: nat, j: nat)
    requires IsSingleSpaced(c) && i <= j <= |c|
    ensures IsSingleSpaced(c[i..j])
  {
    assert forall k :: 0 <= k < j - i ==> c[i..j][k] == c[i + k];
  }

  lemma StripSingleSpaced(c: string)
    requires IsSingleSpaced(c)
    ensures IsNormalized(Strip(c))
  {
    var t := TrimStart(c);
    TrimStartSpec(c);
    SingleSpacedSlice(c, |c| - |t|, |c|);
    var d := TrimEnd(t);
    TrimEndSpec(t);
    SingleSpacedSlice(t, 0, |d|);
    if d != [] {
      assert d[0] == t[0];
    }
  }

  /** preprocess_text never yields a leading, trailing or doubled space. */
  lemma NormalizeShape(text: string)
    ensures IsNormalized(Normalize(text))
  {
    LowerThenRemoveDisallowed(text);
    CollapseSingleSpaced(RemoveDisallowed(Lower(text)));
    StripSingleSpaced(CollapseWhitespace(RemoveDisallowed(Lower(text))));
  }

  lemma {:induction false} LowerFixesLowercase(t: string)
    requires forall i :: 0 <= i < |t| ==> IsAsciiLower(t[i]) || t[i] == ' '
    ensures Lower(t) == t
  {
    if t != [] {
      LowerFixesLowercase(t[1..]);
    }
  }

  lemma {:induction false} RemoveDisallowedFixesKept(t: string)
    requires forall i :: 0 <= i < |t| ==> IsKept(t[i])
    ensures RemoveDisallowed(t) == t
  {
    if t != [] {
      RemoveDisallowedFixesKept(t[1..]);
    }
  }

  lemma {:induction false} CollapseFixesSingleSpaces(t: string)
    requires forall i :: 0 <= i < |t| && IsWhitespace(t[i]) ==> t[i] == ' '
    requires forall i :: 0 <= i < |t| - 1 ==> !IsWhitespace(t[i]) || !IsWhitespace(t[i + 1])
    ensures CollapseWhitespace(t) == t
  {
    if t != [] {
      CollapseFixesSingleSpaces(t[1..]);
      if IsWhitespace(t[0]) {
        assert TrimStart(t[1..]) == t[1..];
      }
    }
  }

  /** A normalised text is a fixed point of preprocess_text. */
  lemma NormalizeFixesNormalized(t: string)
    requires IsNormalized(t)
    ensures Normalize(t) == t
  {
    LowerFixesLowercase(t);
    RemoveDisallowedFixesKept(t);
    CollapseFixesSingleSpaces(t);
    assert TrimStart(t) == t;
    assert TrimEnd(t) == t;
  }

  /** preprocess_text is idempotent. */
  lemma NormalizeIdempotent(text: string)
    ensures Normalize(Normalize(text)) == Normalize(text)
  {
    NormalizeShape(text);
    NormalizeFixesNormalized(Normalize(text));
  }

  /** The non-whitespace characters of s, in order. */
  function NonSpace(s: string): string
  {
    if s == [] then [] else (if IsWhitespace(s[0]) then [] else [s[0]]) + NonSpace(s[1..])
  }

  /** The ASCII letters of s, in order. */
  function AsciiLetters(s: string): string
  {
    if s == [] then [] else (if IsAsciiLetter(s[0]) then [s[0]] else []) + AsciiLetters(s[1..])
  }

  /** The lower-case ASCII letters one input character contributes to the
      normalised text, defined character by character. */
  function LetterOf(c: char): string
  {
    if IsAsciiUpper(c) then [(c as int + 32) as char]
    else if IsAsciiLower(c) then [c]
    else if c == DottedCapitalI then ['i']
    else if c == KelvinSign then ['k']
    else []
  }

  /** The letters the input contributes, in input order. */
  function Letters(s: string): string
  {
    if s == [] then [] else LetterOf(s[0]) + Letters(s[1..])
  }

  lemma {:induction false} NonSpaceConcat(a: string, b: string)
    ensures NonSpace(a + b) == NonSpace(a) + NonSpace(b)
  {
    if a != [] {
      assert (a + b)[1..] == a[1..] + b;
      NonSpaceConcat(a[1..], b);
    } else {
      assert a + b == b;
    }
  }

  lemma {:induction false} NonSpaceOfBlank(s: string)
    requires forall i :: 0 <= i < |s| ==> IsWhitespace(s[i])
    ensures NonSpace(s) == []
  {
    if s != [] {
      NonSpaceOfBlank(s[1..]);
    }
  }

  lemma NonSpaceTrimStart(s: string)
    ensures NonSpace(TrimStart(s)) == NonSpace(s)
  {
    var r := TrimStart(s);
    TrimStartSpec(s);
    var k := |s| - |r|;
    assert s == s[..k] + r;
    NonSpaceConcat(s[..k], r);
    NonSpaceOfBlank(s[..k]);
  }

  lemma NonSpaceTrimEnd(s: string)
    ensures NonSpace(TrimEnd(s)) == NonSpace(s)
  {
    var r := TrimEnd(s);
    TrimEndSpec(s);
    assert s == r + s[|r|..];
    NonSpaceConcat(r, s[|r|..]);
    NonSpaceOfBlank(s[|r|..]);
  }

  lemma {:induction false} NonSpaceCollapse(s: string)
    decreases |s|
    ensures NonSpace(CollapseWhitespace(s)) == NonSpace(s)
  {
    if s != [] {
      if IsWhitespace(s[0]) {
        var rest := TrimStart(s[1..]);
        NonSpaceCollapse(rest);
        NonSpaceTrimStart(s[1..]);
        assert ([' '] + CollapseWhitespace(rest))[1..] == CollapseWhitespace(rest);
      } else {
        NonSpaceCollapse(s[1..]);
        assert ([s[0]] + CollapseWhitespace(s[1..]))[1..] == CollapseWhitespace(s[1..]);
      }
    }
  }

  lemma {:induction false} NonSpaceRemoveDisallowed(s: string)
    ensures NonSpace(RemoveDisallowed(s)) == AsciiLetters(s)
  {
    if s != [] {
      NonSpaceRemoveDisallowed(s[1..]);
      if IsKept(s[0]) {
        assert ([s[0]] + RemoveDisallowed(s[1..]))[1..] == RemoveDisallowed(s[1..]);
      }
    }
  }

  lemma {:induction false} AsciiLettersConcat(a: string, b: string)
    ensures AsciiLetters(a + b) == AsciiLetters(a) + AsciiLetters(b)
  {
    if a != [] {
      assert (a + b)[1..] == a[1..] + b;
      AsciiLettersConcat(a[1..], b);
    } else {
      assert a + b == b;
    }
  }

  lemma {:induction false} AsciiLettersLower(s: string)
    ensures AsciiLetters(Lower(s)) == Letters(s)
  {
    if s != [] {
      AsciiLettersConcat(LowerChar(s[0]), Lower(s[1..]));
      AsciiLettersLower(s[1..]);
      var l := LowerChar(s[0]);
      if s[0] == DottedCapitalI {
        assert AsciiLetters(l) == ['i'] + AsciiLetters([CombiningDotAbove]);
      } else {
        assert AsciiLetters(l) == (if IsAsciiLetter(l[0]) then [l[0]] else []) + AsciiLetters([]);
      }
    }
  }

  /** preprocess_text keeps exactly the letters of its input, lower-cased and
      in order; what it removes and collapses is only whitespace and the rest. */
  lemma NormalizeKeepsLetters(text: string)
    ensures NonSpace(Normalize(text)) == Letters(text)
  {
    var a := Lower(text);
    var b := RemoveDisallowed(a);
    var c := CollapseWhitespace(b);
    AsciiLettersLower(text);
    NonSpaceRemoveDisallowed(a);
    NonSpaceCollapse(b);
    NonSpaceTrimStart(c);
    NonSpaceTrimEnd(TrimStart(c));
  }

  /** preprocess_text yields the empty string exactly when the input has no letter. */
  lemma NormalizeEmptyIff(text: string)
    ensures Normalize(text) == [] <==> Letters(text) == []
  {
    NormalizeKeepsLetters(text);
    NormalizeShape(text);
    var t := Normalize(text);
    if t != [] {
      assert NonSpace(t)[0] == t[0];
    }
  }

  lemma {:induction false} LettersEmptyIff(s: string)
    ensures Letters(s) == [] <==> forall i :: 0 <= i < |s| ==> LetterOf(s[i]) == []
  {
    if s != [] {
      LettersEmptyIff(s[1..]);
      assert Letters(s) == [] <==> LetterOf(s[0]) == [] && Letters(s[1..]) == [];
      assert forall i :: 0 <= i < |s| - 1 ==> s[1..][i] == s[i + 1];
      assert (forall i :: 0 <= i < |s| ==> LetterOf(s[i]) == []) <==>
        LetterOf(s[0]) == [] && forall i :: 0 <= i < |s| - 1 ==> LetterOf(s[1..][i]) == [];
    }
  }

  /** A text made only of digits, punctuation, whitespace and other non-letters
      normalises to the empty string; preprocess_text does not reject it. */
  lemma NonLetterTextNormalizesToEmpty(text: string)
    requires forall i :: 0 <= i < |text| ==> !IsAsciiLetter(text[i]) && text[i] != DottedCapitalI && text[i] != KelvinSign
    ensures Normalize(text) == []
  {
    LettersEmptyIff(text);
    NormalizeEmptyIff(text);
  }

  /** A blank text: every character is whitespace (the empty text included). */
  predicate IsBlank(s: string)
  {
    forall i :: 0 <= i < |s| ==> IsWhitespace(s[i])
  }

  /** `len(s.strip()) == 0` holds exactly for blank texts. */
  lemma StripEmptyIff(s: string)
    ensures Strip(s) == [] <==> IsBlank(s)
  {
    var t := TrimStart(s);
    TrimStartSpec(s);
    TrimEndSpec(t);
    if t != [] {
      assert TrimEnd(t) != [];
      assert !IsWhitespace(s[|s| - |t|]);
    }
  }

  /**
    The words of s: its maximal runs of non-whitespace characters, in order.
    A non-whitespace character followed by another one starts the first word
    of the rest; one followed by whitespace or the end is a word by itself.
  */
  function Words(s: string): (r: seq<string>)
    ensures s != [] && !IsWhitespace(s[0]) ==> r != []
  {
    if s == [] then []
    else if IsWhitespace(s[0]) then Words(s[1..])
    else if |s| == 1 || IsWhitespace(s[1]) then [[s[0]]] + Words(s[1..])
    else var rest := Words(s[1..]); [[s[0]] + rest[0]] + rest[1..]
  }

  /** The words joined by single spaces. */
  function Unwords(ws: seq<string>): string
  {
    if ws == [] then []
    else if |ws| == 1 then ws[0]
    else ws[0] + [' '] + Unwords(ws[1..])
  }

  lemma {:induction false} WordsOfBlank(b: string)
    requires IsBlank(b)
    ensures Words(b) == []
  {
    if b != [] {
      WordsOfBlank(b[1..]);
    }
  }

  /** Leading whitespace separates no words. */
  lemma {:induction false} WordsTrimStart(s: string)
    ensures Words(TrimStart(s)) == Words(s)
  {
    if s != [] && IsWhitespace(s[0]) {
      WordsTrimStart(s[1..]);
    }
  }

  /** Trailing whitespace separates no words. */
  lemma {:induction false} WordsBlankSuffix(t: string, b: string)
    requires IsBlank(b)
    ensures Words(t + b) == Words(t)
  {
    if t == [] {
      assert t + b == b;
      WordsOfBlank(b);
    } else {
      assert (t + b)[1..] == t[1..] + b;
      WordsBlankSuffix(t[1..], b);
      if |t| == 1 && b != [] {
        assert (t + b)[1] == b[0];
      } else if |t| > 1 {
        assert (t + b)[1] == t[1];
      }
    }
  }

  lemma WordsTrimEnd(s: string)
    ensures Words(TrimEnd(s)) == Words(s)
  {
    var r := TrimEnd(s);
    TrimEndSpec(s);
    assert s == r + s[|r|..];
    WordsBlankSuffix(r, s[|r|..]);
  }

  /** Collapsing whitespace runs changes no word. */
  lemma {:induction false} WordsCollapse(s: string)
    decreases |s|
    ensures Words(CollapseWhitespace(s)) == Words(s)
  {
    if s != [] {
      var r := CollapseWhitespace(s);
      if IsWhitespace(s[0]) {
        var rest := TrimStart(s[1..]);
        WordsCollapse(rest);
        WordsTrimStart(s[1..]);
        assert r[1..] == CollapseWhitespace(rest);
      } else {
        WordsCollapse(s[1..]);
        CollapseSingleRuns(s[1..]);
        var c := CollapseWhitespace(s[1..]);
        assert r[1..] == c;
        if |s| > 1 {
          assert r[1] == c[0];
        }
      }
    }
  }

  /** preprocess_text keeps the words of the lower-cased, filtered text. */
  lemma NormalizeKeepsWords(text: string)
    ensures Words(Normalize(text)) == Words(RemoveDisallowed(Lower(text)))
  {
    var b := RemoveDisallowed(Lower(text));
    var c := CollapseWhitespace(b);
    WordsCollapse(b);
    WordsTrimStart(c);
    WordsTrimEnd(TrimStart(c));
  }

  lemma UnwordsCons(c: char, w: string, ws: seq<string>)
    ensures Unwords([[c] + w] + ws) == [c] + Unwords([w] + ws)
  {
    assert ([[c] + w] + ws)[1..] == ws == ([w] + ws)[1..];
  }

  /** A suffix of a normalised text that starts at a letter is normalised. */
  lemma NormalizedSuffix(t: string, k: nat)
    requires IsNormalized(t) && k < |t| && t[k] != ' '
    ensures IsNormalized(t[k..])
  {
    assert forall i :: 0 <= i < |t| - k ==> t[k..][i] == t[k + i];
  }

  /** A text of the normalised shape is its words joined by single spaces. */
  lemma {:induction false} UnwordsOfNormalized(t: string)
    requires IsNormalized(t)
    ensures Unwords(Words(t)) == t
  {
    if t != [] {
      assert !IsWhitespace(t[0]);
      if |t| == 1 {
      } else if t[1] == ' ' {
        var u := t[2..];
        assert |t| > 2 && t[2] != ' ' by { assert t[|t| - 1] != ' '; }
        NormalizedSuffix(t, 2);
        UnwordsOfNormalized(u);
        assert t[1..][1..] == u;
        assert Words(t) == [[t[0]]] + Words(u);
        assert t == [t[0]] + [' '] + u;
      } else {
        var u := t[1..];
        assert !IsWhitespace(t[1]);
        NormalizedSuffix(t, 1);
        UnwordsOfNormalized(u);
        var rest := Words(u);
        UnwordsCons(t[0], rest[0], rest[1..]);
        assert [rest[0]] + rest[1..] == rest;
        assert t == [t[0]] + u;
      }
    }
  }

  /**
    preprocess_text is determined by the words of the lower-cased text with
    every character other than ASCII letters and whitespace removed: it joins
    them with single spaces. So a whitespace run between two words becomes
    exactly one space, and no space appears anywhere else.
  */
  lemma NormalizeIsUnwords(text: string)
    ensures Normalize(text) == Unwords(Words(RemoveDisallowed(Lower(text))))
  {
    NormalizeShape(text);
    NormalizeKeepsWords(text);
    UnwordsOfNormalized(Normalize(text));
  }

  /**
    What lower() followed by the first substitution makes of the text, defined
    character by character: every whitespace character stays where it is, and
    every other character contributes its letters (LetterOf).
  */
  function Filtered(s: string): string
  {
    if s == [] then [] else (if IsWhitespace(s[0]) then [s[0]] else LetterOf(s[0])) + Filtered(s[1..])
  }

  lemma {:induction false} RemoveDisallowedConcat(a: string, b: string)
    ensures RemoveDisallowed(a + b) == RemoveDisallowed(a) + RemoveDisallowed(b)
  {
    if a != [] {
      assert (a + b)[1..] == a[1..] + b;
      RemoveDisallowedConcat(a[1..], b);
    } else {
      assert a + b == b;
    }
  }

  /** One character through lower() and the first substitution. */
  lemma RemoveDisallowedLowerChar(c: char)
    ensures RemoveDisallowed(LowerChar(c)) == if IsWhitespace(c) then [c] else LetterOf(c)
  {
    if c == DottedCapitalI {
      assert RemoveDisallowed([CombiningDotAbove]) == [];
      assert ['i', CombiningDotAbove][1..] == [CombiningDotAbove];
    }
  }

  /** lower() and the first substitution keep every whitespace character of
      the input in place and turn every other character into its letters. */
  lemma {:induction false} LowerRemoveDisallowedIsFiltered(s: string)
    ensures RemoveDisallowed(Lower(s)) == Filtered(s)
  {
    if s != [] {
      RemoveDisallowedConcat(LowerChar(s[0]), Lower(s[1..]));
      RemoveDisallowedLowerChar(s[0]);
      LowerRemoveDisallowedIsFiltered(s[1..]);
    }
  }

  lemma {:induction false} LettersAreLower(s: string)
    ensures forall i :: 0 <= i < |Letters(s)| ==> IsAsciiLower(Letters(s)[i])
  {
    if s != [] {
      LettersAreLower(s[1..]);
      var l := LetterOf(s[0]);
      var r := Letters(s[1..]);
      assert forall i :: |l| <= i < |l + r| ==> (l + r)[i] == r[i - |l|];
    }
  }

  /** The letters of each word, leaving out the words that have none. */
  function WordLetters(ws: seq<string>): seq<string>
  {
    if ws == [] then [] else (if Letters(ws[0]) == [] then [] else [Letters(ws[0])]) + WordLetters(ws[1..])
  }

  /** The filtered text starts with the letters of the first word, followed by
      whitespace or nothing. */
  lemma {:induction false} FilteredFirstWord(s: string)
    requires s != [] && !IsWhitespace(s[0])
    ensures Letters(Words(s)[0]) <= Filtered(s)
    ensures |Letters(Words(s)[0])| < |Filtered(s)| ==> IsWhitespace(Filtered(s)[|Letters(Words(s)[0])|])
  {
    var f := Filtered(s[1..]);
    assert Filtered(s) == LetterOf(s[0]) + f;
    if |s| == 1 || IsWhitespace(s[1]) {
      assert Words(s)[0] == [s[0]];
      assert Letters([s[0]]) == LetterOf(s[0]) + Letters([]);
      if |s| > 1 {
        assert f[0] == s[1];
      }
    } else {
      FilteredFirstWord(s[1..]);
      var w := Words(s[1..])[0];
      assert Words(s)[0] == [s[0]] + w;
      assert ([s[0]] + w)[1..] == w;
      assert Letters([s[0]] + w) == LetterOf(s[0]) + Letters(w);
      assert Filtered(s)[|LetterOf(s[0])|..] == f;
    }
  }

  lemma LettersCons(c: char, w: string)
    ensures Letters([c] + w) == LetterOf(c) + Letters(w)
  {
    assert ([c] + w)[1..] == w;
  }

  lemma WordLettersCons(w: string, ws: seq<string>)
    ensures WordLetters([w] + ws) == (if Letters(w) == [] then [] else [Letters(w)]) + WordLetters(ws)
  {
    assert ([w] + ws)[1..] == ws;
  }

  /** A letter in front of a text starts a word of its own, or joins the
      text's first word. */
  lemma WordsConsLetter(x: char, f: string)
    requires IsAsciiLower(x)
    ensures f == [] || IsWhitespace(f[0]) ==> Words([x] + f) == [[x]] + Words(f)
    ensures f != [] && !IsWhitespace(f[0]) ==> Words([x] + f) == [[x] + Words(f)[0]] + Words(f)[1..]
  {
    assert ([x] + f)[1..] == f;
    if f != [] {
      assert ([x] + f)[1] == f[0];
    }
  }

  /** At most one letter in front of a text whose first word is lw (or that
      starts with whitespace, when lw is empty) joins that word. */
  lemma WordsPrependLetters(l: string, f: string, lw: string, tail: seq<string>)
    requires |l| <= 1 && (l != [] ==> IsAsciiLower(l[0]))
    requires lw <= f && (|lw| < |f| ==> IsWhitespace(f[|lw|]))
    requires lw != [] ==> IsAsciiLower(lw[0])
    requires Words(f) == (if lw == [] then [] else [lw]) + tail
    ensures Words(l + f) == (if l + lw == [] then [] else [l + lw]) + tail
  {
    if l == [] {
      assert l + f == f && l + lw == lw;
    } else {
      var x := l[0];
      assert l == [x];
      WordsConsLetter(x, f);
      if lw == [] {
        assert f == [] || IsWhitespace(f[0]);
        assert Words(f) == tail;
        assert Words([x] + f) == [[x]] + tail;
        assert l + lw == l;
      } else {
        assert f[0] == lw[0] && !IsWhitespace(f[0]);
        assert Words(f)[0] == lw && Words(f)[1..] == tail;
        assert Words([x] + f) == [[x] + lw] + tail;
      }
    }
  }

  /** A character contributes at most one letter. */
  lemma LetterOfShape(c: char)
    ensures |LetterOf(c)| <= 1 && (LetterOf(c) != [] ==> IsAsciiLower(LetterOf(c)[0]))
  {
  }

  lemma FilteredOfNonSpace(s: string)
    requires s != [] && !IsWhitespace(s[0])
    ensures Filtered(s) == LetterOf(s[0]) + Filtered(s[1..])
  {
  }

  lemma WordsOfJoined(s: string)
    requires |s| > 1 && !IsWhitespace(s[0]) && !IsWhitespace(s[1])
    ensures Words(s) == [[s[0]] + Words(s[1..])[0]] + Words(s[1..])[1..]
  {
  }

  /** WordsFiltered for a text whose first two characters are not whitespace. */
  lemma WordsFilteredJoin(s: string)
    requires |s| > 1 && !IsWhitespace(s[0]) && !IsWhitespace(s[1])
    requires Words(Filtered(s[1..])) == WordLetters(Words(s[1..]))
    ensures Words(Filtered(s)) == WordLetters(Words(s))
  {
    var f := Filtered(s[1..]);
    var l := LetterOf(s[0]);
    var rest := Words(s[1..]);
    assert rest != [];
    var w := rest[0];
    var tail := WordLetters(rest[1..]);
    var lw := Letters(w);
    FilteredOfNonSpace(s);
    assert WordLetters(Words(s)) == (if l + lw == [] then [] else [l + lw]) + tail by {
      WordsOfJoined(s);
      LettersCons(s[0], w);
      WordLettersCons([s[0]] + w, rest[1..]);
    }
    assert Words(f) == (if lw == [] then [] else [lw]) + tail by {
      assert rest == [w] + rest[1..];
      WordLettersCons(w, rest[1..]);
    }
    LetterOfShape(s[0]);
    assert lw <= f && (|lw| < |f| ==> IsWhitespace(f[|lw|])) by {
      FilteredFirstWord(s[1..]);
    }
    assert lw != [] ==> IsAsciiLower(lw[0]) by {
      LettersAreLower(w);
    }
    WordsPrependLetters(l, f, lw, tail);
  }

  /** The words of the filtered text are the letters of the input's words,
      with the words that have no letter left out. */
  lemma {:induction false} WordsFiltered(s: string)
    ensures Words(Filtered(s)) == WordLetters(Words(s))
  {
    if s != [] {
      var f := Filtered(s[1..]);
      WordsFiltered(s[1..]);
      if IsWhitespace(s[0]) {
        assert Filtered(s) == [s[0]] + f;
        assert ([s[0]] + f)[1..] == f;
      } else if |s| == 1 || IsWhitespace(s[1]) {
        var l := LetterOf(s[0]);
        var rest := Words(s[1..]);
        assert Filtered(s) == l + f;
        assert Words(s) == [[s[0]]] + rest;
        LettersCons(s[0], []);
        WordLettersCons([s[0]], rest);
        if l == [] {
          assert l + f == f;
        } else {
          assert l == [l[0]] && [s[0]] + [] == [s[0]] && l + [] == l;
          if |s| > 1 {
            assert f[0] == s[1];
          } else {
            assert s[1..] == [] && f == [];
          }
          WordsConsLetter(l[0], f);
          assert Words(Filtered(s)) == [l] + Words(f);
          assert WordLetters(Words(s)) == [l] + WordLetters(rest);
        }
      } else {
        WordsFilteredJoin(s);
      }
    }
  }

  /**
    preprocess_text, stated over the words of its own input: the letters of
    each whitespace-separated word of the text, lower-cased, with the words
    that contribute no letter dropped, joined by single spaces.
  */
  lemma NormalizeIsWordLetters(text: string)
    ensures Normalize(text) == Unwords(WordLetters(Words(text)))
  {
    NormalizeIsUnwords(text);
    LowerRemoveDisallowedIsFiltered(text);
    WordsFiltered(text);
  }
}
