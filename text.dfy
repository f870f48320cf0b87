/** The parts of Python's str behaviour that the URL discovery code relies on:
    lower(), strip(), startswith(), the `in` substring test, splitlines() and join(). */
module Text {

  /** Upper-case letters whose lower-case form is 32 code points above them:
      ASCII A-Z and the Latin-1 capitals U+00C0..U+00DE except the sign U+00D7. */
  predicate IsUpper(c: char)
  {
    ('A' <= c <= 'Z') || ('\U{C0}' <= c <= '\U{DE}' && c != '\U{D7}')
  }

  /** The lower-case form of one character: never a capital, a capital becomes a
      lower-case letter of the same block, and any other character is kept. */
  function LowerChar(c: char): (d: char)
    ensures !IsUpper(d)
    ensures IsUpper(c) ==> ('a' <= d <= 'z') || ('\U{E0}' <= d <= '\U{FE}' && d != '\U{F7}')
    ensures !IsUpper(c) ==> d == c
  {
    if IsUpper(c) then (c as int + 32) as char else c
  }

  /** str.lower() over the characters modelled by IsUpper. */
  function Lower(s: string): (r: string)
    ensures |r| == |s|
    ensures forall i | 0 <= i < |s| :: r[i] == LowerChar(s[i])
  {
    if s == [] then [] else Lower(s[..|s| - 1]) + [LowerChar(s[|s| - 1])]
  }

  /** Lower-casing twice changes nothing more than lower-casing once. */
  lemma LowerIdempotent(s: string)
    ensures Lower(Lower(s)) == Lower(s)
  {
    assert forall i | 0 <= i < |s| :: !IsUpper(LowerChar(s[i]));
  }

  /** A character that is not a letter keeps its identity under lower(). */
  lemma LowerKeepsNonLetters(s: string, i: nat, c: char)
    requires i < |s| && !IsUpper(c) && !('a' <= c <= 'z') && !('\U{E0}' <= c <= '\U{FE}')
    ensures Lower(s)[i] == c <==> s[i] == c
  {
  }

  /** Python's str.isspace(): the separators and the characters of bidirectional
      class WS, B or S. */
  predicate IsSpace(c: char)
  {
    c == ' ' || ('\t' <= c <= '\r') || ('\U{1C}' <= c <= '\U{1F}') || c == '\U{85}'
    || c == '\U{A0}' || c == '\U{1680}' || ('\U{2000}' <= c <= '\U{200A}')
    || c == '\U{2028}' || c == '\U{2029}' || c == '\U{202F}' || c == '\U{205F}' || c == '\U{3000}'
  }

  /** Number of white-space characters at the front of s. */
  function LeadingSpaces(s: string): (n: nat)
    ensures n <= |s|
  {
    if s != [] && IsSpace(s[0]) then 1 + LeadingSpaces(s[1..]) else 0
  }

  /** The leading run is all white space and ends at a non-space or at the end. */
  lemma {:induction false} LeadingSpacesSpec(s: string)
    ensures forall k | 0 <= k < LeadingSpaces(s) :: IsSpace(s[k])
    ensures LeadingSpaces(s) == |s| || !IsSpace(s[LeadingSpaces(s)])
  {
    if s != [] && IsSpace(s[0]) {
      LeadingSpacesSpec(s[1..]);
    }
  }

  /** Length of s once its trailing white space is cut off. */
  function ContentEnd(s: string): (n: nat)
    ensures n <= |s|
  {
    if s != [] && IsSpace(s[|s| - 1]) then ContentEnd(s[..|s| - 1]) else |s|
  }

  /** The trailing run is all white space and starts after a non-space or at the start. */
  lemma {:induction false} ContentEndSpec(s: string)
    ensures forall k | ContentEnd(s) <= k < |s| :: IsSpace(s[k])
    ensures ContentEnd(s) == 0 || !IsSpace(s[ContentEnd(s) - 1])
  {
    if s != [] && IsSpace(s[|s| - 1]) {
      ContentEndSpec(s[..|s| - 1]);
    }
  }

  /** str.strip() without arguments. */
  function Strip(s: string): (r: string)
  {
    var t := s[LeadingSpaces(s)..];
    t[..ContentEnd(t)]
  }

  /** strip() cuts white space, and only white space, from both ends, and what it
      keeps neither starts nor ends with white space. */
  lemma StripSpec(s: string)
    ensures exists i, j ::
      0 <= i <= j <= |s| && Strip(s) == s[i..j]
      && (forall k | 0 <= k < i :: IsSpace(s[k]))
      && (forall k | j <= k < |s| :: IsSpace(s[k]))
    ensures Strip(s) == [] || (!IsSpace(Strip(s)[0]) && !IsSpace(Strip(s)[|Strip(s)| - 1]))
  {
    var i := LeadingSpaces(s);
    var t := s[i..];
    var j := i + ContentEnd(t);
    LeadingSpacesSpec(s);
    ContentEndSpec(t);
    assert Strip(s) == s[i..j];
  }

  /** What strip() keeps is a piece of the text. */
  lemma StripIsPiece(s: string)
    ensures Contains(s, Strip(s))
  {
    var i := LeadingSpaces(s);
    var t := s[i..];
    assert Strip(s) == s[i..i + ContentEnd(t)];
    assert OccursAt(s, Strip(s), i);
  }

  /** Stripping an already stripped string changes nothing. */
  lemma StripIdempotent(s: string)
    ensures Strip(Strip(s)) == Strip(s)
  {
    StripSpec(s);
    var r := Strip(s);
    if r != [] {
      assert LeadingSpaces(r) == 0;
      assert r[0..] == r;
      assert ContentEnd(r) == |r|;
    }
  }

  predicate StartsWith(s: string, prefix: string)
  {
    |prefix| <= |s| && s[..|prefix|] == prefix
  }

  /** sub occurs in s starting at index i. */
  predicate OccursAt(s: string, sub: string, i: int)
  {
    0 <= i <= |s| - |sub| && s[i..i + |sub|] == sub
  }

  /** Python's `sub in s`. */
  predicate Contains(s: string, sub: string)
  {
    exists i | 0 <= i <= |s| - |sub| :: OccursAt(s, sub, i)
  }

  /** The empty string contains nothing but the empty string. */
  lemma EmptyContainsOnlyEmpty(sub: string)
    ensures Contains("", sub) <==> sub == ""
  {
    if sub == "" {
      assert OccursAt("", sub, 0);
    }
  }

  /** s.split(c, 1)[1]: what follows the first occurrence of c. */
  function AfterFirst(s: string, c: char): (r: string)
    requires c in s
    ensures exists i | 0 <= i < |s| :: s[i] == c && c !in s[..i] && r == s[i + 1..]
  {
    if s[0] == c then s[1..]
    else
      var r := AfterFirst(s[1..], c);
      var i :| 0 <= i < |s| - 1 && s[1..][i] == c && c !in s[1..][..i] && r == s[1..][i + 1..];
      assert s[i + 1] == c && s[..i + 1] == [s[0]] + s[1..][..i] && r == s[i + 2..];
      r
  }

  /** The text after the first c is the text after any index holding the first c. */
  lemma {:induction false} AfterFirstAt(s: string, c: char, i: nat)
    requires i < |s| && s[i] == c && forall k | 0 <= k < i :: s[k] != c
    ensures AfterFirst(s, c) == s[i + 1..]
  {
    if i > 0 {
      AfterFirstAt(s[1..], c, i - 1);
    }
  }

  /** The characters at which str.splitlines() ends a line. */
  predicate IsLineBreak(c: char)
  {
    ('\n' <= c <= '\r') || ('\U{1C}' <= c <= '\U{1E}') || c == '\U{85}'
    || c == '\U{2028}' || c == '\U{2029}'
  }

  /** Index of the first line break in s, or |s| when there is none. */
  function LineEnd(s: string): (n: nat)
    ensures n <= |s|
    ensures forall k | 0 <= k < n :: !IsLineBreak(s[k])
    ensures n == |s| || IsLineBreak(s[n])
  {
    if s == [] || IsLineBreak(s[0]) then 0 else 1 + LineEnd(s[1..])
  }

  /** str.splitlines(): "\r\n" is one break, and a final break opens no empty line. */
  function SplitLines(s: string): (lines: seq<string>)
    decreases |s|
  {
    if s == [] then []
    else
      var n := LineEnd(s);
      if n == |s| then [s]
      else [s[..n]] + SplitLines(s[NextLine(s)..])
  }

  /** Where the text after the first line of s starts, when s has a line break. */
  function NextLine(s: string): (next: nat)
    requires LineEnd(s) < |s|
    ensures LineEnd(s) < next <= |s|
  {
    var n := LineEnd(s);
    if s[n] == '\r' && n + 1 < |s| && s[n + 1] == '\n' then n + 2 else n + 1
  }

  lemma SplitLinesUnfold(s: string)
    requires s != []
    ensures LineEnd(s) == |s| ==> SplitLines(s) == [s]
    ensures LineEnd(s) < |s| ==> SplitLines(s) == [s[..LineEnd(s)]] + SplitLines(s[NextLine(s)..])
  {
  }

  /** No line holds a line break. */
  lemma {:induction false} SplitLinesHaveNoBreaks(s: string)
    ensures forall l | l in SplitLines(s) :: forall k | 0 <= k < |l| :: !IsLineBreak(l[k])
    decreases |s|
  {
    if s != [] {
      SplitLinesUnfold(s);
      if LineEnd(s) < |s| {
        SplitLinesHaveNoBreaks(s[NextLine(s)..]);
      }
    }
  }

  /** Every line is a piece of the text. */
  lemma {:induction false} SplitLinesArePieces(s: string)
    ensures forall l | l in SplitLines(s) :: Contains(s, l)
    decreases |s|
  {
    if s != [] {
      SplitLinesUnfold(s);
      if LineEnd(s) == |s| {
        assert OccursAt(s, s, 0);
      } else {
        var next := NextLine(s);
        SplitLinesArePieces(s[next..]);
        forall l | l in SplitLines(s[next..])
          ensures Contains(s, l)
        {
          ContainsInSuffix(s, next, l);
        }
        assert OccursAt(s, s[..LineEnd(s)], 0);
      }
    }
  }

  /** What a suffix of s contains, s contains. */
  lemma ContainsInSuffix(s: string, k: nat, sub: string)
    requires k <= |s| && Contains(s[k..], sub)
    ensures Contains(s, sub)
  {
    var i :| 0 <= i <= |s[k..]| - |sub| && OccursAt(s[k..], sub, i);
    assert s[k + i..k + i + |sub|] == s[k..][i..i + |sub|];
    assert OccursAt(s, sub, k + i);
  }

  /** What s contains, every text containing s contains. */
  lemma ContainsTransitive(s: string, t: string, sub: string)
    requires Contains(s, t) && Contains(t, sub)
    ensures Contains(s, sub)
  {
    var i :| 0 <= i <= |s| - |t| && OccursAt(s, t, i);
    var j :| 0 <= j <= |t| - |sub| && OccursAt(t, sub, j);
    assert forall m | 0 <= m < |sub| :: sub[m] == t[j + m] == s[i + j + m];
    assert sub == s[i + j..i + j + |sub|];
    assert OccursAt(s, sub, i + j);
  }

  /** A text free of line breaks is a single line. */
  lemma OneLine(s: string)
    requires s != [] && forall k | 0 <= k < |s| :: !IsLineBreak(s[k])
    ensures SplitLines(s) == [s]
  {
  }

  /** A line ends at its first break, and the next line starts right after that break,
      where "\r\n" is a single break and every other break is one character long. */
  lemma SplitAtBreak(a: string, br: string, b: string)
    requires forall k | 0 <= k < |a| :: !IsLineBreak(a[k])
    requires br == "\r\n" || (|br| == 1 && IsLineBreak(br[0]) && !(br[0] == '\r' && b != [] && b[0] == '\n'))
    ensures SplitLines(a + br + b) == [a] + SplitLines(b)
  {
    var s := a + br + b;
    assert s[|a|] == br[0];
    var n := LineEnd(s);
    assert n == |a|;
    assert NextLine(s) == |a| + |br|;
    assert s[..n] == a && s[|a| + |br|..] == b;
    SplitLinesUnfold(s);
  }

  /** "\r\n" separates two lines, and a lone "\r" does too. */
  lemma CrLfExample()
    ensures SplitLines("a\r\nb") == ["a", "b"]
    ensures SplitLines("a\rb\n") == ["a", "b"]
  {
    SplitAtBreak("a", "\r\n", "b");
    assert "a\r\nb" == "a" + "\r\n" + "b";
    OneLine("b");
    SplitAtBreak("a", "\r", "b\n");
    assert "a\rb\n" == "a" + "\r" + "b\n";
    SplitAtBreak("b", "\n", "");
    assert "b\n" == "b" + "\n" + "";
    assert SplitLines("") == [];
  }

  /** sep.join(xs). */
  function Join(sep: string, xs: seq<string>): string
  {
    if xs == [] then ""
    else if |xs| == 1 then xs[0]
    else xs[0] + sep + Join(sep, xs[1..])
  }

  /** Joining two non-empty lists is joining their joins. */
  lemma {:induction false} JoinConcat(sep: string, xs: seq<string>, ys: seq<string>)
    requires xs != [] && ys != []
    ensures Join(sep, xs + ys) == Join(sep, xs) + sep + Join(sep, ys)
  {
    if |xs| == 1 {
      assert (xs + ys)[1..] == ys;
    } else {
      JoinConcat(sep, xs[1..], ys);
      assert (xs + ys)[1..] == xs[1..] + ys;
    }
  }
}
