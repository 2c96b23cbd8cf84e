/**
 * The handful of Python string built-ins the scripts rely on, written out
 * over `seq<char>`: `str.split('\r\n')`, `str.strip()`, `str.splitlines()`,
 * `str.split()`, the substring test `a in b`, and `"%s" % n` for a natural.
 */
module PyStr {

  // ---------------------------------------------------------------------
  // Splitting on the two-character separator "\r\n"
  // ---------------------------------------------------------------------

  /** The string contains "\r\n" somewhere. */
  predicate HasCrlf(s: string)
    decreases |s|
  {
    |s| >= 2 && ((s[0] == '\r' && s[1] == '\n') || HasCrlf(s[1..]))
  }

  /** The inverse of splitting: the pieces glued back with "\r\n". */
  function JoinCrlf(pieces: seq<string>): string
    requires |pieces| >= 1
    decreases |pieces|
  {
    if |pieces| == 1 then pieces[0] else pieces[0] + "\r\n" + JoinCrlf(pieces[1..])
  }

  /**
   * Python's `s.split('\r\n')`: the separator is found left to right
   * without overlap, so there is always one more piece than separators.
   */
  function SplitCrlf(s: string): (pieces: seq<string>)
    ensures |pieces| >= 1
    ensures pieces[0] <= s
    ensures JoinCrlf(pieces) == s
    ensures forall i | 0 <= i < |pieces| :: !HasCrlf(pieces[i])
    decreases |s|
  {
    if |s| < 2 then
      assert !HasCrlf(s);
      [s]
    else if s[0] == '\r' && s[1] == '\n' then
      var rest := SplitCrlf(s[2..]);
      assert s == "\r\n" + s[2..];
      [""] + rest
    else
      var rest := SplitCrlf(s[1..]);
      var head := [s[0]] + rest[0];
      assert head[1..] == rest[0];
      assert |rest[0]| > 0 ==> rest[0][0] == s[1];
      assert !HasCrlf(head);
      JoinHead(s[0], rest);
      assert s == [s[0]] + s[1..];
      [head] + rest[1..]
  }

  /** Prepending a character to the first piece prepends it to the join. */
  lemma JoinHead(c: char, pieces: seq<string>)
    requires |pieces| >= 1
    ensures JoinCrlf([[c] + pieces[0]] + pieces[1..]) == [c] + JoinCrlf(pieces)
  {
    var ps := [[c] + pieces[0]] + pieces[1..];
    if |pieces| > 1 {
      var tail := JoinCrlf(pieces[1..]);
      assert JoinCrlf(ps) == ([c] + pieces[0]) + "\r\n" + tail by {
        assert ps[1..] == pieces[1..];
      }
      ConsRegroup(c, pieces[0], "\r\n", tail);
    }
  }

  /** Regrouping a concatenation that starts with one element. */
  lemma ConsRegroup<T>(c: T, a: seq<T>, sep: seq<T>, tail: seq<T>)
    ensures ([c] + a) + sep + tail == [c] + (a + sep + tail)
  {
  }

  // ---------------------------------------------------------------------
  // Python 2 `str.strip()` (byte strings: space, \t, \n, \r, \v, \f)
  // ---------------------------------------------------------------------

  predicate IsAsciiSpace(c: char)
  {
    c == ' ' || c == '\t' || c == '\n' || c == '\r' || c == '\U{0B}' || c == '\U{0C}'
  }

  predicate AllAsciiSpace(s: string)
  {
    forall i | 0 <= i < |s| :: IsAsciiSpace(s[i])
  }

  /** `s.lstrip()`: the longest suffix of `s` not starting with whitespace. */
  function StripLeading(s: string): (r: string)
    ensures |r| <= |s| && r == s[|s| - |r|..]
    ensures AllAsciiSpace(s[..|s| - |r|])
    ensures r == [] || !IsAsciiSpace(r[0])
    decreases |s|
  {
    if |s| > 0 && IsAsciiSpace(s[0]) then
      var r := StripLeading(s[1..]);
      assert s[..|s| - |r|] == [s[0]] + s[1..][..|s| - 1 - |r|];
      r
    else
      s
  }

  /** `s.rstrip()`: the longest prefix of `s` not ending in whitespace. */
  function StripTrailing(s: string): (r: string)
    ensures r <= s
    ensures AllAsciiSpace(s[|r|..])
    ensures r == [] || !IsAsciiSpace(r[|r| - 1])
    decreases |s|
  {
    if |s| > 0 && IsAsciiSpace(s[|s| - 1]) then
      var r := StripTrailing(s[..|s| - 1]);
      assert s[|r|..] == s[..|s| - 1][|r|..] + [s[|s| - 1]];
      r
    else
      s
  }

  /** `r` is `s[k..e]`, and only whitespace lies before `k` and from `e` on. */
  predicate TrimmedAt(s: string, r: string, k: int, e: int)
  {
    0 <= k <= e <= |s| && r == s[k..e] && AllAsciiSpace(s[..k]) && AllAsciiSpace(s[e..])
  }

  /**
   * `s.strip()`: the slice of `s` left once the whitespace at both ends is
   * cut off. It is empty exactly when `s` is all whitespace, and otherwise
   * starts and ends with a non-whitespace character.
   */
  function Strip(s: string): (r: string)
    ensures exists k, e :: TrimmedAt(s, r, k, e)
    ensures r != [] ==> !IsAsciiSpace(r[0]) && !IsAsciiSpace(r[|r| - 1])
    ensures r == [] <==> AllAsciiSpace(s)
    ensures r != [] ==> exists k | 0 <= k < |s| :: FirstNonSpaceAt(s, k) && r[0] == s[k]
  {
    var left := StripLeading(s);
    var r := StripTrailing(left);
    StripTrims(s, left, r);
    r
  }

  /** Cutting leading, then trailing whitespace leaves the trimmed slice of `s`. */
  lemma StripTrims(s: string, left: string, r: string)
    requires |left| <= |s| && left == s[|s| - |left|..] && AllAsciiSpace(s[..|s| - |left|])
    requires left == [] || !IsAsciiSpace(left[0])
    requires r <= left && AllAsciiSpace(left[|r|..])
    requires r == [] || !IsAsciiSpace(r[|r| - 1])
    ensures TrimmedAt(s, r, |s| - |left|, |s| - |left| + |r|)
    ensures r != [] ==> !IsAsciiSpace(r[0]) && !IsAsciiSpace(r[|r| - 1])
    ensures r == [] <==> AllAsciiSpace(s)
    ensures r != [] ==> FirstNonSpaceAt(s, |s| - |left|) && r[0] == s[|s| - |left|]
  {
    var k := |s| - |left|;
    StripSlices(s, left, r);
    if r == [] {
      AllSpaceJoin(s, k);
    } else {
      assert s[k] == r[0];
    }
  }

  /** The slices of `s` around the stripped text. */
  lemma StripSlices(s: string, left: string, r: string)
    requires |left| <= |s| && left == s[|s| - |left|..] && AllAsciiSpace(s[..|s| - |left|])
    requires r <= left && AllAsciiSpace(left[|r|..])
    ensures TrimmedAt(s, r, |s| - |left|, |s| - |left| + |r|)
    ensures r != [] ==> s[|s| - |left|] == r[0]
  {
    var k := |s| - |left|;
    var e := k + |r|;
    assert s[k..e] == left[..|r|];
    assert s[e..] == left[|r|..];
  }

  /** A string is all whitespace when its two parts around `k` are. */
  lemma AllSpaceJoin(s: string, k: nat)
    requires k <= |s| && AllAsciiSpace(s[..k]) && AllAsciiSpace(s[k..])
    ensures AllAsciiSpace(s)
  {
    forall i | 0 <= i < |s| ensures IsAsciiSpace(s[i]) {
      if i < k { assert s[i] == s[..k][i]; } else { assert s[i] == s[k..][i - k]; }
    }
  }

  /** Position `k` holds the first non-whitespace character of `s`. */
  predicate FirstNonSpaceAt(s: string, k: int)
  {
    0 <= k < |s| && !IsAsciiSpace(s[k]) && AllAsciiSpace(s[..k])
  }

  /** There is at most one first non-whitespace position. */
  lemma FirstNonSpaceUnique(s: string, j: int, k: int)
    requires FirstNonSpaceAt(s, j) && FirstNonSpaceAt(s, k)
    ensures j == k
  {
  }

  /** Python's `s[-1:]`: the last character as a string, empty for an empty string. */
  function LastSlice(s: string): (r: string)
    ensures s == [] ==> r == []
    ensures s != [] ==> r == [s[|s| - 1]]
  {
    if s == [] then [] else s[|s| - 1..]
  }

  // ---------------------------------------------------------------------
  // Substring test `p in s`
  // ---------------------------------------------------------------------

  /** `p` occurs in `s` starting at position `k`. */
  predicate OccursAt(s: string, p: string, k: int)
  {
    0 <= k && k + |p| <= |s| && s[k..k + |p|] == p
  }

  /** Python's `p in s` for strings: `p` occurs in `s` at some position. */
  predicate Contains(s: string, p: string)
    ensures Contains(s, p) <==> exists k :: OccursAt(s, p, k)
    decreases |s|
  {
    assert p <= s <==> OccursAt(s, p, 0);
    assert forall k | 1 <= k && 0 < |s| :: OccursAt(s, p, k) ==> OccursAt(s[1..], p, k - 1);
    assert forall j | 0 <= j && 0 < |s| :: OccursAt(s[1..], p, j) ==> OccursAt(s, p, j + 1);
    p <= s || (|s| > 0 && Contains(s[1..], p))
  }

  // ---------------------------------------------------------------------
  // Python 3 `str.splitlines()` and `str.split()`
  // ---------------------------------------------------------------------

  /** The characters Python 3's `str.splitlines()` treats as line boundaries. */
  predicate IsLineBreak(c: char)
  {
    c == '\n' || c == '\r' || c == '\U{0B}' || c == '\U{0C}' || c == '\U{1C}' || c == '\U{1D}'
    || c == '\U{1E}' || c == '\U{85}' || c == '\U{2028}' || c == '\U{2029}'
  }

  /** `s` with each line boundary written as one "\n"; "\r\n" is one boundary. */
  function NewlineForm(s: string): (r: string)
    ensures s == [] <==> r == []
    decreases |s|
  {
    if s == [] then []
    else if s[0] == '\r' && |s| > 1 && s[1] == '\n' then "\n" + NewlineForm(s[2..])
    else if IsLineBreak(s[0]) then "\n" + NewlineForm(s[1..])
    else [s[0]] + NewlineForm(s[1..])
  }

  /** `s` without one final "\n". */
  function DropFinalNewline(s: string): string
  {
    if s != [] && s[|s| - 1] == '\n' then s[..|s| - 1] else s
  }

  /** `"\n".join(lines)`. */
  function JoinNewline(lines: seq<string>): string
    decreases |lines|
  {
    if lines == [] then "" else if |lines| == 1 then lines[0] else lines[0] + "\n" + JoinNewline(lines[1..])
  }

  /** Prepending to a non-empty string keeps dropping its final newline. */
  lemma DropFinalNewlineAfter(c: string, x: string)
    requires x != []
    ensures DropFinalNewline(c + x) == c + DropFinalNewline(x)
  {
    if x[|x| - 1] == '\n' {
      assert (c + x)[..|c + x| - 1] == c + x[..|x| - 1];
    }
  }

  /** Prepending a character to the first line prepends it to the join. */
  lemma JoinNewlineHead(c: char, lines: seq<string>)
    requires lines != []
    ensures JoinNewline([[c] + lines[0]] + lines[1..]) == [c] + JoinNewline(lines)
  {
    var ls := [[c] + lines[0]] + lines[1..];
    if |lines| > 1 {
      var tail := JoinNewline(lines[1..]);
      assert JoinNewline(ls) == ([c] + lines[0]) + "\n" + tail by {
        assert ls[1..] == lines[1..];
      }
      ConsRegroup(c, lines[0], "\n", tail);
    }
  }

  /**
   * `s.splitlines()`: "\r\n" is one boundary, no boundary character is kept,
   * and a trailing boundary does not start an extra empty line.
   */
  function SplitLines(s: string): (lines: seq<string>)
    ensures s == [] <==> lines == []
    ensures forall i | 0 <= i < |lines| :: forall j | 0 <= j < |lines[i]| :: !IsLineBreak(lines[i][j])
    decreases |s|
  {
    if |s| == 0 then []
    else if IsLineBreak(s[0]) then
      var skip := if s[0] == '\r' && |s| > 1 && s[1] == '\n' then 2 else 1;
      [""] + SplitLines(s[skip..])
    else
      var rest := SplitLines(s[1..]);
      if rest == [] then [[s[0]]] else [[s[0]] + rest[0]] + rest[1..]
  }

  /**
   * The lines joined with "\n" give back `s` with each boundary written as
   * "\n" and a final boundary dropped: nothing but the boundaries is lost.
   */
  lemma {:induction false} SplitLinesJoin(s: string)
    ensures JoinNewline(SplitLines(s)) == DropFinalNewline(NewlineForm(s))
    decreases |s|
  {
    if s == [] {
    } else if IsLineBreak(s[0]) {
      var skip := if s[0] == '\r' && |s| > 1 && s[1] == '\n' then 2 else 1;
      var rest := SplitLines(s[skip..]);
      SplitLinesJoin(s[skip..]);
      assert NewlineForm(s) == "\n" + NewlineForm(s[skip..]);
      assert SplitLines(s) == [""] + rest;
      if rest != [] {
        assert ([""] + rest)[1..] == rest;
        DropFinalNewlineAfter("\n", NewlineForm(s[skip..]));
      }
    } else {
      var rest := SplitLines(s[1..]);
      SplitLinesJoin(s[1..]);
      assert NewlineForm(s) == [s[0]] + NewlineForm(s[1..]);
      if rest != [] {
        JoinNewlineHead(s[0], rest);
        DropFinalNewlineAfter([s[0]], NewlineForm(s[1..]));
      }
    }
  }

  /** Python 3 `str.isspace()` for one character: the separators of `str.split()`. */
  predicate IsSpace(c: char)
  {
    c == ' ' || c == '\t' || c == '\n' || c == '\r' || c == '\U{0B}' || c == '\U{0C}'
    || ('\U{1C}' <= c <= '\U{1F}') || c == '\U{85}' || c == '\U{A0}' || c == '\U{1680}'
    || ('\U{2000}' <= c <= '\U{200A}') || c == '\U{2028}' || c == '\U{2029}'
    || c == '\U{202F}' || c == '\U{205F}' || c == '\U{3000}'
  }

  /** A non-empty run of characters none of which is whitespace. */
  predicate IsToken(t: string)
  {
    t != [] && forall i | 0 <= i < |t| :: !IsSpace(t[i])
  }

  /** `s.split()` with no separator: the maximal runs of non-whitespace. */
  function SplitWs(s: string): (tokens: seq<string>)
    ensures forall i | 0 <= i < |tokens| :: IsToken(tokens[i])
    ensures |s| > 0 && !IsSpace(s[0]) ==> |tokens| > 0 && |tokens[0]| > 0 && tokens[0][0] == s[0]
    decreases |s|
  {
    if |s| == 0 then []
    else if IsSpace(s[0]) then SplitWs(s[1..])
    else
      var rest := SplitWs(s[1..]);
      if |s| > 1 && !IsSpace(s[1]) then [[s[0]] + rest[0]] + rest[1..]
      else [[s[0]]] + rest
  }

  /** A token followed by whitespace splits off as one whole argument. */
  lemma {:induction false} SplitWsToken(t: string, rest: string)
    requires IsToken(t)
    requires rest == [] || IsSpace(rest[0])
    ensures SplitWs(t + rest) == [t] + SplitWs(rest)
    decreases |t|
  {
    var s := t + rest;
    assert s[1..] == t[1..] + rest;
    if |t| == 1 {
      assert t == [s[0]];
    } else {
      SplitWsToken(t[1..], rest);
      assert t == [s[0]] + t[1..];
    }
  }

  /** A token followed by a single space splits off, and the rest splits on its own. */
  lemma SplitAfterToken(t: string, rest: string)
    requires IsToken(t)
    ensures SplitWs(t + " " + rest) == [t] + SplitWs(rest)
  {
    SplitWsToken(t, " " + rest);
    assert t + " " + rest == t + (" " + rest);
    assert (" " + rest)[1..] == rest;
  }

  /** Whitespace-free words joined in front of `last` split back off ahead of its pieces. */
  lemma {:induction false} SplitJoinThen(ws: seq<string>, last: string)
    requires ws != [] && forall i | 0 <= i < |ws| :: IsToken(ws[i])
    ensures SplitWs(JoinSpace(ws + [last])) == ws + SplitWs(last)
    decreases |ws|
  {
    var tail := ws[1..] + [last];
    assert SplitWs(JoinSpace(ws + [last])) == [ws[0]] + SplitWs(JoinSpace(tail)) by {
      assert ws + [last] == [ws[0]] + tail;
      JoinSpaceCons(ws[0], tail);
      SplitAfterToken(ws[0], JoinSpace(tail));
    }
    if |ws| == 1 {
      assert tail == [last];
    } else {
      SplitJoinThen(ws[1..], last);
      ConsRegroup(ws[0], ws[1..], [], SplitWs(last));
      assert ws == [ws[0]] + ws[1..];
    }
  }

  /** `" ".join(words)`. */
  function JoinSpace(words: seq<string>): string
    decreases |words|
  {
    if words == [] then ""
    else if |words| == 1 then words[0]
    else words[0] + " " + JoinSpace(words[1..])
  }

  /** Joining puts one space between the first word and the joined rest. */
  lemma JoinSpaceCons(w: string, ws: seq<string>)
    requires ws != []
    ensures JoinSpace([w] + ws) == w + " " + JoinSpace(ws)
  {
    assert ([w] + ws)[1..] == ws;
  }

  /** Splitting words joined by single spaces gives the words back. */
  lemma {:induction false} SplitWsJoin(words: seq<string>)
    requires forall i | 0 <= i < |words| :: IsToken(words[i])
    ensures SplitWs(JoinSpace(words)) == words
    decreases |words|
  {
    if |words| == 1 {
      SplitWsToken(words[0], "");
      assert words[0] + "" == words[0];
    } else if |words| > 1 {
      var ws := words[1..];
      assert words == [words[0]] + ws;
      JoinSpaceCons(words[0], ws);
      SplitAfterToken(words[0], JoinSpace(ws));
      SplitWsJoin(ws);
    }
  }

  /** A leading whitespace character contributes nothing to the split. */
  lemma SplitWsSkipsSpace(c: char, s: string)
    requires IsSpace(c)
    ensures SplitWs([c] + s) == SplitWs(s)
  {
    assert ([c] + s)[1..] == s;
  }

  /** The longest prefix of `s` holding no whitespace. */
  function Word(s: string): (w: string)
    ensures w <= s && forall i | 0 <= i < |w| :: !IsSpace(w[i])
    ensures |w| == |s| || IsSpace(s[|w|])
    decreases |s|
  {
    if s == [] || IsSpace(s[0]) then [] else [s[0]] + Word(s[1..])
  }

  /**
   * `s` with leading and trailing whitespace removed and every inner run of
   * whitespace written as one space: word after word, from left to right.
   */
  function CollapseWs(s: string): string
    decreases |s|
  {
    if s == [] then []
    else if IsSpace(s[0]) then CollapseWs(s[1..])
    else
      var w := Word(s);
      var rest := CollapseWs(s[|w|..]);
      if rest == [] then w else w + " " + rest
  }

  /** Joining non-empty words gives the empty string only for no words. */
  lemma JoinSpaceEmpty(words: seq<string>)
    requires forall i | 0 <= i < |words| :: IsToken(words[i])
    ensures JoinSpace(words) == [] <==> words == []
  {
    if |words| > 1 {
      JoinSpaceCons(words[0], words[1..]);
      assert words == [words[0]] + words[1..];
    }
  }

  /**
   * What `s.split()` means for every input: its tokens, joined by single
   * spaces, are `s` trimmed with each whitespace run collapsed. With
   * `SplitWsJoin` this fixes the tokens: they are the maximal
   * non-whitespace runs of `s`, in order.
   */
  lemma {:induction false} SplitWsCollapses(s: string)
    ensures JoinSpace(SplitWs(s)) == CollapseWs(s)
    decreases |s|
  {
    if s == [] {
    } else if IsSpace(s[0]) {
      SplitWsCollapses(s[1..]);
    } else {
      var w := Word(s);
      var rest := s[|w|..];
      assert s == w + rest;
      SplitWsToken(w, rest);
      SplitWsCollapses(rest);
      var ts := SplitWs(rest);
      JoinSpaceEmpty(ts);
      if ts != [] {
        JoinSpaceCons(w, ts);
      } else {
        assert [w] + ts == [w];
      }
    }
  }

  /**
   * The characterisation is complete: the only whitespace-free tokens whose
   * single-space join is `CollapseWs(s)` are those of `s.split()`.
   */
  lemma SplitWsUnique(s: string, tokens: seq<string>)
    requires forall i | 0 <= i < |tokens| :: IsToken(tokens[i])
    requires JoinSpace(tokens) == CollapseWs(s)
    ensures tokens == SplitWs(s)
  {
    SplitWsCollapses(s);
    SplitWsJoin(tokens);
    SplitWsJoin(SplitWs(s));
  }

  /** Leading, trailing and repeated whitespace all vanish from the split. */
  lemma SplitWsExample()
    ensures SplitWs(" my  session ") == ["my", "session"]
  {
    var a, b := "my", "session";
    assert IsToken(a) && IsToken(b);
    assert [' '] + (a + ([' '] + ([' '] + (b + [' '])))) == " my  session ";
    SplitPadded(' ', a, b);
  }

  /** Two tokens with whitespace before, twice between and after split back into the two. */
  lemma SplitPadded(c: char, a: string, b: string)
    requires IsSpace(c) && IsToken(a) && IsToken(b)
    ensures SplitWs([c] + (a + ([c] + ([c] + (b + [c]))))) == [a, b]
  {
    SplitWsSkipsSpace(c, []);
    assert [c] + [] == [c];
    SplitWsToken(b, [c]);
    SplitWsSkipsSpace(c, b + [c]);
    SplitWsSkipsSpace(c, [c] + (b + [c]));
    SplitWsToken(a, [c] + ([c] + (b + [c])));
    SplitWsSkipsSpace(c, a + ([c] + ([c] + (b + [c]))));
  }

  // ---------------------------------------------------------------------
  // `"%s" % n` for a natural number, and digits
  // ---------------------------------------------------------------------

  predicate IsDigit(c: char)
  {
    '0' <= c <= '9'
  }

  /** The value of one decimal digit. */
  function DigitValue(c: char): nat
    requires IsDigit(c)
  {
    (c as int) - ('0' as int)
  }

  function DigitChar(d: nat): (c: char)
    requires d < 10
    ensures IsDigit(c) && DigitValue(c) == d
  {
    (('0' as int) + d) as char
  }

  /** The number a run of decimal digits denotes, most significant first. */
  function DigitsValue(s: string): nat
    requires forall i | 0 <= i < |s| :: IsDigit(s[i])
    decreases |s|
  {
    if s == [] then 0 else 10 * DigitsValue(s[..|s| - 1]) + DigitValue(s[|s| - 1])
  }

  /** The decimal digits of `n`, most significant first, no leading zero. */
  function NatToString(n: nat): (r: string)
    ensures r != [] && forall i | 0 <= i < |r| :: IsDigit(r[i])
    ensures DigitsValue(r) == n
    ensures r[0] == '0' ==> n == 0
    decreases n
  {
    if n < 10 then
      [DigitChar(n)]
    else
      var r := NatToString(n / 10) + [DigitChar(n % 10)];
      assert r[..|r| - 1] == NatToString(n / 10);
      r
  }
}
