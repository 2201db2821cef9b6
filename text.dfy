/**
 * The handful of Rust `str` operations the core relies on: whitespace, trimming,
 * lower-casing (of ASCII letters only), substring search, `split`, `join`,
 * `split_whitespace`, `lines`, repeated spaces and decimal numerals.
 */
module Text {

  /** `char::is_whitespace`: the Unicode White_Space property — tab to carriage return,
      space, next line, no-break space, ogham space mark, the spaces from en quad to hair
      space, line and paragraph separators, narrow no-break space, medium mathematical
      space and ideographic space. */
  predicate IsWhitespace(c: char) {
    ('\t' <= c <= '\r') || c == ' ' || c == '\U{85}' || c == '\U{A0}' || c == '\U{1680}' ||
    ('\U{2000}' <= c <= '\U{200A}') || c == '\U{2028}' || c == '\U{2029}' ||
    c == '\U{202F}' || c == '\U{205F}' || c == '\U{3000}'
  }

  predicate NoWhitespace(s: string) {
    forall i :: 0 <= i < |s| ==> !IsWhitespace(s[i])
  }

  function LowerChar(c: char): char {
    if 'A' <= c <= 'Z' then (c as int + 32) as char else c
  }

  /** Lower-casing of ASCII letters: every letter from 'A' to 'Z' is replaced by its
      lower-case letter and every other character is kept. */
  function ToLower(s: string): (r: string)
    ensures |r| == |s|
    ensures forall i :: 0 <= i < |s| ==> r[i] == LowerChar(s[i])
  {
    seq(|s|, i requires 0 <= i < |s| => LowerChar(s[i]))
  }

  /** The number of whitespace characters `s` starts with. */
  function LeadingWhitespace(s: string): (n: nat)
    ensures n <= |s|
    ensures forall i :: 0 <= i < n ==> IsWhitespace(s[i])
    ensures n < |s| ==> !IsWhitespace(s[n])
  {
    if |s| > 0 && IsWhitespace(s[0]) then 1 + LeadingWhitespace(s[1..]) else 0
  }

  function TrimStart(s: string): (r: string)
    ensures |r| <= |s| && r == s[|s| - |r|..]
    ensures |s| - |r| == LeadingWhitespace(s)
    ensures |r| > 0 ==> !IsWhitespace(r[0])
    ensures forall i :: 0 <= i < |s| - |r| ==> IsWhitespace(s[i])
  {
    if |s| > 0 && IsWhitespace(s[0]) then TrimStart(s[1..]) else s
  }

  function TrimEnd(s: string): (r: string)
    ensures |r| <= |s| && r == s[..|r|]
    ensures |r| > 0 ==> !IsWhitespace(r[|r| - 1])
    ensures forall i :: |r| <= i < |s| ==> IsWhitespace(s[i])
  {
    if |s| > 0 && IsWhitespace(s[|s| - 1]) then TrimEnd(s[..|s| - 1]) else s
  }

  /** `str::trim`: the slice of `s` after its leading whitespace and before its trailing
      whitespace; it starts and ends with a character that is not whitespace. */
  function Trim(s: string): (r: string)
    ensures LeadingWhitespace(s) + |r| <= |s|
    ensures forall i :: 0 <= i < |r| ==> r[i] == s[LeadingWhitespace(s) + i]
    ensures forall i :: LeadingWhitespace(s) + |r| <= i < |s| ==> IsWhitespace(s[i])
    ensures |r| > 0 ==> !IsWhitespace(r[0]) && !IsWhitespace(r[|r| - 1])
  {
    TrimSlice(s, LeadingWhitespace(s), TrimStart(s), TrimEnd(TrimStart(s)));
    TrimEnd(TrimStart(s))
  }

  lemma TrimSlice(s: string, a: nat, t: string, r: string)
    requires a <= |s| && t == s[a..]
    requires |r| <= |t| && r == t[..|r|]
    requires forall j :: |r| <= j < |t| ==> IsWhitespace(t[j])
    ensures a + |r| <= |s|
    ensures forall i :: 0 <= i < |r| ==> r[i] == s[a + i]
    ensures forall i :: a + |r| <= i < |s| ==> IsWhitespace(s[i])
  {
    forall i | a + |r| <= i < |s| ensures IsWhitespace(s[i]) {
      assert s[i] == t[i - a];
    }
  }

  predicate IsTrimmed(s: string) {
    |s| > 0 ==> !IsWhitespace(s[0]) && !IsWhitespace(s[|s| - 1])
  }

  lemma TrimOfTrimmed(s: string)
    requires IsTrimmed(s)
    ensures Trim(s) == s
  {
  }

  /** `str::contains` with a string pattern. */
  predicate Contains(s: string, sub: string) {
    exists i :: 0 <= i <= |s| - |sub| && OccursAt(s, sub, i)
  }

  predicate OccursAt(s: string, sub: string, i: int) {
    0 <= i && i + |sub| <= |s| && s[i..i + |sub|] == sub
  }

  /** `str::split` on a character: the pieces between separators, including empty ones,
      which joined with the separator give the text back. */
  function Split(s: string, sep: char): (r: seq<string>)
    ensures |r| > 0
    ensures forall k :: 0 <= k < |r| ==> sep !in r[k]
    ensures Join(r, [sep]) == s
    decreases |s|
  {
    if |s| == 0 then [""]
    else
      var rest := Split(s[1..], sep);
      assert s == [s[0]] + s[1..];
      if s[0] == sep then
        assert ([""] + rest)[1..] == rest;
        [""] + rest
      else
        JoinExtendFirst([s[0]], rest, [sep]);
        [[s[0]] + rest[0]] + rest[1..]
  }

  /** Extending the first piece extends the join by the same prefix. */
  lemma JoinExtendFirst(c: string, xs: seq<string>, sep: string)
    requires |xs| > 0
    ensures Join([c + xs[0]] + xs[1..], sep) == c + Join(xs, sep)
  {
    var ys := [c + xs[0]] + xs[1..];
    assert ys[1..] == xs[1..];
  }

  /** `[String]::join`. */
  function Join(xs: seq<string>, sep: string): string
    decreases |xs|
  {
    if |xs| == 0 then ""
    else if |xs| == 1 then xs[0]
    else xs[0] + sep + Join(xs[1..], sep)
  }

  lemma {:induction false} SplitPrefix(a: string, t: string, sep: char)
    requires sep !in a
    ensures Split(a + t, sep) == [a + Split(t, sep)[0]] + Split(t, sep)[1..]
    decreases |a|
  {
    if |a| > 0 {
      assert (a + t)[1..] == a[1..] + t;
      SplitPrefix(a[1..], t, sep);
      assert [a[0]] + (a[1..] + Split(t, sep)[0]) == a + Split(t, sep)[0];
    } else {
      var p := Split(t, sep);
      assert a + t == t && a + p[0] == p[0];
      assert [p[0]] + p[1..] == p;
    }
  }

  /** Splitting what `Join` glued with a separator that occurs in no piece gives the pieces back. */
  lemma {:induction false} SplitJoin(xs: seq<string>, sep: char)
    requires |xs| > 0
    requires forall k :: 0 <= k < |xs| ==> sep !in xs[k]
    ensures Split(Join(xs, [sep]), sep) == xs
    decreases |xs|
  {
    if |xs| == 1 {
      SplitPrefix(xs[0], "", sep);
      assert xs[0] + "" == xs[0];
    } else {
      var tail := Join(xs[1..], [sep]);
      SplitJoin(xs[1..], sep);
      assert Join(xs, [sep]) == xs[0] + ([sep] + tail);
      SplitPrefix(xs[0], [sep] + tail, sep);
      assert ([sep] + tail)[1..] == tail;
      assert Split([sep] + tail, sep) == [""] + xs[1..];
      assert xs[0] + "" == xs[0];
    }
  }

  /** Joining two non-empty lists is joining each and gluing them with the separator. */
  lemma {:induction false} JoinAppend(a: seq<string>, b: seq<string>, sep: string)
    requires |a| > 0 && |b| > 0
    ensures Join(a + b, sep) == Join(a, sep) + sep + Join(b, sep)
    decreases |a|
  {
    if |a| == 1 {
      assert (a + b)[1..] == b;
    } else {
      assert (a + b)[1..] == a[1..] + b;
      JoinAppend(a[1..], b, sep);
    }
  }

  /** A character in neither the pieces nor the separator is not in their join. */
  lemma {:induction false} JoinAvoids(xs: seq<string>, sep: string, c: char)
    requires c !in sep && forall k :: 0 <= k < |xs| ==> c !in xs[k]
    ensures c !in Join(xs, sep)
    decreases |xs|
  {
    if |xs| > 1 {
      JoinAvoids(xs[1..], sep, c);
      var t := Join(xs[1..], sep);
      var j := xs[0] + sep + t;
      forall i | 0 <= i < |j| ensures j[i] != c {
        if i < |xs[0]| {
          assert j[i] == xs[0][i];
        } else if i < |xs[0]| + |sep| {
          assert j[i] == sep[i - |xs[0]|];
        } else {
          assert j[i] == t[i - |xs[0]| - |sep|];
        }
      }
    }
  }

  function SumLengths(xs: seq<string>): nat {
    if |xs| == 0 then 0 else |xs[0]| + SumLengths(xs[1..])
  }

  /** The join is as long as its pieces and one separator between each two. */
  lemma {:induction false} JoinLength(xs: seq<string>, sep: string)
    requires |xs| > 0
    ensures |Join(xs, sep)| == SumLengths(xs) + (|xs| - 1) * |sep|
    decreases |xs|
  {
    if |xs| > 1 {
      JoinLength(xs[1..], sep);
    }
  }

  /** The longest prefix of `s` without whitespace. */
  function Word(s: string): (w: string)
    ensures |w| <= |s| && w == s[..|w|]
    ensures NoWhitespace(w)
    ensures |w| < |s| ==> IsWhitespace(s[|w|])
    ensures |s| > 0 && !IsWhitespace(s[0]) ==> |w| > 0
  {
    if |s| == 0 || IsWhitespace(s[0]) then "" else [s[0]] + Word(s[1..])
  }

  predicate AllWhitespace(g: string) {
    forall i :: 0 <= i < |g| ==> IsWhitespace(g[i])
  }

  /** `gaps[0] + words[0] + gaps[1] + ... + words[n - 1] + gaps[n]`. */
  function Interleave(gaps: seq<string>, words: seq<string>): string
    requires |gaps| == |words| + 1
    decreases |words|
  {
    if |words| == 0 then gaps[0] else gaps[0] + words[0] + Interleave(gaps[1..], words[1..])
  }

  /** `s` is the words in order, separated by non-empty runs of whitespace, with possibly
      empty runs of whitespace before the first and after the last. */
  predicate Layout(s: string, words: seq<string>, gaps: seq<string>) {
    |gaps| == |words| + 1 &&
    (forall k :: 0 <= k < |gaps| ==> AllWhitespace(gaps[k])) &&
    (forall k :: 0 < k < |words| ==> |gaps[k]| > 0) &&
    s == Interleave(gaps, words)
  }

  /** `str::split_whitespace`: the maximal runs of non-whitespace characters, in order
      (`SplitWhitespaceLayout` places each between whitespace). */
  function SplitWhitespace(s: string): (r: seq<string>)
    ensures forall k :: 0 <= k < |r| ==> |r[k]| > 0 && NoWhitespace(r[k])
    decreases |s|
  {
    if |s| == 0 then []
    else if IsWhitespace(s[0]) then SplitWhitespace(s[1..])
    else
      var w := Word(s);
      [w] + SplitWhitespace(s[|w|..])
  }

  /** The words of `split_whitespace` make up the text: they appear in order, separated by
      non-empty runs of whitespace, with possibly empty runs before the first and after
      the last. */
  lemma {:induction false} SplitWhitespaceLayout(s: string)
    ensures exists gaps :: Layout(s, SplitWhitespace(s), gaps)
    decreases |s|
  {
    if |s| == 0 {
      assert Layout(s, SplitWhitespace(s), [s]);
    } else if IsWhitespace(s[0]) {
      SplitWhitespaceLayout(s[1..]);
      var g :| Layout(s[1..], SplitWhitespace(s[1..]), g);
      WhitespaceBefore(s[0], s[1..], SplitWhitespace(s[1..]), g);
      assert s == [s[0]] + s[1..];
      assert Layout(s, SplitWhitespace(s), [[s[0]] + g[0]] + g[1..]);
    } else {
      var w := Word(s);
      SplitWhitespaceLayout(s[|w|..]);
      var g :| Layout(s[|w|..], SplitWhitespace(s[|w|..]), g);
      WordBefore(w, s[|w|..], SplitWhitespace(s[|w|..]), g);
      assert s == w + s[|w|..];
      assert Layout(s, SplitWhitespace(s), [""] + g);
    }
  }

  lemma WhitespaceBefore(c: char, t: string, words: seq<string>, gaps: seq<string>)
    requires IsWhitespace(c) && Layout(t, words, gaps)
    ensures Layout([c] + t, words, [[c] + gaps[0]] + gaps[1..])
  {
    var g := [[c] + gaps[0]] + gaps[1..];
    assert g[1..] == gaps[1..];
    assert forall k :: 0 < k < |g| ==> g[k] == gaps[k];
    assert AllWhitespace(g[0]) by {
      forall i | 0 <= i < |g[0]| ensures IsWhitespace(g[0][i]) {
        if i > 0 {
          assert g[0][i] == gaps[0][i - 1];
        }
      }
    }
  }

  lemma WordBefore(w: string, t: string, words: seq<string>, gaps: seq<string>)
    requires |w| > 0 && NoWhitespace(w) && Layout(t, words, gaps)
    requires forall k :: 0 <= k < |words| ==> |words[k]| > 0 && NoWhitespace(words[k])
    requires |t| == 0 || IsWhitespace(t[0])
    ensures Layout(w + t, [w] + words, [""] + gaps)
  {
    var g := [""] + gaps;
    var ws := [w] + words;
    assert g[1..] == gaps && ws[1..] == words;
    if |words| > 0 && |gaps[0]| == 0 {
      assert false;
    }
    assert Interleave(g, ws) == "" + w + Interleave(gaps, words);
    assert "" + w + t == w + t;
  }

  lemma {:induction false} WordOfPrefix(t: string, rest: string)
    requires NoWhitespace(t)
    requires |rest| == 0 || IsWhitespace(rest[0])
    ensures Word(t + rest) == t
    decreases |t|
  {
    if |t| > 0 {
      assert (t + rest)[1..] == t[1..] + rest;
      WordOfPrefix(t[1..], rest);
      assert [t[0]] + t[1..] == t;
    } else {
      assert t + rest == rest;
    }
  }

  lemma SplitWhitespaceOfToken(t: string, rest: string)
    requires |t| > 0 && NoWhitespace(t)
    requires |rest| == 0 || IsWhitespace(rest[0])
    ensures SplitWhitespace(t + rest) == [t] + SplitWhitespace(rest)
  {
    WordOfPrefix(t, rest);
    assert (t + rest)[|t|..] == rest;
  }

  /** Splitting at whitespace what `Join` glued with single spaces gives the tokens back. */
  lemma {:induction false} SplitWhitespaceJoin(ts: seq<string>)
    requires forall k :: 0 <= k < |ts| ==> |ts[k]| > 0 && NoWhitespace(ts[k])
    ensures SplitWhitespace(Join(ts, " ")) == ts
    decreases |ts|
  {
    if |ts| == 1 {
      SplitWhitespaceOfToken(ts[0], "");
      assert ts[0] + "" == ts[0];
    } else if |ts| > 1 {
      var tail := Join(ts[1..], " ");
      assert Join(ts, " ") == ts[0] + (" " + tail);
      SplitWhitespaceSpaced(ts[0], tail);
      SplitWhitespaceJoin(ts[1..]);
      assert [ts[0]] + ts[1..] == ts;
    }
  }

  lemma SplitWhitespaceSpaced(t: string, tail: string)
    requires |t| > 0 && NoWhitespace(t)
    ensures SplitWhitespace(t + (" " + tail)) == [t] + SplitWhitespace(tail)
  {
    SplitWhitespaceOfToken(t, " " + tail);
    assert (" " + tail)[1..] == tail;
  }

  function IndexOf(s: string, c: char): (i: nat)
    requires c in s
    ensures i < |s| && s[i] == c && c !in s[..i]
  {
    if s[0] == c then 0 else 1 + IndexOf(s[1..], c)
  }

  /** The first occurrence is the only one with no earlier occurrence. */
  lemma {:induction false} IndexOfUnique(s: string, c: char, j: nat)
    requires j < |s| && s[j] == c && c !in s[..j]
    ensures c in s && IndexOf(s, c) == j
    decreases j
  {
    if j > 0 {
      assert s[..j][0] == s[0];
      assert s[1..][..j - 1] == s[..j][1..];
      IndexOfUnique(s[1..], c, j - 1);
    }
  }

  function DropCarriageReturn(line: string): string {
    if |line| > 0 && line[|line| - 1] == '\r' then line[..|line| - 1] else line
  }

  /** `str::lines`: the text split at each line feed, a carriage return just before a
      line feed dropped, and no line produced after a final line feed. Without carriage
      returns, the lines joined by line feeds are the text, less a final line feed. */
  function Lines(s: string): (r: seq<string>)
    ensures |s| == 0 <==> |r| == 0
    ensures forall k :: 0 <= k < |r| ==> '\n' !in r[k]
    ensures '\r' !in s && (|s| == 0 || s[|s| - 1] != '\n') ==> Join(r, "\n") == s
    ensures '\r' !in s && |s| > 0 && s[|s| - 1] == '\n' ==> Join(r, "\n") + "\n" == s
    decreases |s|
  {
    if |s| == 0 then []
    else if '\n' in s then
      var i := IndexOf(s, '\n');
      var rest := Lines(s[i + 1..]);
      assert s == s[..i] + "\n" + s[i + 1..];
      assert i > 0 ==> s[..i][i - 1] == s[i - 1] && s[i - 1] in s;
      assert |s[i + 1..]| > 0 ==> s[i + 1..][|s[i + 1..]| - 1] == s[|s| - 1];
      assert '\r' in s[i + 1..] ==> '\r' in s;
      [DropCarriageReturn(s[..i])] + rest
    else [s]
  }

  function Spaces(n: nat): (r: string)
    ensures |r| == n && forall i :: 0 <= i < n ==> r[i] == ' '
  {
    seq(n, _ => ' ')
  }

  predicate IsDigit(c: char) {
    '0' <= c <= '9'
  }

  predicate AllDigits(s: string) {
    forall i :: 0 <= i < |s| ==> IsDigit(s[i])
  }

  function DigitChar(d: nat): (c: char)
    requires d < 10
    ensures IsDigit(c) && c as int - '0' as int == d
  {
    ('0' as int + d) as char
  }

  /** The value of a string of decimal digits. */
  function DigitsValue(s: string): nat
    requires AllDigits(s)
  {
    if |s| == 0 then 0 else DigitsValue(s[..|s| - 1]) * 10 + (s[|s| - 1] as int - '0' as int)
  }

  /** The decimal numeral of `n`, as `Display` prints unsigned integers. */
  function NatToString(n: nat): (r: string)
    ensures |r| > 0
    decreases n
  {
    if n < 10 then [DigitChar(n)] else NatToString(n / 10) + [DigitChar(n % 10)]
  }

  /** Reading back a printed numeral gives the number. */
  lemma {:induction false} NatToStringValue(n: nat)
    ensures AllDigits(NatToString(n)) && DigitsValue(NatToString(n)) == n
    decreases n
  {
    var r := NatToString(n);
    if n >= 10 {
      NatToStringValue(n / 10);
      assert r[..|r| - 1] == NatToString(n / 10);
    }
  }
}
