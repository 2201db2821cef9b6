/**
 * Word wrapping (src/util.rs:29-89): `word_chunks` cuts text into chunks of at most
 * `size` characters, line by line, breaking between words and hyphenating a word too long
 * for a chunk of its own. The wrapping loop only terminates for `size >= 3`: at size 2
 * a long word's remainder is the whole word again, and below 2 the cut length underflows.
 */
module Util {
  import opened Text

  /** Words as the wrapping loop sees them: non-empty runs without whitespace. */
  predicate AllWords(ws: seq<string>) {
    forall k :: 0 <= k < |ws| ==> |ws[k]| > 0
  }

  /** The number of characters still to place. */
  function TotalLen(ws: seq<string>): nat {
    if |ws| == 0 then 0 else |ws[0]| + TotalLen(ws[1..])
  }

  /** The cut of a word too long for a chunk: its first `size - 2` characters and a
      hyphen, then the remainder, which is put back as the next word. */
  function SplitWord(w: string, size: nat): (string, string)
    requires 2 <= size < |w|
  {
    (w[..size - 2] + "-", w[size - 2..])
  }

  datatype Filled = Filled(chunk: string, rest: seq<string>, done: bool)

  /** The inner loop: words are taken from the front of `ws` into `chunk` until one does
      not fit (it stays first in `rest`) or none is left (`done`). */
  function Fill(chunk: string, ws: seq<string>, size: nat): (r: Filled)
    requires size >= 3 && |chunk| <= size && AllWords(ws)
    ensures |r.chunk| <= size && AllWords(r.rest)
    ensures r.done ==> r.rest == []
    ensures TotalLen(r.rest) <= TotalLen(ws)
    ensures !r.done && |chunk| == 0 ==> TotalLen(r.rest) < TotalLen(ws)
    decreases size + 1 - |chunk|
  {
    if |ws| == 0 then Filled(chunk, [], true)
    else
      var w := ws[0];
      if |chunk| == 0 && |w| > size then
        var (head, tail) := SplitWord(w, size);
        assert ([tail] + ws[1..])[1..] == ws[1..];
        Fill(chunk + head, [tail] + ws[1..], size)
      else if |chunk| + |w| <= size then
        Fill(chunk + w + (if |chunk| + |w| < size then " " else ""), ws[1..], size)
      else Filled(chunk, ws, false)
  }

  /** The outer loop: chunk after chunk until the words run out. */
  function ChunksFrom(ws: seq<string>, size: nat): (r: seq<string>)
    requires size >= 3 && AllWords(ws)
    ensures |r| > 0
    ensures forall k :: 0 <= k < |r| ==> |r[k]| <= size
    decreases TotalLen(ws)
  {
    var f := Fill("", ws, size);
    if f.done then [f.chunk] else [f.chunk] + ChunksFrom(f.rest, size)
  }

  /** `line_chunks`, specified: a line shorter than `size` is its own chunk; any other
      line is wrapped word by word. */
  function LineChunksSpec(line: string, size: nat): (r: seq<string>)
    requires size >= 3
    ensures |r| > 0 && forall k :: 0 <= k < |r| ==> |r[k]| <= size
  {
    if |line| < size then [line] else ChunksFrom(SplitWhitespace(line), size)
  }

  /** `word_chunks`, specified: the chunks of every line, in order. */
  function ChunksOfLines(lines: seq<string>, size: nat): (r: seq<string>)
    requires size >= 3
    ensures forall k :: 0 <= k < |r| ==> |r[k]| <= size
    ensures |lines| == 0 <==> |r| == 0
  {
    if |lines| == 0 then [] else LineChunksSpec(lines[0], size) + ChunksOfLines(lines[1..], size)
  }

  function WordChunksSpec(s: string, size: nat): (r: seq<string>)
    requires size >= 3
    ensures forall k :: 0 <= k < |r| ==> |r[k]| <= size
    ensures |s| == 0 <==> |r| == 0
  {
    ChunksOfLines(Lines(s), size)
  }

  /** The words in stack order (the next word at the end) read in taking order. */
  function Rev(s: seq<string>): (r: seq<string>)
    ensures |r| == |s|
  {
    if |s| == 0 then [] else [s[|s| - 1]] + Rev(s[..|s| - 1])
  }

  lemma {:induction false} RevRev(s: seq<string>)
    ensures Rev(Rev(s)) == s
    decreases |s|
  {
    if |s| > 0 {
      var x := s[|s| - 1];
      var init := s[..|s| - 1];
      RevRev(init);
      RevAppend(Rev(init), x);
      assert init + [x] == s;
    }
  }

  lemma {:induction false} RevAppend(s: seq<string>, x: string)
    ensures Rev([x] + s) == Rev(s) + [x]
    decreases |s|
  {
    if |s| > 0 {
      var last := s[|s| - 1];
      assert ([x] + s)[..|s|] == [x] + s[..|s| - 1];
      RevAppend(s[..|s| - 1], x);
    } else {
      assert [x][..0] == [];
    }
  }

  lemma RevPush(s: seq<string>, x: string)
    ensures Rev(s + [x]) == [x] + Rev(s)
  {
    assert (s + [x])[..|s|] == s;
  }

  /** The inner loop of `line_chunks`: words are popped from the stack into a new chunk;
      a word that does not fit is pushed back, and an empty stack sets `done`. */
  method NextChunk(words0: seq<string>, size: nat) returns (chunk: string, words: seq<string>, done: bool)
    requires size >= 3 && AllWords(Rev(words0))
    ensures Filled(chunk, Rev(words), done) == Fill("", Rev(words0), size)
  {
    words := words0;
    done := false;
    chunk := "";
    while true
      invariant |chunk| <= size && AllWords(Rev(words))
      invariant Fill(chunk, Rev(words), size) == Fill("", Rev(words0), size)
      decreases size + 1 - |chunk|
    {
      if |words| == 0 {
        done := true;
        break;
      }
      var word := words[|words| - 1];
      assert Rev(words)[0] == word && Rev(words)[1..] == Rev(words[..|words| - 1]);
      words := words[..|words| - 1];
      if |chunk| == 0 && |word| > size {
        var left := size - (|chunk| + 1);
        chunk := chunk + word[..left - 1];
        chunk := chunk + "-";
        RevPush(words, word[left - 1..]);
        words := words + [word[left - 1..]];
      } else if |chunk| + |word| <= size {
        if |chunk| + |word| < size {
          chunk := chunk + word;
          chunk := chunk + " ";
        } else {
          chunk := chunk + word;
        }
      } else {
        RevPush(words, word);
        words := words + [word];
        break;
      }
    }
  }

  /** `line_chunks`: the words are put on a stack (reversed, so that popping yields them in
      order) and moved into chunks until the stack is empty. */
  method LineChunks(s: string, size: nat) returns (chunks: seq<string>)
    requires size >= 3
    ensures chunks == LineChunksSpec(s, size)
  {
    if |s| < size {
      return [s];
    }
    var all := SplitWhitespace(s);
    RevRev(all);
    var words := Rev(all);
    chunks := [];
    while true
      invariant AllWords(Rev(words))
      invariant chunks + ChunksFrom(Rev(words), size) == ChunksFrom(all, size)
      decreases TotalLen(Rev(words))
    {
      ghost var before := chunks;
      ghost var start := Rev(words);
      var chunk, done;
      chunk, words, done := NextChunk(words, size);
      chunks := chunks + [chunk];
      if done {
        break;
      }
      assert ChunksFrom(start, size) == [chunk] + ChunksFrom(Rev(words), size);
      assert before + ([chunk] + ChunksFrom(Rev(words), size)) == chunks + ChunksFrom(Rev(words), size);
    }
  }

  /** `word_chunks`: the chunks of each line pushed in order. */
  method WordChunks(s: string, size: nat) returns (chunks: seq<string>)
    requires size >= 3
    ensures chunks == WordChunksSpec(s, size)
  {
    var lines := Lines(s);
    chunks := [];
    var i := 0;
    while i < |lines|
      invariant 0 <= i <= |lines|
      invariant chunks + ChunksOfLines(lines[i..], size) == ChunksOfLines(lines, size)
    {
      var cs := LineChunks(lines[i], size);
      assert ChunksOfLines(lines[i..], size) == cs + ChunksOfLines(lines[i + 1..], size) by {
        assert lines[i..][1..] == lines[i + 1..];
      }
      assert chunks + cs + ChunksOfLines(lines[i + 1..], size) == ChunksOfLines(lines, size);
      chunks := PushAll(chunks, cs);
      i := i + 1;
    }
  }

  /** Pushing each of `ys`, in order, onto `xs`: the `for ... { push }` loops of the
      wrapping and card code. */
  method PushAll(xs: seq<string>, ys: seq<string>) returns (r: seq<string>)
    ensures r == xs + ys
  {
    r := xs;
    var i := 0;
    while i < |ys|
      invariant 0 <= i <= |ys|
      invariant r == xs + ys[..i]
    {
      assert ys[..i + 1] == ys[..i] + [ys[i]];
      r := r + [ys[i]];
      i := i + 1;
    }
    assert ys[..|ys|] == ys;
  }

  /** A line with no line feed is a single line. */
  lemma OneLine(s: string)
    requires s == "one two three four"
    ensures Lines(s) == [s]
  {
    assert forall i :: 0 <= i < |s| ==> s[i] != '\n';
  }

  /** The example line's four words. */
  lemma FourWords(s: string)
    requires s == "one two three four"
    ensures SplitWhitespace(s) == ["one", "two", "three", "four"]
  {
    var ts := ["one", "two", "three", "four"];
    assert NoWhitespace("one") && NoWhitespace("two") && NoWhitespace("three") && NoWhitespace("four");
    JoinFour(ts);
    SplitWhitespaceJoin(ts);
  }

  lemma JoinFour(ts: seq<string>)
    requires ts == ["one", "two", "three", "four"]
    ensures Join(ts, " ") == "one two three four"
  {
    assert Join(ts[2..], " ") == "three four" by {
      assert ts[2..][1..] == ts[3..];
      assert Join(ts[3..], " ") == "four";
    }
    assert Join(ts[1..], " ") == "two three four" by {
      assert ts[1..][1..] == ts[2..];
    }
  }

  /** At size 10 the first chunk takes "one " and "two " and stops at "three". */
  lemma FillTen(ws: seq<string>)
    requires ws == ["one", "two", "three", "four"]
    ensures Fill("", ws, 10) == Filled("one two ", ["three", "four"], false)
    ensures Fill("", ["three", "four"], 10) == Filled("three four", [], true)
  {
    FillTenFirst(ws);
    FillTenSecond(["three", "four"]);
  }

  lemma FillTenFirst(ws: seq<string>)
    requires ws == ["one", "two", "three", "four"]
    ensures Fill("", ws, 10) == Filled("one two ", ["three", "four"], false)
  {
    assert Fill("", ws, 10) == Fill("one ", ws[1..], 10);
    assert Fill("one ", ws[1..], 10) == Fill("one two ", ws[2..], 10);
  }

  lemma FillTenSecond(ts: seq<string>)
    requires ts == ["three", "four"]
    ensures Fill("", ts, 10) == Filled("three four", [], true)
  {
    assert Fill("", ts, 10) == Fill("three ", ts[1..], 10);
    assert Fill("three ", ts[1..], 10) == Fill("three four", [], 10);
  }

  /** At size 5 every word gets a chunk of its own; "three" fills one exactly. */
  lemma FillFive(ws: seq<string>)
    requires ws == ["one", "two", "three", "four"]
    ensures ChunksFrom(ws, 5) == ["one ", "two ", "three", "four "]
  {
    FillFiveSteps(ws);
    assert ChunksFrom(ws[3..], 5) == ["four "];
    assert ChunksFrom(ws[2..], 5) == ["three", "four "];
    assert ChunksFrom(ws[1..], 5) == ["two ", "three", "four "];
  }

  lemma FillFiveSteps(ws: seq<string>)
    requires ws == ["one", "two", "three", "four"]
    ensures Fill("", ws, 5) == Filled("one ", ws[1..], false)
    ensures Fill("", ws[1..], 5) == Filled("two ", ws[2..], false)
    ensures Fill("", ws[2..], 5) == Filled("three", ws[3..], false)
    ensures Fill("", ws[3..], 5) == Filled("four ", [], true)
  {
    assert Fill("", ws, 5) == Filled("one ", ws[1..], false) by {
      assert Fill("", ws, 5) == Fill("one ", ws[1..], 5);
    }
    assert Fill("", ws[1..], 5) == Filled("two ", ws[2..], false) by {
      assert Fill("", ws[1..], 5) == Fill("two ", ws[2..], 5);
    }
    assert Fill("", ws[2..], 5) == Filled("three", ws[3..], false) by {
      assert Fill("", ws[2..], 5) == Fill("three", ws[3..], 5);
    }
    assert Fill("", ws[3..], 5) == Filled("four ", [], true) by {
      assert Fill("", ws[3..], 5) == Fill("four ", [], 5);
    }
  }

  /** The test of `word_chunks`: "one two three four" makes two chunks at size 10 and four
      at size 5. */
  lemma WordChunksExamples(s: string)
    requires s == "one two three four"
    ensures WordChunksSpec(s, 10) == ["one two ", "three four"]
    ensures WordChunksSpec(s, 5) == ["one ", "two ", "three", "four "]
  {
    var ws := ["one", "two", "three", "four"];
    ExampleWords(s, ws, 10);
    ExampleWords(s, ws, 5);
    FillTen(ws);
    FillFive(ws);
    assert ChunksFrom(ws, 10) == ["one two ", "three four"];
  }

  /** The example text is one line, at least as long as either chunk size, of four words. */
  lemma ExampleWords(s: string, ws: seq<string>, size: nat)
    requires s == "one two three four" && ws == ["one", "two", "three", "four"]
    requires 3 <= size <= |s|
    ensures WordChunksSpec(s, size) == ChunksFrom(ws, size)
  {
    OneLine(s);
    FourWords(s);
    assert ChunksOfLines([s], size) == LineChunksSpec(s, size) + ChunksOfLines([], size);
  }

  /** A word longer than the chunk is cut after `size - 2` characters and hyphenated;
      the rest starts the next chunk. */
  lemma LongWordExample(w: string)
    requires w == "abcdefgh"
    ensures LineChunksSpec(w, 5) == ["abc-", "defgh"]
  {
    SingleWord(w);
    LongWordChunks(w);
  }

  lemma LongWordChunks(w: string)
    requires w == "abcdefgh"
    ensures ChunksFrom([w], 5) == ["abc-", "defgh"]
  {
    assert w[..3] == "abc" && w[3..] == "defgh";
    assert w[..3] + "-" == "abc-";
    assert SplitWord(w, 5) == ("abc-", "defgh");
    assert ["defgh"] + [w][1..] == ["defgh"];
    assert Fill("", [w], 5) == Filled("abc-", ["defgh"], false) by {
      assert Fill("", [w], 5) == Fill("abc-", ["defgh"], 5);
    }
    assert Fill("", ["defgh"], 5) == Filled("defgh", [], true) by {
      assert Fill("", ["defgh"], 5) == Fill("defgh", [], 5);
    }
    assert ChunksFrom(["defgh"], 5) == ["defgh"];
    assert ChunksFrom([w], 5) == ["abc-", "defgh"];
  }

  lemma SingleWord(w: string)
    requires |w| > 0 && NoWhitespace(w)
    ensures LineChunksSpec(w, 5) == (if |w| < 5 then [w] else ChunksFrom([w], 5))
  {
    SplitWhitespaceOfToken(w, "");
    assert w + "" == w;
  }

  /** At size 2 the cut keeps nothing of the word: the hyphen alone, and the whole word
      again as the remainder, so the loop would never finish. */
  lemma SizeTwoMakesNoProgress(w: string)
    requires |w| > 2
    ensures SplitWord(w, 2) == ("-", w)
  {
    assert w[..0] + "-" == "-" && w[0..] == w;
  }

  /** The pieces of a cut word hold all its characters: the hyphen replaces nothing. */
  lemma SplitWordKeepsCharacters(w: string, size: nat)
    requires 2 <= size < |w|
    ensures SplitWord(w, size).0 == w[..size - 2] + "-"
    ensures w[..size - 2] + SplitWord(w, size).1 == w
    ensures |SplitWord(w, size).0| == size - 1
  {
  }

  predicate NoNewlines(ws: seq<string>) {
    forall k :: 0 <= k < |ws| ==> '\n' !in ws[k]
  }

  /** Chunks are made of words, spaces and hyphens, so none holds a line feed. */
  lemma {:induction false} FillNoNewline(chunk: string, ws: seq<string>, size: nat)
    requires size >= 3 && |chunk| <= size && AllWords(ws)
    requires '\n' !in chunk && NoNewlines(ws)
    ensures '\n' !in Fill(chunk, ws, size).chunk && NoNewlines(Fill(chunk, ws, size).rest)
    decreases size + 1 - |chunk|
  {
    if |ws| > 0 {
      var w := ws[0];
      if |chunk| == 0 && |w| > size {
        var (head, tail) := SplitWord(w, size);
        assert ([tail] + ws[1..])[1..] == ws[1..];
        assert forall i :: 0 <= i < |tail| ==> tail[i] == w[size - 2 + i];
        assert forall i :: 0 <= i < |head| - 1 ==> head[i] == w[i];
        FillNoNewline(chunk + head, [tail] + ws[1..], size);
      } else if |chunk| + |w| <= size {
        var next := chunk + w + (if |chunk| + |w| < size then " " else "");
        assert '\n' !in next by {
          forall i | 0 <= i < |next| ensures next[i] != '\n' {
            if i < |chunk| {
              assert next[i] == chunk[i];
            } else if i < |chunk| + |w| {
              assert next[i] == w[i - |chunk|];
            }
          }
        }
        FillNoNewline(next, ws[1..], size);
      }
    }
  }

  lemma {:induction false} ChunksNoNewline(ws: seq<string>, size: nat)
    requires size >= 3 && AllWords(ws) && NoNewlines(ws)
    ensures NoNewlines(ChunksFrom(ws, size))
    decreases TotalLen(ws)
  {
    FillNoNewline("", ws, size);
    var f := Fill("", ws, size);
    if !f.done {
      ChunksNoNewline(f.rest, size);
    }
  }

  lemma {:induction false} LinesNoNewline(lines: seq<string>, size: nat)
    requires size >= 3 && NoNewlines(lines)
    ensures NoNewlines(ChunksOfLines(lines, size))
    decreases |lines|
  {
    if |lines| > 0 {
      var line := lines[0];
      if |line| >= size {
        var ws := SplitWhitespace(line);
        assert NoNewlines(ws) by {
          forall k | 0 <= k < |ws| ensures '\n' !in ws[k] {
            assert NoWhitespace(ws[k]);
          }
        }
        ChunksNoNewline(ws, size);
      }
      LinesNoNewline(lines[1..], size);
    }
  }

  /** No chunk of `word_chunks` holds a line feed. */
  lemma WordChunksNoNewline(s: string, size: nat)
    requires size >= 3
    ensures NoNewlines(WordChunksSpec(s, size))
  {
    LinesNoNewline(Lines(s), size);
  }
}
