/**
 * A table column (src/format/table/col.rs): its content wrapped to the column width, each
 * line padded to exactly that width, and the styler of the value it shows.
 */
module Columns {
  import opened Text
  import Style
  import Util
  import Padding

  datatype Col = Col(width: nat, lines: seq<string>, styler: Style.Styler) {
    /** Every stored line fills the column exactly and holds no line feed. */
    predicate Aligned() {
      forall k :: 0 <= k < |lines| ==> |lines[k]| == width && '\n' !in lines[k]
    }

    /** `height`: the number of lines the column spans. */
    function Height(): nat {
      |lines|
    }

    /** `nth`: line `n` in the column's style, or a blank line of the column's width below
        the last line. */
    function Nth(n: nat): (r: string)
      ensures n < Height() ==> r == styler.Style(lines[n])
      ensures n >= Height() ==> r == Spaces(width)
    {
      if n < |lines| then styler.Style(lines[n]) else Spaces(width)
    }
  }

  /** The padded chunks of `content` at `width`, in order. */
  function PaddedChunks(content: string, width: nat, align: Padding.Align): (r: seq<string>)
    requires width >= 3
    ensures |r| == |Util.WordChunksSpec(content, width)|
    ensures forall k :: 0 <= k < |r| ==> r[k] == Padding.Pad(Util.WordChunksSpec(content, width)[k], width, align)
  {
    var chunks := Util.WordChunksSpec(content, width);
    seq(|chunks|, k requires 0 <= k < |chunks| => Padding.Pad(chunks[k], width, align))
  }

  /** `Col::new`: the content's word chunks at `width`, each padded to `width`, with the
      content's styler. */
  function New(width: nat, content: string, styler: Style.Styler, align: Padding.Align): (c: Col)
    requires width >= 3
    ensures c.width == width && c.styler == styler
    ensures c.Height() == |Util.WordChunksSpec(content, width)|
    ensures c.Aligned()
  {
    var lines := PaddedChunks(content, width, align);
    var chunks := Util.WordChunksSpec(content, width);
    Util.WordChunksNoNewline(content, width);
    assert forall k :: 0 <= k < |lines| ==> '\n' !in lines[k] by {
      forall k | 0 <= k < |lines| ensures '\n' !in lines[k] {
        PadNoNewline(chunks[k], width, align);
      }
    }
    Col(width, lines, styler)
  }

  /** Line `k` of a new column is chunk `k` of the content, padded to the width. */
  lemma NewLines(width: nat, content: string, styler: Style.Styler, align: Padding.Align, k: nat)
    requires width >= 3 && k < |Util.WordChunksSpec(content, width)|
    ensures New(width, content, styler, align).lines[k] == Padding.Pad(Util.WordChunksSpec(content, width)[k], width, align)
  {
  }

  lemma PadNoNewline(s: string, size: nat, align: Padding.Align)
    requires |s| <= size && '\n' !in s
    ensures '\n' !in Padding.Pad(s, size, align)
  {
    Padding.PadEmbeds(s, size, align);
    var r := Padding.Pad(s, size, align);
    var off := Padding.PadOffset(s, size, align);
    forall i | 0 <= i < |r| ensures r[i] != '\n' {
      if off <= i < off + |s| {
        assert r[i] == r[off..off + |s|][i - off] == s[i - off];
      }
    }
  }

  /** Empty content spans no line at all; non-empty content spans at least one. */
  lemma HeightOfContent(width: nat, content: string, styler: Style.Styler, align: Padding.Align)
    requires width >= 3
    ensures New(width, content, styler, align).Height() == 0 <==> |content| == 0
  {
  }

  /** Every line `nth` returns, styled or blank, is as wide as the column when the styler
      is plain, and never holds a line feed. */
  lemma NthShape(c: Col, n: nat)
    requires c.Aligned()
    ensures c.styler.IsPlain() ==> |c.Nth(n)| == c.width
    ensures '\n' !in c.Nth(n)
  {
    if n < c.Height() {
      Style.StyleNoNewline(c.styler, c.lines[n]);
    } else {
      assert forall i :: 0 <= i < c.width ==> c.Nth(n)[i] == ' ';
    }
  }

  /** Content shorter than the column is one line: the content padded. */
  lemma ShortContent(width: nat, content: string, styler: Style.Styler, align: Padding.Align)
    requires width >= 3 && 0 < |content| < width && '\n' !in content
    ensures New(width, content, styler, align).lines == [Padding.Pad(content, width, align)]
  {
    assert Lines(content) == [content];
    assert Util.ChunksOfLines([content], width) == [content] + Util.ChunksOfLines([], width);
    NewLines(width, content, styler, align, 0);
  }
}
