/**
 * Fitting text to a column width: `pad` and `truncate`, which both table formatters define
 * with the same code (src/format/table/mod.rs:25-64, rust/src/format/table/mod.rs:21-61).
 * Lengths count characters; the source counts bytes, which agree on ASCII text.
 */
module Padding {
  import opened Text

  datatype Align = Left | Center

  /** The left and right padding that centre `len` characters in `size`: an odd deficit
      puts the extra space on the right, except a deficit of one, which goes on the left.
      The source also tests `n * 2 + len > size` first; that test never holds
      (`CenterTestNeverHolds`), so its branch is not written here. */
  function CenterPads(len: nat, size: nat): (p: (nat, nat))
    requires len < size
    ensures p.0 + p.1 == size - len
    ensures size - len == 1 ==> p == (1, 0)
    ensures size - len != 1 ==> p.0 == (size - len) / 2 && p.0 <= p.1 <= p.0 + 1
  {
    var d := size - len;
    var n := d / 2;
    if n == 0 then (d, 0)
    else if n * 2 + len < size then (n, n + 1)
    else (n, n)
  }

  /** Half the deficit, doubled, never exceeds the deficit. */
  lemma CenterTestNeverHolds(len: nat, size: nat)
    requires len < size
    ensures (size - len) / 2 * 2 + len <= size
  {
  }

  /** `pad`: `s` widened to exactly `size` characters with spaces, after it (left
      alignment) or around it (centred). The source's subtraction underflows for a string
      longer than `size`. */
  function Pad(s: string, size: nat, align: Align): (r: string)
    requires |s| <= size
    ensures |r| == size
    ensures |s| == size ==> r == s
    ensures align == Left ==> r == s + Spaces(size - |s|)
    ensures align == Center && |s| < size ==>
      r == Spaces(CenterPads(|s|, size).0) + s + Spaces(CenterPads(|s|, size).1)
  {
    var d := size - |s|;
    if d == 0 then s
    else match align
      case Left => s + Spaces(d)
      case Center =>
        var (left, right) := CenterPads(|s|, size);
        Spaces(left) + s + Spaces(right)
  }

  /** Padding adds only spaces: the text sits unchanged at the padding's offset, with
      blanks on both sides. */
  lemma PadEmbeds(s: string, size: nat, align: Align)
    requires |s| <= size
    ensures var r := Pad(s, size, align);
            var off := PadOffset(s, size, align);
            off + |s| <= size && r[off..off + |s|] == s &&
            (forall i :: 0 <= i < off ==> r[i] == ' ') &&
            (forall i :: off + |s| <= i < size ==> r[i] == ' ')
  {
    var r := Pad(s, size, align);
    var off := PadOffset(s, size, align);
    if |s| < size && align == Center {
      var (left, right) := CenterPads(|s|, size);
      assert r == Spaces(left) + s + Spaces(right);
      assert r[off..off + |s|] == s;
    } else {
      assert r[..|s|] == s;
    }
  }

  /** Where the text starts inside its padded cell. */
  function PadOffset(s: string, size: nat, align: Align): nat
    requires |s| <= size
  {
    if |s| < size && align == Center then CenterPads(|s|, size).0 else 0
  }

  /** Centring never leans by more than one space, and leans left only for a deficit of
      one. */
  lemma CenterBalance(len: nat, size: nat)
    requires len < size
    ensures var (l, r) := CenterPads(len, size);
            (l == r || l == r + 1 || r == l + 1) && (l > r <==> size - len == 1)
  {
  }

  /** Concrete cells: a left-aligned "ab" in 4, and "add" centred in 8. */
  lemma PadExamples(s: string, t: string)
    requires s == "ab" && t == "add"
    ensures Pad(s, 4, Left) == "ab  "
    ensures Pad(t, 8, Center) == "  add   "
    ensures Pad(s, 3, Center) == " ab"
  {
    assert Spaces(2) == "  " && Spaces(3) == "   " && Spaces(1) == " ";
  }

  /** `truncate`: text shorter than `size` is kept; anything else keeps its first `size - 4`
      characters and ends in " ...". The source's subtraction underflows when such text
      meets a `size` below 4. */
  function Truncate(s: string, size: nat): (r: string)
    requires |s| < size || size >= 4
    ensures |r| <= size
    ensures |s| < size ==> r == s
    ensures |s| >= size ==> |r| == size && r[..size - 4] == s[..size - 4] && r[size - 4..] == " ..."
  {
    if |s| < size then s else s[..size - 4] + " ..."
  }

  /** Truncating twice is truncating once. */
  lemma TruncateIdempotent(s: string, size: nat)
    requires |s| < size || size >= 4
    ensures Truncate(Truncate(s, size), size) == Truncate(s, size)
  {
    if |s| >= size {
      var r := Truncate(s, size);
      assert r[..size - 4] + " ..." == r;
    }
  }

  /** A truncated text fits its column: padding it to the same width is always defined. */
  lemma TruncateThenPad(s: string, size: nat, align: Align)
    requires |s| < size || size >= 4
    ensures |Truncate(s, size)| <= size
    ensures |Pad(Truncate(s, size), size, align)| == size
  {
  }

  /** A context name of twelve or more characters shrinks to eight and " ...". */
  lemma TruncateExample(s: string)
    requires s == "groceries-and-more"
    ensures Truncate(s, 12) == "grocerie ..."
  {
    assert s[..8] == "grocerie";
  }
}
