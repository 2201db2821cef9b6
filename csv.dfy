/**
 * `CSV<T>` (src/model/mod.rs:50-158): an ordered list of items kept in one text column as
 * comma-separated values. The `Code` and `Display` implementations of the item type are
 * passed in as functions.
 */
module Csvs {
  import opened Wrappers
  import opened Text
  import opened Seqs

  datatype Csv<T(==)> = Csv(items: seq<T>) {

    function Len(): nat {
      |items|
    }

    predicate IsEmpty() {
      |items| == 0
    }

    /** `push`: the item is appended at the end and nothing else changes. */
    function Push(item: T): (c: Csv<T>)
      ensures c.Len() == Len() + 1
      ensures c.items[..Len()] == items && c.items[Len()] == item
      ensures !c.IsEmpty()
    {
      Csv(items + [item])
    }

    /** `display_values`: every item's display text, in order. */
    function DisplayValues(show: T -> string): (r: seq<string>)
      ensures |r| == Len()
      ensures forall i :: 0 <= i < |r| ==> r[i] == show(items[i])
    {
      Map(show, items)
    }

    /** `Code::encode`: the item encodings joined with ','; when no encoding holds a comma,
        splitting at the commas gives the encodings back one by one. */
    function Encode(enc: T -> string): (r: string)
      ensures Len() == 0 ==> r == ""
      ensures Len() > 0 && (forall k :: 0 <= k < Len() ==> ',' !in enc(items[k])) ==>
                Split(r, ',') == Map(enc, items)
    {
      var codes := Map(enc, items);
      assert Len() > 0 && (forall k :: 0 <= k < Len() ==> ',' !in enc(items[k])) ==>
               Split(Join(codes, ","), ',') == codes by {
        if Len() > 0 && forall k :: 0 <= k < Len() ==> ',' !in enc(items[k]) {
          SplitJoin(codes, ',');
        }
      }
      Join(codes, ",")
    }

    /** `Display`: the item display texts joined with ", " — nothing for no item, the one
        text for one item, and otherwise every text plus two characters per separator. */
    function Display(show: T -> string): (r: string)
      ensures Len() == 0 ==> r == ""
      ensures Len() == 1 ==> r == show(items[0])
      ensures Len() > 0 ==> |r| == SumLengths(Map(show, items)) + 2 * (Len() - 1)
    {
      var texts := Map(show, items);
      assert Len() > 0 ==> |Join(texts, ", ")| == SumLengths(texts) + 2 * (Len() - 1) by {
        if Len() > 0 {
          JoinLength(texts, ", ");
        }
      }
      Join(texts, ", ")
    }

    /** Some given value equals some stored item. */
    predicate SharesAny(values: seq<T>) {
      exists i, j :: 0 <= i < |values| && 0 <= j < |items| && values[i] == items[j]
    }

    /** `has_any`: the search for a shared value, value by value, with an early return. */
    method HasAny(values: seq<T>) returns (b: bool)
      ensures b == SharesAny(values)
    {
      var i := 0;
      while i < |values|
        invariant 0 <= i <= |values|
        invariant forall i', j :: 0 <= i' < i && 0 <= j < |items| ==> values[i'] != items[j]
      {
        var j := 0;
        while j < |items|
          invariant 0 <= j <= |items|
          invariant forall j' :: 0 <= j' < j ==> values[i] != items[j']
        {
          if items[j] == values[i] {
            return true;
          }
          j := j + 1;
        }
        i := i + 1;
      }
      return false;
    }
  }

  /** `len` counts the items and `is_empty` holds exactly at length zero; a new list has
      the given items' count and a push adds one. */
  lemma LenCountsItems<T>(c: Csv<T>, v: seq<T>, x: T, show: T -> string)
    ensures c.IsEmpty() <==> c.Len() == 0
    ensures New(v).Len() == |v| && New(v).IsEmpty() == (v == [])
    ensures c.Push(x).Len() == c.Len() + 1 && !c.Push(x).IsEmpty()
    ensures c.Len() == |c.DisplayValues(show)|
  {
  }

  /** `CSV::new`. */
  function New<T(==)>(v: seq<T>): (c: Csv<T>)
    ensures c.items == v
  {
    Csv(v)
  }

  /** `CSV::empty`. */
  function Empty<T(==)>(): (c: Csv<T>)
    ensures c.IsEmpty() && c.Len() == 0
  {
    Csv([])
  }

  predicate NonEmpty(s: string) {
    s != ""
  }

  /** The pieces of a stored column that become items: split at ',', trimmed, empty
      pieces dropped, order kept. */
  function KeptPieces(value: string): seq<string> {
    KeptOf(Split(value, ','))
  }

  function KeptOf(pieces: seq<string>): seq<string> {
    Filter(NonEmpty, Map(Trim, pieces))
  }

  /** `Code::decode`, which unwraps `try_from` (that never fails). */
  function Decode<T(==)>(value: string, decode: string -> T): Csv<T> {
    Csv(Map(decode, KeptPieces(value)))
  }

  /** `CSV::try_from(String)`: the loop over the kept pieces, decoding and pushing each. */
  method TryFrom<T(==)>(value: string, decode: string -> T) returns (r: Result<Csv<T>>)
    ensures r == Success(Decode(value, decode))
  {
    var pieces := Split(value, ',');
    var values: seq<T> := [];
    var i := 0;
    while i < |pieces|
      invariant 0 <= i <= |pieces|
      invariant values == Map(decode, KeptOf(pieces[..i]))
    {
      var v := Trim(pieces[i]);
      KeptStep(pieces, i);
      if v != "" {
        MapAppendOne(decode, KeptOf(pieces[..i]), v);
        values := values + [decode(v)];
      }
      i := i + 1;
    }
    assert pieces[..i] == pieces;
    return Success(Csv(values));
  }

  /** One more piece adds its trimmed text when that is not empty. */
  lemma KeptStep(pieces: seq<string>, i: nat)
    requires i < |pieces|
    ensures KeptOf(pieces[..i + 1]) ==
            KeptOf(pieces[..i]) + (if Trim(pieces[i]) != "" then [Trim(pieces[i])] else [])
  {
    assert pieces[..i + 1] == pieces[..i] + [pieces[i]];
    MapAppendOne(Trim, pieces[..i], pieces[i]);
    FilterAppend(NonEmpty, Map(Trim, pieces[..i]), [Trim(pieces[i])]);
  }

  /** Every kept piece is non-empty, trimmed and free of commas. */
  lemma KeptPiecesShape(value: string)
    ensures forall k :: 0 <= k < |KeptPieces(value)| ==>
              var p := KeptPieces(value)[k];
              p != "" && IsTrimmed(p) && ',' !in p
  {
    var trimmed := Map(Trim, Split(value, ','));
    FilterIsSubsequence(NonEmpty, trimmed);
    forall k | 0 <= k < |KeptPieces(value)|
      ensures IsTrimmed(KeptPieces(value)[k]) && ',' !in KeptPieces(value)[k]
    {
      var p := KeptPieces(value)[k];
      assert p in trimmed;
      var j :| 0 <= j < |trimmed| && trimmed[j] == p;
      TrimIsSlice(Split(value, ',')[j]);
    }
  }

  lemma TrimIsSlice(s: string)
    ensures IsTrimmed(Trim(s))
    ensures forall c :: c in Trim(s) ==> c in s
  {
    var t := TrimStart(s);
    assert forall c :: c in TrimEnd(t) ==> c in t;
    assert forall c :: c in t ==> c in s;
  }

  function Identity(s: string): string {
    s
  }

  /** Decoding an encoded list of strings gives it back when every item is non-empty,
      trimmed and free of commas. */
  lemma EncodeDecode(c: Csv<string>)
    requires forall k :: 0 <= k < |c.items| ==>
               c.items[k] != "" && IsTrimmed(c.items[k]) && ',' !in c.items[k]
    ensures Decode(c.Encode(Identity), Identity) == c
  {
    var xs := c.items;
    assert Map(Identity, xs) == xs;
    if |xs| == 0 {
      assert Split("", ',') == [""];
      assert Map(Trim, [""]) == [""];
      assert Filter(NonEmpty, [""]) == [];
    } else {
      assert Split(c.Encode(Identity), ',') == xs;
      forall k | 0 <= k < |xs| ensures Trim(xs[k]) == xs[k] {
        TrimOfTrimmed(xs[k]);
      }
      assert Map(Trim, xs) == xs;
      FilterAll(NonEmpty, xs);
    }
  }

  /** "1,2,3,4" decodes to four items. */
  lemma DecodeExample()
    ensures Decode("1,2,3,4", Identity).Len() == 4
    ensures Decode("1,2,3,4", Identity).items == ["1", "2", "3", "4"]
  {
    var c := Csv(["1", "2", "3", "4"]);
    assert Map(Identity, c.items) == c.items;
    assert Join(c.items[3..], ",") == "4";
    assert Join(c.items[2..], ",") == "3,4";
    assert Join(c.items[1..], ",") == "2,3,4";
    assert Join(c.items, ",") == "1,2,3,4";
    EncodeDecode(c);
  }
}
