/**
 * A todo's tags (src/model/tags.rs): whitespace-separated words of at most 20 bytes.
 */
module TagSets {
  import opened Wrappers
  import opened Text

  const MaxTagLength: nat := 20

  datatype Tags = Tags(tags: seq<string>) {

    /** `has_any`: whether some given value is one of the tags. */
    function HasAny(values: seq<string>): (b: bool)
      ensures b <==> exists i, j :: 0 <= i < |values| && 0 <= j < |tags| && values[i] == tags[j]
      decreases |values|
    {
      if |values| == 0 then false
      else if values[0] in tags then true
      else
        var rest := HasAny(values[1..]);
        assert forall i :: 1 <= i < |values| ==> values[i] == values[1..][i - 1];
        rest
    }

    /** `values`: the tags in their stored order. */
    function Values(): (r: seq<string>)
      ensures |r| == |tags| && forall i :: 0 <= i < |r| ==> r[i] == tags[i]
    {
      tags
    }

    /** `Display`: the tags joined with single spaces, so that splitting the text at
        whitespace gives back tags that are non-empty and free of whitespace. */
    function Display(): (s: string)
      ensures tags == [] ==> s == ""
      ensures (forall k :: 0 <= k < |tags| ==> |tags[k]| > 0 && NoWhitespace(tags[k])) ==>
                SplitWhitespace(s) == tags
    {
      assert (forall k :: 0 <= k < |tags| ==> |tags[k]| > 0 && NoWhitespace(tags[k])) ==>
               SplitWhitespace(Join(tags, " ")) == tags by {
        if forall k :: 0 <= k < |tags| ==> |tags[k]| > 0 && NoWhitespace(tags[k]) {
          SplitWhitespaceJoin(tags);
        }
      }
      Join(tags, " ")
    }
  }

  /** `Tags::new`. */
  function New(tags: seq<string>): (t: Tags)
    ensures t.Values() == tags
  {
    Tags(tags)
  }

  /** Whether some word is longer than the limit (the `any` of `try_from`). */
  function AnyTooLong(words: seq<string>): (b: bool)
    ensures b <==> exists k :: 0 <= k < |words| && |words[k]| > MaxTagLength
    decreases |words|
  {
    if |words| == 0 then false
    else if |words[0]| > MaxTagLength then true
    else
      var rest := AnyTooLong(words[1..]);
      assert forall k :: 1 <= k < |words| ==> words[k] == words[1..][k - 1];
      rest
  }

  /** `TryFrom<&str>`: the whitespace-separated words, or a data error when one of them is
      longer than 20 bytes. */
  function Parse(s: string): (r: Result<Tags>)
    ensures r.Success? <==> forall w :: w in SplitWhitespace(s) ==> |w| <= MaxTagLength
    ensures r.Success? ==> r.value.tags == SplitWhitespace(s)
    ensures r.Failure? ==> r.error == DataError("invalid tag found: length greater than 20")
  {
    var words := SplitWhitespace(s);
    if AnyTooLong(words) then
      ghost var k :| 0 <= k < |words| && |words[k]| > MaxTagLength;
      assert words[k] in words;
      Failure(DataError("invalid tag found: length greater than 20"))
    else Success(Tags(words))
  }

  predicate IsTag(t: string) {
    |t| > 0 && NoWhitespace(t) && |t| <= MaxTagLength
  }

  /** Parsing the display text gives the tags back when each is a non-empty word without
      whitespace of at most 20 bytes. */
  lemma ParseDisplay(t: Tags)
    requires forall k :: 0 <= k < |t.tags| ==> IsTag(t.tags[k])
    ensures Parse(t.Display()) == Success(t)
  {
    SplitWhitespaceJoin(t.tags);
  }

  /** The empty string has no tags; "one two" has two. */
  lemma ParseExamples()
    ensures Parse("") == Success(Tags([]))
    ensures Parse("one two") == Success(Tags(["one", "two"]))
  {
    var t := Tags(["one", "two"]);
    assert Join(t.tags, " ") == "one two" by {
      assert Join(t.tags[1..], " ") == "two";
    }
    ParseDisplay(t);
  }

  /** The test's `has_any`: "one" is a tag of "one two", "three" is not. */
  lemma HasAnyExamples()
    ensures Tags(["one", "two"]).HasAny(["one"])
    ensures !Tags(["one", "two"]).HasAny(["three"])
  {
    assert ["one"][0] == ["one", "two"][0];
  }

  /** A word of exactly 20 bytes is accepted, one of 21 is rejected. */
  lemma LengthLimit(w20: string, w21: string)
    requires |w20| == 20 && |w21| == 21 && NoWhitespace(w20) && NoWhitespace(w21)
    ensures Parse(w20) == Success(Tags([w20]))
    ensures Parse(w21) == Failure(DataError("invalid tag found: length greater than 20"))
  {
    SplitWhitespaceJoin([w20]);
    SplitWhitespaceJoin([w21]);
  }
}
