/**
 * Links between todos (src/model/link.rs): a kind and the id of the other todo, a text
 * form, a parser for "<kind>:<id>" with several spellings of each kind, and the stored
 * encoding.
 */
module Links {
  import opened Wrappers
  import opened Text
  import Ids

  datatype Link = Blocks(id: Ids.ID) | BlockedBy(id: Ids.ID) | RelatesTo(id: Ids.ID) {

    /** `bi_directional`: the link the other todo gets back, pointing at `other`;
        a "relates to" link has none. */
    function BiDirectional(other: Ids.ID): (r: Option<Link>)
      ensures Blocks? ==> r == Some(BlockedBy(other))
      ensures BlockedBy? ==> r == Some(Blocks(other))
      ensures RelatesTo? ==> r == None
    {
      match this
      case Blocks(_) => Some(BlockedBy(other))
      case BlockedBy(_) => Some(Blocks(other))
      case RelatesTo(_) => None
    }

    /** `with_id`: the same kind of link, pointing at `x`. */
    function WithId(x: Ids.ID): (r: Link)
      ensures SameKind(r, this) && r.Id() == x
    {
      match this
      case Blocks(_) => Blocks(x)
      case BlockedBy(_) => BlockedBy(x)
      case RelatesTo(_) => RelatesTo(x)
    }

    /** `id`: the other todo, whatever the kind. */
    function Id(): (x: Ids.ID)
      ensures this == Blocks(x) || this == BlockedBy(x) || this == RelatesTo(x)
    {
      match this
      case Blocks(x) => x
      case BlockedBy(x) => x
      case RelatesTo(x) => x
    }

    /** `Display`: the kind in words, a space and the id. */
    function Display(): (s: string)
      ensures |s| > |Id().Display()| && s[|s| - |Id().Display()|..] == Id().Display()
      ensures s[|s| - |Id().Display()| - 1] == ' '
    {
      match this
      case Blocks(x) => "blocks " + x.Display()
      case BlockedBy(x) => "blocked by " + x.Display()
      case RelatesTo(x) => "relates to " + x.Display()
    }

    /** `Code::encode`: the canonical name of the kind, ':' and the id. */
    function Encode(): (s: string)
      ensures s == CanonicalName(this) + ":" + Id().Display()
    {
      match this
      case Blocks(x) => "blocks:" + x.Display()
      case BlockedBy(x) => "blockedby:" + x.Display()
      case RelatesTo(x) => "relatesto:" + x.Display()
    }

    /** `PartialEq`: the same kind and the same id. */
    function Equals(other: Link): (b: bool)
      ensures b <==> SameKind(this, other) && Id() == other.Id()
      ensures b <==> this == other
    {
      match this
      case Blocks(mine) => (match other case Blocks(theirs) => mine.Equals(theirs) case _ => false)
      case BlockedBy(mine) => (match other case BlockedBy(theirs) => mine.Equals(theirs) case _ => false)
      case RelatesTo(mine) => (match other case RelatesTo(theirs) => mine.Equals(theirs) case _ => false)
    }
  }

  predicate SameKind(a: Link, b: Link) {
    (a.Blocks? && b.Blocks?) || (a.BlockedBy? && b.BlockedBy?) || (a.RelatesTo? && b.RelatesTo?)
  }

  /** Two links print alike only when they are the same link: the words tell the kinds
      apart and the number after them is the id. */
  lemma DisplayInjective(a: Link, b: Link)
    ensures a.Display() == b.Display() ==> a == b
  {
    if a.Display() == b.Display() {
      var s := a.Display();
      if a.RelatesTo? != b.RelatesTo? {
        assert false;
      } else if a.Blocks? != b.Blocks? {
        assert false;
      }
      var p := s[..|s| - |a.Id().Display()| - 1];
      assert |p| == |s| - |b.Id().Display()| - 1;
      SameIdDisplay(a.Id(), b.Id(), s);
    }
  }

  lemma SameIdDisplay(x: Ids.ID, y: Ids.ID, s: string)
    requires |x.Display()| == |y.Display()| <= |s|
    requires s[|s| - |x.Display()|..] == x.Display() && s[|s| - |y.Display()|..] == y.Display()
    ensures x == y
  {
  }

  /** The name `encode` writes for each kind. */
  function CanonicalName(l: Link): string {
    match l
    case Blocks(_) => "blocks"
    case BlockedBy(_) => "blockedby"
    case RelatesTo(_) => "relatesto"
  }

  /** The lower-case spellings the parser accepts for the kind of `l`. */
  predicate IsAlias(name: string, l: Link) {
    match l
    case Blocks(_) => name == "blocks"
    case BlockedBy(_) => name == "blocked-by" || name == "blocked_by" || name == "blockedby"
    case RelatesTo(_) => name == "relates-to" || name == "relates_to" || name == "relatesto"
  }

  /** The link of the kind spelled `name` (already lower-cased) pointing at `x`. */
  function FromName(name: string, x: Ids.ID): (r: Option<Link>)
    ensures forall l: Link :: r == Some(l) <==> IsAlias(name, l) && l.Id() == x
  {
    match name
    case "blocks" => Some(Blocks(x))
    case "blocked-by" => Some(BlockedBy(x))
    case "blocked_by" => Some(BlockedBy(x))
    case "blockedby" => Some(BlockedBy(x))
    case "relates-to" => Some(RelatesTo(x))
    case "relates_to" => Some(RelatesTo(x))
    case "relatesto" => Some(RelatesTo(x))
    case _ => None
  }

  /** `TryFrom<&str>`: split at the first ':', parse the right part as an id (its error
      propagates), then look up the lower-cased left part; an input without ':' and an
      unknown kind fail with "invalid link: ..." (the latter naming the lower-cased kind). */
  function Parse(value: string): (r: Result<Link>)
    ensures ':' !in value ==> r == Failure(General("invalid link: " + value))
    ensures ':' in value ==>
              var i := IndexOf(value, ':');
              var kind := ToLower(value[..i]);
              match Ids.Parse(value[i + 1..])
              case Failure(e) => r == Failure(e)
              case Success(x) =>
                (FromName(kind, x).Some? ==> r == Success(FromName(kind, x).value)) &&
                (FromName(kind, x).None? ==> r == Failure(General("invalid link: " + kind)))
  {
    if ':' !in value then Failure(General("invalid link: " + value))
    else
      var i := IndexOf(value, ':');
      var x :- Ids.Parse(value[i + 1..]);
      var kind := ToLower(value[..i]);
      match FromName(kind, x)
      case Some(l) => Success(l)
      case None => Failure(General("invalid link: " + kind))
  }

  /** What the parser accepts, without reference to how it searches: the input is a kind
      without ':', then ':', then an id, and the kind lower-cases to a spelling of the
      link's kind. */
  lemma ParseAccepts(value: string, l: Link)
    ensures Parse(value) == Success(l) <==>
              exists i :: 0 <= i < |value| && value[i] == ':' && ':' !in value[..i] &&
                Ids.Parse(value[i + 1..]) == Success(l.Id()) && IsAlias(ToLower(value[..i]), l)
  {
    forall j | 0 <= j < |value| && value[j] == ':' && ':' !in value[..j]
      ensures IndexOf(value, ':') == j
    {
      IndexOfUnique(value, ':', j);
    }
  }

  /** Every link's encoding parses back to it. */
  lemma DecodeEncode(l: Link)
    ensures Parse(l.Encode()) == Success(l)
  {
    var s := l.Encode();
    var name := CanonicalName(l);
    var digits := l.Id().Display();
    assert s == name + ":" + digits;
    assert ':' !in name;
    assert s[|name|] == ':';
    assert IndexOf(s, ':') == |name| by {
      assert s[..|name|] == name;
    }
    assert s[..|name|] == name;
    assert s[|name| + 1..] == digits;
    Ids.ParseDisplay(l.Id());
    assert ToLower(name) == name;
  }

  /** `Code::decode`, which unwraps the parse: only defined where the parse succeeds. */
  function Decode(s: string): (l: Link)
    requires Parse(s).Success?
    ensures Parse(s) == Success(l)
  {
    Parse(s).value
  }

  /** Decoding an encoded link gives the link back. */
  lemma DecodeOfEncode(l: Link)
    ensures Parse(l.Encode()).Success? && Decode(l.Encode()) == l
  {
    DecodeEncode(l);
  }

  /** The counterpart of the counterpart of a blocking link is a link of the original kind. */
  lemma BiDirectionalTwice(l: Link, a: Ids.ID, b: Ids.ID)
    requires !l.RelatesTo?
    ensures SameKind(l.BiDirectional(a).value.BiDirectional(b).value, l)
  {
  }

  /** The test's accepted inputs. */
  lemma ParseAcceptsExamples()
    ensures Parse("blocks:1") == Success(Blocks(Ids.ID(1)))
    ensures Parse("blocked_by:1") == Success(BlockedBy(Ids.ID(1)))
    ensures Parse("blockedby:2") == Success(BlockedBy(Ids.ID(2)))
  {
    ParseBlocksExample();
    ParseBlockedUnderscoreExample();
    ParseBlockedByExample();
  }

  lemma ParseBlocksExample()
    ensures Parse("blocks:1") == Success(Blocks(Ids.ID(1)))
  {
    KindFacts();
    SmallIdDisplay();
    ParseExample("blocks:1", "blocks", Ids.ID(1), Blocks(Ids.ID(1)));
  }

  lemma ParseBlockedUnderscoreExample()
    ensures Parse("blocked_by:1") == Success(BlockedBy(Ids.ID(1)))
  {
    KindFacts();
    SmallIdDisplay();
    ParseExample("blocked_by:1", "blocked_by", Ids.ID(1), BlockedBy(Ids.ID(1)));
  }

  lemma ParseBlockedByExample()
    ensures Parse("blockedby:2") == Success(BlockedBy(Ids.ID(2)))
  {
    KindFacts();
    SmallIdDisplay();
    ParseExample("blockedby:2", "blockedby", Ids.ID(2), BlockedBy(Ids.ID(2)));
  }

  lemma KindFacts()
    ensures ToLower("blocks") == "blocks" && ToLower("blocked_by") == "blocked_by"
    ensures ToLower("blockedby") == "blockedby"
    ensures FromName("blocks", Ids.ID(1)) == Some(Blocks(Ids.ID(1)))
    ensures FromName("blocked_by", Ids.ID(1)) == Some(BlockedBy(Ids.ID(1)))
    ensures FromName("blockedby", Ids.ID(2)) == Some(BlockedBy(Ids.ID(2)))
    ensures ':' !in "blocks" && ':' !in "blocked_by" && ':' !in "blockedby"
  {
  }

  lemma ParseExample(s: string, kind: string, x: Ids.ID, l: Link)
    requires s == kind + ":" + x.Display()
    requires ':' !in kind && ToLower(kind) == kind
    requires FromName(kind, x) == Some(l)
    ensures Parse(s) == Success(l)
  {
    ExampleSplit(kind, x.Display());
    Ids.ParseDisplay(x);
  }

  lemma SmallIdDisplay()
    ensures Ids.ID(1).Display() == "1" && Ids.ID(2).Display() == "2"
  {
  }

  /** The test's rejected inputs: no ':', an empty id, a negative id, no ':' again. */
  lemma ParseRejectsExamples()
    ensures Parse("blocks").Failure? && Parse("unknown").Failure?
    ensures Parse("blockedby:") == Failure(General("invalid id: "))
    ensures Parse("blocks:-1") == Failure(General("invalid id: -1"))
  {
    assert ':' !in "blocks";
    assert ':' !in "unknown";
    RejectEmptyId("blockedby:");
    RejectNegativeId("blocks:-1");
  }

  lemma RejectEmptyId(s: string)
    requires s == "blockedby:"
    ensures Parse(s) == Failure(General("invalid id: "))
  {
    assert s[9] == ':' && s[..9] == "blockedby";
    IndexOfUnique(s, ':', 9);
    assert s[10..] == "";
    assert !Ids.IsU16Numeral("");
  }

  lemma RejectNegativeId(s: string)
    requires s == "blocks:-1"
    ensures Parse(s) == Failure(General("invalid id: -1"))
  {
    assert s[6] == ':' && s[..6] == "blocks";
    IndexOfUnique(s, ':', 6);
    assert s[7..] == "-1";
    NegativeIsNotId();
  }

  lemma NegativeIsNotId()
    ensures Ids.Parse("-1") == Failure(General("invalid id: -1"))
  {
    assert Ids.Unsigned("-1") == "-1";
    assert !IsDigit("-1"[0]);
  }

  lemma ExampleSplit(a: string, b: string)
    requires ':' !in a
    ensures var s := a + ":" + b; ':' in s && IndexOf(s, ':') == |a| && s[..|a|] == a && s[|a| + 1..] == b
  {
    var s := a + ":" + b;
    assert s[|a|] == ':';
    assert s[..|a|] == a;
    assert s[|a| + 1..] == b;
  }
}
