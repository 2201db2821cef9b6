/**
 * The priority of a todo (src/model/prio.rs): text form, terminal colour, the comparator
 * that puts the most urgent first, and a parser that looks for a priority name anywhere
 * in its input (the input may carry styling).
 */
module Prios {
  import opened Wrappers
  import opened Text
  import opened Orderings
  import Style

  datatype Prio = Low | Normal | High | Critical {

    /** `Display`. */
    function Display(): (s: string)
      ensures |s| > 0 && IsTrimmed(s)
    {
      match this
      case Low => "low"
      case Normal => "normal"
      case High => "high"
      case Critical => "critical"
    }

    /** `StyleDisplay::styler`: low blue, normal plain, high yellow, critical red. */
    function Styler(): (st: Style.Styler)
      ensures !st.bold && !st.underline
      ensures st.fg == match this
                       case Low => Some(Style.Blue)
                       case Normal => None
                       case High => Some(Style.Yellow)
                       case Critical => Some(Style.Red)
    {
      var styler := Style.Default();
      match this
      case Low => styler.Fg(Style.Blue)
      case Normal => styler
      case High => styler.Fg(Style.Yellow)
      case Critical => styler.Fg(Style.Red)
    }
  }

  /** The place of a priority in the list order: critical first, low last. */
  function Rank(p: Prio): nat {
    match p
    case Critical => 0
    case High => 1
    case Normal => 2
    case Low => 3
  }

  /** `Ord::cmp`: the order of the ranks. */
  function Cmp(a: Prio, b: Prio): (r: Ordering)
    ensures r == CmpInt(Rank(a), Rank(b))
  {
    if a == b then Equal
    else match a
      case Low => Greater
      case Normal => (match b case Low => Less case _ => Greater)
      case High => (match b case Critical => Greater case _ => Less)
      case Critical => Less
  }

  /** The comparator is a strict total order: equal only on identical values, reversed by
      swapping the arguments, transitive; critical < high < normal < low. */
  lemma CmpTotalOrder(a: Prio, b: Prio, c: Prio)
    ensures Cmp(a, b) == Equal <==> a == b
    ensures Cmp(b, a) == Cmp(a, b).Reverse()
    ensures Cmp(a, b) == Less && Cmp(b, c) == Less ==> Cmp(a, c) == Less
    ensures Cmp(Critical, High) == Less && Cmp(High, Normal) == Less && Cmp(Normal, Low) == Less
  {
  }

  /** The names in the order the parser tries them. */
  const SearchOrder: seq<Prio> := [Low, Normal, High, Critical]

  /** The first priority from `SearchOrder[k..]` whose name occurs in `value`. */
  function FirstContained(value: string, k: nat): (r: Option<Prio>)
    requires k <= |SearchOrder|
    ensures r.Some? ==> k <= SearchRank(r.value) && Contains(value, r.value.Display()) &&
                          forall i :: k <= i < SearchRank(r.value) ==> !Contains(value, SearchOrder[i].Display())
    ensures r.None? <==> forall i :: k <= i < |SearchOrder| ==> !Contains(value, SearchOrder[i].Display())
    decreases |SearchOrder| - k
  {
    if k == |SearchOrder| then None
    else if Contains(value, SearchOrder[k].Display()) then Some(SearchOrder[k])
    else FirstContained(value, k + 1)
  }

  /** `TryFrom<&str>`: the first of low, normal, high and critical whose name occurs in the
      input, case-sensitively; otherwise "invalid prio value: <input>". */
  function Parse(value: string): (r: Result<Prio>)
    ensures r.Success? ==> (Contains(value, r.value.Display()) &&
              forall q: Prio :: SearchRank(q) < SearchRank(r.value) ==> !Contains(value, q.Display()))
    ensures r.Failure? <==> forall q: Prio :: !Contains(value, q.Display())
    ensures r.Failure? ==> r.error == General("invalid prio value: " + value)
  {
    match FirstContained(value, 0)
    case Some(p) => Success(p)
    case None => Failure(General("invalid prio value: " + value))
  }

  /** The position of a priority in `SearchOrder`. */
  function SearchRank(p: Prio): (i: nat)
    ensures i < |SearchOrder| && SearchOrder[i] == p
  {
    match p
    case Low => 0
    case Normal => 1
    case High => 2
    case Critical => 3
  }

  lemma ContainsSelf(s: string)
    ensures Contains(s, s)
  {
    assert OccursAt(s, s, 0);
  }

  /** `sub` does not occur in `s` when its first character is not at any place where an
      occurrence could start. */
  lemma NotContainedByHead(s: string, sub: string)
    requires |sub| > 0
    requires |s| >= |sub| ==> sub[0] !in s[..|s| - |sub| + 1]
    ensures !Contains(s, sub)
  {
    forall i | 0 <= i <= |s| - |sub|
      ensures !OccursAt(s, sub, i)
    {
      assert s[..|s| - |sub| + 1][i] == s[i];
      assert s[i..i + |sub|][0] == s[i];
    }
  }

  /** No priority name occurs in the name of a priority the parser tries later. */
  lemma NamesNotNested()
    ensures !Contains("normal", "low") && !Contains("high", "low") && !Contains("critical", "low")
    ensures !Contains("high", "normal") && !Contains("critical", "normal")
    ensures !Contains("critical", "high")
  {
    NotContainedByHead("normal", "low");
    NotContainedByHead("high", "low");
    NotContainedByHead("critical", "low");
    NotContainedByHead("high", "normal");
    NotContainedByHead("critical", "normal");
    NotContainedByHead("critical", "high");
  }

  /** Parsing the display text gives the priority back. */
  lemma ParseDisplay(p: Prio)
    ensures Parse(p.Display()) == Success(p)
  {
    ContainsSelf(p.Display());
    NamesNotNested();
    assert SearchOrder[0] == Low && SearchOrder[1] == Normal;
    assert SearchOrder[2] == High && SearchOrder[3] == Critical;
  }

  /** The test's "unknown" contains no priority name and is rejected. */
  lemma ParseRejectsUnknown()
    ensures Parse("unknown") == Failure(General("invalid prio value: unknown"))
  {
    UnknownHasNoName();
  }

  lemma UnknownHasNoName()
    ensures forall q: Prio :: !Contains("unknown", q.Display())
  {
    NotContainedByHead("unknown", "low");
    NotContainedByHead("unknown", "high");
    NotContainedByHead("unknown", "critical");
    assert "unknown"[0..6][0] == 'u' && "unknown"[1..7][1] == 'k';
    assert !OccursAt("unknown", "normal", 0) && !OccursAt("unknown", "normal", 1);
  }

  /** A name is found anywhere in the input, so text around it is ignored. */
  lemma ParseBySubstring()
    ensures Parse("lower") == Success(Low)
  {
    assert OccursAt("lower", "low", 0);
  }
}

/**
 * The priority of another revision of the crate (rust/src/model/prio.rs): the same values,
 * order and text, an exact-match parser and a bold styled text.
 */
module RustPrios {
  import opened Wrappers
  import opened Text
  import opened Prios
  import Style

  /** `TryFrom<&str>`: exactly one of the four names, with no trimming or case folding;
      otherwise an argument error "invalid prio value: <input>". */
  function Parse(value: string): (r: Result<Prio>)
    ensures forall p: Prio :: r == Success(p) <==> value == p.Display()
    ensures r.Failure? ==> r.error == ArgError("invalid prio value: " + value)
  {
    match value
    case "low" => Success(Low)
    case "normal" => Success(Normal)
    case "high" => Success(High)
    case "critical" => Success(Critical)
    case _ => Failure(ArgError("invalid prio value: " + value))
  }

  /** The styler of `StyleDisplay::style`: always bold, coloured like the other revision. */
  function Styler(p: Prio): (st: Style.Styler)
    ensures st.bold && !st.underline && st.fg == p.Styler().fg
  {
    var styler := Style.Default().Bold(true);
    match p
    case Low => styler.Fg(Style.Blue)
    case Normal => styler
    case High => styler.Fg(Style.Yellow)
    case Critical => styler.Fg(Style.Red)
  }

  /** `StyleDisplay::style`: the display text wrapped in a bold rendition with the
      priority's colour. */
  function StyledText(p: Prio): (r: string)
    ensures r == Style.Csi + Join(Styler(p).Codes(), ";") + "m" + p.Display() + Style.Reset
    ensures r != p.Display()
  {
    Styler(p).Style(p.Display())
  }

  /** Parsing the display text gives the priority back; "unknown" and "Low" are rejected. */
  lemma ParseDisplay(p: Prio)
    ensures Parse(p.Display()) == Success(p)
    ensures Parse("unknown").Failure? && Parse("Low").Failure? && Parse(" low").Failure?
  {
  }

  /** Normal is bold only; the others are coloured and bold, colour first. */
  lemma StyleExamples()
    ensures Join(Styler(Normal).Codes(), ";") == "1"
    ensures Join(Styler(Critical).Codes(), ";") == "38;2;31;1"
  {
    assert Styler(Critical).Codes() == ["38", "2", "31", "1"];
  }
}
