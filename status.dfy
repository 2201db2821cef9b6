/**
 * The state of a todo (src/model/status.rs): its text form, its parsing (case-insensitive,
 * surrounding whitespace ignored), its serialisation through that text, its terminal colour
 * and the hand-written comparator that decides list order.
 */
module Statuses {
  import opened Wrappers
  import opened Text
  import opened Orderings
  import Style

  datatype Status = New | Started | Done | Blocked {

    /** `Display`. */
    function Display(): (s: string)
      ensures |s| > 0 && IsTrimmed(s) && ToLower(s) == s
    {
      match this
      case New => "new"
      case Started => "started"
      case Done => "done"
      case Blocked => "blocked"
    }

    /** `StyleDisplay::styler`: the foreground colour of the status, nothing else. */
    function Styler(): (st: Style.Styler)
      ensures st.fg.Some? && !st.bold && !st.underline
      ensures st.fg.value == match this
                             case New => Style.Cyan
                             case Started => Style.Blue
                             case Done => Style.Green
                             case Blocked => Style.Red
    {
      var styler := Style.Default();
      match this
      case New => styler.Fg(Style.Cyan)
      case Started => styler.Fg(Style.Blue)
      case Done => styler.Fg(Style.Green)
      case Blocked => styler.Fg(Style.Red)
    }
  }

  /** The status a normalised name stands for: one of the four display texts, or the
      alias "in-progress" of `Started`. */
  function FromName(name: string): (r: Option<Status>)
    ensures forall s: Status :: r == Some(s) <==>
              name == s.Display() || (s == Started && name == "in-progress")
  {
    match name
    case "new" => Some(New)
    case "started" => Some(Started)
    case "in-progress" => Some(Started)
    case "done" => Some(Done)
    case "blocked" => Some(Blocked)
    case _ => None
  }

  /** `TryFrom<&str>`: the input is lower-cased, then trimmed, then looked up by name. */
  function Parse(value: string): (r: Result<Status>)
    ensures forall s: Status :: r == Success(s) <==> FromName(Trim(ToLower(value))) == Some(s)
    ensures r.Failure? <==> FromName(Trim(ToLower(value))).None?
    ensures r.Failure? ==> r.error == General("unknown status: " + value)
  {
    match FromName(Trim(ToLower(value)))
    case Some(s) => Success(s)
    case None => Failure(General("unknown status: " + value))
  }

  /** The place of a status that is not done in the list order: started first, then new,
      then blocked. */
  function Rank(s: Status): nat
    requires s != Done
  {
    match s
    case Started => 0
    case New => 1
    case Blocked => 2
  }

  /** `Ord::cmp`. */
  function Cmp(a: Status, b: Status): (r: Ordering)
    ensures a == b ==> r == Equal
    ensures a != Done && b != Done ==> r == CmpInt(Rank(a), Rank(b))
    ensures a != b && (a == Done || b == Done) ==> r == Less
  {
    match a
    case Started => (match b case Started => Equal case _ => Less)
    case New => (match b case Started => Greater case New => Equal case _ => Less)
    case Blocked => (match b case Blocked => Equal case Done => Less case _ => Greater)
    case Done => (match b case Done => Equal case _ => Less)
  }

  /** Serialisation writes the display text, which deserialises to the same status. */
  function Serialize(s: Status): (r: string)
    ensures r == s.Display()
    ensures Deserialize(r) == Success(s)
  {
    TrimOfTrimmed(s.Display());
    s.Display()
  }

  /** Deserialisation parses the text and reports any failure as "invalid status". */
  function Deserialize(v: string): (r: Result<Status>)
    ensures Parse(v).Success? ==> r == Parse(v)
    ensures Parse(v).Failure? ==> r == Failure(General("invalid status"))
  {
    match Parse(v)
    case Success(s) => Success(s)
    case Failure(_) => Failure(General("invalid status"))
  }

  /** Parsing the display text (or its serialised form) gives the status back. */
  lemma ParseDisplay(s: Status)
    ensures Parse(s.Display()) == Success(s)
    ensures Deserialize(Serialize(s)) == Success(s)
  {
  }

  /** Every status is equal to itself. */
  lemma CmpReflexive(s: Status)
    ensures Cmp(s, s) == Equal
  {
  }

  /** Among started, new and blocked the comparator is a strict total order, and swapping
      the arguments reverses it. */
  lemma CmpTotalOnOpen(a: Status, b: Status, c: Status)
    requires a != Done && b != Done && c != Done
    ensures Cmp(a, b) == Equal <==> a == b
    ensures Cmp(b, a) == Cmp(a, b).Reverse()
    ensures Cmp(a, b) == Less && Cmp(b, c) == Less ==> Cmp(a, c) == Less
    ensures Cmp(Started, New) == Less && Cmp(New, Blocked) == Less
  {
  }

  /** Done against any other status is `Less` in both argument orders, so the comparator
      is not antisymmetric there. */
  lemma DoneIsLessBothWays(s: Status)
    requires s != Done
    ensures Cmp(Done, s) == Less && Cmp(s, Done) == Less
  {
  }

  /** The test inputs. */
  lemma ParseExamples()
    ensures Parse("new") == Success(New) && Parse("started") == Success(Started)
    ensures Parse("done") == Success(Done) && Parse("blocked") == Success(Blocked)
  {
    ParseDisplay(New);
    ParseDisplay(Started);
    ParseDisplay(Done);
    ParseDisplay(Blocked);
  }

  /** Any other name is rejected, with the input in the message. */
  lemma ParseRejectsUnknown(name: string)
    requires name == "unknown"
    ensures Parse(name) == Failure(General("unknown status: " + name))
  {
    assert ToLower(name) == name;
    TrimOfTrimmed(name);
    assert FromName(name) == None by {
      assert name[0] == 'u';
    }
  }

  /** Case and surrounding whitespace are ignored. */
  lemma ParseIgnoresCaseAndSpace()
    ensures Parse(" Done\n") == Success(Done)
  {
    NormalizeExample();
    assert FromName("done") == Some(Done);
  }

  lemma NormalizeExample()
    ensures Trim(ToLower(" Done\n")) == "done"
  {
    LowerExample();
    TrimStartExample();
    TrimEndExample();
  }

  lemma LowerExample()
    ensures ToLower(" Done\n") == " done\n"
  {
    assert LowerChar('D') == 'd';
  }

  lemma TrimStartExample()
    ensures TrimStart(" done\n") == "done\n"
  {
    assert " done\n"[1..] == "done\n";
    assert !IsWhitespace("done\n"[0]);
    assert TrimStart("done\n") == "done\n";
  }

  lemma TrimEndExample()
    ensures TrimEnd("done\n") == "done"
  {
    assert "done\n"[..4] == "done";
  }
}
