/**
 * The detailed view of one todo (src/format/card.rs): the title as a heading, the status
 * and priority, the context and the tags when there are any, and the description wrapped
 * at 100 characters with its continuation lines indented under its first.
 */
module Cards {
  import opened Wrappers
  import opened Text
  import Style
  import Util
  import Todos

  /** The width of "Description: ", under which continuation lines start. */
  const Indent: nat := 13
  const DescriptionWidth: nat := 100

  datatype Card = Card(color: bool, heading: Style.Styler, boldWhite: Style.Styler, blue: Style.Styler) {

    /** The status as shown: in its colour, or its plain text with colour off. */
    function StatusText(todo: Todos.Todo): string {
      if color then todo.status.Styler().Style(todo.status.Display()) else todo.status.Display()
    }

    /** The priority as shown: in its colour; with colour off the source shows the
        status text here, not the priority's. */
    function PrioText(todo: Todos.Todo): string {
      if color then todo.prio.Styler().Style(todo.prio.Display()) else todo.status.Display()
    }

    function Field(name: string): string {
      boldWhite.Style(name)
    }

    function StatusLine(todo: Todos.Todo): string {
      Field("Status") + ":      " + StatusText(todo)
    }

    function PrioLine(todo: Todos.Todo): string {
      Field("Priority") + ":    " + PrioText(todo)
    }

    function ContextLine(context: string): string {
      Field("Context") + ":     " + blue.Style(context)
    }

    function TagsLine(tags: seq<string>): string {
      Field("Tags") + ":        " + Join(tags, ", ")
    }

    /** The description block: the first chunk after the bold "Description: ", every
        later chunk after as many spaces. */
    function DescriptionLines(desc: string): (r: seq<string>)
      ensures |r| == |Util.WordChunksSpec(desc, DescriptionWidth)|
      ensures |r| > 0 <==> desc != ""
      ensures |r| > 0 ==> r[0] == Field("Description") + ": " + Util.WordChunksSpec(desc, DescriptionWidth)[0]
      ensures forall k :: 1 <= k < |r| ==> r[k] == Spaces(Indent) + Util.WordChunksSpec(desc, DescriptionWidth)[k]
    {
      var chunks := Util.WordChunksSpec(desc, DescriptionWidth);
      seq(|chunks|, k requires 0 <= k < |chunks| =>
        if k == 0 then Field("Description") + ": " + chunks[0] else Spaces(Indent) + chunks[k])
    }

    /** The lines every card has: title, blank line, status, priority. */
    function FixedLines(todo: Todos.Todo): seq<string> {
      [heading.Style(todo.subject), "", StatusLine(todo), PrioLine(todo)]
    }

    function ContextLines(todo: Todos.Todo): (r: seq<string>)
      ensures |r| == ContextCount(todo)
    {
      if todo.context.Some? then [ContextLine(todo.context.value)] else []
    }

    function TagsLines(todo: Todos.Todo): (r: seq<string>)
      ensures |r| == TagsCount(todo)
    {
      if |todo.tags.items| > 0 then [TagsLine(todo.tags.items)] else []
    }

    /** The lines before the description: title, blank line, status, priority, then the
        context and the tags when there are any. */
    function HeadLines(todo: Todos.Todo): (r: seq<string>)
      ensures |r| == 4 + ContextCount(todo) + TagsCount(todo)
    {
      FixedLines(todo) + ContextLines(todo) + TagsLines(todo)
    }

    /** The description with the blank line before it, or nothing. */
    function DescriptionBlock(desc: string): (r: seq<string>)
      ensures |r| == if desc == "" then 0 else 1 + |Util.WordChunksSpec(desc, DescriptionWidth)|
    {
      if desc == "" then [] else [""] + DescriptionLines(desc)
    }

    /** The lines of the card, in the order the source pushes them. */
    function CardLines(todo: Todos.Todo): (r: seq<string>)
      ensures |r| >= 4
    {
      if todo.description == "" then HeadLines(todo)
      else HeadLines(todo) + [""] + DescriptionLines(todo.description)
    }

    /** `format_description`: nothing for an empty description, otherwise the chunks at
        width 100, built line by line. */
    method FormatDescription(desc: string) returns (r: Option<seq<string>>)
      ensures r.None? <==> desc == ""
      ensures r.Some? ==> r.value == DescriptionLines(desc)
    {
      if desc == "" {
        return None;
      }
      var chunks := Util.WordChunks(desc, DescriptionWidth);
      var lines: seq<string> := [];
      if |chunks| > 0 {
        lines := lines + [Field("Description") + ": " + chunks[0]];
      }
      var i := 1;
      while i < |chunks|
        invariant 1 <= i <= |chunks|
        invariant lines == DescriptionLines(desc)[..i]
      {
        assert DescriptionLines(desc)[..i + 1] == DescriptionLines(desc)[..i] + [Spaces(Indent) + chunks[i]];
        lines := lines + [Spaces(Indent) + chunks[i]];
        i := i + 1;
      }
      return Some(lines);
    }

    /** The pushes of `format` before the description: the fixed lines, then the context
        and the tags lines when there is something to show. */
    method PushHead(todo: Todos.Todo) returns (lines: seq<string>)
      ensures lines == HeadLines(todo)
    {
      lines := [];
      lines := lines + [heading.Style(todo.subject)];
      lines := lines + [""];
      lines := lines + [StatusLine(todo)];
      lines := lines + [PrioLine(todo)];
      assert lines == FixedLines(todo);
      if todo.context.Some? {
        lines := lines + [ContextLine(todo.context.value)];
      }
      assert lines == FixedLines(todo) + ContextLines(todo);
      if |todo.tags.items| > 0 {
        lines := lines + [TagsLine(todo.tags.items)];
      }
      assert lines == HeadLines(todo);
    }

    /** `format`: the card's lines pushed one after another and joined by line feeds. */
    method Format(todo: Todos.Todo) returns (r: string)
      ensures r == Join(CardLines(todo), "\n")
    {
      var lines := PushHead(todo);
      var desc := FormatDescription(todo.description);
      if desc.Some? {
        lines := lines + [""];
        lines := Util.PushAll(lines, desc.value);
      }
      r := Join(lines, "\n");
    }
  }

  /** `Card::new`: with colour, an underlined bold heading, bold field names and a bold
      blue context; without, no styling at all. */
  function New(color: bool): (c: Card)
    ensures c.color == color
    ensures color ==> c.heading == Style.Styler(None, true, true)
    ensures color ==> c.boldWhite == Style.Styler(None, true, false)
    ensures color ==> c.blue == Style.Styler(Some(Style.Blue), true, false)
    ensures !color ==> c.heading.IsPlain() && c.boldWhite.IsPlain() && c.blue.IsPlain()
  {
    if color then
      Card(color, Style.Default().Underline(true).Bold(true), Style.Default().Bold(true),
           Style.Default().Bold(true).Fg(Style.Blue))
    else Card(color, Style.Default(), Style.Default(), Style.Default())
  }

  /** The card is its head followed by its description block. */
  lemma CardParts(card: Card, todo: Todos.Todo)
    ensures card.CardLines(todo) == card.HeadLines(todo) + card.DescriptionBlock(todo.description)
  {
    if todo.description != "" {
      var head := card.HeadLines(todo);
      var d := card.DescriptionLines(todo.description);
      assert head + [""] + d == head + ([""] + d);
    }
  }

  function ContextCount(todo: Todos.Todo): nat {
    if todo.context.Some? then 1 else 0
  }

  function TagsCount(todo: Todos.Todo): nat {
    if |todo.tags.items| > 0 then 1 else 0
  }

  /** The card starts with the heading-styled title and an empty line, then the status and
      the priority lines, always, in that order. */
  lemma CardHead(card: Card, todo: Todos.Todo)
    ensures var r := card.CardLines(todo);
            r[0] == card.heading.Style(todo.subject) && r[1] == "" &&
            r[2] == card.StatusLine(todo) && r[3] == card.PrioLine(todo)
  {
    FixedFirst(card, todo);
  }

  /** A card has one line for the context exactly when it is set, one for the tags exactly
      when there are some, and a blank line and the description block exactly when the
      description is not empty. */
  lemma {:induction false} CardLength(card: Card, todo: Todos.Todo)
    ensures |card.CardLines(todo)| == 4 + ContextCount(todo) + TagsCount(todo) +
      (if todo.description == "" then 0 else 1 + |Util.WordChunksSpec(todo.description, DescriptionWidth)|)
  {
  }

  /** The context line follows the priority line when the context is set, and the tags
      line, the tags joined by ", ", follows that. */
  lemma CardOptionalLines(card: Card, todo: Todos.Todo)
    ensures var r := card.CardLines(todo);
            (todo.context.Some? ==> r[4] == card.ContextLine(todo.context.value)) &&
            (|todo.tags.items| > 0 ==> r[4 + ContextCount(todo)] == card.TagsLine(todo.tags.items))
  {
    var head := card.HeadLines(todo);
    CardParts(card, todo);
    assert forall k :: 0 <= k < |head| ==> card.CardLines(todo)[k] == head[k];
    assert head == card.FixedLines(todo) + card.ContextLines(todo) + card.TagsLines(todo);
  }

  /** A non-empty description ends the card: a blank line, then its block. */
  lemma CardDescription(card: Card, todo: Todos.Todo)
    requires todo.description != ""
    ensures var r := card.CardLines(todo);
            var d := card.DescriptionLines(todo.description);
            var start := 4 + ContextCount(todo) + TagsCount(todo);
            |r| == start + 1 + |d| && r[start] == "" && r[start + 1..] == d
  {
    var r := card.CardLines(todo);
    var head := card.HeadLines(todo);
    var d := card.DescriptionLines(todo.description);
    assert r == head + [""] + d;
    assert r[|head| + 1..] == d;
  }

  /** Under a plain label, every description chunk starts in the same column: after the
      label on the first line, after the indent on the others. */
  lemma DescriptionAligned(card: Card, desc: string)
    requires card.boldWhite.IsPlain()
    ensures var r := card.DescriptionLines(desc);
            var chunks := Util.WordChunksSpec(desc, DescriptionWidth);
            forall k :: 0 <= k < |r| ==> |r[k]| <= Indent + DescriptionWidth && r[k][Indent..] == chunks[k]
  {
    var r := card.DescriptionLines(desc);
    var chunks := Util.WordChunksSpec(desc, DescriptionWidth);
    forall k | 0 <= k < |r| ensures |r[k]| <= Indent + DescriptionWidth && r[k][Indent..] == chunks[k] {
      if k == 0 {
        assert card.Field("Description") == "Description";
        assert r[0] == "Description: " + chunks[0];
      }
    }
  }

  /** Without colour the card has no styling: the title is bare, and the priority line
      shows the status text, as the source writes it. */
  lemma PlainCard(todo: Todos.Todo)
    ensures var r := New(false).CardLines(todo);
            r[0] == todo.subject &&
            r[2] == "Status:      " + todo.status.Display() &&
            r[3] == "Priority:    " + todo.status.Display()
  {
    var c := New(false);
    FixedFirst(c, todo);
    assert c.Field("Status") == "Status" && c.Field("Priority") == "Priority";
    assert c.StatusText(todo) == todo.status.Display() && c.PrioText(todo) == todo.status.Display();
    assert "Status" + ":      " == "Status:      ";
    assert "Priority" + ":    " == "Priority:    ";
  }

  /** The first four lines of every card are its fixed lines. */
  lemma FixedFirst(card: Card, todo: Todos.Todo)
    ensures forall k :: 0 <= k < 4 ==> card.CardLines(todo)[k] == card.FixedLines(todo)[k]
  {
    var head := card.HeadLines(todo);
    var fixed := card.FixedLines(todo);
    var block := card.DescriptionBlock(todo.description);
    CardParts(card, todo);
    assert forall k :: 0 <= k < |head| ==> (head + block)[k] == head[k];
    var optional := card.ContextLines(todo) + card.TagsLines(todo);
    assert head == fixed + optional;
    assert forall k :: 0 <= k < 4 ==> (fixed + optional)[k] == fixed[k];
  }

  /** With colour the priority line shows the priority in its own colour. */
  lemma ColoredPriority(todo: Todos.Todo)
    ensures var card := New(true);
            card.CardLines(todo)[3] == card.Field("Priority") + ":    " + todo.prio.Styler().Style(todo.prio.Display())
  {
    FixedFirst(New(true), todo);
  }

  /** The formatted card, split at line feeds, is its lines again when no title, context
      or tag holds a line feed: each pushed entry is one printed line. */
  lemma CardSplits(card: Card, todo: Todos.Todo)
    requires '\n' !in todo.subject
    requires todo.context.Some? ==> '\n' !in todo.context.value
    requires forall k :: 0 <= k < |todo.tags.items| ==> '\n' !in todo.tags.items[k]
    ensures Split(Join(card.CardLines(todo), "\n"), '\n') == card.CardLines(todo)
  {
    CardNoNewline(card, todo);
    assert "\n" == ['\n'];
    assert forall k :: 0 <= k < |card.CardLines(todo)| ==> '\n' !in card.CardLines(todo)[k];
    SplitJoin(card.CardLines(todo), '\n');
  }

  lemma CardNoNewline(card: Card, todo: Todos.Todo)
    requires '\n' !in todo.subject
    requires todo.context.Some? ==> '\n' !in todo.context.value
    requires forall k :: 0 <= k < |todo.tags.items| ==> '\n' !in todo.tags.items[k]
    ensures Util.NoNewlines(card.CardLines(todo))
  {
    HeadNoNewline(card, todo);
    BlockNoNewline(card, todo.description);
    ConcatNoNewline(card.HeadLines(todo), card.DescriptionBlock(todo.description));
    CardParts(card, todo);
  }

  lemma ConcatNoNewline(a: seq<string>, b: seq<string>)
    requires Util.NoNewlines(a) && Util.NoNewlines(b)
    ensures Util.NoNewlines(a + b)
  {
    forall k | 0 <= k < |a + b| ensures '\n' !in (a + b)[k] {
      if k >= |a| {
        assert (a + b)[k] == b[k - |a|];
      }
    }
  }

  lemma HeadNoNewline(card: Card, todo: Todos.Todo)
    requires '\n' !in todo.subject
    requires todo.context.Some? ==> '\n' !in todo.context.value
    requires forall k :: 0 <= k < |todo.tags.items| ==> '\n' !in todo.tags.items[k]
    ensures Util.NoNewlines(card.HeadLines(todo))
  {
    FixedNoNewline(card, todo);
    ContextNoNewline(card, todo);
    TagsNoNewline(card, todo);
    ConcatNoNewline(card.FixedLines(todo), card.ContextLines(todo));
    ConcatNoNewline(card.FixedLines(todo) + card.ContextLines(todo), card.TagsLines(todo));
  }

  lemma FixedNoNewline(card: Card, todo: Todos.Todo)
    requires '\n' !in todo.subject
    ensures Util.NoNewlines(card.FixedLines(todo))
  {
    Style.StyleNoNewline(card.heading, todo.subject);
    Style.StyleNoNewline(card.boldWhite, "Status");
    Style.StyleNoNewline(card.boldWhite, "Priority");
    Style.StyleNoNewline(todo.status.Styler(), todo.status.Display());
    Style.StyleNoNewline(todo.prio.Styler(), todo.prio.Display());
  }

  lemma ContextNoNewline(card: Card, todo: Todos.Todo)
    requires todo.context.Some? ==> '\n' !in todo.context.value
    ensures Util.NoNewlines(card.ContextLines(todo))
  {
    if todo.context.Some? {
      Style.StyleNoNewline(card.boldWhite, "Context");
      Style.StyleNoNewline(card.blue, todo.context.value);
    }
  }

  lemma TagsNoNewline(card: Card, todo: Todos.Todo)
    requires forall k :: 0 <= k < |todo.tags.items| ==> '\n' !in todo.tags.items[k]
    ensures Util.NoNewlines(card.TagsLines(todo))
  {
    if |todo.tags.items| > 0 {
      Style.StyleNoNewline(card.boldWhite, "Tags");
      JoinAvoids(todo.tags.items, ", ", '\n');
    }
  }

  lemma BlockNoNewline(card: Card, desc: string)
    ensures Util.NoNewlines(card.DescriptionBlock(desc))
  {
    if desc != "" {
      var d := card.DescriptionLines(desc);
      Util.WordChunksNoNewline(desc, DescriptionWidth);
      Style.StyleNoNewline(card.boldWhite, "Description");
      assert forall k :: 0 <= k < |d| ==> '\n' !in d[k];
    }
  }

  /** A card is never empty: the title and the status line are separated by line feeds. */
  lemma FormatNonEmpty(card: Card, todo: Todos.Todo)
    ensures "\n" <= Join(card.CardLines(todo), "\n")[|card.CardLines(todo)[0]|..]
  {
    var r := card.CardLines(todo);
    assert Join(r, "\n") == r[0] + "\n" + Join(r[1..], "\n");
  }
}
