/**
 * The other revision's columns (rust/src/format/table/col.rs): a column carries no style of
 * its own; a column formatter styles each cell by the column's index instead.
 */
module RustColumns {
  import opened Text
  import Style
  import Statuses
  import Events
  import Padding
  import Columns

  /** `Col::new`: the content's word chunks, each padded to the width, unstyled. */
  function New(width: nat, content: string, align: Padding.Align): (c: Columns.Col)
    requires width >= 3
    ensures c.Aligned() && c.width == width && c.styler.IsPlain()
    ensures c.lines == Columns.New(width, content, Style.Default(), align).lines
  {
    Columns.New(width, content, Style.Default(), align)
  }

  function Bold(): Style.Styler {
    Style.Default().Bold(true)
  }

  function BoldIn(color: Style.Color): Style.Styler {
    Style.Default().Bold(true).Fg(color)
  }

  /** The four column formatters. */
  datatype ColFormatter = DefaultFormatter | HeaderFormatter | TodoFormatter | EventFormatter {
    /** `format`: the cell text of column `index`, styled as the formatter decides. */
    function Format(index: nat, s: string): (r: string)
      ensures this == DefaultFormatter ==> r == s
      ensures this == HeaderFormatter ==> r == Bold().Style(s)
      ensures (this == TodoFormatter || this == EventFormatter) && index != 1 ==> r == s
    {
      match this
      case DefaultFormatter => s
      case HeaderFormatter => Bold().Style(s)
      case TodoFormatter => if index == 1 then StatusCell(s) else s
      case EventFormatter => if index == 1 then ActionCell(s) else s
    }
  }

  /** The todo formatter's status column: text with "done" green, else text with "start"
      blue, else bold. */
  function StatusCell(s: string): string {
    if Contains(s, "done") then BoldIn(Style.Green).Style(s)
    else if Contains(s, "start") then BoldIn(Style.Blue).Style(s)
    else Bold().Style(s)
  }

  /** The event formatter's action column: "add" green, "update" blue, "remove" red, and
      any other text unchanged. */
  function ActionCell(s: string): string {
    if Contains(s, "add") then BoldIn(Style.Green).Style(s)
    else if Contains(s, "update") then BoldIn(Style.Blue).Style(s)
    else if Contains(s, "remove") then BoldIn(Style.Red).Style(s)
    else s
  }

  /** Formatting never introduces a line feed. */
  lemma FormatNoNewline(f: ColFormatter, index: nat, s: string)
    requires '\n' !in s
    ensures '\n' !in f.Format(index, s)
  {
    Style.StyleNoNewline(Bold(), s);
    Style.StyleNoNewline(BoldIn(Style.Green), s);
    Style.StyleNoNewline(BoldIn(Style.Blue), s);
    Style.StyleNoNewline(BoldIn(Style.Red), s);
  }

  /** A status cell of a todo row is padded to the status column; done is green,
      started blue, and new and blocked bold. */
  lemma StatusCellStyles(st: Statuses.Status)
    ensures var text := Padding.Pad(st.Display(), 8, Padding.Left);
            TodoFormatter.Format(1, text) == match st
              case Done => BoldIn(Style.Green).Style(text)
              case Started => BoldIn(Style.Blue).Style(text)
              case _ => Bold().Style(text)
  {
    var text := Padding.Pad(st.Display(), 8, Padding.Left);
    assert Spaces(1) == " " && Spaces(4) == "    " && Spaces(5) == "     ";
    match st
    case Done =>
      assert text == "done    ";
      assert OccursAt(text, "done", 0);
    case Started =>
      assert text == "started ";
      assert OccursAt(text, "start", 0);
      NoOccurrence(text, "done");
    case New =>
      assert text == "new     ";
      NoOccurrence(text, "done");
      NoOccurrence(text, "start");
    case Blocked =>
      assert text == "blocked ";
      NoOccurrence(text, "done");
      NoOccurrence(text, "start");
  }

  /** An action cell of an event row is centred in the action column; add is green,
      update blue and remove red. */
  lemma ActionCellStyles(a: Events.Action)
    ensures var text := Padding.Pad(a.Display(), 8, Padding.Center);
            EventFormatter.Format(1, text) == match a
              case Add => BoldIn(Style.Green).Style(text)
              case Update => BoldIn(Style.Blue).Style(text)
              case Remove => BoldIn(Style.Red).Style(text)
  {
    assert Spaces(1) == " " && Spaces(2) == "  " && Spaces(3) == "   ";
    match a
    case Add => AddCell(Padding.Pad(a.Display(), 8, Padding.Center));
    case Update => UpdateCell(Padding.Pad(a.Display(), 8, Padding.Center));
    case Remove => RemoveCell(Padding.Pad(a.Display(), 8, Padding.Center));
  }

  lemma AddCell(text: string)
    requires text == "  add   "
    ensures ActionCell(text) == BoldIn(Style.Green).Style(text)
  {
    assert OccursAt(text, "add", 2);
  }

  lemma UpdateCell(text: string)
    requires text == " update "
    ensures ActionCell(text) == BoldIn(Style.Blue).Style(text)
  {
    assert OccursAt(text, "update", 1);
    NoOccurrence(text, "add");
  }

  lemma RemoveCell(text: string)
    requires text == " remove "
    ensures ActionCell(text) == BoldIn(Style.Red).Style(text)
  {
    assert OccursAt(text, "remove", 1);
    NoOccurrence(text, "add");
    NoOccurrence(text, "update");
  }

  /** A pattern whose first two characters never appear side by side in the text does
      not occur in it. */
  lemma NoOccurrence(text: string, word: string)
    requires |word| >= 2
    requires forall i :: 0 <= i < |text| - 1 ==> text[i] != word[0] || text[i + 1] != word[1]
    ensures !Contains(text, word)
  {
    forall i | 0 <= i <= |text| - |word| ensures !OccursAt(text, word, i) {
      assert text[i..i + |word|][0] == text[i] && text[i..i + |word|][1] == text[i + 1];
    }
  }
}
