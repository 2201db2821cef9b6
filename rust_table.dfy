/**
 * The other revision's table formatter (rust/src/format/table/mod.rs): todo rows are ID,
 * Status and Title, event rows ID, Action, Timestamp and Details, and every cell passes
 * through a column formatter chosen per table. The clock's rendering of an event timestamp
 * is a parameter.
 */
module RustTable {
  import opened Text
  import Style
  import Statuses
  import Todos
  import Events
  import Padding
  import Columns
  import RustColumns
  import Table

  const IdColWidth: nat := 3
  const StatusColWidth: nat := 8
  const TitleColWidth: nat := 50
  const ActionColWidth: nat := 8
  const TimestampColWidth: nat := 20
  const DetailsColWidth: nat := 50

  /** Line `row` of every column, each through the formatter with its column index. */
  function FormattedCells(cols: seq<Columns.Col>, f: RustColumns.ColFormatter, row: nat): (r: seq<string>)
    ensures |r| == |cols|
  {
    seq(|cols|, i requires 0 <= i < |cols| => f.Format(i, cols[i].Nth(row)))
  }

  /** Printed line `row` of a row: the formatted cells of that line joined by a single
      space. */
  function FormattedLine(cols: seq<Columns.Col>, f: RustColumns.ColFormatter, row: nat): string {
    Join(FormattedCells(cols, f, row), " ")
  }

  /** The first `n` printed lines of a row. */
  function FirstLines(cols: seq<Columns.Col>, f: RustColumns.ColFormatter, n: nat): (r: seq<string>)
    ensures |r| == n
  {
    if n == 0 then [] else FirstLines(cols, f, n - 1) + [FormattedLine(cols, f, n - 1)]
  }

  /** The printed lines of a row: as many as the tallest column has. */
  function FormattedLines(cols: seq<Columns.Col>, f: RustColumns.ColFormatter): seq<string> {
    FirstLines(cols, f, Table.MaxHeight(cols))
  }

  /** Line `row` of the first `n` is the formatted cells of line `row`, joined. */
  lemma {:induction false} FirstLinesAt(cols: seq<Columns.Col>, f: RustColumns.ColFormatter, n: nat, row: nat)
    requires row < n
    ensures FirstLines(cols, f, n)[row] == FormattedLine(cols, f, row)
  {
    var init := FirstLines(cols, f, n - 1);
    assert FirstLines(cols, f, n) == init + [FormattedLine(cols, f, n - 1)];
    if row < n - 1 {
      FirstLinesAt(cols, f, n - 1, row);
      assert FirstLines(cols, f, n)[row] == init[row];
    }
  }

  function FormattedText(cols: seq<Columns.Col>, f: RustColumns.ColFormatter): string {
    Join(FormattedLines(cols, f), "\n")
  }

  /** `format_cols`: rows built line by line; each cell is column `i`'s `nth` line passed
      through `f.format(i, ...)`. */
  method FormatCols(cols: seq<Columns.Col>, f: RustColumns.ColFormatter) returns (r: string)
    ensures r == FormattedText(cols, f)
  {
    var height := Table.MaxHeight(cols);
    var rows: seq<string> := [];
    for row := 0 to height
      invariant rows == FirstLines(cols, f, row)
    {
      var line := FormatLine(cols, f, row);
      rows := rows + [line];
    }
    r := Join(rows, "\n");
  }

  /** One printed line of `format_cols`: the formatted cells of line `row`, joined. */
  method FormatLine(cols: seq<Columns.Col>, f: RustColumns.ColFormatter, row: nat) returns (line: string)
    ensures line == FormattedLine(cols, f, row)
  {
    var curr: seq<string> := [];
    var i := 0;
    while i < |cols|
      invariant 0 <= i <= |cols|
      invariant curr == FormattedCells(cols, f, row)[..i]
    {
      var s := cols[i].Nth(row);
      s := f.Format(i, s);
      assert FormattedCells(cols, f, row)[..i + 1] == FormattedCells(cols, f, row)[..i] + [s];
      curr := curr + [s];
      i := i + 1;
    }
    assert curr == FormattedCells(cols, f, row);
    line := Join(curr, " ");
  }

  /** With the formatter that styles nothing, a row prints exactly as the other revision's
      `format_row` prints it. */
  lemma DefaultFormatterIsFormatRow(cols: seq<Columns.Col>)
    ensures FormattedLines(cols, RustColumns.DefaultFormatter) == Table.RowLines(cols)
    ensures FormattedText(cols, RustColumns.DefaultFormatter) == Table.RowText(cols)
  {
    var lines := FormattedLines(cols, RustColumns.DefaultFormatter);
    forall row | 0 <= row < |lines| ensures lines[row] == Table.RowLines(cols)[row] {
      FirstLinesAt(cols, RustColumns.DefaultFormatter, |lines|, row);
      assert FormattedCells(cols, RustColumns.DefaultFormatter, row) == Table.Cells(cols, row);
    }
  }

  /** No printed line of a row holds a line feed. */
  lemma FormattedLinesNoNewline(cols: seq<Columns.Col>, f: RustColumns.ColFormatter)
    requires Table.AllAligned(cols)
    ensures forall row :: 0 <= row < |FormattedLines(cols, f)| ==> '\n' !in FormattedLines(cols, f)[row]
  {
    forall row | 0 <= row < |FormattedLines(cols, f)| ensures '\n' !in FormattedLines(cols, f)[row] {
      FirstLinesAt(cols, f, |FormattedLines(cols, f)|, row);
      var cells := FormattedCells(cols, f, row);
      forall i | 0 <= i < |cols| ensures '\n' !in cells[i] {
        Columns.NthShape(cols[i], row);
        RustColumns.FormatNoNewline(f, i, cols[i].Nth(row));
      }
      JoinAvoids(cells, " ", '\n');
    }
  }

  /** The header columns carry no style; the header formatter makes them bold. */
  function TodoHeaderCols(): seq<Columns.Col> {
    Table.HeaderRow([(IdColWidth, " ID", Padding.Left), (StatusColWidth, "Status", Padding.Left),
                     (TitleColWidth, "Title", Padding.Left)], Style.Default())
  }

  function EventHeaderCols(): seq<Columns.Col> {
    Table.HeaderRow([(IdColWidth, " ID", Padding.Left), (ActionColWidth, "Action", Padding.Center),
                     (TimestampColWidth, "Timestamp", Padding.Left), (DetailsColWidth, "Details", Padding.Left)],
                    Style.Default())
  }

  /** `map_todo`: ID, Status and Title; the status is the column at index 1. */
  function MapTodo(todo: Todos.Todo): (r: seq<Columns.Col>)
    ensures |r| == 3 && Table.AllAligned(r)
  {
    var id := RustColumns.New(IdColWidth, " " + todo.id.Display(), Padding.Left);
    var status := RustColumns.New(StatusColWidth, todo.status.Display(), Padding.Left);
    var title := RustColumns.New(TitleColWidth, todo.subject, Padding.Left);
    [id, status, title]
  }

  /** `map_event`: ID, Action (centred), Timestamp and Details. */
  function MapEvent(event: Events.Event, formatTime: int -> string): (r: seq<Columns.Col>)
    ensures |r| == 4 && Table.AllAligned(r)
  {
    var id := RustColumns.New(IdColWidth, " " + event.id.Display(), Padding.Left);
    var action := RustColumns.New(ActionColWidth, event.action.Display(), Padding.Center);
    var time := RustColumns.New(TimestampColWidth, formatTime(event.timestamp), Padding.Left);
    var details := RustColumns.New(DetailsColWidth, event.kind.Display(), Padding.Left);
    [id, action, time, details]
  }

  /** A todo row's columns have the header's widths and carry no style: colour comes
      from the formatter alone. */
  lemma MapTodoShape(todo: Todos.Todo)
    ensures var r := MapTodo(todo);
            r[0].width == IdColWidth && r[1].width == StatusColWidth && r[2].width == TitleColWidth &&
            forall i :: 0 <= i < 3 ==> r[i].styler.IsPlain()
  {
  }

  /** An event row's columns have the header's widths and carry no style. */
  lemma MapEventShape(event: Events.Event, formatTime: int -> string)
    ensures var r := MapEvent(event, formatTime);
            r[0].width == IdColWidth && r[1].width == ActionColWidth &&
            r[2].width == TimestampColWidth && r[3].width == DetailsColWidth &&
            forall i :: 0 <= i < 4 ==> r[i].styler.IsPlain()
  {
  }

  /** The first line of a todo row shows the status padded, coloured by the todo
      formatter: done green, started blue, new and blocked bold. */
  lemma TodoRowStatusCell(todo: Todos.Todo)
    ensures var text := Padding.Pad(todo.status.Display(), StatusColWidth, Padding.Left);
            FormattedCells(MapTodo(todo), RustColumns.TodoFormatter, 0)[1] == match todo.status
              case Done => RustColumns.BoldIn(Style.Green).Style(text)
              case Started => RustColumns.BoldIn(Style.Blue).Style(text)
              case _ => RustColumns.Bold().Style(text)
  {
    var st := todo.status.Display();
    assert '\n' !in st;
    Columns.ShortContent(StatusColWidth, st, Style.Default(), Padding.Left);
    RustColumns.StatusCellStyles(todo.status);
  }

  /** The first line of an event row shows the action centred, in the action's colour. */
  lemma EventRowActionCell(event: Events.Event, formatTime: int -> string)
    ensures var text := Padding.Pad(event.action.Display(), ActionColWidth, Padding.Center);
            FormattedCells(MapEvent(event, formatTime), RustColumns.EventFormatter, 0)[1] == match event.action
              case Add => RustColumns.BoldIn(Style.Green).Style(text)
              case Update => RustColumns.BoldIn(Style.Blue).Style(text)
              case Remove => RustColumns.BoldIn(Style.Red).Style(text)
  {
    var a := event.action.Display();
    assert '\n' !in a;
    Columns.ShortContent(ActionColWidth, a, Style.Default(), Padding.Center);
    RustColumns.ActionCellStyles(event.action);
  }

  function TodoRows(todos: seq<Todos.Todo>): (r: seq<string>)
    ensures |r| == |todos|
  {
    if |todos| == 0 then []
    else [FormattedText(MapTodo(todos[0]), RustColumns.TodoFormatter)] + TodoRows(todos[1..])
  }

  function EventRows(events: seq<Events.Event>, formatTime: int -> string): (r: seq<string>)
    ensures |r| == |events|
  {
    if |events| == 0 then []
    else [FormattedText(MapEvent(events[0], formatTime), RustColumns.EventFormatter)] + EventRows(events[1..], formatTime)
  }

  /** `todos`: the bold header, a line feed, and the todo rows joined by line feeds. */
  function TodosTable(todos: seq<Todos.Todo>): string {
    FormattedText(TodoHeaderCols(), RustColumns.HeaderFormatter) + "\n" + Join(TodoRows(todos), "\n")
  }

  /** `todo`: the table of one todo. */
  function TodoTable(todo: Todos.Todo): string {
    TodosTable([todo])
  }

  /** `events`: the bold header, a line feed, and the event rows joined by line feeds. */
  function EventsTable(events: seq<Events.Event>, formatTime: int -> string): string {
    FormattedText(EventHeaderCols(), RustColumns.HeaderFormatter) + "\n" + Join(EventRows(events, formatTime), "\n")
  }

  function EventLines(events: seq<Events.Event>, formatTime: int -> string): seq<string> {
    if |events| == 0 then []
    else FormattedLines(MapEvent(events[0], formatTime), RustColumns.EventFormatter) + EventLines(events[1..], formatTime)
  }

  lemma EventRowHeight(event: Events.Event, formatTime: int -> string)
    ensures Table.MaxHeight(MapEvent(event, formatTime)) > 0
  {
    var r := MapEvent(event, formatTime);
    Columns.HeightOfContent(IdColWidth, " " + event.id.Display(), Style.Default(), Padding.Left);
    assert r[0].Height() > 0;
  }

  lemma EventHeaderHeight()
    ensures Table.MaxHeight(EventHeaderCols()) > 0
  {
    var h := EventHeaderCols();
    Columns.HeightOfContent(IdColWidth, " ID", Style.Default(), Padding.Left);
    assert h[0].Height() > 0;
  }

  lemma EventHeaderAligned()
    ensures Table.AllAligned(EventHeaderCols())
  {
  }

  lemma {:induction false} EventRowsJoin(events: seq<Events.Event>, formatTime: int -> string)
    requires |events| > 0
    ensures |EventLines(events, formatTime)| > 0
    ensures Join(EventRows(events, formatTime), "\n") == Join(EventLines(events, formatTime), "\n")
    decreases |events|
  {
    EventRowHeight(events[0], formatTime);
    var first := FormattedLines(MapEvent(events[0], formatTime), RustColumns.EventFormatter);
    if |events| > 1 {
      EventRowsJoin(events[1..], formatTime);
      Table.JoinRowsStep(FormattedText(MapEvent(events[0], formatTime), RustColumns.EventFormatter),
        EventRows(events[1..], formatTime), first, EventLines(events[1..], formatTime));
    } else {
      assert EventLines(events, formatTime) == first + [];
      assert first + [] == first;
    }
  }

  lemma {:induction false} EventLinesNoNewline(events: seq<Events.Event>, formatTime: int -> string)
    ensures forall k :: 0 <= k < |EventLines(events, formatTime)| ==> '\n' !in EventLines(events, formatTime)[k]
    decreases |events|
  {
    if |events| > 0 {
      FormattedLinesNoNewline(MapEvent(events[0], formatTime), RustColumns.EventFormatter);
      EventLinesNoNewline(events[1..], formatTime);
    }
  }

  /** The event table, read line by line, is the header's lines followed by every event's
      lines in log order. */
  lemma EventsTableLines(events: seq<Events.Event>, formatTime: int -> string)
    requires |events| > 0
    ensures Split(EventsTable(events, formatTime), '\n') ==
      FormattedLines(EventHeaderCols(), RustColumns.HeaderFormatter) + EventLines(events, formatTime)
  {
    EventHeaderHeight();
    EventHeaderAligned();
    FormattedLinesNoNewline(EventHeaderCols(), RustColumns.HeaderFormatter);
    EventRowsJoin(events, formatTime);
    EventLinesNoNewline(events, formatTime);
    Table.SplitTable(FormattedLines(EventHeaderCols(), RustColumns.HeaderFormatter),
      Join(EventRows(events, formatTime), "\n"), EventLines(events, formatTime));
  }

  /** Every printed line of the todos' rows, todo after todo. */
  function TodoLines(todos: seq<Todos.Todo>): seq<string> {
    if |todos| == 0 then []
    else FormattedLines(MapTodo(todos[0]), RustColumns.TodoFormatter) + TodoLines(todos[1..])
  }

  /** Every todo row is at least one line tall: its ID cell is never empty. */
  lemma TodoRowHeight(todo: Todos.Todo)
    ensures Table.MaxHeight(MapTodo(todo)) > 0
  {
    var r := MapTodo(todo);
    Columns.HeightOfContent(IdColWidth, " " + todo.id.Display(), Style.Default(), Padding.Left);
    assert r[0].Height() > 0;
  }

  lemma TodoHeaderHeight()
    ensures Table.MaxHeight(TodoHeaderCols()) > 0
  {
    var h := TodoHeaderCols();
    Columns.HeightOfContent(IdColWidth, " ID", Style.Default(), Padding.Left);
    assert h[0].Height() > 0;
  }

  lemma TodoHeaderAligned()
    ensures Table.AllAligned(TodoHeaderCols())
  {
  }

  /** The todos' rows, joined, are their printed lines joined. */
  lemma {:induction false} TodoRowsJoin(todos: seq<Todos.Todo>)
    requires |todos| > 0
    ensures |TodoLines(todos)| > 0
    ensures Join(TodoRows(todos), "\n") == Join(TodoLines(todos), "\n")
    decreases |todos|
  {
    TodoRowHeight(todos[0]);
    var first := FormattedLines(MapTodo(todos[0]), RustColumns.TodoFormatter);
    if |todos| > 1 {
      TodoRowsJoin(todos[1..]);
      Table.JoinRowsStep(FormattedText(MapTodo(todos[0]), RustColumns.TodoFormatter),
        TodoRows(todos[1..]), first, TodoLines(todos[1..]));
    } else {
      assert TodoLines(todos) == first + [];
      assert first + [] == first;
    }
  }

  lemma {:induction false} TodoLinesNoNewline(todos: seq<Todos.Todo>)
    ensures forall k :: 0 <= k < |TodoLines(todos)| ==> '\n' !in TodoLines(todos)[k]
    decreases |todos|
  {
    if |todos| > 0 {
      FormattedLinesNoNewline(MapTodo(todos[0]), RustColumns.TodoFormatter);
      TodoLinesNoNewline(todos[1..]);
    }
  }

  /** The todo table, read line by line, is the header's lines followed by every todo's
      lines in list order. */
  lemma TodosTableLines(todos: seq<Todos.Todo>)
    requires |todos| > 0
    ensures Split(TodosTable(todos), '\n') ==
      FormattedLines(TodoHeaderCols(), RustColumns.HeaderFormatter) + TodoLines(todos)
  {
    TodoHeaderHeight();
    TodoHeaderAligned();
    FormattedLinesNoNewline(TodoHeaderCols(), RustColumns.HeaderFormatter);
    TodoRowsJoin(todos);
    TodoLinesNoNewline(todos);
    Table.SplitTable(FormattedLines(TodoHeaderCols(), RustColumns.HeaderFormatter),
      Join(TodoRows(todos), "\n"), TodoLines(todos));
  }

  /** The table of one todo, read line by line, is the header's lines followed by the
      todo's lines. */
  lemma TodoTableLines(todo: Todos.Todo)
    ensures Split(TodoTable(todo), '\n') ==
      FormattedLines(TodoHeaderCols(), RustColumns.HeaderFormatter) + FormattedLines(MapTodo(todo), RustColumns.TodoFormatter)
  {
    TodosTableLines([todo]);
    assert [todo][1..] == [];
    var own := FormattedLines(MapTodo(todo), RustColumns.TodoFormatter);
    assert TodoLines([todo]) == own + [];
    assert own + [] == own;
  }
}
