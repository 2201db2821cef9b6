/**
 * The table formatter (src/format/table/mod.rs): each todo or event becomes a row of
 * columns, a row is printed line by line with the columns side by side, and the table is
 * a header row followed by one row per item. The clock's rendering of an event timestamp
 * is a parameter.
 */
module Table {
  import opened Text
  import Style
  import Ids
  import Todos
  import Events
  import Padding
  import Columns

  const IdColWidth: nat := 3
  const PrioColWidth: nat := 10
  const StatusColWidth: nat := 8
  const CtxColWidth: nat := 12
  const TitleColWidth: nat := 50
  const ActionColWidth: nat := 8
  const TimestampColWidth: nat := 20
  const DetailsColWidth: nat := 50

  /** The styler of a header cell (src/format/table/mod.rs:191-195). */
  function HeaderStyler(): (st: Style.Styler)
    ensures st.bold && st.fg.None? && !st.underline
  {
    Style.Default().Bold(true)
  }

  /** The tallest column's height, or 0 for no columns. */
  function MaxHeight(cols: seq<Columns.Col>): (h: nat)
    ensures forall i :: 0 <= i < |cols| ==> cols[i].Height() <= h
    ensures |cols| == 0 ==> h == 0
    ensures |cols| > 0 ==> exists i :: 0 <= i < |cols| && cols[i].Height() == h
  {
    if |cols| == 0 then 0
    else
      var m := MaxHeight(cols[1..]);
      assert forall i :: 1 <= i < |cols| ==> cols[i] == cols[1..][i - 1];
      if cols[0].Height() >= m then cols[0].Height() else m
  }

  /** Line `row` of every column, in column order. */
  function Cells(cols: seq<Columns.Col>, row: nat): (r: seq<string>)
    ensures |r| == |cols|
  {
    seq(|cols|, i requires 0 <= i < |cols| => cols[i].Nth(row))
  }

  /** The printed lines of a row: one per line of the tallest column, each the columns'
      lines at that height joined by a single space. */
  function RowLines(cols: seq<Columns.Col>): (r: seq<string>)
    ensures |r| == MaxHeight(cols)
    ensures forall row :: 0 <= row < |r| ==> r[row] == Join(Cells(cols, row), " ")
  {
    seq(MaxHeight(cols), row requires 0 <= row < MaxHeight(cols) => Join(Cells(cols, row), " "))
  }

  function RowText(cols: seq<Columns.Col>): string {
    Join(RowLines(cols), "\n")
  }

  /** `format_row`: rows built line by line, each from the columns' `nth` lines. */
  method FormatRow(cols: seq<Columns.Col>) returns (r: string)
    ensures r == RowText(cols)
  {
    var height := MaxHeight(cols);
    var rows: seq<string> := [];
    var row := 0;
    while row < height
      invariant 0 <= row <= height
      invariant rows == RowLines(cols)[..row]
    {
      var curr: seq<string> := [];
      var i := 0;
      while i < |cols|
        invariant 0 <= i <= |cols|
        invariant curr == Cells(cols, row)[..i]
      {
        curr := curr + [cols[i].Nth(row)];
        i := i + 1;
      }
      assert curr == Cells(cols, row);
      assert RowLines(cols)[..row + 1] == RowLines(cols)[..row] + [RowLines(cols)[row]];
      rows := rows + [Join(curr, " ")];
      row := row + 1;
    }
    assert rows == RowLines(cols);
    r := Join(rows, "\n");
  }

  predicate AllAligned(cols: seq<Columns.Col>) {
    forall i :: 0 <= i < |cols| ==> cols[i].Aligned()
  }

  /** A row of columns that are all at least one line tall prints as exactly its lines:
      as many as the tallest column has, none holding a line feed of its own. */
  lemma {:induction false} RowTextLines(cols: seq<Columns.Col>)
    requires AllAligned(cols) && MaxHeight(cols) > 0
    ensures Split(RowText(cols), '\n') == RowLines(cols)
    ensures |Split(RowText(cols), '\n')| == MaxHeight(cols)
  {
    RowLinesNoNewline(cols);
    SplitJoin(RowLines(cols), '\n');
  }

  lemma RowLinesNoNewline(cols: seq<Columns.Col>)
    requires AllAligned(cols)
    ensures forall row :: 0 <= row < |RowLines(cols)| ==> '\n' !in RowLines(cols)[row]
  {
    forall row | 0 <= row < |RowLines(cols)| ensures '\n' !in RowLines(cols)[row] {
      var cells := Cells(cols, row);
      forall i | 0 <= i < |cols| ensures '\n' !in cells[i] {
        Columns.NthShape(cols[i], row);
      }
      JoinAvoids(cells, " ", '\n');
    }
  }

  function SumWidths(cols: seq<Columns.Col>): nat {
    if |cols| == 0 then 0 else cols[0].width + SumWidths(cols[1..])
  }

  /** With plain stylers every printed line of a row is equally long: the columns' widths
      and one space between each two. */
  lemma RowLineWidth(cols: seq<Columns.Col>, row: nat)
    requires |cols| > 0 && AllAligned(cols)
    requires forall i :: 0 <= i < |cols| ==> cols[i].styler.IsPlain()
    ensures |Join(Cells(cols, row), " ")| == SumWidths(cols) + |cols| - 1
  {
    JoinLength(Cells(cols, row), " ");
    CellWidths(cols, row);
  }

  lemma {:induction false} CellWidths(cols: seq<Columns.Col>, row: nat)
    requires AllAligned(cols)
    requires forall i :: 0 <= i < |cols| ==> cols[i].styler.IsPlain()
    ensures SumLengths(Cells(cols, row)) == SumWidths(cols)
    decreases |cols|
  {
    if |cols| > 0 {
      Columns.NthShape(cols[0], row);
      assert Cells(cols, row)[1..] == Cells(cols[1..], row);
      CellWidths(cols[1..], row);
    }
  }

  /** The header of the todo table. */
  function TodoHeaderCols(): seq<Columns.Col> {
    HeaderRow([(IdColWidth, " ID", Padding.Left), (PrioColWidth, "Priority", Padding.Left),
               (StatusColWidth, "Status", Padding.Left), (CtxColWidth, "Context", Padding.Left),
               (TitleColWidth, "Title", Padding.Left)], HeaderStyler())
  }

  /** The header of the event table; "Action" is centred. */
  function EventHeaderCols(): seq<Columns.Col> {
    HeaderRow([(IdColWidth, " ID", Padding.Left), (ActionColWidth, "Action", Padding.Center),
               (TimestampColWidth, "Timestamp", Padding.Left), (DetailsColWidth, "Details", Padding.Left)],
              HeaderStyler())
  }

  /** A header: one column per title, at its width and alignment, in the header style. */
  function HeaderRow(specs: seq<(nat, string, Padding.Align)>, st: Style.Styler): (r: seq<Columns.Col>)
    requires forall k :: 0 <= k < |specs| ==> specs[k].0 >= 3
    ensures |r| == |specs| && AllAligned(r)
    ensures forall k :: 0 <= k < |specs| ==> r[k] == Columns.New(specs[k].0, specs[k].1, st, specs[k].2)
  {
    seq(|specs|, k requires 0 <= k < |specs| => Columns.New(specs[k].0, specs[k].1, st, specs[k].2))
  }

  /** The context cell's text: the context truncated to the column, or nothing. */
  function ContextText(todo: Todos.Todo): (s: string)
    ensures |s| <= CtxColWidth
    ensures todo.context.None? ==> s == ""
    ensures todo.context.Some? ==> s == Padding.Truncate(todo.context.value, CtxColWidth)
  {
    match todo.context
    case Some(cx) => Padding.Truncate(cx, CtxColWidth)
    case None => ""
  }

  /** `map_todo`: ID, Priority, Status, Context and Title, each in its own width; the
      priority and the status carry their own styles. */
  function MapTodo(todo: Todos.Todo): (r: seq<Columns.Col>)
    ensures |r| == 5 && AllAligned(r)
  {
    TodoCols(" " + todo.id.Display(), todo.prio.Display(), todo.prio.Styler(), todo.status.Display(),
             todo.status.Styler(), ContextText(todo), todo.subject)
  }

  /** The five columns of a todo row, from the texts they show. */
  function TodoCols(id: string, prio: string, prioStyle: Style.Styler, status: string,
                    statusStyle: Style.Styler, context: string, title: string): (r: seq<Columns.Col>)
    ensures |r| == 5 && AllAligned(r)
    ensures r[0] == Columns.New(IdColWidth, id, Style.Default(), Padding.Left)
    ensures r[1] == Columns.New(PrioColWidth, prio, prioStyle, Padding.Left)
    ensures r[2] == Columns.New(StatusColWidth, status, statusStyle, Padding.Left)
    ensures r[3] == Columns.New(CtxColWidth, context, Style.Default(), Padding.Left)
    ensures r[4] == Columns.New(TitleColWidth, title, Style.Default(), Padding.Left)
  {
    ColsOf([(IdColWidth, id, Style.Default(), Padding.Left), (PrioColWidth, prio, prioStyle, Padding.Left),
            (StatusColWidth, status, statusStyle, Padding.Left), (CtxColWidth, context, Style.Default(), Padding.Left),
            (TitleColWidth, title, Style.Default(), Padding.Left)])
  }

  /** Columns built one by one from their widths, texts, styles and alignments. */
  function ColsOf(specs: seq<(nat, string, Style.Styler, Padding.Align)>): (r: seq<Columns.Col>)
    requires forall k :: 0 <= k < |specs| ==> specs[k].0 >= 3
    ensures |r| == |specs| && AllAligned(r)
    ensures forall k :: 0 <= k < |specs| ==> r[k] == Columns.New(specs[k].0, specs[k].1, specs[k].2, specs[k].3)
  {
    seq(|specs|, k requires 0 <= k < |specs| => Columns.New(specs[k].0, specs[k].1, specs[k].2, specs[k].3))
  }

  /** The columns have the widths of the header's columns; the priority and the status
      carry their own styles and the other three none. */
  lemma MapTodoWidths(todo: Todos.Todo)
    ensures var r := MapTodo(todo);
            r[0].width == IdColWidth && r[1].width == PrioColWidth && r[2].width == StatusColWidth &&
            r[3].width == CtxColWidth && r[4].width == TitleColWidth
    ensures var r := MapTodo(todo);
            r[1].styler == todo.prio.Styler() && r[2].styler == todo.status.Styler() &&
            r[0].styler.IsPlain() && r[3].styler.IsPlain() && r[4].styler.IsPlain()
  {
  }

  /** The context column shows the truncated context, and the title column the subject. */
  lemma MapTodoCells(todo: Todos.Todo)
    ensures MapTodo(todo)[3] == Columns.New(CtxColWidth, ContextText(todo), Style.Default(), Padding.Left)
    ensures MapTodo(todo)[4] == Columns.New(TitleColWidth, todo.subject, Style.Default(), Padding.Left)
    ensures todo.context.None? ==> MapTodo(todo)[3].Height() == 0
  {
  }

  /** `map_event`: ID, Action (centred, in the action's colour), Timestamp and Details. */
  function MapEvent(event: Events.Event, formatTime: int -> string): (r: seq<Columns.Col>)
    ensures |r| == 4 && AllAligned(r)
    ensures r[0].width == IdColWidth && r[1].width == ActionColWidth
    ensures r[2].width == TimestampColWidth && r[3].width == DetailsColWidth
    ensures r[1] == Columns.New(ActionColWidth, event.action.Display(), event.action.Styler(), Padding.Center)
    ensures r[2] == Columns.New(TimestampColWidth, formatTime(event.timestamp), Style.Default(), Padding.Left)
    ensures r[3] == Columns.New(DetailsColWidth, event.kind.Display(), Style.Default(), Padding.Left)
  {
    EventCols(" " + event.id.Display(), event.action.Display(), event.action.Styler(),
              formatTime(event.timestamp), event.kind.Display())
  }

  /** The four columns of an event row, from the texts they show. */
  function EventCols(id: string, action: string, actionStyle: Style.Styler, time: string, details: string)
    : (r: seq<Columns.Col>)
    ensures |r| == 4 && AllAligned(r)
    ensures r[0] == Columns.New(IdColWidth, id, Style.Default(), Padding.Left)
    ensures r[1] == Columns.New(ActionColWidth, action, actionStyle, Padding.Center)
    ensures r[2] == Columns.New(TimestampColWidth, time, Style.Default(), Padding.Left)
    ensures r[3] == Columns.New(DetailsColWidth, details, Style.Default(), Padding.Left)
  {
    ColsOf([(IdColWidth, id, Style.Default(), Padding.Left), (ActionColWidth, action, actionStyle, Padding.Center),
            (TimestampColWidth, time, Style.Default(), Padding.Left),
            (DetailsColWidth, details, Style.Default(), Padding.Left)])
  }

  function TodoRows(todos: seq<Todos.Todo>): (r: seq<string>)
    ensures |r| == |todos|
  {
    if |todos| == 0 then [] else [RowText(MapTodo(todos[0]))] + TodoRows(todos[1..])
  }

  function EventRows(events: seq<Events.Event>, formatTime: int -> string): (r: seq<string>)
    ensures |r| == |events|
  {
    if |events| == 0 then [] else [RowText(MapEvent(events[0], formatTime))] + EventRows(events[1..], formatTime)
  }

  /** `todos`: the header, a line feed, and the todos' rows joined by line feeds. */
  function TodosTable(todos: seq<Todos.Todo>): string {
    RowText(TodoHeaderCols()) + "\n" + Join(TodoRows(todos), "\n")
  }

  /** `todo`: the table of one todo. */
  function TodoTable(todo: Todos.Todo): string {
    TodosTable([todo])
  }

  /** `events`: the header, a line feed, and the events' rows joined by line feeds. */
  function EventsTable(events: seq<Events.Event>, formatTime: int -> string): string {
    RowText(EventHeaderCols()) + "\n" + Join(EventRows(events, formatTime), "\n")
  }

  /** Every printed line of the todos' rows, todo after todo. */
  function TodoLines(todos: seq<Todos.Todo>): seq<string> {
    if |todos| == 0 then [] else RowLines(MapTodo(todos[0])) + TodoLines(todos[1..])
  }

  /** Every todo row is at least one line tall: its ID cell is never empty. */
  lemma TodoRowHeight(todo: Todos.Todo)
    ensures MaxHeight(MapTodo(todo)) > 0
  {
    var r := MapTodo(todo);
    Columns.HeightOfContent(IdColWidth, " " + todo.id.Display(), Style.Default(), Padding.Left);
    assert r[0].Height() > 0;
  }

  lemma HeaderHeight()
    ensures MaxHeight(TodoHeaderCols()) > 0
  {
    var h := TodoHeaderCols();
    Columns.HeightOfContent(IdColWidth, " ID", HeaderStyler(), Padding.Left);
    assert h[0].Height() > 0;
  }

  lemma HeaderAligned()
    ensures AllAligned(TodoHeaderCols())
  {
  }

  /** One more row in front: its lines go in front of the others' lines. */
  lemma JoinRowsStep(row: string, rows: seq<string>, first: seq<string>, lines: seq<string>)
    requires |first| > 0 && row == Join(first, "\n")
    requires |rows| > 0 && |lines| > 0 && Join(rows, "\n") == Join(lines, "\n")
    ensures Join([row] + rows, "\n") == Join(first + lines, "\n")
  {
    assert ([row] + rows)[1..] == rows;
    JoinAppend(first, lines, "\n");
  }

  /** The todos' rows, joined, are their printed lines joined. */
  lemma {:induction false} TodoRowsJoin(todos: seq<Todos.Todo>)
    requires |todos| > 0
    ensures |TodoLines(todos)| > 0
    ensures Join(TodoRows(todos), "\n") == Join(TodoLines(todos), "\n")
    decreases |todos|
  {
    TodoRowHeight(todos[0]);
    var first := RowLines(MapTodo(todos[0]));
    if |todos| > 1 {
      TodoRowsJoin(todos[1..]);
      JoinRowsStep(RowText(MapTodo(todos[0])), TodoRows(todos[1..]), first, TodoLines(todos[1..]));
    } else {
      assert TodoLines(todos) == first + [];
      assert first + [] == first;
    }
  }

  lemma {:induction false} TodoLinesNoNewline(todos: seq<Todos.Todo>)
    ensures forall k :: 0 <= k < |TodoLines(todos)| ==> '\n' !in TodoLines(todos)[k]
    decreases |todos|
  {
    if |todos| > 0 {
      RowLinesNoNewline(MapTodo(todos[0]));
      TodoLinesNoNewline(todos[1..]);
    }
  }

  /** Lines joined by line feeds, then a line feed and more lines, split back into the
      lines. */
  lemma SplitTable(header: seq<string>, rows: string, body: seq<string>)
    requires |header| > 0 && |body| > 0 && rows == Join(body, "\n")
    requires forall k :: 0 <= k < |header| ==> '\n' !in header[k]
    requires forall k :: 0 <= k < |body| ==> '\n' !in body[k]
    ensures Split(Join(header, "\n") + "\n" + rows, '\n') == header + body
  {
    JoinAppend(header, body, "\n");
    assert forall k :: 0 <= k < |header + body| ==> '\n' !in (header + body)[k] by {
      forall k | 0 <= k < |header + body| ensures '\n' !in (header + body)[k] {
        if k < |header| {
          assert (header + body)[k] == header[k];
        } else {
          assert (header + body)[k] == body[k - |header|];
        }
      }
    }
    SplitJoin(header + body, '\n');
  }

  /** The todo table, read line by line, is the header's lines followed by every todo's
      lines in list order. */
  lemma TodosTableLines(todos: seq<Todos.Todo>)
    requires |todos| > 0
    ensures Split(TodosTable(todos), '\n') == RowLines(TodoHeaderCols()) + TodoLines(todos)
  {
    HeaderHeight();
    HeaderAligned();
    RowLinesNoNewline(TodoHeaderCols());
    TodoRowsJoin(todos);
    TodoLinesNoNewline(todos);
    SplitTable(RowLines(TodoHeaderCols()), Join(TodoRows(todos), "\n"), TodoLines(todos));
  }

  /** A header followed by nothing: its lines, then one empty line. */
  lemma HeaderOnlyLines(h: seq<Columns.Col>)
    requires AllAligned(h) && MaxHeight(h) > 0
    ensures Split(RowText(h) + "\n" + "", '\n') == RowLines(h) + [""]
  {
    RowLinesNoNewline(h);
    assert Join([""], "\n") == "";
    SplitTable(RowLines(h), "", [""]);
  }

  /** With no todo, one empty line follows the header's lines. */
  lemma EmptyTableLines()
    ensures Split(TodosTable([]), '\n') == RowLines(TodoHeaderCols()) + [""]
  {
    var h := TodoHeaderCols();
    HeaderHeight();
    HeaderAligned();
    HeaderOnlyLines(h);
    assert TodoRows([]) == [];
    assert TodosTable([]) == RowText(h) + "\n" + "";
  }

  /** The table of one todo, read line by line, is the header's lines followed by the
      todo's lines. */
  lemma TodoTableLines(todo: Todos.Todo)
    ensures Split(TodoTable(todo), '\n') == RowLines(TodoHeaderCols()) + RowLines(MapTodo(todo))
  {
    TodosTableLines([todo]);
    assert [todo][1..] == [];
    assert TodoLines([todo]) == RowLines(MapTodo(todo)) + [];
    assert RowLines(MapTodo(todo)) + [] == RowLines(MapTodo(todo));
  }

  /** Every printed line of the events' rows, event after event. */
  function EventLines(events: seq<Events.Event>, formatTime: int -> string): seq<string> {
    if |events| == 0 then [] else RowLines(MapEvent(events[0], formatTime)) + EventLines(events[1..], formatTime)
  }

  /** Every event row is at least one line tall: its ID cell is never empty. */
  lemma EventRowHeight(event: Events.Event, formatTime: int -> string)
    ensures MaxHeight(MapEvent(event, formatTime)) > 0
  {
    var r := MapEvent(event, formatTime);
    Columns.HeightOfContent(IdColWidth, " " + event.id.Display(), Style.Default(), Padding.Left);
    assert r[0].Height() > 0;
  }

  lemma EventHeaderHeight()
    ensures MaxHeight(EventHeaderCols()) > 0
  {
    var h := EventHeaderCols();
    Columns.HeightOfContent(IdColWidth, " ID", HeaderStyler(), Padding.Left);
    assert h[0].Height() > 0;
  }

  lemma EventHeaderAligned()
    ensures AllAligned(EventHeaderCols())
  {
  }

  /** The events' rows, joined, are their printed lines joined. */
  lemma {:induction false} EventRowsJoin(events: seq<Events.Event>, formatTime: int -> string)
    requires |events| > 0
    ensures |EventLines(events, formatTime)| > 0
    ensures Join(EventRows(events, formatTime), "\n") == Join(EventLines(events, formatTime), "\n")
    decreases |events|
  {
    EventRowHeight(events[0], formatTime);
    var first := RowLines(MapEvent(events[0], formatTime));
    if |events| > 1 {
      EventRowsJoin(events[1..], formatTime);
      JoinRowsStep(RowText(MapEvent(events[0], formatTime)), EventRows(events[1..], formatTime), first,
        EventLines(events[1..], formatTime));
    } else {
      assert EventLines(events, formatTime) == first + [];
      assert first + [] == first;
    }
  }

  lemma {:induction false} EventLinesNoNewline(events: seq<Events.Event>, formatTime: int -> string)
    ensures forall k :: 0 <= k < |EventLines(events, formatTime)| ==> '\n' !in EventLines(events, formatTime)[k]
    decreases |events|
  {
    if |events| > 0 {
      RowLinesNoNewline(MapEvent(events[0], formatTime));
      EventLinesNoNewline(events[1..], formatTime);
    }
  }

  /** The event table, read line by line, is the header's lines followed by every event's
      lines in log order. */
  lemma EventsTableLines(events: seq<Events.Event>, formatTime: int -> string)
    requires |events| > 0
    ensures Split(EventsTable(events, formatTime), '\n') == RowLines(EventHeaderCols()) + EventLines(events, formatTime)
  {
    EventHeaderHeight();
    EventHeaderAligned();
    RowLinesNoNewline(EventHeaderCols());
    EventRowsJoin(events, formatTime);
    EventLinesNoNewline(events, formatTime);
    SplitTable(RowLines(EventHeaderCols()), Join(EventRows(events, formatTime), "\n"), EventLines(events, formatTime));
  }

  /** With no event, one empty line follows the header's lines. */
  lemma EmptyEventsTableLines(formatTime: int -> string)
    ensures Split(EventsTable([], formatTime), '\n') == RowLines(EventHeaderCols()) + [""]
  {
    var h := EventHeaderCols();
    EventHeaderHeight();
    EventHeaderAligned();
    HeaderOnlyLines(h);
    assert EventRows([], formatTime) == [];
    assert EventsTable([], formatTime) == RowText(h) + "\n" + "";
  }
}
