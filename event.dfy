/**
 * The event log's vocabulary (src/model/event.rs): actions, the kinds of event with
 * their type names and descriptions, and the event record.
 */
module Events {
  import opened Wrappers
  import opened Text
  import Ids
  import Todos
  import Style

  datatype Action = Add | Update | Remove {

    /** `Display`. */
    function Display(): (s: string)
      ensures |s| > 0
    {
      match this
      case Add => "add"
      case Update => "update"
      case Remove => "remove"
    }

    /** `StyleDisplay::styler`: add green, update cyan, remove red. */
    function Styler(): (st: Style.Styler)
      ensures !st.bold && !st.underline && st.fg.Some?
      ensures st.fg.value == match this
                             case Add => Style.Green
                             case Update => Style.Cyan
                             case Remove => Style.Red
    {
      var styler := Style.Default();
      match this
      case Add => styler.Fg(Style.Green)
      case Update => styler.Fg(Style.Cyan)
      case Remove => styler.Fg(Style.Red)
    }
  }

  /** `TryFrom<String>`: exactly one of the three display texts; otherwise
      "invalid action: <input>". */
  function ParseAction(value: string): (r: Result<Action>)
    ensures forall a: Action :: r == Success(a) <==> value == a.Display()
    ensures r.Failure? ==> r.error == General("invalid action: " + value)
  {
    match value
    case "add" => Success(Add)
    case "update" => Success(Update)
    case "remove" => Success(Remove)
    case _ => Failure(General("invalid action: " + value))
  }

  /** Parsing is the inverse of display. */
  lemma ParseActionDisplay(a: Action)
    ensures ParseAction(a.Display()) == Success(a)
  {
  }

  datatype Kind =
    | AddTodo(todo: Todos.Todo)
    | UpdateTodo(before: Todos.Todo, after: Todos.Todo)
    | RemoveTodo(todo: Todos.Todo)
    | AddContext(name: string)
    | RemoveContext(name: string, todos: seq<Todos.Todo>)
    | SetContext(from: string, to: string)
  {
    /** `type_str`: the fixed snake-case name of the variant. */
    function TypeStr(): (name: string)
      ensures |name| > 0 && name[0] != '_' && name[|name| - 1] != '_'
      ensures forall i :: 0 <= i < |name| ==> ('a' <= name[i] <= 'z') || name[i] == '_'
    {
      match this
      case AddTodo(_) => "add_todo"
      case UpdateTodo(_, _) => "update_todo"
      case RemoveTodo(_) => "remove_todo"
      case AddContext(_) => "add_context"
      case RemoveContext(_, _) => "remove_context"
      case SetContext(_, _) => "set_context"
    }

    /** `Display`: a sentence that opens with what happened. */
    function Display(): (s: string)
      ensures (AddTodo? || AddContext?) ==> |s| > 6 && s[..6] == "Added "
      ensures (RemoveTodo? || RemoveContext?) ==> |s| > 8 && s[..8] == "Removed "
      ensures UpdateTodo? ==> |s| > 14 && s[..14] == "Updated todo: "
    {
      match this
      case AddTodo(t) => "Added todo with ID " + t.id.Display()
      case UpdateTodo(b, a) =>
        var changes := Changes(b, a);
        if changes == [] then "Updated todo: no changes" else "Updated todo: " + Join(changes, ", ")
      case RemoveTodo(t) => "Removed todo with ID " + t.id.Display()
      case AddContext(n) => "Added new context with name '" + n + "'"
      case RemoveContext(n, ts) =>
        "Removed context with name '" + n + "' and " + NatToString(|ts|) + " associated todos"
      case SetContext(b, a) =>
        if b == "" then "Context set to '" + a + "'"
        else if a == "" then "Unset context from '" + b + "'"
        else "Changed context from '" + b + "' to '" + a + "'"
    }
  }

  predicate SameVariant(a: Kind, b: Kind) {
    (a.AddTodo? && b.AddTodo?) || (a.UpdateTodo? && b.UpdateTodo?) ||
    (a.RemoveTodo? && b.RemoveTodo?) || (a.AddContext? && b.AddContext?) ||
    (a.RemoveContext? && b.RemoveContext?) || (a.SetContext? && b.SetContext?)
  }

  /** Each variant has its own type name: two kinds share a name iff they are the same
      variant. */
  lemma TypeStrNamesVariant(a: Kind, b: Kind)
    ensures a.TypeStr() == b.TypeStr() <==> SameVariant(a, b)
    ensures a.AddTodo? ==> a.TypeStr() == "add_todo"
    ensures a.SetContext? ==> a.TypeStr() == "set_context"
  {
  }

  function Quoted(s: string): string {
    "'" + s + "'"
  }

  function Arrow(field: string, before: string, after: string): string {
    field + ": " + Quoted(before) + " -> " + Quoted(after)
  }

  /** How a change of context is reported: both set, only the old one, only the new one. */
  function ContextChange(before: Option<string>, after: Option<string>): (r: seq<string>)
    requires before != after
    ensures |r| == 1
    ensures before.Some? && after.Some? ==> r == ["context: " + Quoted(before.value) + " -> " + Quoted(after.value)]
    ensures before.Some? && after.None? ==> r == ["context: removed from " + Quoted(before.value)]
    ensures before.None? ==> r == ["context: set to " + Quoted(after.value)]
  {
    if before.Some? && after.Some? then ["context: " + Quoted(before.value) + " -> " + Quoted(after.value)]
    else if before.Some? then ["context: removed from " + Quoted(before.value)]
    else ["context: set to " + Quoted(after.value)]
  }

  function StatusChange(b: Todos.Todo, a: Todos.Todo): seq<string> {
    if b.status != a.status then [Arrow("status", b.status.Display(), a.status.Display())] else []
  }

  function PrioChange(b: Todos.Todo, a: Todos.Todo): seq<string> {
    if b.prio != a.prio then [Arrow("prio", b.prio.Display(), a.prio.Display())] else []
  }

  function SubjectChange(b: Todos.Todo, a: Todos.Todo): seq<string> {
    if b.subject != a.subject then [Arrow("subject", b.subject, a.subject)] else []
  }

  function DescriptionChange(b: Todos.Todo, a: Todos.Todo): seq<string> {
    if b.description != a.description then ["description: <...>"] else []
  }

  function ContextChanges(b: Todos.Todo, a: Todos.Todo): seq<string> {
    if b.context != a.context then ContextChange(b.context, a.context) else []
  }

  /** The changes an update reports, in the order status, prio, subject, description,
      context: one entry for each of those fields that differs. */
  function Changes(b: Todos.Todo, a: Todos.Todo): seq<string> {
    StatusChange(b, a) + PrioChange(b, a) + SubjectChange(b, a) + DescriptionChange(b, a)
    + ContextChanges(b, a)
  }

  /** The `changes` vector of the update description, pushed field by field. */
  method CollectChanges(b: Todos.Todo, a: Todos.Todo) returns (changes: seq<string>)
    ensures changes == Changes(b, a)
  {
    changes := [];
    if b.status != a.status {
      changes := changes + [Arrow("status", b.status.Display(), a.status.Display())];
    }
    assert changes == StatusChange(b, a);
    if b.prio != a.prio {
      changes := changes + [Arrow("prio", b.prio.Display(), a.prio.Display())];
    }
    assert changes == StatusChange(b, a) + PrioChange(b, a);
    if b.subject != a.subject {
      changes := changes + [Arrow("subject", b.subject, a.subject)];
    }
    assert changes == StatusChange(b, a) + PrioChange(b, a) + SubjectChange(b, a);
    if b.description != a.description {
      changes := changes + ["description: <...>"];
    }
    assert changes == StatusChange(b, a) + PrioChange(b, a) + SubjectChange(b, a) + DescriptionChange(b, a);
    ghost var before := changes;
    if b.context != a.context {
      if b.context.Some? && a.context.Some? {
        changes := changes + ["context: " + Quoted(b.context.value) + " -> " + Quoted(a.context.value)];
      } else if b.context.Some? {
        changes := changes + ["context: removed from " + Quoted(b.context.value)];
      } else if a.context.Some? {
        changes := changes + ["context: set to " + Quoted(a.context.value)];
      }
    }
    assert changes == before + ContextChanges(b, a);
  }

  predicate ReportedFieldsEqual(b: Todos.Todo, a: Todos.Todo) {
    b.status == a.status && b.prio == a.prio && b.subject == a.subject &&
    b.description == a.description && b.context == a.context
  }

  /** One entry per reported field that differs. */
  lemma ChangesCount(b: Todos.Todo, a: Todos.Todo)
    ensures |Changes(b, a)| ==
              (if b.status != a.status then 1 else 0) + (if b.prio != a.prio then 1 else 0) +
              (if b.subject != a.subject then 1 else 0) + (if b.description != a.description then 1 else 0) +
              (if b.context != a.context then 1 else 0)
    ensures Changes(b, a) == [] <==> ReportedFieldsEqual(b, a)
  {
    if b.context != a.context {
      assert |ContextChange(b.context, a.context)| == 1;
    }
  }

  /** An update reports "no changes" exactly when status, prio, subject, description and
      context are all unchanged (links, tags and the rest are never reported). */
  lemma NoChangesIff(b: Todos.Todo, a: Todos.Todo)
    ensures UpdateTodo(b, a).Display() == "Updated todo: no changes" <==> ReportedFieldsEqual(b, a)
  {
    ChangesCount(b, a);
    if !ReportedFieldsEqual(b, a) {
      ChangesHaveColon(b, a);
      ListedChangesDiffer(Changes(b, a));
    }
  }

  predicate AllNameAField(entries: seq<string>) {
    forall k :: 0 <= k < |entries| ==> ':' in entries[k]
  }

  /** A non-empty list of entries that each name a field never reads "no changes". */
  lemma ListedChangesDiffer(changes: seq<string>)
    requires |changes| > 0 && AllNameAField(changes)
    ensures "Updated todo: " + Join(changes, ", ") != "Updated todo: no changes"
  {
    JoinHasColon(changes);
    var text := "Updated todo: " + Join(changes, ", ");
    assert text[14..] == Join(changes, ", ");
    assert "Updated todo: no changes"[14..] == "no changes";
    assert ':' !in "no changes";
  }

  /** Joining entries that each hold a ':' gives a text holding a ':'. */
  lemma JoinHasColon(changes: seq<string>)
    requires |changes| > 0 && AllNameAField(changes)
    ensures ':' in Join(changes, ", ")
  {
    var c := changes[0];
    if |changes| > 1 {
      assert Join(changes, ", ") == c + (", " + Join(changes[1..], ", "));
    }
    var i :| 0 <= i < |c| && c[i] == ':';
    assert Join(changes, ", ")[i] == ':';
  }

  lemma ArrowHasColon(field: string, before: string, after: string)
    ensures ':' in Arrow(field, before, after)
  {
    assert Arrow(field, before, after)[|field|] == ':';
  }

  lemma PrefixHasColon(prefix: string, rest: string)
    requires ':' in prefix
    ensures ':' in prefix + rest
  {
    var i :| 0 <= i < |prefix| && prefix[i] == ':';
    assert (prefix + rest)[i] == ':';
  }

  lemma ConcatNameAField(xs: seq<string>, ys: seq<string>)
    requires AllNameAField(xs) && AllNameAField(ys)
    ensures AllNameAField(xs + ys)
  {
    forall k | 0 <= k < |xs + ys| ensures ':' in (xs + ys)[k] {
      if k >= |xs| {
        assert (xs + ys)[k] == ys[k - |xs|];
      }
    }
  }

  lemma ContextChangeNamesField(b: Todos.Todo, a: Todos.Todo)
    ensures AllNameAField(ContextChanges(b, a))
  {
    if b.context != a.context {
      assert "context: "[7] == ':';
      assert "context: removed from "[7] == ':';
      assert "context: set to "[7] == ':';
      if b.context.Some? && a.context.Some? {
        var rest := Quoted(b.context.value) + " -> " + Quoted(a.context.value);
        PrefixHasColon("context: ", rest);
        assert "context: " + Quoted(b.context.value) + " -> " + Quoted(a.context.value) == "context: " + rest;
      } else if b.context.Some? {
        PrefixHasColon("context: removed from ", Quoted(b.context.value));
      } else {
        PrefixHasColon("context: set to ", Quoted(a.context.value));
      }
    }
  }

  lemma FieldChangesNameAField(b: Todos.Todo, a: Todos.Todo)
    ensures AllNameAField(StatusChange(b, a)) && AllNameAField(PrioChange(b, a))
    ensures AllNameAField(SubjectChange(b, a)) && AllNameAField(DescriptionChange(b, a))
  {
    if b.status != a.status {
      ArrowHasColon("status", b.status.Display(), a.status.Display());
      OneNamesField(Arrow("status", b.status.Display(), a.status.Display()));
    }
    if b.prio != a.prio {
      ArrowHasColon("prio", b.prio.Display(), a.prio.Display());
      OneNamesField(Arrow("prio", b.prio.Display(), a.prio.Display()));
    }
    if b.subject != a.subject {
      ArrowHasColon("subject", b.subject, a.subject);
      OneNamesField(Arrow("subject", b.subject, a.subject));
    }
    assert "description: <...>"[11] == ':';
    OneNamesField("description: <...>");
  }

  lemma OneNamesField(entry: string)
    requires ':' in entry
    ensures AllNameAField([entry])
  {
  }

  /** Every change entry names its field, so it holds a ':'. */
  lemma ChangesHaveColon(b: Todos.Todo, a: Todos.Todo)
    ensures AllNameAField(Changes(b, a))
  {
    FieldChangesNameAField(b, a);
    ContextChangeNamesField(b, a);
    var s1 := StatusChange(b, a);
    var s2 := PrioChange(b, a);
    var s3 := SubjectChange(b, a);
    var s4 := DescriptionChange(b, a);
    ConcatNameAField(s1, s2);
    ConcatNameAField(s1 + s2, s3);
    ConcatNameAField(s1 + s2 + s3, s4);
    ConcatNameAField(s1 + s2 + s3 + s4, ContextChanges(b, a));
  }

  /** The descriptions of adding and removing name what they are about: the todo's id
      can be read back from the text, and so can the number of todos a removed context
      took with it. */
  lemma KindDisplayTexts(k: Kind)
    ensures k.AddTodo? ==> var p := "Added todo with ID "; var s := k.Display();
              |s| > |p| && s[..|p|] == p && Ids.Parse(s[|p|..]) == Success(k.todo.id)
    ensures k.RemoveTodo? ==> var p := "Removed todo with ID "; var s := k.Display();
              |s| > |p| && s[..|p|] == p && Ids.Parse(s[|p|..]) == Success(k.todo.id)
    ensures k.AddContext? ==> k.Display() == "Added new context with name " + Quoted(k.name)
    ensures k.RemoveContext? ==> var d := NatToString(|k.todos|);
              k.Display() == "Removed context with name " + Quoted(k.name) + " and " + d + " associated todos" &&
              AllDigits(d) && DigitsValue(d) == |k.todos|
  {
    match k
    case AddTodo(t) =>
      IdAfterPrefix("Added todo with ID ", t.id, k.Display());
    case RemoveTodo(t) =>
      IdAfterPrefix("Removed todo with ID ", t.id, k.Display());
    case AddContext(n) =>
      assert "Added new context with name '" + n + "'" == "Added new context with name " + Quoted(n);
    case RemoveContext(n, ts) =>
      NatToStringValue(|ts|);
      var d := NatToString(|ts|);
      assert "Removed context with name '" + n + "' and " + d + " associated todos" ==
             "Removed context with name " + Quoted(n) + " and " + d + " associated todos";
    case _ =>
  }

  lemma IdAfterPrefix(p: string, id: Ids.ID, s: string)
    requires s == p + id.Display()
    ensures |s| > |p| && s[..|p|] == p && Ids.Parse(s[|p|..]) == Success(id)
  {
    Ids.ParseDisplay(id);
    assert s[|p|..] == id.Display();
  }

  /** How switching contexts is reported: set from none, unset to none, or changed. */
  lemma SetContextPhrases(b: string, a: string)
    ensures b == "" ==> SetContext(b, a).Display() == "Context set to '" + a + "'"
    ensures b != "" && a == "" ==> SetContext(b, a).Display() == "Unset context from '" + b + "'"
    ensures b != "" && a != "" ==>
              SetContext(b, a).Display() == "Changed context from '" + b + "' to '" + a + "'"
  {
  }

  /** An entry of the event log. */
  datatype Event = Event(id: Ids.ID, action: Action, kind: Kind, timestamp: int) {

    /** `Display`: "<id> -- <kind description>". */
    function Display(): (s: string)
      ensures |s| == |id.Display()| + 4 + |kind.Display()|
      ensures s[..|id.Display()|] == id.Display()
      ensures s[|id.Display()|..|id.Display()| + 4] == " -- "
      ensures s[|id.Display()| + 4..] == kind.Display()
    {
      id.Display() + " -- " + kind.Display()
    }
  }
}
