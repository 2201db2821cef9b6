/**
 * The service layer (src/service/mod.rs): todo and context operations over the store,
 * each logging an event. Each reading of the clock is a parameter: `now` for the event's
 * time stamp, and for `add_todo`, which reads the clock twice, also `created`.
 */
module Services {
  import opened Wrappers
  import opened Text
  import Seqs
  import Csvs
  import Ids
  import Statuses
  import Prios
  import Todos
  import Events
  import Filters
  import Changesets
  import TodoSort
  import Repository

  const MinContextLength: nat := 2
  const MaxContextLength: nat := 10

  /** `validate_context_name`: the trimmed name, which must be 2 to 10 characters long. */
  function ValidateContextName(context: string): (r: Result<string>)
    ensures r.Success? <==> MinContextLength <= |Trim(context)| <= MaxContextLength
    ensures r.Success? ==> r.value == Trim(context)
    ensures |Trim(context)| == 0 ==> r == Failure(General("invalid context name: " + context))
    ensures |Trim(context)| == 1 ==> r == Failure(General("invalid context name: length less than 2"))
    ensures |Trim(context)| > MaxContextLength ==>
              r == Failure(General("invalid context name: length greater than 10"))
  {
    var s := Trim(context);
    if |s| == 0 then Failure(General("invalid context name: " + context))
    else if |s| < MinContextLength then Failure(General("invalid context name: length less than 2"))
    else if |s| > MaxContextLength then Failure(General("invalid context name: length greater than 10"))
    else Success(s)
  }

  /** A validated name is accepted again unchanged. */
  lemma ValidateIdempotent(context: string)
    requires ValidateContextName(context).Success?
    ensures ValidateContextName(ValidateContextName(context).value) == ValidateContextName(context)
  {
    TrimOfTrimmed(Trim(context));
  }

  /** A name of blanks only is rejected; "new" and " test " are accepted as "new", "test". */
  lemma ValidateExamples()
    ensures ValidateContextName("  ").Failure?
    ensures ValidateContextName("new") == Success("new")
    ensures ValidateContextName(" test ") == Success("test")
  {
    BlankTrim("  ");
    PlainTrim("new");
    PaddedTrim(" test ", "test");
  }

  lemma BlankTrim(s: string)
    requires s == "  "
    ensures Trim(s) == ""
  {
    assert TrimStart(s[1..]) == "";
  }

  lemma PlainTrim(s: string)
    requires s == "new"
    ensures Trim(s) == s
  {
    assert TrimStart(s) == s;
    assert TrimEnd(s) == s;
  }

  lemma PaddedTrim(s: string, t: string)
    requires s == " test " && t == "test"
    ensures Trim(s) == t
  {
    PaddedTrimStart(s);
    PaddedTrimEnd(s[1..]);
  }

  lemma PaddedTrimStart(s: string)
    requires s == " test "
    ensures TrimStart(s) == s[1..]
  {
    assert !IsWhitespace(s[1..][0]);
    assert TrimStart(s[1..]) == s[1..];
  }

  lemma PaddedTrimEnd(s: string)
    requires s == "test "
    ensures TrimEnd(s) == "test"
  {
    assert s[..4] == "test";
  }

  /** The store's todos after clearing the context of each selected todo in turn. */
  function ClearAll(m: map<Ids.ID, Todos.Todo>, sel: seq<Todos.Todo>): map<Ids.ID, Todos.Todo>
    decreases |sel|
  {
    if |sel| == 0 then m
    else
      var last := sel[|sel| - 1];
      ClearAll(m, sel[..|sel| - 1])[last.id := last.(context := None)]
  }

  /** Clearing stored todos keeps the ids, and a todo loses its context iff it was selected. */
  lemma {:induction false} ClearAllEffect(m: map<Ids.ID, Todos.Todo>, sel: seq<Todos.Todo>)
    requires forall id :: id in m ==> m[id].id == id
    requires forall i :: 0 <= i < |sel| ==> sel[i].id in m && m[sel[i].id] == sel[i]
    ensures ClearAll(m, sel).Keys == m.Keys
    ensures forall id :: id in m ==>
              ClearAll(m, sel)[id] == if m[id] in sel then m[id].(context := None) else m[id]
    decreases |sel|
  {
    if |sel| > 0 {
      var init := sel[..|sel| - 1];
      var last := sel[|sel| - 1];
      assert forall i :: 0 <= i < |init| ==> init[i] == sel[i];
      ClearAllEffect(m, init);
      assert sel == init + [last];
      forall id | id in m
        ensures ClearAll(m, sel)[id] == if m[id] in sel then m[id].(context := None) else m[id]
      {
        if id != last.id {
          assert m[id] in sel <==> m[id] in init;
        }
      }
    }
  }

  class Service {
    const store: Repository.Store

    ghost predicate Valid()
      reads this, store
    {
      store.Valid()
    }

    /** A service over a store that keeps the repository's invariant keeps it too. */
    constructor (store: Repository.Store)
      requires store.Valid()
      ensures this.store == store && Valid()
    {
      this.store := store;
    }

    /** `get_todo`: the stored todo, or `NotFound` naming the id. */
    method GetTodo(id: Ids.ID) returns (r: Result<Todos.Todo>)
      ensures r.Success? <==> id in store.todos
      ensures r.Success? ==> r.value == store.todos[id]
      ensures r.Failure? ==> r.error == NotFound(Some(id.Display()))
    {
      r := store.GetTodo(id);
    }

    /** `list_events`: the whole event log, oldest first. */
    method ListEvents() returns (r: seq<Events.Event>)
      ensures r == store.events
    {
      r := store.events;
    }

    /** `get_context`: the current context, if any. */
    method GetContext() returns (r: Option<string>)
      ensures r == store.current
    {
      r := store.current;
    }

    /** `list_contexts`: every stored context name, in insertion order. */
    method ListContexts() returns (r: seq<string>)
      ensures r == store.contexts
    {
      r := store.contexts;
    }

    /** The todos `list_todos` starts from: all of them, or those the filter keeps under
        the current context. */
    function Selection(filter: Option<Filters.Filter>): seq<Todos.Todo>
      reads this, store
      requires Valid()
    {
      var all := Repository.Rows(store.todos, store.nextId);
      match filter
      case Some(f) => f.Apply(all, store.current)
      case None => all
    }

    /** `list_todos`: the selection in list order — a permutation of exactly the stored
        todos the filter keeps, ordered as the comparator requires. */
    method ListTodos(filter: Option<Filters.Filter>) returns (r: seq<Todos.Todo>)
      requires Valid()
      ensures r == TodoSort.Sort(Selection(filter))
      ensures forall t :: t in r <==>
                t in store.todos.Values && (filter.Some? ==> filter.value.Keeps(t, store.current))
      ensures multiset(r) == multiset(Selection(filter)) && TodoSort.ListOrdered(r)
    {
      var todos := store.GetTodos();
      var selected := match filter
        case Some(f) => f.Apply(todos, store.current)
        case None => todos;
      r := TodoSort.Sort(selected);
      forall t ensures t in r <==> t in selected {
        assert t in r <==> t in multiset(r);
      }
    }

    /** `add_todo`: the todo, created at `created`, is stored under a fresh id, in the
        current context, and one "add" event stamped `now` is logged. The source reads the
        clock once for each, so the two times need not agree. */
    method AddTodo(status: Statuses.Status, prio: Prios.Prio, subject: string, description: string,
                   tags: Csvs.Csv<string>, created: int, now: int) returns (todo: Todos.Todo)
      requires Valid() && store.HasRoom() && store.CanLog()
      modifies store
      ensures Valid()
      ensures todo == Todos.Todo(Ids.ID(old(store.nextId)), created, status, prio, subject, description,
                                 old(store.current), Csvs.Csv([]), tags)
      ensures todo.id !in old(store.todos) && store.todos == old(store.todos)[todo.id := todo]
      ensures store.events == old(store.events) +
                [Events.Event(old(store.NextEventId()), Events.Add, Events.AddTodo(todo), now)]
      ensures store.contexts == old(store.contexts) && store.current == old(store.current)
    {
      var context := store.current;
      var tmp := Todos.Todo(Ids.ID(0), created, status, prio, subject, description, context, Csvs.Csv([]), tags);
      todo := store.AddTodo(tmp);
      store.AddEvent(Events.Add, Events.AddTodo(todo), now);
    }

    /** `remove_todo`: an unknown id fails with `NotFound` and changes nothing; otherwise the
        todo is deleted and one "remove" event records it. */
    method RemoveTodo(id: Ids.ID, now: int) returns (r: Result<()>)
      requires Valid() && store.CanLog()
      modifies store
      ensures Valid()
      ensures r.Success? <==> id in old(store.todos)
      ensures r.Failure? ==>
                r.error == NotFound(None) &&
                store.todos == old(store.todos) && store.events == old(store.events)
      ensures r.Success? ==>
                store.todos == old(store.todos) - {id} &&
                store.events == old(store.events) +
                  [Events.Event(old(store.NextEventId()), Events.Remove,
                                Events.RemoveTodo(old(store.todos)[id]), now)]
      ensures store.nextId == old(store.nextId)
      ensures store.contexts == old(store.contexts) && store.current == old(store.current)
    {
      var removed := store.RemoveTodo(id);
      if removed.Failure? {
        return Failure(removed.error);
      }
      store.AddEvent(Events.Remove, Events.RemoveTodo(removed.value), now);
      return Success(());
    }

    /** `update_todo`: an unknown id fails with `NotFound` naming it and changes nothing;
        otherwise the given fields are written over the stored todo (exactly what a
        changeset with those fields does), the todo is replaced and an "update" event with
        the old and new todo is logged, even when no field is given. */
    method UpdateTodo(id: Ids.ID, subject: Option<string>, status: Option<Statuses.Status>,
                      prio: Option<Prios.Prio>, description: Option<string>,
                      context: Option<string>, now: int) returns (r: Result<Todos.Todo>)
      requires Valid() && store.CanLog()
      modifies store
      ensures Valid()
      ensures r.Success? <==> id in old(store.todos)
      ensures r.Failure? ==>
                r.error == NotFound(Some(id.Display())) &&
                store.todos == old(store.todos) && store.events == old(store.events)
      ensures r.Success? ==>
                var before := old(store.todos)[id];
                r.value == Changesets.Changeset(status, subject, prio, description, context,
                                                None, None, true).Patched(before) &&
                store.todos == old(store.todos)[id := r.value] &&
                store.events == old(store.events) +
                  [Events.Event(old(store.NextEventId()), Events.Update,
                                Events.UpdateTodo(before, r.value), now)]
      ensures store.nextId == old(store.nextId)
      ensures store.contexts == old(store.contexts) && store.current == old(store.current)
    {
      var found := store.GetTodo(id);
      if found.Failure? {
        return Failure(found.error);
      }
      var before := found.value;
      var after := before;
      if subject.Some? {
        after := after.(subject := subject.value);
      }
      if status.Some? {
        after := after.(status := status.value);
      }
      if prio.Some? {
        after := after.(prio := prio.value);
      }
      if description.Some? {
        after := after.(description := description.value);
      }
      if context.Some? {
        after := after.(context := Some(context.value));
      }
      store.ReplaceTodo(after);
      store.AddEvent(Events.Update, Events.UpdateTodo(before, after), now);
      return Success(after);
    }

    /** `add_context`: an invalid name or one already present is an error that changes
        nothing; otherwise the trimmed name is added and one "add" event logged. */
    method AddContext(context: string, now: int) returns (r: Result<()>)
      requires Valid() && store.CanLog()
      modifies store
      ensures Valid()
      ensures var v := ValidateContextName(context);
              r.Success? <==> v.Success? && v.value !in old(store.contexts)
      ensures ValidateContextName(context).Failure? ==> r == ValidateContextName(context).PropagateFailure()
      ensures ValidateContextName(context).Success? && ValidateContextName(context).value in old(store.contexts) ==>
                r == Failure(General("context name already exists: " + ValidateContextName(context).value))
      ensures r.Failure? ==> store.contexts == old(store.contexts) && store.events == old(store.events)
      ensures r.Success? ==>
                var name := ValidateContextName(context).value;
                store.contexts == old(store.contexts) + [name] &&
                store.events == old(store.events) +
                  [Events.Event(old(store.NextEventId()), Events.Add, Events.AddContext(name), now)]
      ensures store.todos == old(store.todos) && store.nextId == old(store.nextId)
      ensures store.current == old(store.current)
    {
      var name :- ValidateContextName(context);
      if name in store.contexts {
        return Failure(General("context name already exists: " + name));
      }
      store.AddContext(name);
      store.AddEvent(Events.Add, Events.AddContext(name), now);
      return Success(());
    }

    /** `set_context`: the name must be valid and known. Setting the context that is
        already current changes nothing and logs nothing; otherwise the context becomes
        current and an "update" event records the change, from "" when none was set. */
    method SetContext(context: string, now: int) returns (r: Result<()>)
      requires Valid() && store.CanLog()
      modifies store
      ensures Valid()
      ensures var v := ValidateContextName(context);
              r.Success? <==> v.Success? && v.value in old(store.contexts)
      ensures ValidateContextName(context).Failure? ==> r == ValidateContextName(context).PropagateFailure()
      ensures ValidateContextName(context).Success? && ValidateContextName(context).value !in old(store.contexts) ==>
                r == Failure(General("context name not found: " + ValidateContextName(context).value))
      ensures r.Failure? ==> store.current == old(store.current) && store.events == old(store.events)
      ensures r.Success? ==>
                var name := ValidateContextName(context).value;
                store.current == Some(name) &&
                store.events == old(store.events) +
                  (if old(store.current) == Some(name) then []
                   else [Events.Event(old(store.NextEventId()), Events.Update,
                                      Events.SetContext(old(store.current).GetOr(""), name), now)])
      ensures store.todos == old(store.todos) && store.nextId == old(store.nextId)
      ensures store.contexts == old(store.contexts)
    {
      var name :- ValidateContextName(context);
      if name !in store.contexts {
        return Failure(General("context name not found: " + name));
      }
      var current := store.current.GetOr("");
      if current == name {
        return Success(());
      }
      store.SetCurrent(Some(name));
      store.AddEvent(Events.Update, Events.SetContext(current, name), now);
      return Success(());
    }

    /** `unset_context`: no context is current; nothing is logged. */
    method UnsetContext()
      requires Valid()
      modifies store
      ensures Valid()
      ensures store.current == None
      ensures store.todos == old(store.todos) && store.nextId == old(store.nextId)
      ensures store.contexts == old(store.contexts) && store.events == old(store.events)
    {
      store.SetCurrent(None);
    }

    /** The loop of `remove_context` without cascade: each listed todo is written back
        without its context. */
    method ClearContexts(todos: seq<Todos.Todo>)
      requires Valid()
      requires forall i :: 0 <= i < |todos| ==> todos[i].id in store.todos && store.todos[todos[i].id] == todos[i]
      modifies store
      ensures Valid()
      ensures store.todos == ClearAll(old(store.todos), todos)
      ensures store.nextId == old(store.nextId) && store.contexts == old(store.contexts)
      ensures store.events == old(store.events) && store.current == old(store.current)
    {
      ghost var m := store.todos;
      var i := 0;
      while i < |todos|
        invariant 0 <= i <= |todos|
        invariant store.Valid()
        invariant store.todos == ClearAll(m, todos[..i])
        invariant store.nextId == old(store.nextId) && store.contexts == old(store.contexts)
        invariant store.events == old(store.events) && store.current == old(store.current)
      {
        assert todos[..i + 1][..i] == todos[..i];
        ClearAllEffect(m, todos[..i]);
        store.ReplaceTodo(todos[i].(context := None));
        i := i + 1;
      }
      assert todos[..|todos|] == todos;
    }

    /** The todos `remove_context` goes through: the default listing, each stored under
        its own id, and a stored todo listed exactly when the default filter keeps it. */
    method DefaultListing() returns (todos: seq<Todos.Todo>)
      requires Valid()
      ensures todos == TodoSort.Sort(Selection(Some(Filters.Default())))
      ensures forall i :: 0 <= i < |todos| ==> todos[i].id in store.todos && store.todos[todos[i].id] == todos[i]
      ensures forall id :: id in store.todos ==>
                (store.todos[id] in todos <==> Filters.Default().Keeps(store.todos[id], store.current))
    {
      todos := ListTodos(Some(Filters.Default()));
      SelectedAreStored(store.todos, todos);
      ListedIffKept(store.todos, todos, store.current);
    }

    /** What `remove_context` does to the listed todos, those the default filter keeps
        under `current`: with cascade they stay and are reported; without it each is
        written back without its context and none is reported. */
    method DetachTodos(todos: seq<Todos.Todo>, cascade: bool, ghost current: Option<string>)
      returns (removed: seq<Todos.Todo>)
      requires Valid()
      requires forall i :: 0 <= i < |todos| ==> todos[i].id in store.todos && store.todos[todos[i].id] == todos[i]
      requires forall id :: id in store.todos ==>
                 (store.todos[id] in todos <==> Filters.Default().Keeps(store.todos[id], current))
      modifies store
      ensures Valid()
      ensures removed == if cascade then todos else []
      ensures store.todos.Keys == old(store.todos).Keys
      ensures cascade ==> store.todos == old(store.todos)
      ensures !cascade ==> ListedDetached(old(store.todos), store.todos, current)
      ensures store.nextId == old(store.nextId) && store.contexts == old(store.contexts)
      ensures store.events == old(store.events) && store.current == old(store.current)
    {
      if cascade {
        removed := todos;
      } else {
        ghost var m := store.todos;
        ClearContexts(todos);
        ClearAllEffect(m, todos);
        removed := [];
      }
    }

    /** `remove_context`, as written: the todos it acts on are those of the default listing
        (not done, in the *current* context, or all not done when none is current), not the
        todos of the removed context. The current context is unset if it is the removed
        one. Without cascade those todos lose their context; with cascade nothing is
        deleted and they are only recorded in the event. Then every entry of the name is
        removed and one "remove" event logged. */
    method RemoveContext(context: string, cascade: bool, now: int)
      requires Valid() && store.CanLog()
      modifies store
      ensures Valid()
      ensures store.current == if old(store.current) == Some(context) then None else old(store.current)
      ensures store.todos.Keys == old(store.todos).Keys
      ensures cascade ==> store.todos == old(store.todos)
      ensures !cascade ==> ListedDetached(old(store.todos), store.todos, old(store.current))
      ensures store.contexts == Seqs.Filter((c: string) => c != context, old(store.contexts))
      ensures store.events == old(store.events) +
                [Events.Event(old(store.NextEventId()), Events.Remove,
                  Events.RemoveContext(context, if cascade then old(TodoSort.Sort(Selection(Some(Filters.Default())))) else []),
                  now)]
      ensures store.nextId == old(store.nextId)
    {
      var current := store.current;
      ghost var listing := TodoSort.Sort(Selection(Some(Filters.Default())));
      var todos := DefaultListing();
      assert todos == listing;
      if current == Some(context) {
        UnsetContext();
      }
      var removed := DetachTodos(todos, cascade, current);
      store.RemoveContext(context);
      assert removed == if cascade then listing else [];
      assert store.NextEventId() == old(store.NextEventId());
      store.AddEvent(Events.Remove, Events.RemoveContext(context, removed), now);
    }
  }

  /** `after` is `before` with every todo the default filter keeps under `current` written
      back without its context, and every other todo as it was. */
  ghost predicate ListedDetached(before: map<Ids.ID, Todos.Todo>, after: map<Ids.ID, Todos.Todo>,
                                 current: Option<string>)
  {
    forall id :: id in before ==>
      id in after &&
      after[id] == if Filters.Default().Keeps(before[id], current) then before[id].(context := None) else before[id]
  }

  /** A stored todo is listed exactly when the filter keeps it. */
  lemma ListedIffKept(m: map<Ids.ID, Todos.Todo>, todos: seq<Todos.Todo>, current: Option<string>)
    requires forall t :: t in todos <==> t in m.Values && Filters.Default().Keeps(t, current)
    ensures forall id :: id in m ==> (m[id] in todos <==> Filters.Default().Keeps(m[id], current))
  {
    forall id | id in m ensures m[id] in todos <==> Filters.Default().Keeps(m[id], current) {
      assert m[id] in m.Values;
    }
  }

  lemma SelectedAreStored(m: map<Ids.ID, Todos.Todo>, todos: seq<Todos.Todo>)
    requires forall id :: id in m ==> m[id].id == id
    requires forall t :: t in todos ==> t in m.Values
    ensures forall i :: 0 <= i < |todos| ==> todos[i].id in m && m[todos[i].id] == todos[i]
  {
    forall i | 0 <= i < |todos| ensures todos[i].id in m && m[todos[i].id] == todos[i] {
      assert todos[i] in todos;
      var id :| id in m && m[id] == todos[i];
    }
  }
}
