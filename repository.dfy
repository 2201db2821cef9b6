/**
 * An in-memory store standing in for the SQLite repository (src/repository/mod.rs): the
 * todos table keyed by id, the id counter, the context names, the current context and the
 * event log. Rows are listed in ascending id order, as SQLite returns rows by rowid.
 */
module Repository {
  import opened Wrappers
  import Seqs
  import Ids
  import Todos
  import Events

  /** The stored todos with an id below `n`, in ascending id order. */
  function Rows(todos: map<Ids.ID, Todos.Todo>, n: nat): (r: seq<Todos.Todo>)
    requires n <= Ids.U16Limit
    ensures |r| <= n
  {
    if n == 0 then []
    else Rows(todos, n - 1) + (if Ids.ID(n - 1) in todos then [todos[Ids.ID(n - 1)]] else [])
  }

  /** A todo is listed iff it is stored under an id below `n`. */
  lemma {:induction false} RowsMembership(todos: map<Ids.ID, Todos.Todo>, n: nat, t: Todos.Todo)
    requires n <= Ids.U16Limit
    ensures t in Rows(todos, n) <==> exists k: Ids.u16 :: k < n && Ids.ID(k) in todos && todos[Ids.ID(k)] == t
  {
    if n > 0 {
      RowsMembership(todos, n - 1, t);
      var k: Ids.u16 := n - 1;
      if Ids.ID(k) in todos && todos[Ids.ID(k)] == t {
        assert t in Rows(todos, n);
      }
    }
  }

  /** A todo stored under its own id is listed in ascending id order, each at most once. */
  lemma {:induction false} RowsAscending(todos: map<Ids.ID, Todos.Todo>, n: nat)
    requires n <= Ids.U16Limit
    requires forall id :: id in todos ==> todos[id].id == id
    ensures forall i :: 0 <= i < |Rows(todos, n)| ==> Rows(todos, n)[i].id.value < n
    ensures forall i, j :: 0 <= i < j < |Rows(todos, n)| ==>
              Rows(todos, n)[i].id.value < Rows(todos, n)[j].id.value
  {
    if n > 0 {
      RowsAscending(todos, n - 1);
    }
  }

  class Store {
    var todos: map<Ids.ID, Todos.Todo>
    var nextId: nat
    var contexts: seq<string>
    var current: Option<string>
    var events: seq<Events.Event>

    /** Every todo is stored under its own id, and every id is below the counter. */
    ghost predicate Valid()
      reads this
    {
      1 <= nextId <= Ids.U16Limit &&
      (forall id :: id in todos ==> todos[id].id == id && id.value < nextId)
    }

    /** A fresh id is still available. */
    predicate HasRoom()
      reads this
    {
      nextId < Ids.U16Limit
    }

    /** The next event can be given an id. */
    predicate CanLog()
      reads this
    {
      |events| + 1 < Ids.U16Limit
    }

    /** The id the next logged event receives. */
    function NextEventId(): Ids.ID
      reads this
      requires CanLog()
    {
      Ids.ID(|events| + 1)
    }

    /** An empty database: no todos, no contexts, no current context, no events. */
    constructor ()
      ensures Valid()
      ensures todos == map[] && nextId == 1 && contexts == [] && current == None && events == []
    {
      todos := map[];
      nextId := 1;
      contexts := [];
      current := None;
      events := [];
    }

    /** `get_todo`: the stored todo, or `NotFound` naming the id. */
    method GetTodo(id: Ids.ID) returns (r: Result<Todos.Todo>)
      ensures r.Success? <==> id in todos
      ensures r.Success? ==> r.value == todos[id]
      ensures r.Failure? ==> r.error == NotFound(Some(id.Display()))
    {
      if id in todos {
        return Success(todos[id]);
      }
      return Failure(NotFound(Some(id.Display())));
    }

    /** `get_todos`: every stored todo, in ascending id order. */
    method GetTodos() returns (r: seq<Todos.Todo>)
      requires Valid()
      ensures r == Rows(todos, nextId)
      ensures forall t :: t in r <==> t in todos.Values
    {
      r := [];
      var i := 0;
      while i < nextId
        invariant 0 <= i <= nextId
        invariant r == Rows(todos, i)
      {
        var k: Ids.u16 := i;
        if Ids.ID(k) in todos {
          r := r + [todos[Ids.ID(k)]];
        }
        i := i + 1;
      }
      forall t ensures t in r <==> t in todos.Values {
        RowsMembership(todos, nextId, t);
        if t in todos.Values {
          var id :| id in todos && todos[id] == t;
          assert id.value < nextId && Ids.ID(id.value) == id;
        }
      }
    }

    /** `add_todo`: the todo is stored under the next id, which is returned with it. */
    method AddTodo(t: Todos.Todo) returns (stored: Todos.Todo)
      requires Valid() && HasRoom()
      modifies this
      ensures Valid()
      ensures stored == t.(id := Ids.ID(old(nextId)))
      ensures stored.id !in old(todos)
      ensures todos == old(todos)[stored.id := stored] && nextId == old(nextId) + 1
      ensures contexts == old(contexts) && current == old(current) && events == old(events)
    {
      stored := t.(id := Ids.ID(nextId));
      todos := todos[stored.id := stored];
      nextId := nextId + 1;
    }

    /** `replace_todo`: the row with the todo's id is overwritten. */
    method ReplaceTodo(t: Todos.Todo)
      requires Valid() && t.id in todos
      modifies this
      ensures Valid()
      ensures todos == old(todos)[t.id := t] && nextId == old(nextId)
      ensures contexts == old(contexts) && current == old(current) && events == old(events)
    {
      todos := todos[t.id := t];
    }

    /** `remove_todo`: the row is deleted and returned; with no such row the query returns
        nothing, which surfaces as `NotFound` without an id and changes nothing. */
    method RemoveTodo(id: Ids.ID) returns (r: Result<Todos.Todo>)
      requires Valid()
      modifies this
      ensures Valid()
      ensures r.Success? <==> id in old(todos)
      ensures r.Success? ==> r.value == old(todos)[id] && todos == old(todos) - {id}
      ensures r.Failure? ==> r.error == NotFound(None) && todos == old(todos)
      ensures nextId == old(nextId)
      ensures contexts == old(contexts) && current == old(current) && events == old(events)
    {
      if id !in todos {
        return Failure(NotFound(None));
      }
      r := Success(todos[id]);
      todos := todos - {id};
    }

    /** `add_event`: the event is appended under the next event id. */
    method AddEvent(action: Events.Action, kind: Events.Kind, timestamp: int)
      requires CanLog()
      modifies this
      ensures events == old(events) + [Events.Event(old(NextEventId()), action, kind, timestamp)]
      ensures todos == old(todos) && nextId == old(nextId)
      ensures contexts == old(contexts) && current == old(current)
    {
      events := events + [Events.Event(NextEventId(), action, kind, timestamp)];
    }

    /** `add_context`: the name is appended to the context names. */
    method AddContext(name: string)
      modifies this
      ensures contexts == old(contexts) + [name]
      ensures todos == old(todos) && nextId == old(nextId)
      ensures current == old(current) && events == old(events)
    {
      contexts := contexts + [name];
    }

    /** `set_context` and `unset_context`: the current context. */
    method SetCurrent(value: Option<string>)
      modifies this
      ensures current == value
      ensures todos == old(todos) && nextId == old(nextId)
      ensures contexts == old(contexts) && events == old(events)
    {
      current := value;
    }

    /** `remove_context`: every entry with the name is deleted. */
    method RemoveContext(name: string)
      modifies this
      ensures contexts == Seqs.Filter((c: string) => c != name, old(contexts))
      ensures todos == old(todos) && nextId == old(nextId)
      ensures current == old(current) && events == old(events)
    {
      contexts := Seqs.Filter((c: string) => c != name, contexts);
    }
  }
}
