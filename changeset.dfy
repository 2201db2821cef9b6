/**
 * A sparse update of a todo (src/service/changeset.rs): each field is either absent or the
 * new value, and a flag records whether any `with_*` builder was called.
 */
module Changesets {
  import opened Wrappers
  import Csvs
  import Statuses
  import Prios
  import Links
  import Todos

  datatype Changeset = Changeset(
    status: Option<Statuses.Status>,
    subject: Option<string>,
    prio: Option<Prios.Prio>,
    description: Option<string>,
    context: Option<string>,
    links: Option<Csvs.Csv<Links.Link>>,
    tags: Option<Csvs.Csv<string>>,
    updated: bool)
  {
    /** `is_empty`: no builder has been called. */
    predicate IsEmpty() {
      !updated
    }

    /** No field carries a new value. */
    predicate NoFields() {
      status.None? && subject.None? && prio.None? && description.None? &&
      context.None? && links.None? && tags.None?
    }

    function WithSubject(s: string): (r: Changeset)
      ensures !r.IsEmpty() && r.subject == Some(s)
      ensures r.(subject := subject, updated := updated) == this
    {
      this.(updated := true, subject := Some(s))
    }

    function WithStatus(s: Statuses.Status): (r: Changeset)
      ensures !r.IsEmpty() && r.status == Some(s)
      ensures r.(status := status, updated := updated) == this
    {
      this.(updated := true, status := Some(s))
    }

    function WithPrio(p: Prios.Prio): (r: Changeset)
      ensures !r.IsEmpty() && r.prio == Some(p)
      ensures r.(prio := prio, updated := updated) == this
    {
      this.(updated := true, prio := Some(p))
    }

    function WithDescription(d: string): (r: Changeset)
      ensures !r.IsEmpty() && r.description == Some(d)
      ensures r.(description := description, updated := updated) == this
    {
      this.(updated := true, description := Some(d))
    }

    function WithContext(cx: string): (r: Changeset)
      ensures !r.IsEmpty() && r.context == Some(cx)
      ensures r.(context := context, updated := updated) == this
    {
      this.(updated := true, context := Some(cx))
    }

    function WithTags(ts: Csvs.Csv<string>): (r: Changeset)
      ensures !r.IsEmpty() && r.tags == Some(ts)
      ensures r.(tags := tags, updated := updated) == this
    {
      this.(updated := true, tags := Some(ts))
    }

    function WithLinks(ls: Csvs.Csv<Links.Link>): (r: Changeset)
      ensures !r.IsEmpty() && r.links == Some(ls)
      ensures r.(links := links, updated := updated) == this
    {
      this.(updated := true, links := Some(ls))
    }

    /** The todo after the update: every present field overwrites the todo's, every absent
        one leaves it; a present context becomes the todo's context, and id and creation
        time never change. */
    function Patched(todo: Todos.Todo): (t: Todos.Todo)
      ensures t.id == todo.id && t.created == todo.created
      ensures t.subject == subject.GetOr(todo.subject)
      ensures t.status == status.GetOr(todo.status)
      ensures t.prio == prio.GetOr(todo.prio)
      ensures t.description == description.GetOr(todo.description)
      ensures t.context == (if context.Some? then context else todo.context)
      ensures t.tags == tags.GetOr(todo.tags)
      ensures t.links == links.GetOr(todo.links)
    {
      Todos.Todo(todo.id, todo.created, status.GetOr(todo.status), prio.GetOr(todo.prio),
        subject.GetOr(todo.subject), description.GetOr(todo.description),
        if context.Some? then context else todo.context,
        links.GetOr(todo.links), tags.GetOr(todo.tags))
    }

    /** `apply`: the todo's fields are overwritten one after the other, in the source's
        order (subject, status, prio, description, context, tags, links). */
    method Apply(todo: Todos.Todo) returns (t: Todos.Todo)
      ensures t == Patched(todo)
    {
      t := todo;
      if subject.Some? {
        t := t.(subject := subject.value);
      }
      if status.Some? {
        t := t.(status := status.value);
      }
      if prio.Some? {
        t := t.(prio := prio.value);
      }
      if description.Some? {
        t := t.(description := description.value);
      }
      if context.Some? {
        t := t.(context := Some(context.value));
      }
      if tags.Some? {
        t := t.(tags := tags.value);
      }
      if links.Some? {
        t := t.(links := links.value);
      }
    }
  }

  /** `Changeset::default()`: no field and the flag unset. */
  function Default(): (c: Changeset)
    ensures c.IsEmpty() && c.NoFields()
  {
    Changeset(None, None, None, None, None, None, None, false)
  }

  /** A changeset with no field present leaves the todo exactly as it was; in particular
      the default one does. */
  lemma NoFieldsIsIdentity(c: Changeset, todo: Todos.Todo)
    requires c.NoFields()
    ensures c.Patched(todo) == todo
  {
  }

  /** Applying the same changeset twice is the same as applying it once. */
  lemma PatchIdempotent(c: Changeset, todo: Todos.Todo)
    ensures c.Patched(c.Patched(todo)) == c.Patched(todo)
  {
  }

  /** A changeset cannot clear a context: a todo with a context still has one after. */
  lemma ContextNeverCleared(c: Changeset, todo: Todos.Todo)
    requires todo.context.Some?
    ensures c.Patched(todo).context.Some?
  {
  }

  /** A builder on the default changeset changes exactly its own field of the todo. */
  lemma SingleFieldUpdates(todo: Todos.Todo, s: string, st: Statuses.Status, p: Prios.Prio)
    ensures Default().WithSubject(s).Patched(todo) == todo.(subject := s)
    ensures Default().WithStatus(st).Patched(todo) == todo.(status := st)
    ensures Default().WithPrio(p).Patched(todo) == todo.(prio := p)
    ensures Default().WithDescription(s).Patched(todo) == todo.(description := s)
    ensures Default().WithContext(s).Patched(todo) == todo.(context := Some(s))
  {
  }

  /** A present context replaces the todo's; a present tag list replaces the whole list,
      whatever it held before. */
  lemma ReplacesWholeValues(c: Changeset, todo: Todos.Todo, cx: string, ts: Csvs.Csv<string>)
    ensures c.WithContext(cx).Patched(todo).context == Some(cx)
    ensures c.WithTags(ts).Patched(todo).tags == ts
  {
  }

  /** One `with_*` builder call. */
  datatype Builder =
    | SetSubject(s: string)
    | SetStatus(st: Statuses.Status)
    | SetPrio(p: Prios.Prio)
    | SetDescription(d: string)
    | SetContext(cx: string)
    | SetTags(ts: Csvs.Csv<string>)
    | SetLinks(ls: Csvs.Csv<Links.Link>)

  function Step(c: Changeset, b: Builder): Changeset {
    match b
    case SetSubject(s) => c.WithSubject(s)
    case SetStatus(st) => c.WithStatus(st)
    case SetPrio(p) => c.WithPrio(p)
    case SetDescription(d) => c.WithDescription(d)
    case SetContext(cx) => c.WithContext(cx)
    case SetTags(ts) => c.WithTags(ts)
    case SetLinks(ls) => c.WithLinks(ls)
  }

  /** The changeset that the builder calls `bs`, in order, make of the default one. */
  function Build(bs: seq<Builder>): Changeset
    decreases |bs|
  {
    if |bs| == 0 then Default() else Step(Build(bs[..|bs| - 1]), bs[|bs| - 1])
  }

  /** `is_empty` holds exactly when no builder was called, and a built changeset that is
      empty leaves every todo as it was. */
  lemma BuildIsEmpty(bs: seq<Builder>, todo: Todos.Todo)
    ensures Build(bs).IsEmpty() <==> |bs| == 0
    ensures Build(bs).IsEmpty() ==> Build(bs).Patched(todo) == todo
  {
  }
}
