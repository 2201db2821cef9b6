/**
 * The listing filter (src/service/filter.rs): three independent axes — status, context
 * and tags — each narrowing the todos kept, applied one after the other.
 */
module Filters {
  import opened Wrappers
  import Seqs
  import Ids
  import Csvs
  import Statuses
  import Prios
  import Todos

  datatype StatusFilter = AnyStatus | Relevant | StatusIs(status: Statuses.Status)

  datatype ContextFilter = AnyContext | NoContext | Current | Named(name: string)

  /** Whether the status axis keeps `t`. */
  predicate StatusKeeps(f: StatusFilter, t: Todos.Todo) {
    match f
    case AnyStatus => true
    case Relevant => t.status != Statuses.Done
    case StatusIs(s) => t.status == s
  }

  /** Whether the context axis keeps `t`, given the current context. */
  predicate ContextKeeps(f: ContextFilter, t: Todos.Todo, current: Option<string>) {
    match f
    case AnyContext => true
    case NoContext => t.context.None?
    case Current =>
      (match current
       case Some(curr) => (match t.context case Some(ctx) => ctx == curr case None => false)
       case None => true)
    case Named(x) => (match t.context case Some(name) => x == name case None => false)
  }

  /** Whether the tag axis keeps `t`: with a list of tags, `t` must carry one of them. */
  predicate TagsKeep(tags: Option<seq<string>>, t: Todos.Todo) {
    match tags
    case Some(ts) => t.tags.SharesAny(ts)
    case None => true
  }

  /** The three axes and their conjunction as the predicates handed to the filter. */
  function StatusAxis(f: StatusFilter): Todos.Todo -> bool {
    t => StatusKeeps(f, t)
  }

  function ContextAxis(f: ContextFilter, current: Option<string>): Todos.Todo -> bool {
    t => ContextKeeps(f, t, current)
  }

  function TagAxis(tags: Option<seq<string>>): Todos.Todo -> bool {
    t => TagsKeep(tags, t)
  }

  function AllAxes(f: Filter, current: Option<string>): Todos.Todo -> bool {
    t => f.Keeps(t, current)
  }

  datatype Filter = Filter(status: StatusFilter, context: ContextFilter, tags: Option<seq<string>>) {

    /** `status`: replaces the status axis only. */
    function WithStatus(f: StatusFilter): (r: Filter)
      ensures r.status == f && r.context == context && r.tags == tags
    {
      this.(status := f)
    }

    /** `context`: replaces the context axis only. */
    function WithContext(f: ContextFilter): (r: Filter)
      ensures r.status == status && r.context == f && r.tags == tags
    {
      this.(context := f)
    }

    /** `tags`: replaces the tag axis only. */
    function WithTags(ts: seq<string>): (r: Filter)
      ensures r.status == status && r.context == context && r.tags == Some(ts)
    {
      this.(tags := Some(ts))
    }

    /** All three axes keep `t`. */
    predicate Keeps(t: Todos.Todo, current: Option<string>) {
      StatusKeeps(status, t) && ContextKeeps(context, t, current) && TagsKeep(tags, t)
    }

    /** `apply`: the status, context and tag filters run one after the other. What is left
        is a subsequence of the input, in the input's order, holding exactly the todos
        that every axis keeps. */
    function Apply(todos: seq<Todos.Todo>, current: Option<string>): (r: seq<Todos.Todo>)
      ensures Seqs.IsSubsequence(r, todos)
      ensures forall t :: t in r <==> t in todos && Keeps(t, current)
    {
      var byStatus := Seqs.Filter(StatusAxis(status), todos);
      var byContext := Seqs.Filter(ContextAxis(context, current), byStatus);
      ApplyIsOneFilter(this, todos, current);
      Seqs.FilterIsSubsequence(AllAxes(this, current), todos);
      Seqs.Filter(TagAxis(tags), byContext)
    }
  }

  /** The filter used when none is given: it keeps exactly the todos that are not done
      and, when a context is current, belong to it, whatever their tags. */
  function Default(): (f: Filter)
    ensures forall t: Todos.Todo, current: Option<string> ::
              f.Keeps(t, current) <==> !t.IsDone() && (current.None? || t.context == current)
  {
    Filter(Relevant, Current, None)
  }

  /** The three filters in a row keep the same todos as one filter on all three axes. */
  lemma {:induction false} ApplyIsOneFilter(f: Filter, todos: seq<Todos.Todo>, current: Option<string>)
    ensures Seqs.Filter(TagAxis(f.tags), Seqs.Filter(ContextAxis(f.context, current),
              Seqs.Filter(StatusAxis(f.status), todos)))
            == Seqs.Filter(AllAxes(f, current), todos)
    decreases |todos|
  {
    if |todos| > 0 {
      var t := todos[0];
      var rest := todos[1..];
      var p := StatusAxis(f.status);
      var q := ContextAxis(f.context, current);
      var r := TagAxis(f.tags);
      ApplyIsOneFilter(f, rest, current);
      var a := Seqs.Filter(p, todos);
      var b := Seqs.Filter(q, a);
      if p(t) {
        assert a == [t] + Seqs.Filter(p, rest);
        assert a[0] == t && a[1..] == Seqs.Filter(p, rest);
        if q(t) {
          assert b == [t] + Seqs.Filter(q, Seqs.Filter(p, rest));
          assert b[0] == t && b[1..] == Seqs.Filter(q, Seqs.Filter(p, rest));
        } else {
          assert b == Seqs.Filter(q, Seqs.Filter(p, rest));
        }
      } else {
        assert a == Seqs.Filter(p, rest);
      }
    }
  }

  /** Any status, any context and no tags keep every todo. */
  lemma {:induction false} ApplyAnyKeepsAll(todos: seq<Todos.Todo>, current: Option<string>)
    ensures Filter(AnyStatus, AnyContext, None).Apply(todos, current) == todos
  {
    var f := Filter(AnyStatus, AnyContext, None);
    ApplyIsOneFilter(f, todos, current);
    Seqs.FilterAll(AllAxes(f, current), todos);
  }

  /** Without a current context, `Current` is the same as `AnyContext`. */
  lemma {:induction false} CurrentWithoutContext(f: Filter, todos: seq<Todos.Todo>)
    ensures f.WithContext(Current).Apply(todos, None) == f.WithContext(AnyContext).Apply(todos, None)
  {
    var a := f.WithContext(Current);
    var b := f.WithContext(AnyContext);
    ApplyIsOneFilter(a, todos, None);
    ApplyIsOneFilter(b, todos, None);
    Seqs.FilterSame(AllAxes(a, None), AllAxes(b, None), todos);
  }

  /** With a current context, `Current` is the same as naming that context. */
  lemma {:induction false} CurrentIsNamed(f: Filter, todos: seq<Todos.Todo>, curr: string, other: Option<string>)
    ensures f.WithContext(Current).Apply(todos, Some(curr)) == f.WithContext(Named(curr)).Apply(todos, other)
  {
    var a := f.WithContext(Current);
    var b := f.WithContext(Named(curr));
    ApplyIsOneFilter(a, todos, Some(curr));
    ApplyIsOneFilter(b, todos, other);
    Seqs.FilterSame(AllAxes(a, Some(curr)), AllAxes(b, other), todos);
  }

  /** Filtering by an empty list of tags keeps nothing. */
  lemma NoTagsKeepNothing(f: Filter, todos: seq<Todos.Todo>, current: Option<string>)
    ensures f.WithTags([]).Apply(todos, current) == []
  {
  }

  /** Applying a filter a second time changes nothing. */
  lemma {:induction false} ApplyIdempotent(f: Filter, todos: seq<Todos.Todo>, current: Option<string>)
    ensures f.Apply(f.Apply(todos, current), current) == f.Apply(todos, current)
  {
    var once := f.Apply(todos, current);
    ApplyIsOneFilter(f, todos, current);
    ApplyIsOneFilter(f, once, current);
    Seqs.FilterAll(AllAxes(f, current), once);
  }

  /** The five todos of the filter tests: four new ones (no tags and no context; "feat";
      "feat" and "test"; context "home") and a done one tagged "test" in context "home". */
  function Fixture(): seq<Todos.Todo> {
    [ Sample(1, Statuses.New, [], None),
      Sample(2, Statuses.New, ["feat"], None),
      Sample(3, Statuses.New, ["feat", "test"], None),
      Sample(4, Statuses.New, [], Some("home")),
      Sample(5, Statuses.Done, ["test"], Some("home")) ]
  }

  function Sample(id: Ids.u16, status: Statuses.Status, tags: seq<string>, context: Option<string>): Todos.Todo {
    Todos.Todo(Ids.ID(id), 0, status, Prios.Normal, "", "", context, Csvs.Csv([]), Csvs.Csv(tags))
  }

  function Kept(b: bool): nat {
    if b then 1 else 0
  }

  /** How many of five todos a predicate keeps. */
  lemma FilterFive(p: Todos.Todo -> bool, xs: seq<Todos.Todo>)
    requires |xs| == 5
    ensures |Seqs.Filter(p, xs)| ==
              Kept(p(xs[0])) + Kept(p(xs[1])) + Kept(p(xs[2])) + Kept(p(xs[3])) + Kept(p(xs[4]))
  {
    assert xs[4..][1..] == [];
    assert |Seqs.Filter(p, xs[4..])| == Kept(p(xs[4]));
    assert xs[3..][1..] == xs[4..];
    assert |Seqs.Filter(p, xs[3..])| == Kept(p(xs[3])) + Kept(p(xs[4]));
    assert xs[2..][1..] == xs[3..];
    assert |Seqs.Filter(p, xs[2..])| == Kept(p(xs[2])) + Kept(p(xs[3])) + Kept(p(xs[4]));
    assert xs[1..][1..] == xs[2..];
  }

  /** The tests' counts for a filter, with and without a current context. */
  lemma FixtureCount(f: Filter, current: Option<string>)
    ensures |f.Apply(Fixture(), current)| ==
              Kept(f.Keeps(Fixture()[0], current)) + Kept(f.Keeps(Fixture()[1], current)) +
              Kept(f.Keeps(Fixture()[2], current)) + Kept(f.Keeps(Fixture()[3], current)) +
              Kept(f.Keeps(Fixture()[4], current))
  {
    var xs := Fixture();
    assert f.Apply(xs, current) == Seqs.Filter(AllAxes(f, current), xs) by {
      ApplyIsOneFilter(f, xs, current);
    }
    FilterFive(AllAxes(f, current), xs);
  }

  /** The default filter without a current context keeps the four new todos. */
  lemma FixtureDefault()
    ensures |Default().Apply(Fixture(), None)| == 4
  {
    FixtureCount(Default(), None);
  }

  /** So does the default filter with any context. */
  lemma FixtureDefaultAnyContext()
    ensures |Default().WithContext(AnyContext).Apply(Fixture(), None)| == 4
  {
    FixtureCount(Default().WithContext(AnyContext), None);
  }

  /** Any status keeps all five todos. */
  lemma FixtureAnyStatus()
    ensures |Default().WithStatus(AnyStatus).Apply(Fixture(), None)| == 5
  {
    FixtureCount(Default().WithStatus(AnyStatus), None);
  }

  /** Any status in current context "home" keeps the two todos there. */
  lemma FixtureCurrentHome()
    ensures |Default().WithStatus(AnyStatus).Apply(Fixture(), Some("home"))| == 2
  {
    FixtureCount(Default().WithStatus(AnyStatus), Some("home"));
  }

  /** Status "done" keeps one todo. */
  lemma FixtureDone()
    ensures |Default().WithStatus(StatusIs(Statuses.Done)).Apply(Fixture(), None)| == 1
  {
    FixtureCount(Default().WithStatus(StatusIs(Statuses.Done)), None);
  }

  /** Status "new" in context "home" keeps one todo. */
  lemma FixtureNewAtHome()
    ensures |Default().WithStatus(StatusIs(Statuses.New)).Apply(Fixture(), Some("home"))| == 1
  {
    FixtureCount(Default().WithStatus(StatusIs(Statuses.New)), Some("home"));
  }

  /** An unknown context name keeps nothing. */
  lemma FixtureUnknownName()
    ensures |Default().WithContext(Named("unknown")).Apply(Fixture(), None)| == 0
  {
    FixtureCount(Default().WithContext(Named("unknown")), None);
  }

  /** The tag "feat" keeps the two todos that carry it. */
  lemma FixtureTags()
    ensures |Default().WithTags(["feat"]).Apply(Fixture(), None)| == 2
  {
    var xs := Fixture();
    var f := Default().WithTags(["feat"]);
    FixtureCount(f, None);
    assert xs[1].tags.items[0] == ["feat"][0];
    assert xs[2].tags.items[0] == ["feat"][0];
    assert xs[4].tags.items[0] != "feat";
  }
}
