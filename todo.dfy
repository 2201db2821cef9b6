/**
 * The todo record (src/model/todo.rs:13-33) and its predicates, identity and list order.
 * The creation time is an integer timestamp.
 */
module Todos {
  import opened Wrappers
  import opened Orderings
  import Seqs
  import Ids
  import Csvs
  import Statuses
  import Prios
  import Links

  datatype Todo = Todo(
    id: Ids.ID,
    created: int,
    status: Statuses.Status,
    prio: Prios.Prio,
    subject: string,
    description: string,
    context: Option<string>,
    links: Csvs.Csv<Links.Link>,
    tags: Csvs.Csv<string>)
  {
    predicate IsDone() {
      status == Statuses.Done
    }

    predicate IsBlocked() {
      status == Statuses.Blocked
    }

    /** `blocks`: the links of kind "blocks", in stored order. */
    function Blocks(): (r: seq<Links.Link>)
      ensures Seqs.IsSubsequence(r, links.items)
      ensures forall l :: l in r <==> l in links.items && l.Blocks?
    {
      Seqs.FilterIsSubsequence(IsBlocksLink, links.items);
      Seqs.Filter(IsBlocksLink, links.items)
    }

    /** `PartialEq`: todos are equal when their ids are, whatever their other fields. */
    function Equals(other: Todo): (b: bool)
      ensures b <==> id == other.id
    {
      id.Equals(other.id)
    }
  }

  predicate IsBlocksLink(l: Links.Link) {
    l.Blocks?
  }

  /** `a` sorts strictly before `b` on (priority, status, creation time), for todos that are
      not done. */
  predicate KeyLess(a: Todo, b: Todo)
    requires !a.IsDone() && !b.IsDone()
  {
    Prios.Rank(a.prio) < Prios.Rank(b.prio) ||
    (a.prio == b.prio &&
      (Statuses.Rank(a.status) < Statuses.Rank(b.status) ||
       (a.status == b.status && a.created < b.created)))
  }

  predicate SameKey(a: Todo, b: Todo) {
    a.prio == b.prio && a.status == b.status && a.created == b.created
  }

  /** `Ord::cmp`: a done todo is always `Greater` (even against another done todo), any
      other todo is `Less` than a done one, and otherwise the order is by priority, then
      status, then creation time. */
  function Cmp(a: Todo, b: Todo): (r: Ordering)
    ensures a.IsDone() ==> r == Greater
    ensures !a.IsDone() && b.IsDone() ==> r == Less
    ensures !a.IsDone() && !b.IsDone() ==>
              (r == Less <==> KeyLess(a, b)) && (r == Equal <==> SameKey(a, b)) &&
              (r == Greater <==> KeyLess(b, a))
  {
    if a.IsDone() then Greater
    else if b.IsDone() then Less
    else
      match Prios.Cmp(a.prio, b.prio)
      case Equal =>
        (match Statuses.Cmp(a.status, b.status)
         case Equal => CmpInt(a.created, b.created)
         case ordering => ordering)
      case o => o
  }

  /** `is_done` and `is_blocked` hold exactly for the statuses that print "done" and
      "blocked"; no todo is both. */
  lemma StatusPredicates(t: Todo)
    ensures t.IsDone() <==> t.status.Display() == "done"
    ensures t.IsBlocked() <==> t.status.Display() == "blocked"
    ensures !(t.IsDone() && t.IsBlocked())
  {
  }

  /** A done todo compares `Greater` against another done todo in both orders, so the
      comparator is not antisymmetric among done todos. */
  lemma DoneAgainstDone(a: Todo, b: Todo)
    requires a.IsDone() && b.IsDone()
    ensures Cmp(a, b) == Greater && Cmp(b, a) == Greater
  {
  }

  /** Among todos that are not done the comparator is a total preorder: swapping the
      arguments reverses it and `Less` is transitive. */
  lemma CmpOpenIsOrder(a: Todo, b: Todo, c: Todo)
    requires !a.IsDone() && !b.IsDone() && !c.IsDone()
    ensures Cmp(b, a) == Cmp(a, b).Reverse()
    ensures Cmp(a, b) == Less && Cmp(b, c) == Less ==> Cmp(a, c) == Less
    ensures Cmp(a, b) != Greater && Cmp(b, c) != Greater ==> Cmp(a, c) != Greater
    ensures Cmp(a, a) == Equal
  {
  }
}
