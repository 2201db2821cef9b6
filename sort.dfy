/**
 * The ordering `list_todos` applies with `sort` (src/service/mod.rs:38) under the todo
 * comparator (src/model/todo.rs:100-117). The comparator ranks every done todo above
 * everything, itself included, so it only fixes the order of the todos that are not done;
 * this model sorts those by insertion and keeps the done todos after them, in input order.
 */
module TodoSort {
  import Seqs
  import Orderings
  import Todos

  predicate AllOpen(s: seq<Todos.Todo>) {
    forall i :: 0 <= i < |s| ==> !s[i].IsDone()
  }

  /** `a` may come before `b`: `b` is not strictly smaller. */
  predicate Le(a: Todos.Todo, b: Todos.Todo)
    requires !a.IsDone() && !b.IsDone()
  {
    !Todos.KeyLess(b, a)
  }

  predicate SortedOpen(s: seq<Todos.Todo>)
    requires AllOpen(s)
  {
    forall i, j :: 0 <= i < j < |s| ==> Le(s[i], s[j])
  }

  /** What a sort under the comparator guarantees: every todo that is not done compares
      `Less` or `Equal` to every todo after it, and no done todo precedes one that is not. */
  predicate ListOrdered(s: seq<Todos.Todo>) {
    (forall i, j :: 0 <= i < j < |s| && !s[i].IsDone() ==> Todos.Cmp(s[i], s[j]) != Orderings.Greater) &&
    (forall i, j :: 0 <= i < j < |s| && s[i].IsDone() ==> s[j].IsDone())
  }

  lemma LeFacts(a: Todos.Todo, b: Todos.Todo, c: Todos.Todo)
    requires !a.IsDone() && !b.IsDone() && !c.IsDone()
    ensures Le(a, b) || Le(b, a)
    ensures Le(a, b) && Le(b, c) ==> Le(a, c)
    ensures Todos.KeyLess(a, b) && Le(b, c) ==> Todos.KeyLess(a, c)
  {
  }

  /** Puts `x` after every todo of `s` that is not greater than it. */
  function Insert(x: Todos.Todo, s: seq<Todos.Todo>): (r: seq<Todos.Todo>)
    requires !x.IsDone() && AllOpen(s) && SortedOpen(s)
    ensures multiset(r) == multiset(s) + multiset{x}
    ensures AllOpen(r) && SortedOpen(r)
    decreases |s|
  {
    if |s| == 0 then [x]
    else if Todos.KeyLess(x, s[0]) then
      InsertFront(x, s);
      [x] + s
    else
      var rest := Insert(x, s[1..]);
      InsertBehind(x, s, rest);
      assert s == [s[0]] + s[1..];
      [s[0]] + rest
  }

  lemma InsertFront(x: Todos.Todo, s: seq<Todos.Todo>)
    requires !x.IsDone() && AllOpen(s) && SortedOpen(s) && |s| > 0 && Todos.KeyLess(x, s[0])
    ensures AllOpen([x] + s) && SortedOpen([x] + s)
  {
    var r := [x] + s;
    forall i, j | 0 <= i < j < |r| ensures Le(r[i], r[j]) {
      if i == 0 {
        LeFacts(x, s[0], s[j - 1]);
        if j > 1 {
          assert Le(s[0], s[j - 1]);
        }
      } else {
        assert r[i] == s[i - 1] && r[j] == s[j - 1];
      }
    }
  }

  lemma InsertBehind(x: Todos.Todo, s: seq<Todos.Todo>, rest: seq<Todos.Todo>)
    requires !x.IsDone() && AllOpen(s) && SortedOpen(s) && |s| > 0 && !Todos.KeyLess(x, s[0])
    requires multiset(rest) == multiset(s[1..]) + multiset{x} && AllOpen(rest) && SortedOpen(rest)
    ensures AllOpen([s[0]] + rest) && SortedOpen([s[0]] + rest)
  {
    var r := [s[0]] + rest;
    forall j | 0 <= j < |rest| ensures Le(s[0], rest[j]) {
      assert rest[j] in multiset(rest);
      if rest[j] != x {
        assert rest[j] in multiset(s[1..]);
        var k :| 0 <= k < |s[1..]| && s[1..][k] == rest[j];
        assert s[k + 1] == rest[j];
      }
    }
    forall i, j | 0 <= i < j < |r| ensures Le(r[i], r[j]) {
      if i > 0 {
        assert r[i] == rest[i - 1] && r[j] == rest[j - 1];
      } else {
        assert r[j] == rest[j - 1];
      }
    }
  }

  /** Insertion sort of todos that are not done, taking them in input order. */
  function SortOpen(xs: seq<Todos.Todo>): (r: seq<Todos.Todo>)
    requires AllOpen(xs)
    ensures multiset(r) == multiset(xs)
    ensures AllOpen(r) && SortedOpen(r)
    decreases |xs|
  {
    if |xs| == 0 then []
    else
      var init := xs[..|xs| - 1];
      assert xs == init + [xs[|xs| - 1]];
      Insert(xs[|xs| - 1], SortOpen(init))
  }

  predicate IsOpen(t: Todos.Todo) {
    !t.IsDone()
  }

  predicate IsDoneTodo(t: Todos.Todo) {
    t.IsDone()
  }

  /** The list order: the sorted todos that are not done, then the done ones. The result is
      a permutation of the input and ordered as the comparator requires. */
  function Sort(xs: seq<Todos.Todo>): (r: seq<Todos.Todo>)
    ensures multiset(r) == multiset(xs)
    ensures ListOrdered(r)
  {
    var open := Seqs.Filter(IsOpen, xs);
    var done := Seqs.Filter(IsDoneTodo, xs);
    var sorted := SortOpen(open);
    PartitionMultiset(xs);
    SortedThenDone(sorted, done);
    sorted + done
  }

  /** Splitting by "done" loses and duplicates nothing. */
  lemma {:induction false} PartitionMultiset(xs: seq<Todos.Todo>)
    ensures multiset(Seqs.Filter(IsOpen, xs)) + multiset(Seqs.Filter(IsDoneTodo, xs)) == multiset(xs)
    decreases |xs|
  {
    if |xs| > 0 {
      PartitionMultiset(xs[1..]);
      assert xs == [xs[0]] + xs[1..];
    }
  }

  lemma SortedThenDone(sorted: seq<Todos.Todo>, done: seq<Todos.Todo>)
    requires AllOpen(sorted) && SortedOpen(sorted)
    requires forall i :: 0 <= i < |done| ==> done[i].IsDone()
    ensures ListOrdered(sorted + done)
  {
    var r := sorted + done;
    forall i, j | 0 <= i < j < |r| && !r[i].IsDone()
      ensures Todos.Cmp(r[i], r[j]) != Orderings.Greater
    {
      assert i < |sorted|;
      if j < |sorted| {
        assert Le(sorted[i], sorted[j]);
      }
    }
  }

  /** Sorting a list that is already ordered and has no done todo changes nothing. */
  lemma {:induction false} SortOpenOfSorted(xs: seq<Todos.Todo>)
    requires AllOpen(xs) && SortedOpen(xs)
    ensures SortOpen(xs) == xs
    decreases |xs|
  {
    if |xs| > 0 {
      var init := xs[..|xs| - 1];
      var x := xs[|xs| - 1];
      assert SortedOpen(init) by {
        forall i, j | 0 <= i < j < |init| ensures Le(init[i], init[j]) {
          assert init[i] == xs[i] && init[j] == xs[j];
        }
      }
      SortOpenOfSorted(init);
      InsertAtEnd(x, init);
      assert init + [x] == xs;
    }
  }

  /** Inserting a todo no smaller than the whole list appends it. */
  lemma {:induction false} InsertAtEnd(x: Todos.Todo, s: seq<Todos.Todo>)
    requires !x.IsDone() && AllOpen(s) && SortedOpen(s)
    requires forall i :: 0 <= i < |s| ==> Le(s[i], x)
    ensures Insert(x, s) == s + [x]
    decreases |s|
  {
    if |s| > 0 {
      assert SortedOpen(s[1..]) by {
        forall i, j | 0 <= i < j < |s[1..]| ensures Le(s[1..][i], s[1..][j]) {
          assert s[1..][i] == s[i + 1] && s[1..][j] == s[j + 1];
        }
      }
      forall i | 0 <= i < |s[1..]| ensures Le(s[1..][i], x) {
        assert s[1..][i] == s[i + 1];
      }
      InsertAtEnd(x, s[1..]);
      assert [s[0]] + (s[1..] + [x]) == s + [x];
    }
  }
}
