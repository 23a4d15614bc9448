/** Delayed combat actions (include/core/combat.h): the `CombatAction`
    record, the `ActionComparator` that orders the combat's priority queue,
    and what draining the due actions from that queue leaves behind. The
    `std::function` body of an action is opaque and is named by an id. */
module CombatActions {

  type ActionId = nat

  datatype CombatAction = CombatAction(action: ActionId, priority: int, delay: int, source: string)

  /** A record as the member initialisers leave it: priority 0, delay 0, no source. */
  function DefaultAction(action: ActionId): (a: CombatAction)
    ensures a.action == action && a.priority == 0 && a.delay == 0 && a.source == ""
  {
    CombatAction(action, 0, 0, "")
  }

  /** `ActionComparator(a, b)`: the queue serves `b` before `a`. */
  predicate ServedAfter(a: CombatAction, b: CombatAction) {
    if a.delay != b.delay then a.delay > b.delay else a.priority < b.priority
  }

  predicate Incomparable(a: CombatAction, b: CombatAction) {
    !ServedAfter(a, b) && !ServedAfter(b, a)
  }

  /** The comparator is a strict weak ordering, as std::priority_queue requires. */
  lemma StrictWeakOrder(a: CombatAction, b: CombatAction, c: CombatAction)
    ensures !ServedAfter(a, a)
    ensures ServedAfter(a, b) ==> !ServedAfter(b, a)
    ensures ServedAfter(a, b) && ServedAfter(b, c) ==> ServedAfter(a, c)
    ensures Incomparable(a, b) && Incomparable(b, c) ==> Incomparable(a, c)
  {
  }

  /** A smaller delay is served first; at equal delay a larger priority is; actions with the
      same delay and priority are not ordered at all. */
  lemma ServiceOrder(a: CombatAction, b: CombatAction)
    ensures a.delay < b.delay ==> ServedAfter(b, a)
    ensures a.delay == b.delay && a.priority > b.priority ==> ServedAfter(b, a)
    ensures Incomparable(a, b) <==> a.delay == b.delay && a.priority == b.priority
  {
  }

  /** An action the queue may hand out next: nothing in `q` is served before it. */
  predicate IsTop(t: CombatAction, q: seq<CombatAction>) {
    forall x :: x in q ==> !ServedAfter(t, x)
  }

  /** A non-empty queue has a top. */
  lemma {:induction false} TopExists(q: seq<CombatAction>)
    requires q != []
    ensures exists k :: 0 <= k < |q| && IsTop(q[k], q)
  {
    if |q| == 1 {
      assert IsTop(q[0], q);
    } else {
      var rest := q[1..];
      TopExists(rest);
      var k :| 0 <= k < |rest| && IsTop(rest[k], rest);
      var t := rest[k];
      assert q == [q[0]] + rest;
      if ServedAfter(t, q[0]) {
        forall x | x in q ensures !ServedAfter(q[0], x) {
          if x in rest && ServedAfter(q[0], x) {
            StrictWeakOrder(t, q[0], x);
          }
        }
        assert IsTop(q[0], q);
      } else {
        assert IsTop(q[k + 1], q);
      }
    }
  }

  /** A top has the smallest delay in the queue. */
  lemma TopHasLeastDelay(t: CombatAction, q: seq<CombatAction>)
    requires IsTop(t, q)
    ensures forall x :: x in q ==> t.delay <= x.delay
  {
  }

  predicate IsDue(a: CombatAction) { a.delay <= 0 }

  /** The actions of `q`, in order, that are due (`due`) or that are not (`!due`). */
  function Filter(q: seq<CombatAction>, due: bool): (r: seq<CombatAction>)
    ensures |r| <= |q|
  {
    if q == [] then []
    else (if IsDue(q[0]) == due then [q[0]] else []) + Filter(q[1..], due)
  }

  lemma AppendAssoc(a: seq<CombatAction>, b: seq<CombatAction>, c: seq<CombatAction>)
    ensures a + (b + c) == (a + b) + c
  {
  }

  lemma {:induction false} FilterAppend(a: seq<CombatAction>, b: seq<CombatAction>, due: bool)
    ensures Filter(a + b, due) == Filter(a, due) + Filter(b, due)
  {
    if a == [] {
      assert a + b == b;
    } else {
      var x, rest := a[0], a[1..];
      var head := if IsDue(x) == due then [x] else [];
      assert (a + b)[0] == x && (a + b)[1..] == rest + b;
      FilterAppend(rest, b, due);
      calc {
        Filter(a + b, due);
        head + Filter(rest + b, due);
        head + (Filter(rest, due) + Filter(b, due));
        { AppendAssoc(head, Filter(rest, due), Filter(b, due)); }
        (head + Filter(rest, due)) + Filter(b, due);
        Filter(a, due) + Filter(b, due);
      }
    }
  }

  lemma {:induction false} FilterMembers(q: seq<CombatAction>, due: bool)
    ensures forall x :: x in Filter(q, due) <==> x in q && IsDue(x) == due
  {
    if q != [] {
      FilterMembers(q[1..], due);
      assert q == [q[0]] + q[1..];
    }
  }

  /** Every action is either due or not: the two filters together lose nothing. */
  lemma {:induction false} FilterSplits(q: seq<CombatAction>)
    ensures multiset(Filter(q, true)) + multiset(Filter(q, false)) == multiset(q)
  {
    if q != [] {
      FilterSplits(q[1..]);
      FilterHead(q);
      var x := multiset{q[0]};
      if IsDue(q[0]) {
        JoinSplit(multiset(Filter(q, true)), multiset(Filter(q, false)), x,
                  multiset(Filter(q[1..], true)), multiset(Filter(q[1..], false)), multiset(q[1..]));
      } else {
        JoinSplit(multiset(Filter(q, false)), multiset(Filter(q, true)), x,
                  multiset(Filter(q[1..], false)), multiset(Filter(q[1..], true)), multiset(q[1..]));
      }
    }
  }

  /** Adding one element to one of two parts adds it to their union. */
  lemma JoinSplit(a: multiset<CombatAction>, b: multiset<CombatAction>, x: multiset<CombatAction>,
                  t: multiset<CombatAction>, f: multiset<CombatAction>, r: multiset<CombatAction>)
    requires t + f == r && a == x + t && b == f
    ensures a + b == x + r && b + a == x + r
  {
  }

  /** The first action of a queue goes to the front of its own filter and leaves the other alone. */
  lemma FilterHead(q: seq<CombatAction>)
    requires q != []
    ensures multiset(q) == multiset{q[0]} + multiset(q[1..])
    ensures multiset(Filter(q, IsDue(q[0]))) == multiset{q[0]} + multiset(Filter(q[1..], IsDue(q[0])))
    ensures Filter(q, !IsDue(q[0])) == Filter(q[1..], !IsDue(q[0]))
  {
    assert q == [q[0]] + q[1..];
  }

  /** A one-action queue keeps its action in the filter it belongs to. */
  lemma {:induction false} FilterOne(x: CombatAction, due: bool)
    ensures Filter([x], due) == if IsDue(x) == due then [x] else []
  {
    assert [x][1..] == [];
  }

  /** Filtering splits around one action. */
  lemma {:induction false} FilterAround(a: seq<CombatAction>, x: CombatAction, b: seq<CombatAction>, due: bool)
    ensures Filter(a + [x] + b, due) == Filter(a, due) + Filter([x], due) + Filter(b, due)
  {
    FilterAppend(a + [x], b, due);
    FilterAppend(a, [x], due);
  }

  /** A due action between `a` and `b` is one more due action. */
  lemma {:induction false} DueSplit(a: seq<CombatAction>, x: CombatAction, b: seq<CombatAction>)
    requires IsDue(x)
    ensures multiset(Filter(a + b, true)) + multiset{x} == multiset(Filter(a + [x] + b, true))
  {
    FilterAround(a, x, b, true);
    FilterOne(x, true);
    FilterAppend(a, b, true);
    var fa, fb := Filter(a, true), Filter(b, true);
    assert Filter(a + [x] + b, true) == fa + [x] + fb;
    assert multiset(fa + [x] + fb) == multiset(fa + fb) + multiset{x};
  }

  /** A due action between `a` and `b` is not among the actions that are not due. */
  lemma {:induction false} NotDueSplit(a: seq<CombatAction>, x: CombatAction, b: seq<CombatAction>)
    requires IsDue(x)
    ensures Filter(a + b, false) == Filter(a + [x] + b, false)
  {
    FilterAround(a, x, b, false);
    FilterOne(x, false);
    FilterAppend(a, b, false);
  }

  /** Taking one due action out of the queue takes it out of the due actions only. */
  lemma {:induction false} TakeDue(q: seq<CombatAction>, k: nat)
    requires k < |q| && IsDue(q[k])
    ensures multiset(Filter(q[..k] + q[k + 1..], true)) + multiset{q[k]} == multiset(Filter(q, true))
    ensures Filter(q[..k] + q[k + 1..], false) == Filter(q, false)
  {
    var a, x, b := q[..k], q[k], q[k + 1..];
    assert q == a + [x] + b;
    assert q[..k] + q[k + 1..] == a + b;
    DueSplit(a, x, b);
    NotDueSplit(a, x, b);
  }

  /** A queue with nothing due is its own not-due part, and has no due part. */
  lemma {:induction false} NothingDue(q: seq<CombatAction>)
    requires forall x :: x in q ==> !IsDue(x)
    ensures Filter(q, false) == q && Filter(q, true) == []
  {
    if q != [] {
      NothingDue(q[1..]);
      assert q == [q[0]] + q[1..];
    }
  }

  /** Every action of `q` one turn closer. */
  function Decremented(q: seq<CombatAction>): (r: seq<CombatAction>)
    ensures |r| == |q|
    ensures forall i :: 0 <= i < |q| ==> r[i] == q[i].(delay := q[i].delay - 1)
  {
    seq(|q|, i requires 0 <= i < |q| => q[i].(delay := q[i].delay - 1))
  }

  /** `ran` is in the order the queue serves: no action is served after a later one. */
  predicate InServiceOrder(ran: seq<CombatAction>) {
    forall i, j :: 0 <= i < j < |ran| ==> !ServedAfter(ran[i], ran[j])
  }

  /** Halfway through draining `q0`: `ran` were run in service order, none of them is served
      after anything still queued, and `q` holds the rest of the due actions and all the others. */
  predicate Draining(q0: seq<CombatAction>, ran: seq<CombatAction>, q: seq<CombatAction>) {
    multiset(ran) + multiset(Filter(q, true)) == multiset(Filter(q0, true)) &&
    Filter(q, false) == Filter(q0, false) &&
    InServiceOrder(ran) &&
    forall i, x :: 0 <= i < |ran| && x in q ==> !ServedAfter(ran[i], x)
  }

  /** Serving a due top action keeps draining. */
  lemma ServeStep(q0: seq<CombatAction>, ran: seq<CombatAction>, q: seq<CombatAction>, k: nat)
    requires Draining(q0, ran, q) && k < |q| && IsTop(q[k], q) && IsDue(q[k])
    ensures Draining(q0, ran + [q[k]], q[..k] + q[k + 1..])
  {
    TakeDue(q, k);
    var ran' := ran + [q[k]];
    assert multiset(ran') == multiset(ran) + multiset{q[k]};
    MovedDue(multiset(ran), multiset{q[k]}, multiset(Filter(q[..k] + q[k + 1..], true)),
             multiset(Filter(q, true)), multiset(Filter(q0, true)));
    ServedInOrder(ran, q, k);
    ServedBeforeRest(ran, q, k);
  }

  /** Moving one action from the due part of the queue to those run keeps their total. */
  lemma MovedDue(ran: multiset<CombatAction>, x: multiset<CombatAction>, rest: multiset<CombatAction>,
                 due: multiset<CombatAction>, total: multiset<CombatAction>)
    requires ran + due == total && rest + x == due
    ensures (ran + x) + rest == total
  {
  }

  /** Running the top action after those already run keeps them in service order. */
  lemma ServedInOrder(ran: seq<CombatAction>, q: seq<CombatAction>, k: nat)
    requires k < |q| && InServiceOrder(ran)
    requires forall i, x :: 0 <= i < |ran| && x in q ==> !ServedAfter(ran[i], x)
    ensures InServiceOrder(ran + [q[k]])
  {
    var ran' := ran + [q[k]];
    forall i, j | 0 <= i < j < |ran'| ensures !ServedAfter(ran'[i], ran'[j]) {
      if j == |ran| {
        assert q[k] in q;
      }
    }
  }

  /** After serving the top action of `q`, nothing served comes after what is left. */
  lemma ServedBeforeRest(ran: seq<CombatAction>, q: seq<CombatAction>, k: nat)
    requires k < |q| && IsTop(q[k], q)
    requires forall i, x :: 0 <= i < |ran| && x in q ==> !ServedAfter(ran[i], x)
    ensures forall i, x :: 0 <= i < |ran + [q[k]]| && x in q[..k] + q[k + 1..] ==> !ServedAfter((ran + [q[k]])[i], x)
  {
    var q' := q[..k] + q[k + 1..];
    forall x | x in q' ensures x in q {
      assert x in multiset(q');
    }
  }

  /** Draining is over once the queue is empty or its top is not due: every due action ran. */
  lemma DrainingDone(q0: seq<CombatAction>, ran: seq<CombatAction>, q: seq<CombatAction>)
    requires Draining(q0, ran, q)
    requires q == [] || exists k :: 0 <= k < |q| && IsTop(q[k], q) && !IsDue(q[k])
    ensures multiset(ran) == multiset(Filter(q0, true)) && InServiceOrder(ran)
    ensures q == Filter(q0, false)
  {
    if q != [] {
      var k :| 0 <= k < |q| && IsTop(q[k], q) && !IsDue(q[k]);
      TopHasLeastDelay(q[k], q);
      NothingDue(q);
    }
  }

  /** What `processDelayedActions` does to a queue `q0`: `ran` are exactly its due actions,
      run in service order, and `q` holds the others, each one turn closer. */
  predicate Processed(q0: seq<CombatAction>, ran: seq<CombatAction>, q: seq<CombatAction>) {
    multiset(ran) == multiset(Filter(q0, true)) && InServiceOrder(ran) &&
    q == Decremented(Filter(q0, false))
  }

  /** Draining loses no action and runs none twice: each one of `q0` is either run or kept. */
  lemma ProcessedLosesNone(q0: seq<CombatAction>, ran: seq<CombatAction>, q: seq<CombatAction>)
    requires Processed(q0, ran, q)
    ensures |ran| + |q| == |q0|
    ensures forall x :: x in q0 && IsDue(x) ==> x in ran
    ensures forall x :: x in q0 && !IsDue(x) ==> x.(delay := x.delay - 1) in q
    ensures forall x :: x in q ==> x.delay >= 0
  {
    FilterSplits(q0);
    assert |multiset(ran)| + |multiset(Filter(q0, false))| == |multiset(q0)|;
    DueAllRan(q0, ran);
    RestDelayed(q0, q);
  }

  /** Every due action of `q0` is among the ones run. */
  lemma DueAllRan(q0: seq<CombatAction>, ran: seq<CombatAction>)
    requires multiset(ran) == multiset(Filter(q0, true))
    ensures forall x :: x in q0 && IsDue(x) ==> x in ran
  {
    FilterMembers(q0, true);
    forall x | x in q0 && IsDue(x) ensures x in ran {
      assert x in multiset(Filter(q0, true));
    }
  }

  /** Every action left is a not-due action of `q0` one turn closer, so none is overdue. */
  lemma RestDelayed(q0: seq<CombatAction>, q: seq<CombatAction>)
    requires q == Decremented(Filter(q0, false))
    ensures forall x :: x in q0 && !IsDue(x) ==> x.(delay := x.delay - 1) in q
    ensures forall x :: x in q ==> x.delay >= 0
  {
    FilterMembers(q0, false);
    var w := Filter(q0, false);
    forall x | x in q0 && !IsDue(x) ensures x.(delay := x.delay - 1) in q {
      var i :| 0 <= i < |w| && w[i] == x;
      assert q[i] == x.(delay := x.delay - 1);
    }
    forall x | x in q ensures x.delay >= 0 {
      var i :| 0 <= i < |q| && q[i] == x;
      assert w[i] in w;
    }
  }

}
