/** asyncio.Lock as a held flag and a queue of waiters. Releasing clears the flag at once, and a
    woken waiter takes it only when it runs; a cancelled waiter stays queued until its task runs. */
module AsyncLock {
  import opened Options

  /** Pending: still to be woken. Woken: its turn, but it has not run yet. Cancelled: withdrawn before
      being woken, not yet run. WokenCancelled: withdrawn after being woken, not yet run. */
  datatype Waiting = Pending | Woken | Cancelled | WokenCancelled

  datatype Waiter = Waiter(task: int, state: Waiting)

  /** `holder` is who the flag was last set by; the real lock only knows whether it is set. */
  datatype Lock = Lock(holder: Option<int>, waiters: seq<Waiter>) {
    predicate Locked() { holder.Some? }

    /** app/concurrency.py `lock_in_use`: held, or queued for. */
    predicate InUse() { Locked() || |waiters| > 0 }

    predicate Queued(t: int) { exists i | 0 <= i < |waiters| :: waiters[i].task == t }

    ghost predicate Is(t: int, state: Waiting) { exists i | 0 <= i < |waiters| :: waiters[i] == Waiter(t, state) }
  }

  const FREE := Lock(None, [])

  /** Taken at once when the flag is clear and nobody live is queued. */
  predicate FastPath(l: Lock) {
    !l.Locked() && forall w | w in l.waiters :: w.state == Cancelled
  }

  function Request(l: Lock, t: int): Lock {
    if FastPath(l) then l.(holder := Some(t)) else l.(waiters := l.waiters + [Waiter(t, Pending)])
  }

  function WakeFirst(l: Lock): Lock {
    if |l.waiters| > 0 && l.waiters[0].state == Pending
    then l.(waiters := [Waiter(l.waiters[0].task, Woken)] + l.waiters[1..])
    else l
  }

  function Release(l: Lock): Lock {
    WakeFirst(l.(holder := None))
  }

  function WithoutTask(ws: seq<Waiter>, t: int): seq<Waiter> {
    if ws == [] then [] else if ws[0].task == t then ws[1..] else [ws[0]] + WithoutTask(ws[1..], t)
  }

  /** A woken waiter runs: it leaves the queue and sets the flag. */
  function Take(l: Lock, t: int): Lock {
    Lock(Some(t), WithoutTask(l.waiters, t))
  }

  function MarkCancelled(ws: seq<Waiter>, t: int): seq<Waiter> {
    if ws == [] then []
    else if ws[0].task == t then
      [Waiter(t, match ws[0].state case Pending => Cancelled case Woken => WokenCancelled case s => s)] + ws[1..]
    else [ws[0]] + MarkCancelled(ws[1..], t)
  }

  function Cancel(l: Lock, t: int): Lock {
    l.(waiters := MarkCancelled(l.waiters, t))
  }

  /** A cancelled waiter runs: it leaves the queue, and passes the wake-up on if the flag is clear. */
  function Withdraw(l: Lock, t: int): Lock {
    var l' := l.(waiters := WithoutTask(l.waiters, t));
    if l'.Locked() then l' else WakeFirst(l')
  }

  // ----- first come, first served ------------------------------------------------

  /** The lock is taken at once when it is free and nobody still wants it; else the task goes to the end. */
  lemma RequestQueues(l: Lock, t: int)
    ensures Request(l, t) ==
      if l.holder == None && forall w | w in l.waiters :: w.state == Cancelled then Lock(Some(t), l.waiters)
      else Lock(l.holder, l.waiters + [Waiter(t, Pending)])
  {
  }

  /** Releasing wakes the first in the queue, unless it has been woken or withdrawn; it does not hand the lock on. */
  lemma ReleaseWakesFirst(l: Lock, first: int, rest: seq<Waiter>, state: Waiting)
    ensures Release(Lock(l.holder, [])) == Lock(None, [])
    ensures Release(Lock(l.holder, [Waiter(first, state)] + rest)) ==
      Lock(None, [Waiter(first, if state == Pending then Woken else state)] + rest)
  {
  }

  /** The place in the queue a task has is its own: taking the lock, withdrawing or being cancelled leaves everybody
      else's order as it was. */
  lemma {:induction false} PlaceInQueue(l: Lock, before: seq<Waiter>, t: int, state: Waiting, after: seq<Waiter>)
    requires l.waiters == before + [Waiter(t, state)] + after && forall w | w in before :: w.task != t
    ensures Take(l, t) == Lock(Some(t), before + after)
    ensures Cancel(l, t) == Lock(l.holder, before + [Waiter(t,
      if state == Pending then Cancelled else if state == Woken then WokenCancelled else state)] + after)
    ensures l.holder.Some? ==> Withdraw(l, t) == Lock(l.holder, before + after)
    ensures l.holder == None && before + after != [] && (before + after)[0].state == Pending ==>
      Withdraw(l, t) == Lock(None, [Waiter((before + after)[0].task, Woken)] + (before + after)[1..])
    ensures l.holder == None && (before + after == [] || (before + after)[0].state != Pending) ==>
      Withdraw(l, t) == Lock(None, before + after)
  {
    OutOfQueue(before, Waiter(t, state), after);
    CancelledInQueue(before, Waiter(t, state), after);
  }

  lemma {:induction false} OutOfQueue(before: seq<Waiter>, w: Waiter, after: seq<Waiter>)
    requires forall v | v in before :: v.task != w.task
    ensures WithoutTask(before + [w] + after, w.task) == before + after
    decreases |before|
  {
    var ws := before + [w] + after;
    if before == [] {
      assert ws[1..] == after && before + after == after;
    } else {
      assert ws[0] == before[0] && ws[1..] == before[1..] + [w] + after;
      OutOfQueue(before[1..], w, after);
      assert [before[0]] + (before[1..] + after) == before + after;
    }
  }

  lemma {:induction false} CancelledInQueue(before: seq<Waiter>, w: Waiter, after: seq<Waiter>)
    requires forall v | v in before :: v.task != w.task
    ensures MarkCancelled(before + [w] + after, w.task) == before + [Waiter(w.task,
      if w.state == Pending then Cancelled else if w.state == Woken then WokenCancelled else w.state)] + after
    decreases |before|
  {
    var ws := before + [w] + after;
    var marked := Waiter(w.task,
      if w.state == Pending then Cancelled else if w.state == Woken then WokenCancelled else w.state);
    if before == [] {
      assert ws[1..] == after && before + [marked] + after == [marked] + after;
    } else {
      assert ws[0] == before[0] && ws[1..] == before[1..] + [w] + after;
      CancelledInQueue(before[1..], w, after);
      assert [before[0]] + (before[1..] + [marked] + after) == before + [marked] + after;
    }
  }

  // ----- the lock's invariant ---------------------------------------------------

  ghost predicate Inv(l: Lock) {
    && (forall i, j | 0 <= i < j < |l.waiters| :: l.waiters[i].task != l.waiters[j].task)
    && (l.holder.Some? ==> !l.Queued(l.holder.value))
    // only the head is ever woken, and only while the flag is clear
    && (forall i | 0 <= i < |l.waiters| :: l.waiters[i].state in {Woken, WokenCancelled} ==> i == 0 && !l.Locked())
    // no lost wake-up: with the flag clear, the head of the queue has something to run
    && (!l.Locked() && |l.waiters| > 0 ==> l.waiters[0].state != Pending)
  }

  lemma RequestKeeps(l: Lock, t: int)
    requires Inv(l) && !l.Queued(t) && l.holder != Some(t)
    ensures Inv(Request(l, t))
    ensures forall u :: u != t ==> (Request(l, t).Queued(u) <==> l.Queued(u))
    ensures forall u :: u != t ==> (Request(l, t).holder == Some(u) <==> l.holder == Some(u))
    ensures if FastPath(l) then Request(l, t).holder == Some(t) && !Request(l, t).Queued(t)
            else Request(l, t).holder == l.holder && Request(l, t).Queued(t)
  {
    var l' := Request(l, t);
    if !FastPath(l) {
      if !l.Locked() {
        var w :| w in l.waiters && w.state != Cancelled;
        assert l'.waiters[0] == l.waiters[0];
      }
      assert l'.waiters[|l.waiters|] == Waiter(t, Pending);
      forall u | u != t ensures l'.Queued(u) <==> l.Queued(u) {
        if l.Queued(u) {
          var i :| 0 <= i < |l.waiters| && l.waiters[i].task == u;
          assert l'.waiters[i].task == u;
        }
      }
    }
  }

  lemma WakeFirstQueued(l: Lock, u: int)
    ensures WakeFirst(l).Queued(u) <==> l.Queued(u)
  {
    var l' := WakeFirst(l);
    assert |l'.waiters| == |l.waiters|;
    assert forall i | 0 <= i < |l.waiters| :: l'.waiters[i].task == l.waiters[i].task;
  }

  lemma WakeFirstKeeps(l: Lock)
    requires !l.Locked()
    requires forall i, j | 0 <= i < j < |l.waiters| :: l.waiters[i].task != l.waiters[j].task
    requires forall i | 0 <= i < |l.waiters| :: l.waiters[i].state in {Woken, WokenCancelled} ==> i == 0
    ensures Inv(WakeFirst(l))
  {
    var l' := WakeFirst(l);
    assert forall i | 0 < i < |l.waiters| :: l'.waiters[i] == l.waiters[i];
  }

  lemma ReleaseKeeps(l: Lock)
    requires Inv(l)
    ensures Inv(Release(l)) && Release(l).holder == None
    ensures forall u :: Release(l).Queued(u) <==> l.Queued(u)
  {
    WakeFirstKeeps(l.(holder := None));
    forall u ensures Release(l).Queued(u) <==> l.Queued(u) {
      WakeFirstQueued(l.(holder := None), u);
    }
  }

  function Skip(n: nat, i: nat): nat { if i < n then i else i + 1 }

  predicate Holds(ws: seq<Waiter>, t: int) { exists i | 0 <= i < |ws| :: ws[i].task == t }

  /** Removing one task's entry leaves the other entries, in order. */
  lemma {:induction false} RemovedOne(ws: seq<Waiter>, t: int) returns (n: nat)
    requires Holds(ws, t)
    ensures n < |ws| && ws[n].task == t
    ensures |WithoutTask(ws, t)| == |ws| - 1
    ensures forall i | 0 <= i < |ws| - 1 :: WithoutTask(ws, t)[i] == ws[Skip(n, i)]
  {
    if ws[0].task == t {
      n := 0;
    } else {
      var k :| 0 <= k < |ws| && ws[k].task == t;
      assert ws[1..][k - 1].task == t;
      var m := RemovedOne(ws[1..], t);
      n := m + 1;
      var rest := WithoutTask(ws[1..], t);
      assert WithoutTask(ws, t) == [ws[0]] + rest;
      forall i | 0 <= i < |ws| - 1 ensures WithoutTask(ws, t)[i] == ws[Skip(n, i)] {
        if i > 0 {
          assert rest[i - 1] == ws[1..][Skip(m, i - 1)];
        }
      }
    }
  }

  lemma QueuedAfter(l: Lock, t: int, holder: Option<int>, u: int)
    requires Inv(l) && l.Queued(t)
    ensures Lock(holder, WithoutTask(l.waiters, t)).Queued(u) <==> u != t && l.Queued(u)
  {
    var n := RemovedOne(l.waiters, t);
    var l' := Lock(holder, WithoutTask(l.waiters, t));
    if l'.Queued(u) {
      var i :| 0 <= i < |l'.waiters| && l'.waiters[i].task == u;
      assert l.waiters[Skip(n, i)].task == u;
    }
    if u != t && l.Queued(u) {
      var i :| 0 <= i < |l.waiters| && l.waiters[i].task == u;
      var k := if i < n then i else i - 1;
      assert Skip(n, k) == i;
      assert l'.waiters[k].task == u;
    }
  }

  lemma TakeKeeps(l: Lock, t: int)
    requires Inv(l) && l.Is(t, Woken)
    ensures Inv(Take(l, t)) && Take(l, t).holder == Some(t)
    ensures !l.Locked()
    ensures forall u :: Take(l, t).Queued(u) <==> u != t && l.Queued(u)
  {
    var h :| 0 <= h < |l.waiters| && l.waiters[h] == Waiter(t, Woken);
    assert l.Queued(t);
    var n := RemovedOne(l.waiters, t);
    forall u ensures Take(l, t).Queued(u) <==> u != t && l.Queued(u) {
      QueuedAfter(l, t, Some(t), u);
    }
  }

  lemma WithdrawKeeps(l: Lock, t: int)
    requires Inv(l) && l.Queued(t)
    ensures Inv(Withdraw(l, t)) && Withdraw(l, t).holder == l.holder
    ensures forall u :: Withdraw(l, t).Queued(u) <==> u != t && l.Queued(u)
  {
    var n := RemovedOne(l.waiters, t);
    var l' := l.(waiters := WithoutTask(l.waiters, t));
    forall u ensures l'.Queued(u) <==> u != t && l.Queued(u) {
      QueuedAfter(l, t, l.holder, u);
    }
    if !l.Locked() {
      WakeFirstKeeps(l');
      forall u ensures WakeFirst(l').Queued(u) <==> l'.Queued(u) {
        WakeFirstQueued(l', u);
      }
    }
  }

  lemma {:induction false} MarkCancelledIs(ws: seq<Waiter>, t: int)
    ensures var ms := MarkCancelled(ws, t);
      && |ms| == |ws|
      && forall i | 0 <= i < |ws| :: ms[i].task == ws[i].task
           && (ms[i].state == Pending ==> ws[i].state == Pending)
           && (ms[i].state in {Woken, WokenCancelled} ==> ws[i].state in {Woken, WokenCancelled})
  {
    if ws != [] && ws[0].task != t {
      MarkCancelledIs(ws[1..], t);
      var ms := MarkCancelled(ws, t);
      forall i | 0 < i < |ws| ensures ms[i] == MarkCancelled(ws[1..], t)[i - 1] && ws[i] == ws[1..][i - 1] {
      }
    }
  }

  lemma CancelKeeps(l: Lock, t: int)
    requires Inv(l)
    ensures Inv(Cancel(l, t)) && Cancel(l, t).holder == l.holder
    ensures forall u :: Cancel(l, t).Queued(u) <==> l.Queued(u)
  {
    MarkCancelledIs(l.waiters, t);
  }

  /** Who is cancelled while queued is marked so, and whether they had been woken. */
  lemma CancelledIs(l: Lock, t: int)
    requires Inv(l) && l.Queued(t)
    ensures Cancel(l, t).Is(t, Cancelled) || Cancel(l, t).Is(t, WokenCancelled)
  {
    hide MarkCancelled;
    var i :| 0 <= i < |l.waiters| && l.waiters[i].task == t;
    var before, w, after := l.waiters[..i], l.waiters[i], l.waiters[i + 1..];
    assert l.waiters == before + [w] + after;
    CancelledInQueue(before, w, after);
    assert Cancel(l, t).waiters[i].task == t;
    assert Cancel(l, t).Is(t, Cancel(l, t).waiters[i].state);
  }

  /** Why eviction must count waiters: a lock just released to a waiter reads unlocked. Dropping it
      then lets a newcomer hold a fresh lock while the woken waiter takes the old one. */
  lemma UnlockedIsNotIdle(a: int, b: int, c: int)
    requires a != b
    ensures var released := Release(Request(Request(FREE, a), b));
      && !released.Locked() && released.InUse()
      && released.Is(b, Woken) && Take(released, b).holder == Some(b)
      && Request(FREE, c).holder == Some(c)
  {
    var released := Release(Request(Request(FREE, a), b));
    assert released.waiters == [Waiter(b, Woken)];
    assert released.waiters[0] == Waiter(b, Woken);
  }
}
