/** app/concurrency.py TaskReentrantLock: an asyncio.Lock its holder may take again. */
module ReentrantLock {
  import opened Options
  import opened AsyncLock

  class TaskReentrantLock {
    var lock: Lock
    var owner: Option<int>
    var depth: nat

    /** Each task's open `async with` blocks on this lock; absent means none. */
    ghost var nestings: map<int, nat>

    /** The depth is exactly its owner's open nestings, and nobody else has any. */
    ghost predicate Valid()
      reads this
    {
      && AsyncLock.Inv(lock)
      && lock.holder == owner
      && nestings == (if owner.Some? then map[owner.value := depth] else map[])
      && (owner.Some? <==> depth > 0)
    }

    ghost function Open(task: int): nat
      reads this
    {
      if task in nestings then nestings[task] else 0
    }

    constructor ()
      ensures Valid() && nestings == map[] && lock == FREE
    {
      lock, owner, depth := FREE, None, 0;
      nestings := map[];
    }

    predicate InUse()
      reads this
    {
      lock.InUse()
    }

    /** `__aenter__` up to its await. Either the task is in, one nesting deeper, or it is queued. */
    method Enter(task: int) returns (entered: bool)
      requires Valid() && !lock.Queued(task)
      modifies this
      ensures Valid()
      ensures entered <==> old(owner == Some(task) || FastPath(lock))
      ensures nestings == if entered then old(nestings)[task := old(Open(task)) + 1] else old(nestings)
      ensures entered ==> owner == Some(task)
      ensures depth == if !entered then old(depth) else if old(owner) == Some(task) then old(depth) + 1 else 1
      ensures !entered ==> owner == old(owner) && lock.Queued(task)
      ensures lock == if old(owner) == Some(task) then old(lock) else Request(old(lock), task)
    {
      if owner.Some? && owner.value == task {
        depth := depth + 1;
        nestings := nestings[task := depth];
        return true;
      }
      RequestKeeps(lock, task);
      entered := FastPath(lock);
      lock := Request(lock, task);
      if entered {
        owner, depth := Some(task), 1;
        nestings := nestings[task := 1];
      }
    }

    /** `__aenter__` after its await: the woken task takes the lock. */
    method Resume(task: int)
      requires Valid() && lock.Is(task, Woken)
      modifies this
      ensures Valid() && owner == Some(task) && Open(task) == 1
      ensures lock == Take(old(lock), task) && depth == 1
    {
      TakeKeeps(lock, task);
      lock := Take(lock, task);
      owner, depth := Some(task), 1;
      nestings := map[task := 1];
    }

    /** A task cancelled while it waits gives up its place, and no nesting was ever opened. */
    method GiveUp(task: int)
      requires Valid() && (lock.Is(task, Cancelled) || lock.Is(task, WokenCancelled))
      modifies this
      ensures Valid() && nestings == old(nestings) && owner == old(owner) && !lock.Queued(task)
      ensures lock == Withdraw(old(lock), task) && depth == old(depth)
    {
      assert lock.Queued(task);
      WithdrawKeeps(lock, task);
      lock := Withdraw(lock, task);
    }

    /** `__aexit__`: the lock is let go exactly when the outermost block closes. */
    method Exit(task: int)
      requires Valid() && owner == Some(task)
      modifies this
      ensures Valid()
      ensures Open(task) == old(Open(task)) - 1 && depth == old(depth) - 1
      ensures owner == if old(depth) == 1 then None else Some(task)
      ensures lock == if old(depth) == 1 then Release(old(lock)) else old(lock)
    {
      depth := depth - 1;
      nestings := if depth == 0 then map[] else map[task := depth];
      if depth == 0 {
        owner := None;
        ReleaseKeeps(lock);
        lock := Release(lock);
      }
    }
  }
}
