/** The futex-word primitives of the runtime, run by one thread at a time.
    A compare-and-swap is one atomic step. A futex wait that would block has
    no one to wake it, so an operation that would block forever on a word it
    cannot change is given the requirement that rules that case out, and a
    wait that does return is modelled by the raw value `rc` the kernel hands
    back. The futex wake calls are reported by the number of waiters they
    ask to wake. */
module Sync {
  import opened Machine
  import opened Syscall

  /** z_mutex_t: a futex word, 0 when free and 1 when held. */
  class Mutex {
    var word: int

    constructor ()
      ensures word == 0
    {
      word := 0;
    }

    /** One pass of the loop in z_mutex_lock. A free mutex is taken. A held
        one parks the caller in FUTEX_WAIT until the holder unlocks, after
        which the loop tries again. Any other word makes FUTEX_WAIT return
        EAGAIN at once, and the loop retries without change. */
    method TryLock() returns (step: LockStep)
      modifies this
      ensures old(word) == 0 ==> step == Acquired && word == 1
      ensures old(word) == 1 ==> step == Parked && word == 1
      ensures old(word) != 0 && old(word) != 1 ==> step == Retry && word == old(word)
    {
      if word == 0 {
        word := 1;
        return Acquired;
      }
      if word == 1 {
        return Parked;
      }
      return Retry;
    }

    /** z_mutex_lock on a free mutex: the first pass takes it. */
    method Lock()
      requires word == 0
      modifies this
      ensures word == 1
    {
      var step := TryLock();
    }

    /** z_mutex_unlock: only a held mutex (word 1) is released, and only
        then are all waiters woken. */
    method Unlock() returns (wake: int)
      modifies this
      ensures old(word) == 1 ==> word == 0 && wake == INT_MAX
      ensures old(word) != 1 ==> word == old(word) && wake == 0
    {
      wake := 0;
      if word == 1 {
        word := 0;
        wake := INT_MAX;
      }
    }
  }

  /** The outcome of one pass of the mutex loop. */
  datatype LockStep = Acquired | Parked | Retry

  /** z_cond_t: a flag that remembers one signal until a waiter consumes
      it. */
  class Cond {
    var flag: int

    constructor ()
      ensures flag == 0
    {
      flag := 0;
    }

    /** z_cond_signal: raises the flag if it was down and then wakes one
        waiter; a raised flag is left alone and nobody is woken. */
    method Signal() returns (wake: int)
      modifies this
      ensures old(flag) == 0 ==> flag == 1 && wake == 1
      ensures old(flag) != 0 ==> flag == old(flag) && wake == 0
    {
      wake := 0;
      if flag == 0 {
        flag := 1;
        wake := 1;
      }
    }

    /** z_cond_broadcast: as Signal, but wakes every waiter. */
    method Broadcast() returns (wake: int)
      modifies this
      ensures old(flag) == 0 ==> flag == 1 && wake == INT_MAX
      ensures old(flag) != 0 ==> flag == old(flag) && wake == 0
    {
      wake := 0;
      if flag == 0 {
        flag := 1;
        wake := INT_MAX;
      }
    }

    /** One pass of the loop in z_cond_wait. A raised flag is consumed and
        the wait is over. Otherwise the mutex, if any, is released around
        FUTEX_WAIT, which returns `rc`, and is taken again; the wait is over
        when the decoded result is the ETIMEDOUT error, and the loop goes
        round again otherwise. */
    method WaitStep(m: Mutex?, rc: Int64) returns (done: bool)
      requires m != null ==> m.word == 0 || m.word == 1
      modifies this, m
      ensures old(flag) == 1 ==> done && flag == 0 && (m != null ==> m.word == old(m.word))
      ensures old(flag) != 1 ==> flag == old(flag) && (m != null ==> m.word == 1)
      ensures old(flag) != 1 ==> (done <==> rc == -ETIMEDOUT)
    {
      if flag == 1 {
        flag := 0;
        return true;
      }
      if m != null {
        var wake := m.Unlock();
      }
      var r := Wrapped(IntResult, rc);
      if m != null {
        m.Lock();
      }
      done := r.v < 0 && r.e == ETIMEDOUT;
    }
  }

  /** z_rwlock_t: a reader count guarded by `rMutex`, and `wMutex`, held by
      the writer or, on behalf of all of them, by the readers. The ghost
      `writer` records whether a writer holds the lock. */
  class RwLock {
    var rCount: int
    const rMutex: Mutex
    const wMutex: Mutex
    ghost var writer: bool

    /** Between operations `rMutex` is free; `wMutex` is held exactly when
        there are readers or a writer, never both. */
    ghost predicate Valid()
      reads this, rMutex, wMutex
    {
      && rMutex != wMutex
      && rCount >= 0
      && !(rCount > 0 && writer)
      && rMutex.word == 0
      && wMutex.word == if rCount > 0 || writer then 1 else 0
    }

    constructor ()
      ensures Valid() && rCount == 0 && !writer
      ensures fresh(rMutex) && fresh(wMutex)
    {
      rCount := 0;
      rMutex := new Mutex();
      wMutex := new Mutex();
      writer := false;
    }

    /** z_rwlock_read_lock without a writer present: the count goes up, and
        the first reader takes `wMutex` for all readers. */
    method ReadLock() returns (tookWriteMutex: bool)
      requires Valid() && !writer
      modifies this, rMutex, wMutex
      ensures Valid() && !writer
      ensures rCount == old(rCount) + 1
      ensures tookWriteMutex <==> rCount == 1
      ensures tookWriteMutex ==> old(wMutex.word) == 0
    {
      rMutex.Lock();
      rCount := rCount + 1;
      tookWriteMutex := rCount == 1;
      if tookWriteMutex {
        wMutex.Lock();
      }
      var wake := rMutex.Unlock();
    }

    /** z_rwlock_read_unlock by a reader: the count goes down, and the last
        reader releases `wMutex`. */
    method ReadUnlock() returns (releasedWriteMutex: bool)
      requires Valid() && rCount > 0
      modifies this, rMutex, wMutex
      ensures Valid() && !writer
      ensures rCount == old(rCount) - 1
      ensures releasedWriteMutex <==> rCount == 0
      ensures wMutex.word == if rCount == 0 then 0 else 1
    {
      rMutex.Lock();
      rCount := rCount - 1;
      releasedWriteMutex := rCount == 0;
      if releasedWriteMutex {
        var wake := wMutex.Unlock();
      }
      var wake := rMutex.Unlock();
    }

    /** z_rwlock_write_lock when neither readers nor a writer hold the lock. */
    method WriteLock()
      requires Valid() && rCount == 0 && !writer
      modifies this, wMutex
      ensures Valid() && writer && rCount == 0
      ensures wMutex.word == 1
    {
      wMutex.Lock();
      writer := true;
    }

    /** z_rwlock_write_unlock by the writer. */
    method WriteUnlock()
      requires Valid() && writer
      modifies this, wMutex
      ensures Valid() && !writer && rCount == 0
      ensures wMutex.word == 0
    {
      var wake := wMutex.Unlock();
      writer := false;
    }
  }

  /** A signal sent while nobody waits is remembered, and a second one adds
      nothing: the next wait returns at once and lowers the flag. */
  method SignalsCollapse() returns (wakes: seq<int>, done: bool, flag: int)
    ensures wakes == [1, 0] && done && flag == 0
  {
    var c := new Cond();
    var w1 := c.Signal();
    var w2 := c.Signal();
    done := c.WaitStep(null, 0);
    wakes := [w1, w2];
    flag := c.flag;
  }

  /** Two readers share the lock: only the first takes `wMutex`, only the
      last releases it, and then a writer can take it. */
  method ReadersHandOff() returns (took: seq<bool>, released: seq<bool>, writerHolds: bool)
    ensures took == [true, false] && released == [false, true] && writerHolds
  {
    var l := new RwLock();
    var t1 := l.ReadLock();
    var t2 := l.ReadLock();
    var r1 := l.ReadUnlock();
    var r2 := l.ReadUnlock();
    l.WriteLock();
    took := [t1, t2];
    released := [r1, r2];
    writerHolds := l.wMutex.word == 1;
  }
}
