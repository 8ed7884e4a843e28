/** The pool of browser sessions (`WebDriverPool`): a first-in-first-out
    queue filled with one session per worker, handed out by `acquire`,
    given back by `release`, and drained on exit, each drained session being
    quit. The model is sequential: the real queue blocks an `acquire` on an
    empty queue until another thread releases, which a single caller can
    never see, so here `acquire` needs a session to be available. */
module DriverPool {

  /** An opaque browser session; construction starts session i as the i-th. */
  datatype Session = Session(id: nat)

  /** The sessions construction starts, in the order it queues them. */
  function Spawned(n: nat): seq<Session>
  {
    seq(n, (i: nat) => Session(i))
  }

  /** Every started session exists exactly once, so the pool never holds
      one session twice. */
  lemma {:induction false} SpawnedOnce(n: nat, s: Session)
    ensures multiset(Spawned(n))[s] == if s.id < n then 1 else 0
  {
    if n > 0 {
      SpawnedOnce(n - 1, s);
      assert Spawned(n) == Spawned(n - 1) + [Session(n - 1)];
    }
  }

  /** The pool's conservation law: every started session is in exactly one
      place, available in the queue, checked out by a caller, or quit. */
  ghost predicate Conserved(workers: seq<Session>, outstanding: multiset<Session>,
                            quitLog: seq<Session>, n: nat)
  {
    multiset(workers) + outstanding + multiset(quitLog) == multiset(Spawned(n))
  }

  /** Available, checked-out and quit sessions add up to the pool size. */
  lemma ConservedCount(workers: seq<Session>, outstanding: multiset<Session>,
                       quitLog: seq<Session>, n: nat)
    requires Conserved(workers, outstanding, quitLog, n)
    ensures |workers| + |outstanding| + |quitLog| == n
  {
    assert |multiset(Spawned(n))| == n;
  }

  /** Because started sessions are distinct, a session that is checked out
      is neither waiting in the queue nor quit, and a quit session was quit
      only once. */
  lemma ConservedDisjoint(workers: seq<Session>, outstanding: multiset<Session>,
                          quitLog: seq<Session>, n: nat, s: Session)
    requires Conserved(workers, outstanding, quitLog, n)
    ensures s in outstanding ==> s !in workers && s !in quitLog
    ensures s in workers ==> s !in quitLog
    ensures multiset(quitLog)[s] <= 1
  {
    SpawnedOnce(n, s);
    assert (multiset(workers) + outstanding + multiset(quitLog))[s]
        == multiset(workers)[s] + outstanding[s] + multiset(quitLog)[s];
  }

  class WebDriverPool {
    /** The number of sessions the pool starts (`max_workers`). */
    const maxWorkers: nat
    /** The queue of available sessions, front first. */
    var workers: seq<Session>
    /** The sessions on which `quit()` was called, in call order. */
    var quitLog: seq<Session>
    /** The sessions acquired and not yet released. */
    ghost var outstanding: multiset<Session>

    ghost predicate Valid()
      reads this
    {
      Conserved(workers, outstanding, quitLog, maxWorkers)
    }

    /** `__post_init__`: start `maxWorkers` sessions and queue them in order. */
    constructor (maxWorkers: nat)
      ensures this.maxWorkers == maxWorkers
      ensures workers == Spawned(maxWorkers)
      ensures quitLog == [] && outstanding == multiset{}
      ensures Valid()
    {
      var started: seq<Session> := [];
      for i := 0 to maxWorkers
        invariant started == Spawned(i)
      {
        started := started + [Session(i)];
      }
      this.maxWorkers := maxWorkers;
      workers := started;
      quitLog := [];
      outstanding := multiset{};
    }

    /** `__enter__` hands back the pool itself, unchanged. */
    method Enter() returns (pool: WebDriverPool)
      ensures pool == this
    {
      pool := this;
    }

    /** `acquire`: take the session at the front of the queue. */
    method Acquire() returns (s: Session)
      requires Valid() && |workers| > 0
      modifies this
      ensures s == old(workers)[0] && workers == old(workers)[1..]
      ensures outstanding == old(outstanding) + multiset{s}
      ensures quitLog == old(quitLog)
      ensures Valid()
    {
      s := workers[0];
      assert workers == [s] + workers[1..];
      workers := workers[1..];
      outstanding := outstanding + multiset{s};
    }

    /** `release`: put a session at the back of the queue. The queue accepts
        any session; the conservation law survives when it is one that was
        checked out. */
    method Release(s: Session)
      requires Valid()
      modifies this
      ensures workers == old(workers) + [s]
      ensures outstanding == old(outstanding) - multiset{s}
      ensures quitLog == old(quitLog)
      ensures s in old(outstanding) ==> Valid()
    {
      workers := workers + [s];
      outstanding := outstanding - multiset{s};
    }

    /** `__exit__`: while the queue is not empty, take its front session and
        quit it. Sessions still checked out are not quit. */
    method Exit()
      requires Valid()
      modifies this
      ensures workers == []
      ensures quitLog == old(quitLog) + old(workers)
      ensures outstanding == old(outstanding)
      ensures Valid()
    {
      while |workers| > 0
        invariant quitLog + workers == old(quitLog) + old(workers)
        invariant outstanding == old(outstanding)
        invariant Valid()
        decreases |workers|
      {
        var s := workers[0];
        assert workers == [s] + workers[1..];
        workers := workers[1..];
        quitLog := quitLog + [s];
      }
    }
  }

  /** A pool made, entered and exited with nothing checked out quits every
      session it started exactly once. */
  method LifecycleQuitsAll(n: nat) returns (quitLog: seq<Session>)
    ensures forall s :: multiset(quitLog)[s] == if s.id < n then 1 else 0
  {
    var pool := new WebDriverPool(n);
    var entered := pool.Enter();
    entered.Exit();
    quitLog := entered.quitLog;
    forall s ensures multiset(quitLog)[s] == if s.id < n then 1 else 0 {
      SpawnedOnce(n, s);
    }
  }
}
