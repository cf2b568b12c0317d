/**
 * Admission control of the pooled server, on values.  The accept loop admits a
 * connection while the live-client counter is below the pool's maximum size and
 * refuses it otherwise; every worker that runs decrements the counter once when
 * it ends.  Admissions and worker exits happen on different threads; here they
 * are one sequential interleaving of events.
 */
module Admission {

  /** The executor's maximum pool size, the capacity the accept loop compares against. */
  const MAX_POOL_SIZE: int := 4

  datatype Event =
    | Connect             // accept() returned a client socket
    | AcceptError         // accept() threw an IOException
    | Exit(id: nat)       // worker `id` ran to its end and decremented the counter
    | ExitReclaimed(id: nat) // worker `id` found its socket reference cleared and returned early

  /**
   * The counter (sClientCount), the admitted workers that have not ended yet (by
   * dispatch number; the executor may still hold some of them in its queue)
   * and the number of workers dispatched so far.
   */
  datatype Pool = Pool(count: int, live: set<nat>, dispatched: nat)

  /** The admission test of the accept loop. */
  predicate Admits(count: int)
  {
    count < MAX_POOL_SIZE
  }

  /** The pool right after start() resets the counter. */
  function Fresh(): Pool
  {
    Pool(0, {}, 0)
  }

  /** The counter stays within bounds and counts at least every admitted worker that has not ended. */
  ghost predicate Inv(p: Pool)
  {
    && 0 <= p.count <= MAX_POOL_SIZE
    && |p.live| <= p.count
    && forall id :: id in p.live ==> id < p.dispatched
  }

  /** The counter counts exactly the admitted workers that have not ended (no slot has leaked). */
  ghost predicate Balanced(p: Pool)
  {
    p.count == |p.live|
  }

  /**
   * One event.  An exit of a worker that has already ended is no event of the
   * source; it changes nothing.
   */
  function Step(p: Pool, e: Event): (r: Pool)
    ensures p.dispatched <= r.dispatched <= p.dispatched + 1
    ensures r.dispatched != p.dispatched ==> e.Connect? && r.live == p.live + {p.dispatched}
    ensures r.live <= p.live + {p.dispatched}
    ensures r.count > p.count ==> e.Connect? && Admits(p.count) && r.count == p.count + 1
    ensures r.count < p.count ==> e.Exit? && e.id in p.live && r.count == p.count - 1
  {
    match e
    case Connect =>
      if Admits(p.count) then Pool(p.count + 1, p.live + {p.dispatched}, p.dispatched + 1)
      else p
    case AcceptError => p
    case Exit(id) =>
      if id in p.live then Pool(p.count - 1, p.live - {id}, p.dispatched) else p
    case ExitReclaimed(id) =>
      if id in p.live then Pool(p.count, p.live - {id}, p.dispatched) else p
  }

  /** A schedule of events, applied in order. */
  function Run(p: Pool, events: seq<Event>): (r: Pool)
    decreases |events|
  {
    if events == [] then p else Step(Run(p, events[..|events| - 1]), events[|events| - 1])
  }

  /**
   * A schedule dispatches at most one worker per event, and the workers that have
   * not ended after it had not ended before or were dispatched by it.
   */
  lemma {:induction false} RunOnlyAddsDispatched(p: Pool, events: seq<Event>)
    ensures p.dispatched <= Run(p, events).dispatched <= p.dispatched + |events|
    ensures forall id :: id in Run(p, events).live ==> id in p.live || p.dispatched <= id < Run(p, events).dispatched
    decreases |events|
  {
    if events != [] {
      RunOnlyAddsDispatched(p, events[..|events| - 1]);
    }
  }

  /** A schedule extended by its next event. */
  lemma RunNext(p: Pool, events: seq<Event>, i: nat)
    requires i < |events|
    ensures Run(p, events[..i + 1]) == Step(Run(p, events[..i]), events[i])
  {
    assert events[..i + 1][..i] == events[..i];
  }

  /**
   * The admission rule: a connection is refused exactly when the counter has
   * reached the maximum; a refusal changes nothing and dispatches nobody; an
   * admission adds exactly one to the counter and one worker that has not ended.
   */
  lemma AdmissionRule(p: Pool)
    requires Inv(p)
    ensures Step(p, Connect).dispatched == p.dispatched <==> p.count >= MAX_POOL_SIZE
    ensures p.count >= MAX_POOL_SIZE ==> Step(p, Connect) == p
    ensures p.count < MAX_POOL_SIZE ==>
      && Step(p, Connect).count == p.count + 1
      && Step(p, Connect).dispatched == p.dispatched + 1
      && Step(p, Connect).live == p.live + {p.dispatched}
      && p.dispatched !in p.live
  {
  }

  lemma StepPreservesInv(p: Pool, e: Event)
    requires Inv(p)
    ensures Inv(Step(p, e))
    ensures Balanced(p) && !e.ExitReclaimed? ==> Balanced(Step(p, e))
  {
  }

  /** Every schedule keeps the counter between 0 and the maximum. */
  lemma {:induction false} RunPreservesInv(p: Pool, events: seq<Event>)
    requires Inv(p)
    ensures Inv(Run(p, events))
    decreases |events|
  {
    if events != [] {
      RunPreservesInv(p, events[..|events| - 1]);
      StepPreservesInv(Run(p, events[..|events| - 1]), events[|events| - 1]);
    }
  }

  /** From start, at no point of any schedule does the counter exceed the maximum. */
  lemma NeverOverCapacity(events: seq<Event>, k: nat)
    requires k <= |events|
    ensures 0 <= Run(Fresh(), events[..k]).count <= MAX_POOL_SIZE
  {
    RunPreservesInv(Fresh(), events[..k]);
  }

  lemma {:induction false} RunAppend(p: Pool, a: seq<Event>, b: seq<Event>)
    ensures Run(p, a + b) == Run(Run(p, a), b)
    decreases |b|
  {
    if b == [] {
      assert a + b == a;
    } else {
      assert (a + b)[..|a + b| - 1] == a + b[..|b| - 1];
      RunAppend(p, a, b[..|b| - 1]);
    }
  }

  /** `n` connection attempts in a row. */
  function Connects(n: nat): (es: seq<Event>)
    ensures |es| == n
  {
    if n == 0 then [] else Connects(n - 1) + [Connect]
  }

  /** Normal exits of the workers numbered first, first + 1, ..., first + n - 1. */
  function Exits(first: nat, n: nat): (es: seq<Event>)
    ensures |es| == n
  {
    if n == 0 then [] else Exits(first, n - 1) + [Exit(first + n - 1)]
  }

  /** One more admission after n - 1 of them, starting from `p`. */
  lemma AdmitNext(p: Pool, q: Pool, n: nat)
    requires 0 < n && p.count + n <= MAX_POOL_SIZE
    requires q.count == p.count + n - 1 && q.dispatched == p.dispatched + n - 1
    requires forall id :: id in q.live <==> id in p.live || p.dispatched <= id < p.dispatched + n - 1
    ensures Step(q, Connect).count == p.count + n
    ensures Step(q, Connect).dispatched == p.dispatched + n
    ensures forall id :: id in Step(q, Connect).live <==>
      id in p.live || p.dispatched <= id < p.dispatched + n
  {
    assert Step(q, Connect) == Pool(q.count + 1, q.live + {q.dispatched}, q.dispatched + 1);
  }

  /** Admissions while there is room each dispatch the next worker. */
  lemma {:induction false} RunConnects(p: Pool, n: nat)
    requires p.count + n <= MAX_POOL_SIZE
    ensures Run(p, Connects(n)).count == p.count + n
    ensures Run(p, Connects(n)).dispatched == p.dispatched + n
    ensures forall id :: id in Run(p, Connects(n)).live <==>
      id in p.live || p.dispatched <= id < p.dispatched + n
  {
    if n > 0 {
      assert Connects(n)[..n - 1] == Connects(n - 1);
      RunConnects(p, n - 1);
      AdmitNext(p, Run(p, Connects(n - 1)), n);
      assert Run(p, Connects(n)) == Step(Run(p, Connects(n - 1)), Connect);
    }
  }

  /** Exits of workers that have not ended each give back one slot. */
  lemma {:induction false} RunExits(p: Pool, first: nat, n: nat)
    requires forall id :: first <= id < first + n ==> id in p.live
    ensures Run(p, Exits(first, n)).count == p.count - n
    ensures Run(p, Exits(first, n)).dispatched == p.dispatched
    ensures forall id :: id in Run(p, Exits(first, n)).live <==>
      id in p.live && !(first <= id < first + n)
  {
    if n > 0 {
      assert Exits(first, n)[..n - 1] == Exits(first, n - 1);
      RunExits(p, first, n - 1);
    }
  }

  /** `n` admissions followed by the exits of those `n` workers restore the counter. */
  lemma AdmissionsThenExitsRestore(p: Pool, n: nat)
    requires Inv(p) && p.count + n <= MAX_POOL_SIZE
    ensures Run(p, Connects(n) + Exits(p.dispatched, n)).count == p.count
    ensures Run(p, Connects(n) + Exits(p.dispatched, n)).live == p.live
  {
    RunAppend(p, Connects(n), Exits(p.dispatched, n));
    RunConnects(p, n);
    var q := Run(p, Connects(n));
    RunExits(q, p.dispatched, n);
    assert Run(q, Exits(p.dispatched, n)).live == p.live;
  }

  /** An exit undoes the admission of the same worker. */
  lemma ExitUndoesAdmission(p: Pool)
    requires Inv(p) && Admits(p.count)
    ensures Step(Step(p, Connect), Exit(p.dispatched)) == Pool(p.count, p.live, p.dispatched + 1)
  {
  }

  /** A worker gives back its slot once: a second exit of it changes nothing. */
  lemma ExitReleasesOnce(p: Pool, id: nat)
    requires id in p.live
    ensures Step(p, Exit(id)).count == p.count - 1
    ensures Step(Step(p, Exit(id)), Exit(id)) == Step(p, Exit(id))
    ensures Step(Step(p, Exit(id)), ExitReclaimed(id)) == Step(p, Exit(id))
  {
  }

  /**
   * A worker that has ended stays ended whatever happens next: no later exit
   * of it changes the pool, so it never gives back a second slot.
   */
  lemma ExitedWorkerStaysEnded(p: Pool, id: nat, events: seq<Event>)
    requires Inv(p) && id in p.live
    ensures id !in Run(Step(p, Exit(id)), events).live
    ensures Step(Run(Step(p, Exit(id)), events), Exit(id)) == Run(Step(p, Exit(id)), events)
    ensures Step(Run(Step(p, Exit(id)), events), ExitReclaimed(id)) == Run(Step(p, Exit(id)), events)
  {
    RunOnlyAddsDispatched(Step(p, Exit(id)), events);
  }

  /** No schedule event is an early-return exit. */
  ghost predicate NoReclaim(events: seq<Event>)
  {
    forall k :: 0 <= k < |events| ==> !events[k].ExitReclaimed?
  }

  /** The slots held beyond the workers that have not ended: only an early-return exit changes them. */
  function Slack(p: Pool): int
  {
    p.count - |p.live|
  }

  lemma StepKeepsSlack(p: Pool, e: Event)
    requires Inv(p) && !e.ExitReclaimed?
    ensures Slack(Step(p, e)) == Slack(p)
  {
    assert p.dispatched !in p.live;
  }

  /** Under any interleaving without early returns, the counter minus the workers that have not ended stays fixed. */
  lemma {:induction false} RunKeepsSlack(p: Pool, events: seq<Event>)
    requires Inv(p) && NoReclaim(events)
    ensures Slack(Run(p, events)) == Slack(p)
    decreases |events|
  {
    if events != [] {
      var init := events[..|events| - 1];
      assert NoReclaim(init) by {
        forall k | 0 <= k < |init| ensures !init[k].ExitReclaimed? {
          assert init[k] == events[k];
        }
      }
      RunKeepsSlack(p, init);
      RunPreservesInv(p, init);
      StepKeepsSlack(Run(p, init), events[|events| - 1]);
    }
  }

  /**
   * In any interleaving without early returns, once the same workers are
   * left unended again the counter is back where it was: every admitted client's
   * slot has been given back.
   */
  lemma SameWorkersSameCount(p: Pool, events: seq<Event>)
    requires Inv(p) && NoReclaim(events) && Run(p, events).live == p.live
    ensures Run(p, events).count == p.count
  {
    RunKeepsSlack(p, events);
  }

  /** A worker that returns early never gives back its slot. */
  lemma ReclaimedExitLeaksSlot(p: Pool, id: nat)
    requires Inv(p) && id in p.live
    ensures Step(p, ExitReclaimed(id)).count == p.count
    ensures !Balanced(Step(p, ExitReclaimed(id)))
  {
  }

  /** From start, `n` connection attempts with no exit admit min(n, MAX_POOL_SIZE) clients. */
  lemma {:induction false} BurstFromStart(n: nat)
    ensures Run(Fresh(), Connects(n)).count == if n <= MAX_POOL_SIZE then n else MAX_POOL_SIZE
    ensures Run(Fresh(), Connects(n)).dispatched == Run(Fresh(), Connects(n)).count
  {
    if n > 0 {
      assert Connects(n)[..n - 1] == Connects(n - 1);
      BurstFromStart(n - 1);
    }
  }
}
