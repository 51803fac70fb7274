/**
 * The settlement submitter under threads: every atomic access to the shared fields is a step of its
 * own, the lock covers nonce, signing and sending, and the reset after a failure happens outside it.
 */
module SettlementRuns {
  import opened Base
  import opened Settlement

  /** A thread's place inside a submission. */
  datatype Point =
    | Waiting                 // for the lock
    | Locked                  // lock taken
    | HavePending(p: int)     // pending count read
    | SawLast(p: int)         // the cache was found non-empty, not yet read
    | Computed(p: int, found: Option<int>, n: int)  // nonce computed from what the cache held, not yet written
    | Issued(n: int)          // cache written
    | Accepted(n: int)        // the node accepted the transaction
    | Failing                 // exception raised, lock released
    | Cleared                 // cache reset, id not yet discarded

  /** A submission is for a settlement id, or (deposits, disputes) for none. */
  datatype Thread = Idle | Unseen(id: string) | Busy(job: Option<string>, at: Point)

  /** A nonce handed out, with the pending count read for it and what the cache held. */
  datatype Grant = Grant(n: int, pending: int, found: Option<int>)

  datatype State = State(
    threads: map<nat, Thread>,
    holder: Option<nat>,
    last: Option<int>,
    submitted: set<string>,
    issued: seq<int>,        // nonces issued since the last reset
    grants: seq<Grant>,      // all nonces issued
    used: seq<int>,          // nonces of accepted transactions
    accepted: seq<string>,   // settlement ids of accepted transactions
    completed: seq<string>,  // settlement ids of calls that returned
    stale: bool,             // an empty cache met a pending count not above every used nonce
    raced: bool,             // an id was added although meanwhile another thread had added it
    lost: seq<string>)       // settlement ids of calls that raised after their transaction was accepted

  const INIT := State(map[], None, None, {}, [], [], [], [], [], false, false, [])

  datatype Step =
    | Look(t: nat, id: string)    // `if request_id_str in self._submitted`
    | Add(t: nat)                 // `self._submitted.add`
    | Begin(t: nat)               // a deposit or dispute submission starts
    | Acquire(t: nat)
    | ReadPending(t: nat, p: int)
    | TestLast(t: nat)            // `if self._last_nonce is None`
    | ReadLast(t: nat)            // `self._last_nonce + 1`
    | WriteLast(t: nat)
    | SendTx(t: nat)
    | Return(t: nat)
    | Raise(t: nat)
    | Reset(t: nat)               // `self._last_nonce = None`
    | Discard(t: nat)

  function ThreadOf(s: State, t: nat): Thread {
    if t in s.threads then s.threads[t] else Idle
  }

  function Move(s: State, t: nat, th: Thread): State {
    s.(threads := s.threads[t := th])
  }

  predicate InLock(p: Point) {
    !(p.Waiting? || p.Failing? || p.Cleared?)
  }

  predicate AboveAll(n: int, s: seq<int>) {
    forall i :: 0 <= i < |s| ==> s[i] < n
  }

  function JobSeq(job: Option<string>): seq<string> {
    if job.Some? then [job.value] else []
  }

  /** One step; a step that does not apply changes nothing. */
  function Next(s: State, step: Step): State {
    var th := ThreadOf(s, step.t);
    match step
    case Look(t, id) =>
      if th.Idle? && id !in s.submitted then Move(s, t, Unseen(id)) else s
    case Add(t) =>
      if th.Unseen? then
        Move(s, t, Busy(Some(th.id), Waiting)).(
          submitted := s.submitted + {th.id}, raced := s.raced || th.id in s.submitted)
      else s
    case Begin(t) =>
      if th.Idle? then Move(s, t, Busy(None, Waiting)) else s
    case Acquire(t) =>
      if th.Busy? && th.at.Waiting? && s.holder.None? then Move(s, t, th.(at := Locked)).(holder := Some(t)) else s
    case ReadPending(t, p) =>
      if th.Busy? && th.at.Locked? then Move(s, t, th.(at := HavePending(p))) else s
    case TestLast(t) =>
      if th.Busy? && th.at.HavePending? then
        if s.last.None? then
          Move(s, t, th.(at := Computed(th.at.p, None, th.at.p))).(stale := s.stale || !AboveAll(th.at.p, s.used))
        else Move(s, t, th.(at := SawLast(th.at.p)))
      else s
    case ReadLast(t) =>
      if th.Busy? && th.at.SawLast? then
        if s.last.Some? then Move(s, t, th.(at := Computed(th.at.p, s.last, Allocate(s.last, th.at.p))))
        // The cache was reset in between: `None + 1` raises.
        else Move(s, t, th.(at := Failing)).(holder := None)
      else s
    case WriteLast(t) =>
      if th.Busy? && th.at.Computed? then
        Move(s, t, th.(at := Issued(th.at.n))).(
          last := Some(th.at.n), issued := s.issued + [th.at.n],
          grants := s.grants + [Grant(th.at.n, th.at.p, th.at.found)])
      else s
    case SendTx(t) =>
      if th.Busy? && th.at.Issued? then
        Move(s, t, th.(at := Accepted(th.at.n))).(used := s.used + [th.at.n], accepted := s.accepted + JobSeq(th.job))
      else s
    case Return(t) =>
      if th.Busy? && th.at.Accepted? then
        Move(s, t, Idle).(holder := None, completed := s.completed + JobSeq(th.job))
      else s
    case Raise(t) =>
      if th.Busy? && InLock(th.at) then
        Move(s, t, th.(at := Failing)).(holder := None, lost := s.lost + if th.at.Accepted? then JobSeq(th.job) else [])
      else s
    case Reset(t) =>
      if th.Busy? && th.at.Failing? then Move(s, t, th.(at := Cleared)).(last := None, issued := []) else s
    case Discard(t) =>
      if th.Busy? && th.at.Cleared? then
        Move(s, t, Idle).(submitted := if th.job.Some? then s.submitted - {th.job.value} else s.submitted)
      else s
  }

  function Run(s: State, steps: seq<Step>): State {
    if steps == [] then s else Next(Run(s, steps[..|steps| - 1]), steps[|steps| - 1])
  }

  ghost predicate Increasing(s: seq<int>) {
    forall i, j :: 0 <= i < j < |s| ==> s[i] < s[j]
  }

  ghost predicate Distinct<T>(s: seq<T>) {
    forall i, j :: 0 <= i < j < |s| ==> s[i] != s[j]
  }

  // ----- the lock and the nonces

  predicate Inside(th: Thread) {
    th.Busy? && InLock(th.at)
  }

  /** Exactly the holder is inside the locked section. */
  ghost predicate Mutex(s: State) {
    forall t: nat :: Inside(ThreadOf(s, t)) <==> s.holder == Some(t)
  }

  lemma OthersStay(s: State, step: Step)
    ensures forall t: nat :: t != step.t ==> ThreadOf(Next(s, step), t) == ThreadOf(s, t)
  {
  }

  /** A step moves only its own thread, and the lock only between free and that thread. */
  lemma LockMoves(s: State, step: Step)
    requires Inside(ThreadOf(s, step.t)) <==> s.holder == Some(step.t)
    ensures var s' := Next(s, step);
            && (Inside(ThreadOf(s', step.t)) <==> s'.holder == Some(step.t))
            && (s'.holder == s.holder || s.holder == Some(step.t) || (s.holder.None? && s'.holder == Some(step.t)))
            && (s'.holder.Some? ==> s'.holder == s.holder || s'.holder == Some(step.t))
  {
  }

  lemma MutexStep(s: State, step: Step)
    requires Mutex(s)
    ensures Mutex(Next(s, step))
  {
    OthersStay(s, step);
    assert Inside(ThreadOf(s, step.t)) <==> s.holder == Some(step.t);
    LockMoves(s, step);
  }

  lemma {:induction false} MutexHolds(steps: seq<Step>)
    ensures Mutex(Run(INIT, steps))
  {
    if steps != [] {
      MutexHolds(steps[..|steps| - 1]);
      MutexStep(Run(INIT, steps[..|steps| - 1]), steps[|steps| - 1]);
    }
  }

  /** The point the lock holder has reached, if anyone holds the lock. */
  function HolderAt(s: State): Option<Point> {
    if s.holder.Some? && ThreadOf(s, s.holder.value).Busy? then Some(ThreadOf(s, s.holder.value).at) else None
  }

  /** Nonces since the last reset rise to the cached one, and one being computed is higher still. */
  ghost predicate Rising(s: State) {
    && Increasing(s.issued)
    && (s.issued != [] ==> s.last == Some(s.issued[|s.issued| - 1]))
    && (HolderAt(s).Some? && HolderAt(s).value.Computed? && s.issued != [] ==>
          s.issued[|s.issued| - 1] < HolderAt(s).value.n)
  }

  /** What a thread outside the section can do to the section: take the lock, or reset the cache. */
  ghost predicate Undisturbed(s: State, s': State) {
    && (HolderAt(s') == HolderAt(s) || HolderAt(s') == Some(Locked))
    && s'.used == s.used && s'.grants == s.grants
    && ((s'.issued == s.issued && s'.last == s.last) || (s'.issued == [] && s'.last == None))
  }

  lemma OutsiderStep(s: State, step: Step)
    requires Mutex(s) && s.holder != Some(step.t)
    ensures Undisturbed(s, Next(s, step))
  {
    OthersStay(s, step);
    assert !Inside(ThreadOf(s, step.t));
  }

  lemma RisingUndisturbed(s: State, s': State)
    requires Rising(s) && Undisturbed(s, s')
    ensures Rising(s')
  {
  }

  lemma RisingHolder(s: State, step: Step)
    requires Inside(ThreadOf(s, step.t)) && s.holder == Some(step.t) && Rising(s)
    ensures Rising(Next(s, step))
  {
  }

  lemma RisingStep(s: State, step: Step)
    requires Mutex(s) && Rising(s)
    ensures Rising(Next(s, step))
  {
    if s.holder != Some(step.t) {
      OutsiderStep(s, step);
      RisingUndisturbed(s, Next(s, step));
    } else {
      RisingHolder(s, step);
    }
  }

  /**
   * Over every interleaving, and however stale the reported pending counts: the nonces issued
   * between two resets strictly increase.
   */
  lemma {:induction false} IssuedNoncesIncrease(steps: seq<Step>)
    ensures Rising(Run(INIT, steps))
  {
    if steps != [] {
      IssuedNoncesIncrease(steps[..|steps| - 1]);
      MutexHolds(steps[..|steps| - 1]);
      RisingStep(Run(INIT, steps[..|steps| - 1]), steps[|steps| - 1]);
    }
  }

  /** A nonce in the making, or issued and not yet sent, is above everything used. */
  ghost predicate Unused(s: State) {
    && Increasing(s.used)
    && (s.last.Some? ==> AboveAll(s.last.value + 1, s.used))
    && match HolderAt(s)
       case Some(Computed(_, _, n)) => AboveAll(n, s.used)
       case Some(Issued(n)) => AboveAll(n, s.used) && s.last in {None, Some(n)}
       case _ => true
  }

  lemma UnusedStep(s: State, step: Step)
    requires Mutex(s) && Unused(s) && !Next(s, step).stale
    ensures Unused(Next(s, step))
  {
    if s.holder != Some(step.t) {
      OutsiderStep(s, step);
    }
  }

  /**
   * If the pending count exceeds every used nonce whenever the cache is empty, no nonce is used
   * twice in the whole run; the used nonces even increase.
   */
  lemma {:induction false} NoNonceReused(steps: seq<Step>)
    requires !Run(INIT, steps).stale
    ensures Unused(Run(INIT, steps)) && Distinct(Run(INIT, steps).used)
  {
    if steps != [] {
      var before := Run(INIT, steps[..|steps| - 1]);
      NoNonceReused(steps[..|steps| - 1]);
      MutexHolds(steps[..|steps| - 1]);
      UnusedStep(before, steps[|steps| - 1]);
    }
  }

  // ----- no nonce is skipped

  /** The i-th nonce since the last reset is the matching one handed out, and drawn from the one before it. */
  ghost predicate Follows(issued: seq<int>, grants: seq<Grant>, i: nat)
    requires i < |issued| <= |grants|
  {
    var g := grants[|grants| - |issued| + i];
    g.n == issued[i] && (i > 0 ==> g.found == Some(issued[i - 1]))
  }

  ghost predicate Chained(s: State) {
    && |s.issued| <= |s.grants|
    && (forall i: nat :: i < |s.issued| ==> Follows(s.issued, s.grants, i))
    && (HolderAt(s).Some? && HolderAt(s).value.Computed? && s.issued != [] ==>
          HolderAt(s).value.found == Some(s.issued[|s.issued| - 1]))
  }

  lemma FollowsSnoc(issued: seq<int>, grants: seq<Grant>, g: Grant)
    requires |issued| <= |grants| && forall i: nat :: i < |issued| ==> Follows(issued, grants, i)
    requires issued != [] ==> g.found == Some(issued[|issued| - 1])
    ensures forall i: nat :: i < |issued + [g.n]| ==> Follows(issued + [g.n], grants + [g], i)
  {
    forall i: nat | i < |issued + [g.n]| ensures Follows(issued + [g.n], grants + [g], i) {
      if i < |issued| {
        assert Follows(issued, grants, i);
      }
    }
  }

  /** Every nonce handed out, and one being computed, is the least that may follow what the cache held. */
  ghost predicate Least(s: State) {
    && (forall i :: 0 <= i < |s.grants| ==> LeastNonce(s.grants[i].found, s.grants[i].pending, s.grants[i].n))
    && (HolderAt(s).Some? && HolderAt(s).value.Computed? ==>
          LeastNonce(HolderAt(s).value.found, HolderAt(s).value.p, HolderAt(s).value.n))
  }

  lemma ChainedUndisturbed(s: State, s': State)
    requires Chained(s) && Undisturbed(s, s')
    ensures Chained(s')
  {
  }

  lemma ChainedHolder(s: State, step: Step)
    requires Inside(ThreadOf(s, step.t)) && s.holder == Some(step.t) && Rising(s) && Chained(s)
    ensures Chained(Next(s, step))
  {
    var at := ThreadOf(s, step.t).at;
    if step.WriteLast? && at.Computed? {
      FollowsSnoc(s.issued, s.grants, Grant(at.n, at.p, at.found));
    } else {
      ChainedElse(s, step);
    }
  }

  lemma ChainedElse(s: State, step: Step)
    requires Inside(ThreadOf(s, step.t)) && s.holder == Some(step.t) && Rising(s) && Chained(s)
    requires !(step.WriteLast? && ThreadOf(s, step.t).at.Computed?)
    ensures Next(s, step).issued == s.issued && Next(s, step).grants == s.grants && Chained(Next(s, step))
  {
  }

  lemma LeastHolder(s: State, step: Step)
    requires Inside(ThreadOf(s, step.t)) && s.holder == Some(step.t) && Least(s)
    ensures Least(Next(s, step))
  {
    match step
    case WriteLast(_) =>
    case ReadLast(_) =>
    case _ =>
  }

  lemma {:induction false} DrawnInOrder(steps: seq<Step>)
    ensures Chained(Run(INIT, steps)) && Least(Run(INIT, steps))
  {
    if steps != [] {
      var front, last := steps[..|steps| - 1], steps[|steps| - 1];
      var s := Run(INIT, front);
      DrawnInOrder(front);
      MutexHolds(front);
      IssuedNoncesIncrease(front);
      if s.holder != Some(last.t) {
        OutsiderStep(s, last);
        ChainedUndisturbed(s, Next(s, last));
      } else {
        ChainedHolder(s, last);
        LeastHolder(s, last);
      }
    }
  }

  /**
   * Over every interleaving: a nonce drawn when the cache was empty is the pending count read for it;
   * one drawn when the cache held another is the least number above that and not below the count, as
   * one less is not.
   */
  lemma EveryNonceIsLeast(steps: seq<Step>, i: nat)
    requires i < |Run(INIT, steps).grants|
    ensures var g := Run(INIT, steps).grants[i];
            match g.found
            case None => g.n == g.pending
            case Some(last) =>
              last < g.n && g.pending <= g.n && (g.n - 1 <= last || g.n - 1 < g.pending)
  {
    DrawnInOrder(steps);
    var g := Run(INIT, steps).grants[i];
    assert LeastNonce(g.found, g.pending, g.n);
  }

  lemma OnePast(s: State, i: nat)
    requires Chained(s) && Least(s) && 0 < i < |s.issued|
    ensures var pending := s.grants[|s.grants| - |s.issued| + i].pending;
            s.issued[i] == if pending <= s.issued[i - 1] + 1 then s.issued[i - 1] + 1 else pending
  {
    assert Follows(s.issued, s.grants, i);
    var g := s.grants[|s.grants| - |s.issued| + i];
    assert LeastNonce(g.found, g.pending, g.n);
  }

  /**
   * Between two resets no nonce is skipped: each is one past the nonce before it, unless the node
   * reported more pending transactions than that, and then it is their count.
   */
  lemma NoNonceSkipped(steps: seq<Step>, i: nat)
    requires 0 < i < |Run(INIT, steps).issued|
    ensures var s := Run(INIT, steps);
            && |s.grants| >= |s.issued|
            && var pending := s.grants[|s.grants| - |s.issued| + i].pending;
               s.issued[i] == if pending <= s.issued[i - 1] + 1 then s.issued[i - 1] + 1 else pending
  {
    DrawnInOrder(steps);
    OnePast(Run(INIT, steps), i);
  }

  // ----- at most one completion per settlement

  predicate Carries(s: State, t: nat, id: string) {
    ThreadOf(s, t).Busy? && ThreadOf(s, t).job == Some(id)
  }

  /** An id is remembered exactly while one thread carries it or after one call for it returned, never both. */
  ghost predicate OnePerId(s: State) {
    && Distinct(s.completed)
    && (forall id :: id in s.submitted ==> id in s.completed || exists t: nat :: Carries(s, t, id))
    && (forall id :: id in s.completed ==> id in s.submitted)
    && (forall t: nat, id :: Carries(s, t, id) ==> id in s.submitted && id !in s.completed)
    && (forall t: nat, u: nat, id :: Carries(s, t, id) && Carries(s, u, id) ==> t == u)
  }

  /** Ids are only taken up by adding, and then by the thread that looked them up. */
  lemma Carriers(s: State, step: Step)
    ensures var s' := Next(s, step);
            forall u: nat, id :: Carries(s', u, id) ==>
              Carries(s, u, id) || (step == Add(u) && ThreadOf(s, u) == Unseen(id))
  {
    OthersStay(s, step);
  }

  /** How a step changes what is remembered and completed. */
  lemma Remembered(s: State, step: Step)
    ensures var s' := Next(s, step);
            var th := ThreadOf(s, step.t);
            if step.Add? && th.Unseen? then
              s'.submitted == s.submitted + {th.id} && s'.completed == s.completed
              && (th.id in s.submitted ==> s'.raced)
            else if step.Return? && th.Busy? && th.at.Accepted? then
              s'.submitted == s.submitted && s'.completed == s.completed + JobSeq(th.job) && ThreadOf(s', step.t).Idle?
            else if step.Discard? && th.Busy? && th.at.Cleared? then
              s'.submitted == s.submitted - (if th.job.Some? then {th.job.value} else {}) && s'.completed == s.completed
              && ThreadOf(s', step.t).Idle?
            else s'.submitted == s.submitted && s'.completed == s.completed
  {
  }

  /** A remembered id keeps its reason: a carrier gives it up only by completing or by discarding it. */
  lemma ReasonStays(s: State, step: Step, id: string)
    requires id in s.submitted ==> id in s.completed || exists t: nat :: Carries(s, t, id)
    ensures var s' := Next(s, step);
            id in s'.submitted ==> id in s'.completed || exists t: nat :: Carries(s', t, id)
  {
    var s', th := Next(s, step), ThreadOf(s, step.t);
    OthersStay(s, step);
    Remembered(s, step);
    if id in s'.submitted && id !in s'.completed {
      if step.Add? && th == Unseen(id) {
        assert Carries(s', step.t, id);
      } else {
        var t: nat :| Carries(s, t, id);
        assert Carries(s', t, id);
      }
    }
  }

  lemma OnePerIdStep(s: State, step: Step)
    requires OnePerId(s) && !Next(s, step).raced
    ensures OnePerId(Next(s, step))
  {
    var s', th := Next(s, step), ThreadOf(s, step.t);
    Carriers(s, step);
    Remembered(s, step);
    assert th.Busy? && th.job.Some? ==> Carries(s, step.t, th.job.value);
    forall u: nat, id | Carries(s', u, id) ensures id in s'.submitted && id !in s'.completed {
      assert Carries(s', u, id) ==> !ThreadOf(s', u).Idle?;
    }
    forall id | id in s'.submitted ensures id in s'.completed || exists u: nat :: Carries(s', u, id) {
      ReasonStays(s, step, id);
    }
  }

  /**
   * Over every interleaving in which no thread adds an id that another thread added since it looked,
   * each settlement id completes at most once.
   */
  lemma {:induction false} CompletedAtMostOnce(steps: seq<Step>)
    requires !Run(INIT, steps).raced
    ensures OnePerId(Run(INIT, steps))
  {
    if steps != [] {
      CompletedAtMostOnce(steps[..|steps| - 1]);
      OnePerIdStep(Run(INIT, steps[..|steps| - 1]), steps[|steps| - 1]);
    }
  }

  /** The id whose transaction was accepted and whose call has neither returned nor raised. */
  function InFlight(s: State): seq<string> {
    if HolderAt(s).Some? && HolderAt(s).value.Accepted? then JobSeq(ThreadOf(s, s.holder.value).job) else []
  }

  ghost predicate Ledger(s: State) {
    multiset(s.accepted) == multiset(s.completed) + multiset(s.lost) + multiset(InFlight(s))
  }

  lemma OutsiderQuiet(s: State, step: Step)
    requires !Inside(ThreadOf(s, step.t))
    ensures var s' := Next(s, step);
            s'.accepted == s.accepted && s'.completed == s.completed && s'.lost == s.lost
  {
  }

  lemma OutsiderInFlight(s: State, step: Step)
    requires Mutex(s) && s.holder != Some(step.t)
    ensures InFlight(Next(s, step)) == InFlight(s)
  {
    OutsiderStep(s, step);
    OthersStay(s, step);
  }

  /** Acceptance puts an id in flight, a return or a raise takes it out again; nothing else moves it. */
  lemma HolderInFlight(s: State, step: Step)
    requires s.holder == Some(step.t)
    ensures var s' := Next(s, step);
            var (before, after) := (InFlight(s), InFlight(s'));
            if s'.accepted != s.accepted then
              s'.accepted == s.accepted + after && before == [] && s'.completed == s.completed && s'.lost == s.lost
            else
              || (after == [] && s'.completed == s.completed + before && s'.lost == s.lost)
              || (after == [] && s'.completed == s.completed && s'.lost == s.lost + before)
              || (after == before && s'.completed == s.completed && s'.lost == s.lost)
  {
    match step
    case SendTx(_) =>
    case Return(_) =>
    case Raise(_) =>
    case _ =>
  }

  lemma LedgerStep(s: State, step: Step)
    requires Mutex(s) && Ledger(s)
    ensures Ledger(Next(s, step))
  {
    if s.holder == Some(step.t) {
      HolderInFlight(s, step);
    } else {
      assert !Inside(ThreadOf(s, step.t));
      OutsiderQuiet(s, step);
      OutsiderInFlight(s, step);
    }
  }

  /**
   * Over every interleaving, races or not: a settlement id was accepted by the node as often as its
   * calls returned, raised after acceptance, or are still in flight.
   */
  lemma {:induction false} AcceptedLedger(steps: seq<Step>)
    ensures Ledger(Run(INIT, steps))
  {
    if steps != [] {
      AcceptedLedger(steps[..|steps| - 1]);
      MutexHolds(steps[..|steps| - 1]);
      LedgerStep(Run(INIT, steps[..|steps| - 1]), steps[|steps| - 1]);
    }
  }

  lemma {:induction false} DistinctCount<T>(s: seq<T>)
    ensures Distinct(s) <==> forall x :: multiset(s)[x] <= 1
  {
    if s != [] {
      var front, last := s[..|s| - 1], s[|s| - 1];
      DistinctCount(front);
      assert s == front + [last];
      assert forall x :: multiset(s)[x] == multiset(front)[x] + if x == last then 1 else 0;
      if last in front {
        Repeated(front, last);
      } else {
        assert Distinct(s) <==> Distinct(front);
      }
    }
  }

  lemma Repeated<T>(s: seq<T>, x: T)
    requires x in s
    ensures !Distinct(s + [x])
  {
    var i :| 0 <= i < |s| && s[i] == x;
    assert (s + [x])[i] == (s + [x])[|s|];
  }

  /** If moreover no call raises after the node accepted its transaction, each id is accepted at most once. */
  lemma AcceptedAtMostOnce(steps: seq<Step>)
    requires !Run(INIT, steps).raced && Run(INIT, steps).lost == []
    ensures Distinct(Run(INIT, steps).accepted)
  {
    var s := Run(INIT, steps);
    CompletedAtMostOnce(steps);
    AcceptedLedger(steps);
    DistinctCount(s.completed);
    DistinctCount(s.accepted);
    forall id ensures multiset(s.accepted)[id] <= 1 {
      if id in InFlight(s) {
        assert Carries(s, s.holder.value, id) && id !in s.completed;
      }
    }
  }

  // ----- what can follow

  lemma RunSnoc(s: State, steps: seq<Step>, step: Step)
    ensures Run(s, steps + [step]) == Next(Run(s, steps), step)
  {
    assert (steps + [step])[..|steps + [step]| - 1] == steps;
  }

  lemma {:induction false} RunAppend(s: State, a: seq<Step>, b: seq<Step>)
    ensures Run(s, a + b) == Run(Run(s, a), b)
  {
    if b == [] {
      assert a + b == a;
    } else {
      assert a + b == (a + b[..|b| - 1]) + [b[|b| - 1]];
      RunSnoc(s, a + b[..|b| - 1], b[|b| - 1]);
      RunAppend(s, a, b[..|b| - 1]);
    }
  }

  lemma RunThree(s: State, a: Step, b: Step, c: Step)
    ensures Run(s, [a]) == Next(s, a) && Run(s, [a, b]) == Next(Next(s, a), b)
    ensures Run(s, [a, b, c]) == Next(Next(Next(s, a), b), c)
  {
    RunSnoc(s, [], a);
    RunSnoc(s, [a], b);
    RunSnoc(s, [a, b], c);
    assert [] + [a] == [a] && [a] + [b] == [a, b] && [a, b] + [c] == [a, b, c];
  }

  /** Some continuation of the run leads from one state to the other. */
  ghost predicate Reaches(s: State, s': State) {
    exists more: seq<Step> :: Run(s, more) == s'
  }

  lemma ReachesNext(s: State, s': State, step: Step)
    requires Reaches(s, s')
    ensures Reaches(s, Next(s', step))
  {
    var more :| Run(s, more) == s';
    RunSnoc(s, more, step);
  }

  lemma ReachesRun(s: State, s': State, steps: seq<Step>)
    requires Reaches(s, s')
    ensures Reaches(s, Run(s', steps))
  {
    var more :| Run(s, more) == s';
    RunAppend(s, more, steps);
  }

  lemma ReachesSelf(s: State)
    ensures Reaches(s, s)
  {
    assert Run(s, []) == s;
  }

  lemma ReachesTrans(a: State, b: State, c: State)
    requires Reaches(a, b) && Reaches(b, c)
    ensures Reaches(a, c)
  {
    var more :| Run(b, more) == c;
    ReachesRun(a, b, more);
  }

  // ----- an undisturbed submission is the client's method

  function Allocation(t: nat, p: int): seq<Step> {
    [Acquire(t), ReadPending(t, p), TestLast(t)] + [ReadLast(t)]
  }

  function Cleanup(t: nat): seq<Step> {
    [Raise(t), Reset(t), Discard(t)]
  }

  /** The locked section of one thread, and its exception handler where it fails. */
  function Section(t: nat, chain: Chain): seq<Step> {
    match chain
    case FailsEarly => [Acquire(t)] + Cleanup(t)
    case FailsLate(p) => Allocation(t, p) + [WriteLast(t)] + Cleanup(t)
    case Accepts(p) => Allocation(t, p) + [WriteLast(t), SendTx(t), Return(t)]
  }

  lemma SoloRead(s: State, t: nat, p: int)
    requires ThreadOf(s, t).Busy? && ThreadOf(s, t).at.Waiting? && s.holder.None?
    ensures var s' := Next(Next(s, Acquire(t)), ReadPending(t, p));
            && s'.threads == s.threads[t := Busy(ThreadOf(s, t).job, HavePending(p))]
            && s' == s.(threads := s'.threads, holder := Some(t))
  {
    var s1 := Next(s, Acquire(t));
    assert s1.threads == s.threads[t := Busy(ThreadOf(s, t).job, Locked)];
  }

  function Drawn(last: Option<int>, p: int): Point {
    Computed(p, last, Allocate(last, p))
  }

  lemma SoloCompute(s: State, t: nat)
    requires ThreadOf(s, t).Busy? && ThreadOf(s, t).at.HavePending?
    ensures var s' := Next(Next(s, TestLast(t)), ReadLast(t));
            && s'.threads == s.threads[t := Busy(ThreadOf(s, t).job, Drawn(s.last, ThreadOf(s, t).at.p))]
            && s' == s.(threads := s'.threads, stale := s'.stale)
  {
    var s1 := Next(s, TestLast(t));
    assert s.last.Some? ==> s1.threads == s.threads[t := Busy(ThreadOf(s, t).job, SawLast(ThreadOf(s, t).at.p))];
  }

  /** A thread that takes the free lock, reads `p` and computes its nonce. */
  lemma SoloAllocate(s: State, t: nat, p: int)
    requires ThreadOf(s, t).Busy? && ThreadOf(s, t).at.Waiting? && s.holder.None?
    ensures var s' := Run(s, Allocation(t, p));
            && s'.threads == s.threads[t := Busy(ThreadOf(s, t).job, Drawn(s.last, p))]
            && s' == s.(threads := s'.threads, holder := Some(t), stale := s'.stale)
  {
    RunThree(s, Acquire(t), ReadPending(t, p), TestLast(t));
    RunSnoc(s, [Acquire(t), ReadPending(t, p), TestLast(t)], ReadLast(t));
    SoloRead(s, t, p);
    SoloCompute(Next(Next(s, Acquire(t)), ReadPending(t, p)), t);
  }

  lemma SoloWrite(s: State, t: nat)
    requires ThreadOf(s, t).Busy? && ThreadOf(s, t).at.Computed?
    ensures var (job, n) := (ThreadOf(s, t).job, ThreadOf(s, t).at.n);
            Next(s, WriteLast(t))
              == s.(threads := s.threads[t := Busy(job, Issued(n))], last := Some(n), issued := s.issued + [n],
                    grants := s.grants + [Grant(n, ThreadOf(s, t).at.p, ThreadOf(s, t).at.found)])
  {
  }

  lemma SoloAccept(s: State, t: nat)
    requires ThreadOf(s, t).Busy? && ThreadOf(s, t).at.Issued?
    ensures var (job, n) := (ThreadOf(s, t).job, ThreadOf(s, t).at.n);
            Next(s, SendTx(t))
              == s.(threads := s.threads[t := Busy(job, Accepted(n))], used := s.used + [n],
                    accepted := s.accepted + JobSeq(job))
  {
  }

  lemma SoloReturn(s: State, t: nat)
    requires ThreadOf(s, t).Busy? && ThreadOf(s, t).at.Accepted?
    ensures Next(s, Return(t))
         == s.(threads := s.threads[t := Idle], holder := None, completed := s.completed + JobSeq(ThreadOf(s, t).job))
  {
  }

  lemma Overwrite(m: map<nat, Thread>, t: nat, a: Thread, b: Thread)
    ensures m[t := a][t := b] == m[t := b]
  {
  }

  /** From a computed nonce to the return. */
  lemma SoloSend(s: State, t: nat)
    requires ThreadOf(s, t).Busy? && ThreadOf(s, t).at.Computed?
    ensures var (job, n) := (ThreadOf(s, t).job, ThreadOf(s, t).at.n);
            Run(s, [WriteLast(t), SendTx(t), Return(t)])
              == s.(threads := s.threads[t := Idle], holder := None, last := Some(n), issued := s.issued + [n],
                    grants := s.grants + [Grant(n, ThreadOf(s, t).at.p, ThreadOf(s, t).at.found)],
                    used := s.used + [n], accepted := s.accepted + JobSeq(job),
                    completed := s.completed + JobSeq(job))
  {
    var job, n := ThreadOf(s, t).job, ThreadOf(s, t).at.n;
    var issued, accepted := Busy(job, Issued(n)), Busy(job, Accepted(n));
    RunThree(s, WriteLast(t), SendTx(t), Return(t));
    SoloWrite(s, t);
    var s1 := Next(s, WriteLast(t));
    SoloAccept(s1, t);
    Overwrite(s.threads, t, issued, accepted);
    var s2 := Next(s1, SendTx(t));
    SoloReturn(s2, t);
    Overwrite(s.threads, t, accepted, Idle);
  }

  lemma SoloRaise(s: State, t: nat)
    requires Inside(ThreadOf(s, t)) && !ThreadOf(s, t).at.Accepted?
    ensures Next(s, Raise(t)) == s.(threads := s.threads[t := Busy(ThreadOf(s, t).job, Failing)], holder := None)
  {
    assert s.lost + [] == s.lost;
  }

  lemma SoloReset(s: State, t: nat)
    requires ThreadOf(s, t).Busy? && ThreadOf(s, t).at.Failing?
    ensures Next(s, Reset(t))
         == s.(threads := s.threads[t := Busy(ThreadOf(s, t).job, Cleared)], last := None, issued := [])
  {
  }

  lemma SoloDiscard(s: State, t: nat)
    requires ThreadOf(s, t).Busy? && ThreadOf(s, t).at.Cleared?
    ensures Next(s, Discard(t))
         == s.(threads := s.threads[t := Idle], submitted := s.submitted - JobSet(ThreadOf(s, t).job))
  {
  }

  /** The exception handler, entered from inside the section before acceptance. */
  lemma SoloCleanup(s: State, t: nat)
    requires Inside(ThreadOf(s, t)) && !ThreadOf(s, t).at.Accepted?
    ensures Run(s, Cleanup(t))
         == s.(threads := s.threads[t := Idle], holder := None, last := None, issued := [],
               submitted := s.submitted - JobSet(ThreadOf(s, t).job))
  {
    var failing, cleared := Busy(ThreadOf(s, t).job, Failing), Busy(ThreadOf(s, t).job, Cleared);
    RunThree(s, Raise(t), Reset(t), Discard(t));
    SoloRaise(s, t);
    var s1 := Next(s, Raise(t));
    SoloReset(s1, t);
    Overwrite(s.threads, t, failing, cleared);
    SoloDiscard(Next(s1, Reset(t)), t);
    Overwrite(s.threads, t, cleared, Idle);
  }

  function JobSet(job: Option<string>): set<string> {
    if job.Some? then {job.value} else {}
  }

  lemma SoloEarly(s: State, t: nat)
    requires ThreadOf(s, t).Busy? && ThreadOf(s, t).at.Waiting? && s.holder.None?
    ensures Run(s, Section(t, FailsEarly))
         == s.(threads := s.threads[t := Idle], last := None, issued := [],
               submitted := s.submitted - JobSet(ThreadOf(s, t).job))
  {
    var locked := Busy(ThreadOf(s, t).job, Locked);
    RunAppend(s, [Acquire(t)], Cleanup(t));
    RunThree(s, Acquire(t), Raise(t), Raise(t));
    var s1 := Next(s, Acquire(t));
    assert s1 == s.(threads := s.threads[t := locked], holder := Some(t));
    SoloCleanup(s1, t);
    Overwrite(s.threads, t, locked, Idle);
  }

  lemma SoloLate(s: State, t: nat, p: int)
    requires ThreadOf(s, t).Busy? && ThreadOf(s, t).at.Waiting? && s.holder.None?
    ensures var s' := Run(s, Section(t, FailsLate(p)));
            s' == s.(threads := s.threads[t := Idle], last := None, issued := [], stale := s'.stale,
                     grants := s'.grants,
                     submitted := s.submitted - JobSet(ThreadOf(s, t).job))
  {
    var job, n := ThreadOf(s, t).job, Allocate(s.last, p);
    RunAppend(s, Allocation(t, p) + [WriteLast(t)], Cleanup(t));
    RunSnoc(s, Allocation(t, p), WriteLast(t));
    SoloAllocate(s, t, p);
    var a := Run(s, Allocation(t, p));
    SoloWrite(a, t);
    Overwrite(s.threads, t, Busy(job, Drawn(s.last, p)), Busy(job, Issued(n)));
    SoloCleanup(Next(a, WriteLast(t)), t);
    Overwrite(s.threads, t, Busy(job, Issued(n)), Idle);
  }

  lemma SoloAccepted(s: State, t: nat, p: int)
    requires ThreadOf(s, t).Busy? && ThreadOf(s, t).at.Waiting? && s.holder.None?
    ensures var s' := Run(s, Section(t, Accepts(p)));
            var (job, n) := (ThreadOf(s, t).job, Allocate(s.last, p));
            && s'.threads == s.threads[t := Idle]
            && s' == s.(threads := s'.threads, last := Some(n), issued := s.issued + [n], stale := s'.stale,
                        grants := s'.grants, used := s.used + [n], accepted := s.accepted + JobSeq(job),
                        completed := s.completed + JobSeq(job))
  {
    RunAppend(s, Allocation(t, p), [WriteLast(t), SendTx(t), Return(t)]);
    SoloAllocate(s, t, p);
    SoloSend(Run(s, Allocation(t, p)), t);
  }

  /** A whole section without interference does what `Settlement.Transact` says and releases the lock. */
  lemma SoloSection(s: State, t: nat, chain: Chain)
    requires ThreadOf(s, t).Busy? && ThreadOf(s, t).at.Waiting? && s.holder.None?
    ensures var s' := Run(s, Section(t, chain));
            var job := ThreadOf(s, t).job;
            var (c, r) := Transact(Client(true, s.submitted, s.last), chain);
            && s'.threads == s.threads[t := Idle] && s'.holder.None?
            && s'.last == c.last && s'.submitted == s.submitted - (if r.Raised? then JobSet(job) else {})
            && s'.used == s.used + (if r.Sent? then [r.nonce] else [])
            && s'.completed == s.completed + (if r.Sent? then JobSeq(job) else [])
  {
    match chain {
      case FailsEarly => SoloEarly(s, t);
      case FailsLate(p) => SoloLate(s, t, p);
      case Accepts(p) => SoloAccepted(s, t, p);
    }
  }

  /** A thread that finds its id new takes it up. */
  lemma SoloStart(s: State, t: nat, id: string)
    requires ThreadOf(s, t).Idle?
    ensures var s' := Run(s, [Look(t, id), Add(t)]);
            if id in s.submitted then s' == s
            else s'.threads == s.threads[t := Busy(Some(id), Waiting)]
                 && s' == s.(threads := s'.threads, submitted := s.submitted + {id})
  {
    RunThree(s, Look(t, id), Add(t), Add(t));
    var s1 := Next(s, Look(t, id));
    assert id !in s.submitted ==> s1.threads == s.threads[t := Unseen(id)];
  }

  /**
   * Without interference the steps of a settlement submission, duplicate check, section and exception
   * handler included, are the client's sequential method, and leave thread and lock free again.
   */
  lemma SoloSubmission(s: State, t: nat, id: string, chain: Chain)
    requires ThreadOf(s, t).Idle? && s.holder.None?
    ensures var s' := Run(s, [Look(t, id), Add(t)] + Section(t, chain));
            var (c, r) := SubmitSettlement(Client(true, s.submitted, s.last), id, chain);
            && Client(true, s'.submitted, s'.last) == c
            && s'.used == s.used + (if r.Sent? then [r.nonce] else [])
            && s'.completed == s.completed + (if r.Sent? then [id] else [])
            && ThreadOf(s', t).Idle? && s'.holder.None? && (r.Duplicate? ==> s' == s)
  {
    RunAppend(s, [Look(t, id), Add(t)], Section(t, chain));
    SoloStart(s, t, id);
    if id in s.submitted {
      IdleSteps(s, Section(t, chain), t);
    } else {
      SoloSection(Run(s, [Look(t, id), Add(t)]), t, chain);
    }
  }

  lemma SoloBegin(s: State, t: nat)
    requires ThreadOf(s, t).Idle?
    ensures Run(s, [Begin(t)]) == s.(threads := s.threads[t := Busy(None, Waiting)])
  {
    RunThree(s, Begin(t), Begin(t), Begin(t));
  }

  /** A deposit without interference, likewise. */
  lemma SoloDeposit(s: State, t: nat, chain: Chain)
    requires ThreadOf(s, t).Idle? && s.holder.None?
    ensures var s' := Run(s, [Begin(t)] + Section(t, chain));
            var (c, r) := SubmitOther(Client(true, s.submitted, s.last), chain);
            && Client(true, s'.submitted, s'.last) == c
            && s'.used == s.used + (if r.Sent? then [r.nonce] else [])
            && s'.completed == s.completed && s'.threads == s.threads[t := Idle] && s'.holder.None?
  {
    RunAppend(s, [Begin(t)], Section(t, chain));
    SoloBegin(s, t);
    SoloSection(Run(s, [Begin(t)]), t, chain);
  }

  predicate InsideSection(step: Step) {
    !(step.Look? || step.Add? || step.Begin?)
  }

  /** An idle thread cannot take a step of the section. */
  lemma {:induction false} IdleSteps(s: State, steps: seq<Step>, t: nat)
    requires ThreadOf(s, t).Idle? && forall i :: 0 <= i < |steps| ==> steps[i].t == t && InsideSection(steps[i])
    ensures Run(s, steps) == s
  {
    if steps != [] {
      IdleSteps(s, steps[..|steps| - 1], t);
    }
  }

  // ----- each condition is needed: the first violation can always be continued to the harm

  /** The lock can be freed: a call whose transaction was accepted returns, any other holder raises. */
  lemma FreeLock(s: State) returns (s': State)
    requires Mutex(s)
    ensures Reaches(s, s') && s'.holder.None? && s'.lost == s.lost && s.completed <= s'.completed
    ensures forall t: nat :: s.holder != Some(t) ==> ThreadOf(s', t) == ThreadOf(s, t)
    ensures forall t: nat, id :: Carries(s, t, id) ==> Carries(s', t, id) || id in s'.completed
    ensures Mutex(s')
  {
    s' := s;
    ReachesSelf(s);
    if s.holder.Some? {
      var t := s.holder.value;
      assert Inside(ThreadOf(s, t));
      var step := if ThreadOf(s, t).at.Accepted? then Return(t) else Raise(t);
      s' := Next(s, step);
      ReachesNext(s, s, step);
      OthersStay(s, step);
      MutexStep(s, step);
    }
  }

  /** After a failure the id can be taken up again by the thread that discarded it. */
  lemma Retries(s: State, t: nat, id: string) returns (s': State)
    requires ThreadOf(s, t) == Busy(Some(id), Cleared)
    ensures Reaches(s, s') && s'.threads == s.threads[t := Busy(Some(id), Waiting)]
    ensures s' == s.(threads := s'.threads, submitted := s'.submitted)
  {
    RunThree(s, Discard(t), Look(t, id), Add(t));
    s' := Run(s, [Discard(t), Look(t, id), Add(t)]);
    var s1 := Next(s, Discard(t));
    assert s1.threads == s.threads[t := Idle] && id !in s1.submitted;
    var s2 := Next(s1, Look(t, id));
    assert s2.threads == s.threads[t := Unseen(id)] && s2.submitted == s1.submitted;
  }

  /** With the lock free, a thread that carries an id can wait for the lock again, retrying if it failed. */
  lemma WaitsAgain(s: State, t: nat, id: string) returns (s': State)
    requires Carries(s, t, id) && !InLock(ThreadOf(s, t).at)
    ensures Reaches(s, s') && s'.threads == s.threads[t := Busy(Some(id), Waiting)]
    ensures s' == s.(threads := s'.threads, submitted := s'.submitted, last := s'.last, issued := s'.issued)
  {
    s' := s;
    ReachesSelf(s);
    if ThreadOf(s, t).at.Failing? {
      ReachesNext(s, s, Reset(t));
      s' := Next(s, Reset(t));
      assert s'.threads == s.threads[t := Busy(Some(id), Cleared)];
    }
    if ThreadOf(s', t).at.Cleared? {
      var s'' := Retries(s', t, id);
      ReachesTrans(s, s', s'');
      s' := s'';
    }
  }

  /** A waiting thread can complete its id when the lock is free. */
  lemma Completes(s: State, s': State, t: nat, id: string) returns (s'': State)
    requires Reaches(s, s') && ThreadOf(s', t) == Busy(Some(id), Waiting) && s'.holder.None?
    ensures Reaches(s, s'') && s''.holder.None? && s''.lost == s'.lost && s''.raced == s'.raced
    ensures s''.completed == s'.completed + [id] && s''.accepted == s'.accepted + [id]
    ensures s''.threads == s'.threads[t := Idle]
  {
    SoloAccepted(s', t, 0);
    ReachesRun(s, s', Section(t, Accepts(0)));
    s'' := Run(s', Section(t, Accepts(0)));
  }

  /**
   * The race is always harmful: from its first occurrence on, in whatever state the run is, it can go
   * on so that the id completes twice, without any call raising after acceptance.
   */
  lemma RaceIsFatal(steps: seq<Step>, t: nat)
    requires !Run(INIT, steps).raced && Next(Run(INIT, steps), Add(t)).raced
    ensures exists s' :: && Reaches(Next(Run(INIT, steps), Add(t)), s')
                         && !Distinct(s'.completed) && s'.lost == Run(INIT, steps).lost
  {
    var s := Run(INIT, steps);
    var id := ThreadOf(s, t).id;
    CompletedAtMostOnce(steps);
    MutexHolds(steps);
    MutexStep(s, Add(t));
    OthersStay(s, Add(t));
    var s1 := Next(s, Add(t));
    assert !Inside(ThreadOf(s1, t));
    var s2 := FreeLock(s1);
    if id in s2.completed {
      var s3 := Completes(s1, s2, t, id);
      Repeated(s2.completed, id);
    } else {
      var u: nat :| Carries(s, u, id);
      assert u != t && Carries(s1, u, id) && Carries(s2, u, id);
      assert !Inside(ThreadOf(s2, u));
      var s3 := WaitsAgain(s2, u, id);
      ReachesTrans(s1, s2, s3);
      var s4 := Completes(s1, s3, u, id);
      var s5 := Completes(s1, s4, t, id);
      Repeated(s4.completed, id);
    }
  }

  /** A call that raises after acceptance is always harmful: the retry can be accepted too, even alone. */
  lemma LostIsFatal(steps: seq<Step>, t: nat)
    requires Next(Run(INIT, steps), Raise(t)).lost != Run(INIT, steps).lost
    ensures exists s' :: && Reaches(Next(Run(INIT, steps), Raise(t)), s')
                         && !Distinct(s'.accepted) && s'.raced == Run(INIT, steps).raced
  {
    var s := Run(INIT, steps);
    var id := ThreadOf(s, t).job.value;
    MutexHolds(steps);
    AcceptedLedger(steps);
    assert Inside(ThreadOf(s, t));
    assert id in InFlight(s);
    assert multiset(s.accepted)[id] > 0;
    var s1 := Next(s, Raise(t));
    var s2 := WaitsAgain(s1, t, id);
    var s3 := Completes(s1, s2, t, id);
    Repeated(s2.accepted, id);
  }

  /** With a cached nonce below a used one, deposits against a lagging pending count run into it. */
  lemma {:induction false} RunsInto(s: State, t: nat, n: int) returns (s': State)
    requires ThreadOf(s, t).Idle? && s.holder.None? && s.last.Some? && s.last.value < n && n in s.used
    ensures Reaches(s, s') && !Distinct(s'.used)
    decreases n - s.last.value
  {
    var m := s.last.value + 1;
    var steps := [Begin(t)] + Section(t, Accepts(m));
    SoloDeposit(s, t, Accepts(m));
    ReachesSelf(s);
    ReachesRun(s, s, steps);
    s' := Run(s, steps);
    if m == n {
      Repeated(s.used, n);
    } else {
      var s'' := RunsInto(s', t, n);
      ReachesTrans(s, s', s'');
      s' := s'';
    }
  }

  /** A stale pending count met by an empty cache is always harmful: the run can go on to use a nonce twice. */
  lemma StaleIsFatal(steps: seq<Step>, t: nat)
    requires !Run(INIT, steps).stale && Next(Run(INIT, steps), TestLast(t)).stale
    ensures exists s' :: Reaches(Next(Run(INIT, steps), TestLast(t)), s') && !Distinct(s'.used)
  {
    var s := Run(INIT, steps);
    var p := ThreadOf(s, t).at.p;
    var i :| 0 <= i < |s.used| && s.used[i] >= p;
    var n := s.used[i];
    var s1 := Next(s, TestLast(t));
    assert s1.used == s.used && ThreadOf(s1, t).at == Computed(p, None, p);
    SoloSend(s1, t);
    var sent := [WriteLast(t), SendTx(t), Return(t)];
    ReachesSelf(s1);
    ReachesRun(s1, s1, sent);
    var s2 := Run(s1, sent);
    if n == p {
      Repeated(s.used, p);
    } else {
      var s3 := RunsInto(s2, t, n);
      ReachesTrans(s1, s2, s3);
    }
  }

  // ----- and the violations do occur

  /** After a reset, a stale pending count hands out a used nonce. */
  lemma StalePendingReuses(p: int)
    ensures exists s :: Reaches(INIT, s) && s.used == [p, p]
  {
    ReachesSelf(INIT);
    var s1 := Deposits(INIT, INIT, Accepts(p));
    var s2 := Deposits(INIT, s1, FailsEarly);
    var s3 := Deposits(INIT, s2, Accepts(p));
  }

  lemma Deposits(s: State, s': State, chain: Chain) returns (s'': State)
    requires Reaches(s, s') && ThreadOf(s', 0).Idle? && s'.holder.None?
    ensures Reaches(s, s'') && ThreadOf(s'', 0).Idle? && s''.holder.None?
    ensures var (c, r) := SubmitOther(Client(true, s'.submitted, s'.last), chain);
            s''.last == c.last && s''.used == s'.used + (if r.Sent? then [r.nonce] else [])
  {
    var steps := [Begin(0)] + Section(0, chain);
    SoloDeposit(s', 0, chain);
    ReachesRun(s, s', steps);
    s'' := Run(s', steps);
  }

  /** Two threads that both looked before either added complete one id twice. */
  lemma RacingThreadsCompleteTwice(id: string)
    ensures exists s :: Reaches(INIT, s) && s.completed == [id, id]
  {
    ReachesSelf(INIT);
    RunThree(INIT, Look(0, id), Look(1, id), Add(0));
    ReachesRun(INIT, INIT, [Look(0, id), Look(1, id), Add(0)]);
    var s := Run(INIT, [Look(0, id), Look(1, id), Add(0)]);
    ReachesNext(INIT, s, Add(1));
    s := Next(s, Add(1));
    assert s.threads == map[0 := Busy(Some(id), Waiting), 1 := Busy(Some(id), Waiting)];
    s := Completes(INIT, s, 0, id);
    s := Completes(INIT, s, 1, id);
  }
}
