/** The settlement submitter of facilitator/settlement.py and its users, one call after another. */
module Settlement {
  import opened Base

  /** `_next_nonce`: the reported pending count, or one past the last nonce if that is higher. */
  function Allocate(last: Option<int>, pending: int): int {
    match last
    case None => pending
    case Some(n) => Max(pending, n + 1)
  }

  /**
   * What a nonce has to be: the pending count, or the least number above the cached nonce and not below
   * the count, one less being too low.
   */
  ghost predicate LeastNonce(found: Option<int>, pending: int, n: int) {
    match found
    case None => n == pending
    case Some(last) => last < n && pending <= n && (n - 1 <= last || n - 1 < pending)
  }

  /** How the chain treats one submission: it may fail before or after the nonce was taken. */
  datatype Chain = FailsEarly | FailsLate(pending: int) | Accepts(pending: int)

  datatype Result = Sent(nonce: int) | Mocked | Duplicate | Raised

  /** The client's memory: submitted ids and the nonce cache. */
  datatype Client = Client(configured: bool, submitted: set<string>, last: Option<int>)

  /** The locked section every submitter runs; a failure forgets the nonce cache. */
  function Transact(c: Client, chain: Chain): (Client, Result) {
    match chain
    case FailsEarly => (c.(last := None), Raised)
    case FailsLate(_) => (c.(last := None), Raised)
    case Accepts(pending) =>
      var nonce := Allocate(c.last, pending);
      (c.(last := Some(nonce)), Sent(nonce))
  }

  /** `submit_deposit` and the three dispute submitters. */
  function SubmitOther(c: Client, chain: Chain): (Client, Result) {
    if !c.configured then (c, Mocked) else Transact(c, chain)
  }

  /** `submit_settlement`. */
  function SubmitSettlement(c: Client, id: string, chain: Chain): (Client, Result) {
    if id in c.submitted then (c, Duplicate)
    else
      var c1 := c.(submitted := c.submitted + {id});
      if !c.configured then (c1, Mocked)
      else
        var (c2, r) := Transact(c1, chain);
        (if r.Raised? then c2.(submitted := c2.submitted - {id}) else c2, r)
  }

  class SettlementClient {
    const configured: bool
    var submitted: set<string>
    var lastNonce: Option<int>

    ghost function Model(): Client
      reads this
    {
      Client(configured, submitted, lastNonce)
    }

    constructor (configured: bool)
      ensures Model() == Client(configured, {}, None)
    {
      this.configured, submitted, lastNonce := configured, {}, None;
    }

    method NextNonce(pending: int) returns (nonce: int)
      modifies `lastNonce
      ensures nonce == Allocate(old(lastNonce), pending) && lastNonce == Some(nonce)
      ensures LeastNonce(old(lastNonce), pending, nonce)
    {
      nonce := pending;
      if lastNonce.Some? && pending < lastNonce.value + 1 {
        nonce := lastNonce.value + 1;
      }
      lastNonce := Some(nonce);
    }

    /** Build, sign and send under the lock. */
    method LockedSend(chain: Chain) returns (r: Result)
      modifies `lastNonce
      ensures (Model(), r) == Transact(old(Model()), chain)
    {
      match chain {
        case FailsEarly =>
          lastNonce := None;
          return Raised;
        case FailsLate(pending) =>
          var _ := NextNonce(pending);
          lastNonce := None;
          return Raised;
        case Accepts(pending) =>
          var nonce := NextNonce(pending);
          return Sent(nonce);
      }
    }

    method SubmitDeposit(chain: Chain) returns (r: Result)
      modifies this
      ensures (Model(), r) == SubmitOther(old(Model()), chain)
    {
      if !configured {
        return Mocked;
      }
      r := LockedSend(chain);
    }

    method Submit(id: string, chain: Chain) returns (r: Result)
      modifies this
      ensures (Model(), r) == SubmitSettlement(old(Model()), id, chain)
    {
      if id in submitted {
        return Duplicate;
      }
      submitted := submitted + {id};
      if !configured {
        return Mocked;
      }
      r := LockedSend(chain);
      if r == Raised {
        submitted := submitted - {id};
      }
    }
  }

  // ----- sequential runs

  datatype Op = Settle(id: string, chain: Chain) | Deposit(chain: Chain)

  function Perform(c: Client, op: Op): (Client, Result) {
    match op
    case Settle(id, chain) => SubmitSettlement(c, id, chain)
    case Deposit(chain) => SubmitOther(c, chain)
  }

  function Run(c: Client, ops: seq<Op>): Client {
    if ops == [] then c else Perform(Run(c, ops[..|ops| - 1]), ops[|ops| - 1]).0
  }

  /** Attempts for one id that completed: sent or mocked, neither raised nor skipped as a duplicate. */
  function Completions(c: Client, ops: seq<Op>, id: string): nat {
    if ops == [] then 0
    else
      var front, op := ops[..|ops| - 1], ops[|ops| - 1];
      var r := Perform(Run(c, front), op).1;
      Completions(c, front, id) + if op.Settle? && op.id == id && (r.Sent? || r.Mocked?) then 1 else 0
  }

  /** Across replays, retries and failures: an id is remembered exactly when one attempt for it completed. */
  lemma {:induction false} SubmittedExactlyOnce(configured: bool, ops: seq<Op>, id: string)
    ensures var c := Client(configured, {}, None);
            Completions(c, ops, id) == if id in Run(c, ops).submitted then 1 else 0
  {
    if ops != [] {
      SubmittedExactlyOnce(configured, ops[..|ops| - 1], id);
    }
  }

  /** The four ends of a settlement submission, and what each leaves in the client's memory. */
  lemma SubmissionMeaning(c: Client, id: string, chain: Chain)
    ensures var (c', r) := SubmitSettlement(c, id, chain);
            && c'.configured == c.configured
            && (r.Duplicate? <==> id in c.submitted)
            && (r.Mocked? <==> id !in c.submitted && !c.configured)
            && (r.Sent? <==> id !in c.submitted && c.configured && chain.Accepts?)
            && (r.Raised? <==> id !in c.submitted && c.configured && !chain.Accepts?)
            && (r.Sent? ==> LeastNonce(c.last, chain.pending, r.nonce) && c'.last == Some(r.nonce))
            && (r.Raised? ==> c'.last == None)
            && (r.Duplicate? || r.Mocked? ==> c'.last == c.last)
            && c'.submitted == if r.Duplicate? || r.Raised? then c.submitted else c.submitted + {id}
  {
  }
}
