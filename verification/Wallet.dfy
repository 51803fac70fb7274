/**
 * The sidecar wallet client of buyer_agent/wdk_wallet.py: a circuit breaker, a retry loop and a
 * one-shot recovery. Clock readings and the outcome of every HTTP attempt are inputs.
 */
module Wallet {
  import opened Base

  const FAILURE_THRESHOLD := 3
  const RECOVERY_SECONDS := 30.0
  const ATTEMPTS := 3

  datatype Circuit = Closed | Open | HalfOpen

  datatype Breaker = Breaker(circuit: Circuit, failures: nat, openedAt: real)

  const FRESH := Breaker(Closed, 0, 0.0)

  /**
   * One HTTP attempt: unreachable (connect error or timeout), a retryable status, another error
   * status with its message or with JSON that is no object (reading the message then raises, after the
   * failure was recorded), a success with the address its reply names or "", or an exception the loop
   * does not catch (any other transport error, or a body that is not JSON).
   */
  datatype Answer =
    | Unreachable
    | Retryable
    | ServiceError(message: string)
    | UnreadableError
    | Success(address: string)
    | Crash

  /** An attempt and the clock when its failure is recorded. */
  datatype Attempt = Attempt(answer: Answer, failedAt: real)

  /** Everything one `_request_inner` may meet: the check's clock, up to three attempts, the final clock. */
  datatype Exchange = Exchange(checkedAt: real, first: Attempt, second: Attempt, third: Attempt, exhaustedAt: real) {
    function Nth(k: nat): Attempt
      requires k < ATTEMPTS
    {
      if k == 0 then first else if k == 1 then second else third
    }

    ghost predicate Timed() {
      checkedAt <= first.failedAt <= second.failedAt <= third.failedAt <= exhaustedAt
    }
  }

  datatype Error =
    | CircuitOpen
    | RetriesExhausted
    | Service(message: string)
    | Unreadable
    | NoAddress
    | AddressMismatch
    | ConnectFailed
    | Escaped

  datatype Outcome = Done(address: string) | Failed(error: Error)

  // ----- the breaker

  /** `_cb_check`: the breaker to go on with, or nothing when it raises. */
  function Check(b: Breaker, now: real): Option<Breaker> {
    if b.circuit.Open? then
      if now - b.openedAt >= RECOVERY_SECONDS then Some(b.(circuit := HalfOpen)) else None
    else Some(b)
  }

  function RecordSuccess(b: Breaker): Breaker {
    b.(circuit := Closed, failures := 0)
  }

  function RecordFailure(b: Breaker, now: real): Breaker {
    if b.circuit.HalfOpen? || b.failures + 1 >= FAILURE_THRESHOLD
    then Breaker(Open, b.failures + 1, now)
    else b.(failures := b.failures + 1)
  }

  // ----- one request with its retries

  datatype Inner = Inner(breaker: Breaker, sent: nat, outcome: Outcome)

  function RunAttempts(b: Breaker, x: Exchange, k: nat, last: Error): Inner
    requires k <= ATTEMPTS
    decreases ATTEMPTS - k
  {
    if k == ATTEMPTS then Inner(RecordFailure(b, x.exhaustedAt), 0, Failed(last))
    else
      var a := x.Nth(k);
      match a.answer
      case Unreachable =>
        var r := RunAttempts(RecordFailure(b, a.failedAt), x, k + 1, ConnectFailed);
        r.(sent := r.sent + 1)
      case Retryable =>
        var r := RunAttempts(RecordFailure(b, a.failedAt), x, k + 1, RetriesExhausted);
        r.(sent := r.sent + 1)
      case ServiceError(message) => Inner(RecordFailure(b, a.failedAt), 1, Failed(Service(message)))
      case UnreadableError => Inner(RecordFailure(b, a.failedAt), 1, Failed(Unreadable))
      case Success(address) => Inner(RecordSuccess(b), 1, Done(address))
      case Crash => Inner(b, 1, Failed(Escaped))
  }

  /** `_request_inner`. */
  function RequestInner(b: Breaker, x: Exchange): Inner {
    match Check(b, x.checkedAt)
    case None => Inner(b, 0, Failed(CircuitOpen))
    case Some(b') => RunAttempts(b', x, 0, Escaped)
  }

  // ----- a request with recovery

  datatype Kind = Import | Other

  /** A request that left the client: an import, or another with the address its body names, if any. */
  datatype Http = Http(kind: Kind, address: Option<string>)

  /** The wallet: breaker, cached address, and (for the proofs) what was sent and how often it was imported. */
  datatype WalletState = WalletState(breaker: Breaker, address: Option<string>, log: seq<Http>, imports: nat)

  datatype Identity = Identity(hasSeed: bool, expected: Option<string>)

  /** What the three inner requests of one `_request` would meet. */
  datatype World = World(primary: Exchange, importing: Exchange, retry: Exchange)

  const LOST_WALLET := "wallet not loaded"

  predicate MentionsLostWallet(e: Error) {
    e.Service? && Contains(Lower(e.message), LOST_WALLET)
  }

  function Copies(h: Http, n: nat): seq<Http> {
    seq(n, _ => h)
  }

  function Send(w: WalletState, h: Http, x: Exchange): (WalletState, Outcome) {
    var r := RequestInner(w.breaker, x);
    (w.(breaker := r.breaker, log := w.log + Copies(h, r.sent)), r.outcome)
  }

  /** `_request`: on a lost wallet, forget the address, import again, and retry exactly once. */
  function Request(w: WalletState, id: Identity, h: Http, recovery: bool, world: World): (WalletState, Outcome)
    decreases if recovery then 2 else 0
  {
    var (w1, o1) := Send(w, h, world.primary);
    if o1.Failed? && recovery && MentionsLostWallet(o1.error) && id.hasSeed then
      var (w2, o2) := EnsureLoaded(w1.(address := None), id, world.importing);
      if o2.Failed? then (w2, o2)
      else Send(w2, Http(h.kind, if h.address.Some? then w2.address else None), world.retry)
    else (w1, o1)
  }

  /** `ensure_wallet_loaded`: the cached address, or an import with recovery switched off. */
  function EnsureLoaded(w: WalletState, id: Identity, x: Exchange): (WalletState, Outcome)
    decreases 1
  {
    if w.address.Some? then (w, Done(w.address.value))
    else
      var (w1, o1) := Request(w.(imports := w.imports + 1), id, Http(Import, None), false, World(x, x, x));
      if o1.Failed? then (w1, o1)
      else if o1.address == "" then (w1, Failed(NoAddress))
      else if id.expected.Some? && Lower(id.expected.value) != Lower(o1.address) then (w1, Failed(AddressMismatch))
      else (w1.(address := Some(o1.address)), o1)
  }

  // ----- the code

  class WDKWallet {
    const id: Identity
    var circuit: Circuit
    var failures: nat
    var openedAt: real
    var address: Option<string>
    ghost var log: seq<Http>
    ghost var imports: nat

    ghost function Model(): WalletState
      reads this
    {
      WalletState(Breaker(circuit, failures, openedAt), address, log, imports)
    }

    constructor (id: Identity)
      ensures this.id == id && Model() == WalletState(FRESH, None, [], 0)
    {
      this.id := id;
      circuit, failures, openedAt, address := Closed, 0, 0.0, None;
      log, imports := [], 0;
    }

    method CbCheck(now: real) returns (ok: bool)
      modifies `circuit
      ensures ok == Check(old(Model()).breaker, now).Some?
      ensures Model() == old(Model()).(breaker := Check(old(Model()).breaker, now).GetOr(old(Model()).breaker))
    {
      ok := true;
      if circuit == Open {
        if now - openedAt >= RECOVERY_SECONDS {
          circuit := HalfOpen;
        } else {
          ok := false;
        }
      }
    }

    method CbRecordSuccess()
      modifies `circuit, `failures
      ensures Model() == old(Model()).(breaker := RecordSuccess(old(Model()).breaker))
    {
      circuit, failures := Closed, 0;
    }

    method CbRecordFailure(now: real)
      modifies `circuit, `failures, `openedAt
      ensures Model() == old(Model()).(breaker := RecordFailure(old(Model()).breaker, now))
    {
      failures := failures + 1;
      if circuit == HalfOpen {
        circuit, openedAt := Open, now;
      } else if failures >= FAILURE_THRESHOLD {
        circuit, openedAt := Open, now;
      }
    }

    /** The retry loop; each attempt is logged when it is sent. */
    method SendWithRetries(h: Http, x: Exchange) returns (o: Outcome)
      modifies this
      ensures (Model(), o) == Send(old(Model()), h, x)
    {
      var ok := CbCheck(x.checkedAt);
      if !ok {
        assert log + Copies(h, 0) == log;
        return Failed(CircuitOpen);
      }
      var last := Escaped;
      ghost var start := log;
      ghost var whole := RunAttempts(Breaker(circuit, failures, openedAt), x, 0, last);
      for attempt := 0 to ATTEMPTS
        invariant var rest := RunAttempts(Breaker(circuit, failures, openedAt), x, attempt, last);
                  whole == rest.(sent := attempt + rest.sent)
        invariant log == start + Copies(h, attempt) && address == old(address) && imports == old(imports)
      {
        var a := x.Nth(attempt);
        log := log + [h];
        assert start + Copies(h, attempt) + [h] == start + Copies(h, attempt + 1);
        match a.answer {
          case Unreachable =>
            last := ConnectFailed;
            CbRecordFailure(a.failedAt);
          case Retryable =>
            last := RetriesExhausted;
            CbRecordFailure(a.failedAt);
          case ServiceError(message) =>
            CbRecordFailure(a.failedAt);
            return Failed(Service(message));
          case UnreadableError =>
            CbRecordFailure(a.failedAt);
            return Failed(Unreadable);
          case Success(reply) =>
            CbRecordSuccess();
            return Done(reply);
          case Crash =>
            return Failed(Escaped);
        }
      }
      CbRecordFailure(x.exhaustedAt);
      o := Failed(last);
    }

    method RequestWithRecovery(h: Http, recovery: bool, world: World) returns (o: Outcome)
      modifies this
      ensures (Model(), o) == Request(old(Model()), id, h, recovery, world)
      decreases if recovery then 2 else 0
    {
      o := SendWithRetries(h, world.primary);
      if o.Failed? && recovery && MentionsLostWallet(o.error) && id.hasSeed {
        address := None;
        var imported := EnsureWalletLoaded(world.importing);
        if imported.Failed? {
          return imported;
        }
        o := SendWithRetries(Http(h.kind, if h.address.Some? then address else None), world.retry);
      }
    }

    method EnsureWalletLoaded(x: Exchange) returns (o: Outcome)
      modifies this
      ensures (Model(), o) == EnsureLoaded(old(Model()), id, x)
      decreases 1
    {
      if address.Some? {
        return Done(address.value);
      }
      imports := imports + 1;
      o := RequestWithRecovery(Http(Import, None), false, World(x, x, x));
      if o.Failed? {
        return;
      }
      if o.address == "" {
        return Failed(NoAddress);
      }
      if id.expected.Some? && Lower(id.expected.value) != Lower(o.address) {
        return Failed(AddressMismatch);
      }
      address := Some(o.address);
    }
  }

  // ----- recovery is bounded

  lemma {:induction false} AttemptsBounded(b: Breaker, x: Exchange, k: nat, last: Error)
    requires k <= ATTEMPTS
    ensures RunAttempts(b, x, k, last).sent <= ATTEMPTS - k
    decreases ATTEMPTS - k
  {
    if k < ATTEMPTS {
      var a := x.Nth(k);
      AttemptsBounded(RecordFailure(b, a.failedAt), x, k + 1, ConnectFailed);
      AttemptsBounded(RecordFailure(b, a.failedAt), x, k + 1, RetriesExhausted);
    }
  }

  lemma SendBounded(w: WalletState, h: Http, x: Exchange)
    ensures var w' := Send(w, h, x).0;
            var n := RequestInner(w.breaker, x).sent;
            && n <= 3 && w'.log == w.log + Copies(h, n) && w'.imports == w.imports && w'.address == w.address
  {
    if Check(w.breaker, x.checkedAt).Some? {
      AttemptsBounded(Check(w.breaker, x.checkedAt).value, x, 0, Escaped);
    }
  }

  /** An import sends at most three requests, and none when the address is known. */
  lemma EnsureBounded(w: WalletState, id: Identity, x: Exchange)
    ensures var w' := EnsureLoaded(w, id, x).0;
            && (if w.address.Some? then w' == w && EnsureLoaded(w, id, x).1 == Done(w.address.value)
                else RequestInner(w.breaker, x).sent <= 3
                     && w'.log == w.log + Copies(Http(Import, None), RequestInner(w.breaker, x).sent))
            && w'.imports == w.imports + (if w.address.Some? then 0 else 1)
            && (EnsureLoaded(w, id, x).1.Done? <==> w'.address.Some?)
            && (EnsureLoaded(w, id, x).1.Done? ==> w'.address == Some(EnsureLoaded(w, id, x).1.address))
  {
    if w.address.None? {
      SendBounded(w.(imports := w.imports + 1), Http(Import, None), x);
    }
  }

  /** The recovery is due: the first answer reports the wallet lost, and there is a seed to import again. */
  predicate RecoveryDue(id: Identity, first: Outcome) {
    first.Failed? && MentionsLostWallet(first.error) && id.hasSeed
  }

  /** An import yields its address if it names one and that is the expected one, if any, up to letter case. */
  ghost predicate Yields(id: Identity, imported: Outcome) {
    imported.Done? && imported.address != ""
    && (id.expected.None? || SameLetters(id.expected.value, imported.address))
  }

  /** Why it does not: its own error, no address, or another one. */
  function ImportError(imported: Outcome): Error {
    if imported.Failed? then imported.error else if imported.address == "" then NoAddress else AddressMismatch
  }

  lemma EnsureYields(w: WalletState, id: Identity, x: Exchange)
    requires w.address.None?
    ensures var imported := RequestInner(w.breaker, x);
            var (w', o) := EnsureLoaded(w, id, x);
            && w'.breaker == imported.breaker
            && (if Yields(id, imported.outcome) then
                  o == imported.outcome && w'.address == Some(imported.outcome.address)
                else o == Failed(ImportError(imported.outcome)) && w'.address == None)
  {
    var imported := RequestInner(w.breaker, x);
    if imported.outcome.Done? && id.expected.Some? {
      LowerEqualIff(id.expected.value, imported.outcome.address);
    }
  }

  /**
   * One top-level request, in full: the request itself; then, exactly when the first answer reports the
   * wallet lost, one import; and exactly when that yields an address, the request once more under that
   * address, whose outcome is the answer. A failed import is the answer and leaves no cached address.
   */
  lemma RecoveryIsOneShot(w: WalletState, id: Identity, h: Http, world: World)
    ensures var (w', o) := Request(w, id, h, true, world);
            var first := RequestInner(w.breaker, world.primary);
            var asked := w.log + Copies(h, first.sent);
            if !RecoveryDue(id, first.outcome) then
              w' == w.(breaker := first.breaker, log := asked) && o == first.outcome
            else
              var imported := RequestInner(first.breaker, world.importing);
              var reloaded := asked + Copies(Http(Import, None), imported.sent);
              if !Yields(id, imported.outcome) then
                && w' == WalletState(imported.breaker, None, reloaded, w.imports + 1)
                && o == Failed(ImportError(imported.outcome))
              else
                var current := Some(imported.outcome.address);
                var retried := RequestInner(imported.breaker, world.retry);
                var again := Http(h.kind, if h.address.Some? then current else None);
                && w' == WalletState(retried.breaker, current, reloaded + Copies(again, retried.sent), w.imports + 1)
                && o == retried.outcome
  {
    var (w1, o1) := Send(w, h, world.primary);
    if RecoveryDue(id, o1) {
      var lost := w1.(address := None);
      EnsureBounded(lost, id, world.importing);
      EnsureYields(lost, id, world.importing);
    }
  }

  /** So it sends at most nine HTTP requests, three in each group, and imports at most once. */
  lemma AtMostNine(w: WalletState, id: Identity, h: Http, world: World)
    ensures var w' := Request(w, id, h, true, world).0;
            |w.log| <= |w'.log| <= |w.log| + 9 && w.imports <= w'.imports <= w.imports + 1
  {
    RecoveryIsOneShot(w, id, h, world);
    var first := RequestInner(w.breaker, world.primary);
    var imported := RequestInner(first.breaker, world.importing);
    SentBound(w.breaker, world.primary);
    SentBound(first.breaker, world.importing);
    SentBound(imported.breaker, world.retry);
  }

  lemma SentBound(b: Breaker, x: Exchange)
    ensures RequestInner(b, x).sent <= 3
  {
    SendBounded(WalletState(b, None, [], 0), Http(Import, None), x);
  }

  // ----- what the answers decide

  /** The loop goes on after these. */
  predicate Retried(a: Answer) {
    a.Unreachable? || a.Retryable?
  }

  /** What the caller learns from the first answer that is not retried. */
  function Decided(a: Answer): Outcome
    requires !Retried(a)
  {
    match a
    case Success(address) => Done(address)
    case ServiceError(message) => Failed(Service(message))
    case UnreadableError => Failed(Unreadable)
    case Crash => Failed(Escaped)
  }

  /**
   * A request the breaker refuses sends nothing. One it lets pass goes on to the first answer that is
   * not retried, which decides it, or through three attempts, and then the third one's failure is raised.
   */
  lemma AnswersDecide(b: Breaker, x: Exchange)
    ensures var r := RequestInner(b, x);
            if b.circuit.Open? && x.checkedAt - b.openedAt < 30.0 then
              r == Inner(b, 0, Failed(CircuitOpen))
            else if !Retried(x.first.answer) then r.sent == 1 && r.outcome == Decided(x.first.answer)
            else if !Retried(x.second.answer) then r.sent == 2 && r.outcome == Decided(x.second.answer)
            else if !Retried(x.third.answer) then r.sent == 3 && r.outcome == Decided(x.third.answer)
            else
              r.sent == 3 && r.outcome == Failed(RaisedAfter(x.third.answer))
  {
    var passed := Check(b, x.checkedAt);
    if passed.Some? {
      AttemptDecides(passed.value, x, 0, Escaped);
      if Retried(x.first.answer) {
        var b1 := RecordFailure(passed.value, x.first.failedAt);
        AttemptDecides(b1, x, 1, RaisedAfter(x.first.answer));
        if Retried(x.second.answer) {
          AttemptDecides(RecordFailure(b1, x.second.failedAt), x, 2, RaisedAfter(x.second.answer));
        }
      }
    }
  }

  function RaisedAfter(a: Answer): Error {
    if a.Unreachable? then ConnectFailed else RetriesExhausted
  }

  lemma AttemptDecides(b: Breaker, x: Exchange, k: nat, last: Error)
    requires k < ATTEMPTS
    ensures var a := x.Nth(k);
            var r := RunAttempts(b, x, k, last);
            if !Retried(a.answer) then r.sent == 1 && r.outcome == Decided(a.answer)
            else
              var rest := RunAttempts(RecordFailure(b, a.failedAt), x, k + 1, RaisedAfter(a.answer));
              && r.sent == rest.sent + 1 && r.outcome == rest.outcome
              && (k + 1 == ATTEMPTS ==> rest.sent == 0 && rest.outcome == Failed(RaisedAfter(a.answer)))
  {
  }

  /**
   * The retry in those terms: it is sent once and its reply is what the caller gets if the breaker lets
   * it pass and it succeeds at once; it is not sent, and the caller told so, if the breaker refuses.
   */
  lemma RetryAnswers(w: WalletState, id: Identity, h: Http, world: World)
    requires var first := RequestInner(w.breaker, world.primary);
             && RecoveryDue(id, first.outcome)
             && Yields(id, RequestInner(first.breaker, world.importing).outcome)
    ensures var first := RequestInner(w.breaker, world.primary);
            var imported := RequestInner(first.breaker, world.importing);
            var (w', o) := Request(w, id, h, true, world);
            var again := Http(h.kind, if h.address.Some? then Some(imported.outcome.address) else None);
            var before := |w.log| + first.sent + imported.sent;
            if imported.breaker.circuit.Open? && world.retry.checkedAt - imported.breaker.openedAt < 30.0 then
              |w'.log| == before && o == Failed(CircuitOpen)
            else
              && |w'.log| > before && w'.log[before] == again
              && (world.retry.first.answer.Success? ==>
                    |w'.log| == before + 1 && o == Done(world.retry.first.answer.address))
  {
    RecoveryIsOneShot(w, id, h, world);
    AnswersDecide(RequestInner(RequestInner(w.breaker, world.primary).breaker, world.importing).breaker, world.retry);
  }

  /** A wallet lost under "0xa", imported as "0xb": the request goes out again and its own reply comes back. */
  lemma RetryHappens(message: string, x: string)
    requires MentionsLostWallet(Service(message))
    ensures var h := Http(Other, Some("0xa"));
            var world := World(At(ServiceError(message), 0.0), At(Success("0xb"), 0.0), At(Success(x), 0.0));
            var (w', o) := Request(WalletState(FRESH, h.address, [], 0), Identity(true, None), h, true, world);
            && o == Done(x) && w'.address == Some("0xb")
            && w'.log == [h, Http(Import, None), Http(Other, Some("0xb"))]
  {
    var h, w := Http(Other, Some("0xa")), WalletState(FRESH, Some("0xa"), [], 0);
    var world := World(At(ServiceError(message), 0.0), At(Success("0xb"), 0.0), At(Success(x), 0.0));
    AnswersDecide(FRESH, world.primary);
    assert RequestInner(FRESH, world.primary).breaker == Breaker(Closed, 1, 0.0);
    OneSuccess(Breaker(Closed, 1, 0.0), "0xb");
    OneSuccess(FRESH, x);
    RecoveryIsOneShot(w, Identity(true, None), h, world);
  }

  lemma OneSuccess(b: Breaker, x: string)
    requires !b.circuit.Open? && (b.failures == 0 ==> b == FRESH) && b.openedAt == 0.0
    ensures RequestInner(b, At(Success(x), 0.0)) == Inner(FRESH, 1, Done(x))
  {
  }

  /** The phrase occurs there, in any letter case. */
  ghost predicate SameAt(text: string, part: string, i: nat) {
    i + |part| <= |text| && SameLetters(text[i..i + |part|], part)
  }

  lemma PhraseIff(message: string, phrase: string)
    requires LowerCase(phrase)
    ensures Contains(Lower(message), phrase) <==> exists i: nat :: SameAt(message, phrase, i)
  {
    ContainsIff(Lower(message), phrase);
    LowerPhrase(phrase);
    forall i: nat ensures OccursAt(Lower(message), phrase, i) <==> SameAt(message, phrase, i) {
      OccursIff(message, phrase, i);
    }
  }

  lemma OccursIff(message: string, phrase: string, i: nat)
    requires Lower(phrase) == phrase
    ensures OccursAt(Lower(message), phrase, i) <==> SameAt(message, phrase, i)
  {
    if i + |phrase| <= |message| {
      LowerSlice(message, i, i + |phrase|);
      LowerEqualIff(message[i..i + |phrase|], phrase);
    }
  }

  predicate LowerCase(s: string) {
    forall i :: 0 <= i < |s| ==> !('A' <= s[i] <= 'Z')
  }

  /** A lost wallet is reported by a service error that contains the phrase in any letter case. */
  lemma LostWalletIff(e: Error)
    ensures MentionsLostWallet(e) <==> e.Service? && exists i: nat :: SameAt(e.message, LOST_WALLET, i)
  {
    if e.Service? {
      assert LowerCase(LOST_WALLET);
      PhraseIff(e.message, LOST_WALLET);
    }
  }

  lemma {:induction false} LowerPhrase(s: string)
    requires LowerCase(s)
    ensures Lower(s) == s
  {
    if s != [] {
      LowerPhrase(s[1..]);
      assert s == [s[0]] + s[1..];
    }
  }

  lemma {:induction false} LowerSlice(s: string, lo: nat, hi: nat)
    requires lo <= hi <= |s|
    ensures Lower(s)[lo..hi] == Lower(s[lo..hi])
  {
    if s != [] {
      if lo > 0 {
        LowerSlice(s[1..], lo - 1, hi - 1);
        assert s[1..][lo - 1..hi - 1] == s[lo..hi];
      } else if hi > 0 {
        LowerSlice(s[1..], 0, hi - 1);
        assert s[0..hi][1..] == s[1..][0..hi - 1];
      }
    }
  }

  // ----- the breaker's state is its history

  datatype Event = Checked(at: real) | Succeeded | FailedAt(at: real)

  function Apply(b: Breaker, e: Event): Breaker {
    match e
    case Checked(at) => Check(b, at).GetOr(b)
    case Succeeded => RecordSuccess(b)
    case FailedAt(at) => RecordFailure(b, at)
  }

  function Run(b: Breaker, es: seq<Event>): Breaker {
    if es == [] then b else Apply(Run(b, es[..|es| - 1]), es[|es| - 1])
  }

  /** Failures since the last success. */
  function FailureCount(es: seq<Event>): nat {
    if es == [] then 0
    else
      match es[|es| - 1]
      case Checked(_) => FailureCount(es[..|es| - 1])
      case Succeeded => 0
      case FailedAt(_) => FailureCount(es[..|es| - 1]) + 1
  }

  function LatestFailure(es: seq<Event>): real {
    if es == [] then 0.0
    else if es[|es| - 1].FailedAt? then es[|es| - 1].at
    else LatestFailure(es[..|es| - 1])
  }

  /** Since the latest failure, some check came at least the recovery time after it. */
  predicate Recovering(es: seq<Event>) {
    es != [] &&
    match es[|es| - 1]
    case Checked(at) => Recovering(es[..|es| - 1]) || at - LatestFailure(es) >= 30.0
    case Succeeded => false
    case FailedAt(_) => false
  }

  /** However checks, successes and failures interleave, the state is this function of the history. */
  lemma {:induction false} StateIsHistory(es: seq<Event>)
    ensures var b := Run(FRESH, es);
            && b.failures == FailureCount(es)
            && (b.circuit.Closed? <==> FailureCount(es) < 3)
            && (b.circuit.HalfOpen? <==> FailureCount(es) >= 3 && Recovering(es))
            && (!b.circuit.Closed? ==> b.openedAt == LatestFailure(es))
  {
    if es != [] {
      StateIsHistory(es[..|es| - 1]);
    }
  }

  lemma {:induction false} RunAppend(b: Breaker, a: seq<Event>, c: seq<Event>)
    ensures Run(b, a + c) == Run(Run(b, a), c)
  {
    if c == [] {
      assert a + c == a;
    } else {
      assert (a + c)[..|a + c| - 1] == a + c[..|c| - 1];
      RunAppend(b, a, c[..|c| - 1]);
    }
  }

  /** What the attempts from the k-th on do to the breaker, read off their answers and clocks. */
  function AttemptTrace(x: Exchange, k: nat): seq<Event>
    requires k <= ATTEMPTS
    decreases ATTEMPTS - k
  {
    if k == ATTEMPTS then [FailedAt(x.exhaustedAt)]
    else
      var a := x.Nth(k);
      match a.answer
      case Unreachable => [FailedAt(a.failedAt)] + AttemptTrace(x, k + 1)
      case Retryable => [FailedAt(a.failedAt)] + AttemptTrace(x, k + 1)
      case ServiceError(_) => [FailedAt(a.failedAt)]
      case UnreadableError => [FailedAt(a.failedAt)]
      case Success(_) => [Succeeded]
      case Crash => []
  }

  /** A whole request: the check on entry and, if the breaker lets it pass, its attempts. */
  function Trace(b: Breaker, x: Exchange): seq<Event> {
    [Checked(x.checkedAt)] + if Check(b, x.checkedAt).Some? then AttemptTrace(x, 0) else []
  }

  lemma RunCons(b: Breaker, e: Event, es: seq<Event>)
    ensures Run(b, [e]) == Apply(b, e) && Run(b, [e] + es) == Run(Apply(b, e), es)
  {
    assert [e][..0] == [];
    RunAppend(b, [e], es);
  }

  lemma {:induction false} AttemptsFollowTrace(b: Breaker, x: Exchange, k: nat, last: Error)
    requires k <= ATTEMPTS
    ensures RunAttempts(b, x, k, last).breaker == Run(b, AttemptTrace(x, k))
    decreases ATTEMPTS - k, 1
  {
    if k == ATTEMPTS {
      RunCons(b, FailedAt(x.exhaustedAt), []);
    } else {
      match x.Nth(k).answer {
        case Unreachable => RetryFollowsTrace(b, x, k, ConnectFailed);
        case Retryable => RetryFollowsTrace(b, x, k, RetriesExhausted);
        case ServiceError(_) => RunCons(b, FailedAt(x.Nth(k).failedAt), []);
        case UnreadableError => RunCons(b, FailedAt(x.Nth(k).failedAt), []);
        case Success(_) => RunCons(b, Succeeded, []);
        case Crash =>
      }
    }
  }

  lemma {:induction false} RetryFollowsTrace(b: Breaker, x: Exchange, k: nat, last: Error)
    requires k < ATTEMPTS
    ensures var at := x.Nth(k).failedAt;
            RunAttempts(RecordFailure(b, at), x, k + 1, last).breaker == Run(b, [FailedAt(at)] + AttemptTrace(x, k + 1))
    decreases ATTEMPTS - k, 0
  {
    var at := x.Nth(k).failedAt;
    AttemptsFollowTrace(RecordFailure(b, at), x, k + 1, last);
    RunCons(b, FailedAt(at), AttemptTrace(x, k + 1));
  }

  /** A request does to the breaker what its trace says. */
  lemma RequestFollowsTrace(b: Breaker, x: Exchange)
    ensures RequestInner(b, x).breaker == Run(b, Trace(b, x))
  {
    if Check(b, x.checkedAt).Some? {
      AttemptsFollowTrace(Check(b, x.checkedAt).value, x, 0, Escaped);
      RunCons(b, Checked(x.checkedAt), AttemptTrace(x, 0));
    } else {
      RunCons(b, Checked(x.checkedAt), []);
      assert Trace(b, x) == [Checked(x.checkedAt)];
    }
  }

  lemma {:induction false} NotHalfOpenAfter(b: Breaker, x: Exchange, k: nat, last: Error)
    requires k <= ATTEMPTS && !b.circuit.HalfOpen?
    ensures !RunAttempts(b, x, k, last).breaker.circuit.HalfOpen?
    decreases ATTEMPTS - k
  {
    if k < ATTEMPTS {
      var a := x.Nth(k);
      NotHalfOpenAfter(RecordFailure(b, a.failedAt), x, k + 1, ConnectFailed);
      NotHalfOpenAfter(RecordFailure(b, a.failedAt), x, k + 1, RetriesExhausted);
    }
  }

  /**
   * A completed request never leaves the breaker half-open, with one exception: a probe whose very
   * first attempt dies of an exception the loop does not catch.
   */
  lemma HalfOpenAfterIff(b: Breaker, x: Exchange)
    ensures RequestInner(b, x).breaker.circuit.HalfOpen?
       <==> Check(b, x.checkedAt).Some? && Check(b, x.checkedAt).value.circuit.HalfOpen? && x.first.answer.Crash?
  {
    var checkedBreaker := Check(b, x.checkedAt);
    if checkedBreaker.Some? {
      if checkedBreaker.value.circuit.HalfOpen? {
        var failed := RecordFailure(checkedBreaker.value, x.first.failedAt);
        NotHalfOpenAfter(failed, x, 1, ConnectFailed);
        NotHalfOpenAfter(failed, x, 1, RetriesExhausted);
      } else {
        NotHalfOpenAfter(checkedBreaker.value, x, 0, Escaped);
      }
    }
  }

  // ----- how many attempts a dead sidecar can cost

  /** Attempts sent and calls that crashed over a sequence of requests none of which succeeds. */
  datatype Tally = Tally(breaker: Breaker, sent: nat, crashes: nat, allFailed: bool)

  function RunCalls(b: Breaker, xs: seq<Exchange>): Tally {
    if xs == [] then Tally(b, 0, 0, true)
    else
      var t := RunCalls(b, xs[..|xs| - 1]);
      var r := RequestInner(t.breaker, xs[|xs| - 1]);
      Tally(r.breaker, t.sent + r.sent, t.crashes + Crashes(r), t.allFailed && r.outcome.Failed?)
  }

  function Crashes(r: Inner): nat {
    if r.outcome == Failed(Escaped) then 1 else 0
  }

  /** The breaker's history over a sequence of requests from a fresh wallet. */
  function History(xs: seq<Exchange>): seq<Event> {
    if xs == [] then []
    else History(xs[..|xs| - 1]) + Trace(Run(FRESH, History(xs[..|xs| - 1])), xs[|xs| - 1])
  }

  lemma {:induction false} CallsFollowHistory(xs: seq<Exchange>)
    ensures RunCalls(FRESH, xs).breaker == Run(FRESH, History(xs))
  {
    if xs != [] {
      var front, last := xs[..|xs| - 1], xs[|xs| - 1];
      CallsFollowHistory(front);
      RequestFollowsTrace(Run(FRESH, History(front)), last);
      RunAppend(FRESH, History(front), Trace(Run(FRESH, History(front)), last));
    }
  }

  /**
   * So the state after any requests is read off their answers and clocks: failures since the last
   * success, closed below three of them, opened at the latest one.
   */
  lemma CallsAreHistory(xs: seq<Exchange>)
    ensures var b, es := RunCalls(FRESH, xs).breaker, History(xs);
            && b.failures == FailureCount(es)
            && (b.circuit.Closed? <==> FailureCount(es) < 3)
            && (b.circuit.HalfOpen? <==> FailureCount(es) >= 3 && Recovering(es))
            && (!b.circuit.Closed? ==> b.openedAt == LatestFailure(es))
  {
    CallsFollowHistory(xs);
    StateIsHistory(History(xs));
  }

  /** Whole recovery periods from `a` to `b`. */
  function Periods(a: real, b: real): int {
    ((b - a) / 30.0).Floor
  }

  ghost predicate Sequential(xs: seq<Exchange>) {
    && (forall i :: 0 <= i < |xs| ==> xs[i].Timed())
    && (forall i, j :: 0 <= i < j < |xs| ==> xs[i].exhaustedAt <= xs[j].checkedAt)
  }

  /** True of every reachable breaker, by `StateIsHistory`. */
  predicate Coherent(b: Breaker) {
    b.circuit.Closed? <==> b.failures < FAILURE_THRESHOLD
  }

  /** What a failing request, `left` attempts before its end, can do to breaker `b`, and what it costs. */
  ghost predicate FailsLike(b: Breaker, r: Inner, left: nat, since: real) {
    && Coherent(r.breaker)
    && 0 <= r.sent - Crashes(r) <= left
    && (r.breaker.circuit.Closed? ==> b.circuit.Closed? && r.sent - Crashes(r) <= r.breaker.failures - b.failures)
    && (r.breaker.circuit.HalfOpen? ==> b.circuit.HalfOpen? && r.sent == Crashes(r))
    && (r.breaker.circuit.Open? ==> r.breaker.openedAt >= since || r.breaker == b)
  }

  lemma FailsOnce(b: Breaker, at: real, r: Inner, left: nat, since: real)
    requires Coherent(b) && since <= at && FailsLike(RecordFailure(b, at), r, left, since)
    ensures FailsLike(b, r.(sent := r.sent + 1), left + 1, since)
  {
  }

  /** An attempt that ends the request: another error status, or an uncaught exception. */
  lemma FailsLast(b: Breaker, at: real, error: Error, left: nat, since: real)
    requires Coherent(b) && since <= at && left >= 1 && error != Escaped
    ensures FailsLike(b, Inner(RecordFailure(b, at), 1, Failed(error)), left, since)
    ensures FailsLike(b, Inner(b, 1, Failed(Escaped)), left, since)
  {
  }

  lemma {:induction false} FailingAttempts(b: Breaker, x: Exchange, k: nat, last: Error, since: real)
    requires k <= ATTEMPTS && RunAttempts(b, x, k, last).outcome.Failed?
    requires x.exhaustedAt >= since && forall i :: 0 <= i < ATTEMPTS ==> x.Nth(i).failedAt >= since
    requires Coherent(b) && (k == ATTEMPTS ==> last != Escaped)
    ensures FailsLike(b, RunAttempts(b, x, k, last), ATTEMPTS - k, since)
    decreases ATTEMPTS - k, 1
  {
    if k < ATTEMPTS {
      var a := x.Nth(k);
      match a.answer {
        case Unreachable => FailedAttempt(b, x, k, ConnectFailed, since);
        case Retryable => FailedAttempt(b, x, k, RetriesExhausted, since);
        case ServiceError(message) => FailsLast(b, a.failedAt, Service(message), ATTEMPTS - k, since);
        case UnreadableError => FailsLast(b, a.failedAt, Unreadable, ATTEMPTS - k, since);
        case Crash => FailsLast(b, a.failedAt, Unreadable, ATTEMPTS - k, since);
        case Success(_) =>
      }
    }
  }

  /** An attempt that is retried, and the rest of the request after it. */
  lemma {:induction false} FailedAttempt(b: Breaker, x: Exchange, k: nat, last: Error, since: real)
    requires k < ATTEMPTS && Coherent(b) && last != Escaped
    requires x.exhaustedAt >= since && forall i :: 0 <= i < ATTEMPTS ==> x.Nth(i).failedAt >= since
    requires RunAttempts(RecordFailure(b, x.Nth(k).failedAt), x, k + 1, last).outcome.Failed?
    ensures var rest := RunAttempts(RecordFailure(b, x.Nth(k).failedAt), x, k + 1, last);
            FailsLike(b, rest.(sent := rest.sent + 1), ATTEMPTS - k, since)
    decreases ATTEMPTS - k, 0
  {
    var failed := RecordFailure(b, x.Nth(k).failedAt);
    FailingAttempts(failed, x, k + 1, last, since);
    FailsOnce(b, x.Nth(k).failedAt, RunAttempts(failed, x, k + 1, last), ATTEMPTS - k - 1, since);
  }

  /**
   * The attempts so far, crashed ones aside, are paid for by the state: by the failures counted while
   * closed, by the probe slots up to `slot` once it opened; a half-open breaker has a probe in hand.
   */
  ghost predicate PaidFor(b: Breaker, attempts: int, start: real, slot: real) {
    && Coherent(b)
    && start <= slot
    && match b.circuit
       case Closed => attempts <= b.failures
       case Open => slot <= b.openedAt && attempts <= 5 + 3 * Periods(start, slot)
       case HalfOpen => attempts <= 2 + 3 * Periods(start, slot)
  }

  lemma PeriodsGrow(start: real, a: real, b: real)
    requires start <= a <= b
    ensures 0 <= Periods(start, a) <= Periods(start, b)
    ensures a + RECOVERY_SECONDS <= b ==> Periods(start, a) + 1 <= Periods(start, b)
  {
    var p, q := (a - start) / RECOVERY_SECONDS, (b - start) / RECOVERY_SECONDS;
    assert 0.0 <= p <= q;
    assert a + RECOVERY_SECONDS <= b ==> p + 1.0 <= q;
  }

  lemma FailingCall(b: Breaker, x: Exchange, attempts: int, start: real, slot: real) returns (slot': real)
    requires PaidFor(b, attempts, start, slot) && slot <= x.checkedAt && x.Timed()
    requires RequestInner(b, x).outcome.Failed?
    ensures var r := RequestInner(b, x);
            PaidFor(r.breaker, attempts + r.sent - Crashes(r), start, slot') && slot' <= x.checkedAt
  {
    slot' := slot;
    var passed := Check(b, x.checkedAt);
    if passed.Some? {
      slot' := x.checkedAt;
      FailingAttempts(passed.value, x, 0, Escaped, x.checkedAt);
      PeriodsGrow(start, slot, x.checkedAt);
    }
  }

  lemma {:induction false} FailingCalls(xs: seq<Exchange>, start: real) returns (slot: real)
    requires Sequential(xs) && RunCalls(FRESH, xs).allFailed
    requires xs != [] ==> start <= xs[0].checkedAt
    ensures var t := RunCalls(FRESH, xs);
            && PaidFor(t.breaker, t.sent - t.crashes, start, slot)
            && slot <= if xs == [] then start else xs[|xs| - 1].checkedAt
  {
    slot := start;
    if xs != [] {
      var n := |xs| - 1;
      slot := FailingCalls(xs[..n], start);
      var before := RunCalls(FRESH, xs[..n]);
      assert n > 0 ==> xs[n - 1].checkedAt <= xs[n].checkedAt;
      slot := FailingCall(before.breaker, xs[n], before.sent - before.crashes, start, slot);
    }
  }

  /**
   * A fresh wallet whose requests never succeed sends at most 5 + 3 * floor(T / 30) attempts over a
   * span of T seconds, the retries that go on after the breaker opened included, and not counting
   * attempts that died of an uncaught exception.
   */
  lemma AttemptsOverSpan(xs: seq<Exchange>)
    requires xs != [] && Sequential(xs) && RunCalls(FRESH, xs).allFailed
    ensures var t := RunCalls(FRESH, xs);
            t.sent <= 5 + 3 * Periods(xs[0].checkedAt, xs[|xs| - 1].checkedAt) + t.crashes
  {
    var start, end := xs[0].checkedAt, xs[|xs| - 1].checkedAt;
    var slot := FailingCalls(xs, start);
    PeriodsGrow(start, slot, end);
  }

  // ----- the bound is reached, and its exception is real

  function At(answer: Answer, at: real): Exchange {
    Exchange(at, Attempt(answer, at), Attempt(answer, at), Attempt(answer, at), at)
  }

  const TWO_BAD: seq<Exchange> := [At(ServiceError(""), 0.0), At(ServiceError(""), 0.0)]

  /** Two client errors, a request that exhausts its retries, then a failing probe every recovery period. */
  function WorstCalls(k: nat): seq<Exchange> {
    if k == 0 then TWO_BAD + [At(Unreachable, 0.0)]
    else WorstCalls(k - 1) + [At(Unreachable, k as real * RECOVERY_SECONDS)]
  }

  lemma Exhausting(b: Breaker, at: real)
    requires Check(b, at).Some? && b.failures >= 2
    ensures var r := RequestInner(b, At(Unreachable, at));
            r.sent == 3 && r.outcome == Failed(ConnectFailed) && r.breaker == Breaker(Open, b.failures + 4, at)
  {
    var x := At(Unreachable, at);
    var b1 := RecordFailure(Check(b, at).value, at);
    var b2 := RecordFailure(b1, at);
    var b3 := RecordFailure(b2, at);
    assert RunAttempts(b3, x, 3, ConnectFailed) == Inner(Breaker(Open, b.failures + 4, at), 0, Failed(ConnectFailed));
    assert RunAttempts(b2, x, 2, ConnectFailed).sent == 1;
    assert RunAttempts(b1, x, 1, ConnectFailed).sent == 2;
  }

  lemma {:induction false} WorstCallsSequential(k: nat)
    ensures var xs := WorstCalls(k);
            && |xs| == k + 3 && Sequential(xs)
            && xs[0].checkedAt == 0.0
            && (forall i :: 0 <= i < |xs| ==> xs[i].exhaustedAt == xs[i].checkedAt <= k as real * RECOVERY_SECONDS)
            && xs[|xs| - 1].checkedAt == k as real * RECOVERY_SECONDS
  {
    if k > 0 {
      WorstCallsSequential(k - 1);
      assert k as real * RECOVERY_SECONDS == (k - 1) as real * RECOVERY_SECONDS + RECOVERY_SECONDS;
    }
  }

  lemma RunCallsSnoc(xs: seq<Exchange>, x: Exchange)
    ensures var t := RunCalls(FRESH, xs);
            var r := RequestInner(t.breaker, x);
            RunCalls(FRESH, xs + [x])
              == Tally(r.breaker, t.sent + r.sent, t.crashes + Crashes(r), t.allFailed && r.outcome.Failed?)
  {
    assert (xs + [x])[..|xs + [x]| - 1] == xs;
  }

  lemma ClientErrorCost(xs: seq<Exchange>, failures: nat)
    requires RunCalls(FRESH, xs) == Tally(Breaker(Closed, failures, 0.0), failures, 0, true) && failures < 2
    ensures RunCalls(FRESH, xs + [At(ServiceError(""), 0.0)])
         == Tally(Breaker(Closed, failures + 1, 0.0), failures + 1, 0, true)
  {
    var bad, b := At(ServiceError(""), 0.0), Breaker(Closed, failures, 0.0);
    assert RequestInner(b, bad) == Inner(Breaker(Closed, failures + 1, 0.0), 1, Failed(Service("")));
    RunCallsSnoc(xs, bad);
  }

  lemma TwoBadCost()
    ensures RunCalls(FRESH, TWO_BAD) == Tally(Breaker(Closed, 2, 0.0), 2, 0, true)
  {
    var bad := At(ServiceError(""), 0.0);
    ClientErrorCost([], 0);
    assert [] + [bad] == [bad];
    ClientErrorCost([bad], 1);
    assert [bad] + [bad] == TWO_BAD;
  }

  lemma WorstStart()
    ensures RunCalls(FRESH, WorstCalls(0)) == Tally(Breaker(Open, 6, 0.0), 5, 0, true)
  {
    TwoBadCost();
    Exhausting(Breaker(Closed, 2, 0.0), 0.0);
    RunCallsSnoc(TWO_BAD, At(Unreachable, 0.0));
  }

  /** One more failing probe, at the end of a recovery period. */
  lemma ProbeCost(xs: seq<Exchange>, failures: nat, sent: nat, since: real, at: real)
    requires RunCalls(FRESH, xs) == Tally(Breaker(Open, failures, since), sent, 0, true)
    requires failures >= 2 && at == since + RECOVERY_SECONDS
    ensures RunCalls(FRESH, xs + [At(Unreachable, at)]) == Tally(Breaker(Open, failures + 4, at), sent + 3, 0, true)
  {
    Exhausting(Breaker(Open, failures, since), at);
    RunCallsSnoc(xs, At(Unreachable, at));
  }

  lemma {:induction false} WorstCallsCost(k: nat)
    ensures RunCalls(FRESH, WorstCalls(k))
         == Tally(Breaker(Open, 6 + 4 * k, k as real * RECOVERY_SECONDS), 5 + 3 * k, 0, true)
  {
    if k == 0 {
      WorstStart();
    } else {
      WorstCallsCost(k - 1);
      var before, at := (k - 1) as real * RECOVERY_SECONDS, k as real * RECOVERY_SECONDS;
      assert at == before + RECOVERY_SECONDS;
      assert WorstCalls(k) == WorstCalls(k - 1) + [At(Unreachable, at)];
      ProbeCost(WorstCalls(k - 1), 6 + 4 * (k - 1), 5 + 3 * (k - 1), before, at);
    }
  }

  /** The bound is exact: for every number of recovery periods some run without crashes reaches it. */
  lemma BoundIsReached(k: nat)
    ensures exists xs: seq<Exchange> ::
              && xs != [] && Sequential(xs)
              && RunCalls(FRESH, xs).allFailed && RunCalls(FRESH, xs).crashes == 0
              && Periods(xs[0].checkedAt, xs[|xs| - 1].checkedAt) == k
              && RunCalls(FRESH, xs).sent == 5 + 3 * k
  {
    WorstCallsSequential(k);
    WorstCallsCost(k);
    var xs := WorstCalls(k);
    assert (k as real * RECOVERY_SECONDS - 0.0) / RECOVERY_SECONDS == k as real;
    assert Periods(xs[0].checkedAt, xs[|xs| - 1].checkedAt) == k;
  }

  lemma SequentialSnoc(xs: seq<Exchange>, x: Exchange)
    requires Sequential(xs) && x.Timed() && forall i :: 0 <= i < |xs| ==> xs[i].exhaustedAt <= x.checkedAt
    ensures Sequential(xs + [x])
  {
  }

  lemma CrashedProbe(at: real)
    requires at >= RECOVERY_SECONDS
    ensures RequestInner(Breaker(Open, 6, 0.0), At(Crash, at)).breaker.circuit.HalfOpen?
  {
    HalfOpenAfterIff(Breaker(Open, 6, 0.0), At(Crash, at));
  }

  /** The exception occurs: a dead sidecar, then after the recovery time a probe that crashes. */
  lemma HalfOpenIsReached()
    ensures var xs := WorstCalls(0) + [At(Crash, RECOVERY_SECONDS)];
            Sequential(xs) && RunCalls(FRESH, xs).breaker.circuit.HalfOpen?
  {
    var probe := At(Crash, RECOVERY_SECONDS);
    WorstCallsSequential(0);
    SequentialSnoc(WorstCalls(0), probe);
    WorstStart();
    RunCallsSnoc(WorstCalls(0), probe);
    CrashedProbe(RECOVERY_SECONDS);
  }

  /** Attempts that die of an uncaught exception are not metered: any number goes out at one instant. */
  lemma {:induction false} CrashesAreUnmetered(n: nat)
    ensures var t := RunCalls(FRESH, seq(n, _ => At(Crash, 0.0)));
            t.sent == n && t.crashes == n && t.allFailed && t.breaker == FRESH
  {
    if n > 0 {
      CrashesAreUnmetered(n - 1);
      var xs := seq(n, _ => At(Crash, 0.0));
      assert xs[..n - 1] == seq(n - 1, _ => At(Crash, 0.0));
    }
  }
}
