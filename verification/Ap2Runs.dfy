/** What every run of AP2 messages keeps, and what its event log proves. */
module Ap2Runs {
  import opened Base
  import opened Authorization

  /** A message and the clock while it is handled. */
  datatype Turn = Turn(message: Message, now: real)

  function Run(turns: seq<Turn>): State {
    if turns == [] then INIT
    else
      var last := turns[|turns| - 1];
      Handle(Run(turns[..|turns| - 1]), last.message, last.now)
  }

  /** Generated ids are new when they are generated. */
  predicate FreshIds(s: State, m: Message) {
    && (m.CreateMsg? ==> m.newId !in s.store.intents)
    && (m.AuthorizeMsg? ==> m.newAuth !in s.store.auths)
  }

  ghost predicate Fresh(turns: seq<Turn>) {
    turns != [] ==>
      Fresh(turns[..|turns| - 1]) && FreshIds(Run(turns[..|turns| - 1]), turns[|turns| - 1].message)
  }

  ghost predicate Clocked(turns: seq<Turn>) {
    forall i, j :: 0 <= i < j < |turns| ==> turns[i].now <= turns[j].now
  }

  // ----- the two maps stay linked

  /** The index inverts `Authorization.intent_id`, and the two statuses agree. */
  ghost predicate Linked(st: Store) {
    && (forall i :: i in st.index ==> i in st.intents && st.index[i] in st.auths && st.auths[st.index[i]].intentId == i)
    && (forall a :: a in st.auths ==> st.auths[a].intentId in st.index && st.index[st.auths[a].intentId] == a)
    && (forall i :: i in st.intents && st.intents[i].status in {Created, Rejected} ==> i !in st.index)
    && (forall i :: i in st.intents && st.intents[i].status in {Authorized, Settled} ==> i in st.index)
    && (forall i :: i in st.index && st.intents[i].status == Settled ==> st.auths[st.index[i]].status == Consumed)
    && (forall i :: i in st.index && st.auths[st.index[i]].status == Consumed ==>
          st.intents[i].status in {Settled, ReceiptIssued})
  }

  lemma LinkedAuthorize(st: Store, id: string, newAuth: string, authorizer: string, policyId: string,
                        expiresAt: Expiry, now: real)
    requires Linked(st) && CheckCreated(st, id).None? && newAuth !in st.auths
    ensures Linked(AuthorizeIntent(st, id, newAuth, authorizer, policyId, expiresAt, now))
  {
  }

  lemma LinkedSettle(st: Store, id: string, authId: string, now: real)
    requires Linked(st) && Validate(st, id, authId, now).None?
    ensures Linked(MarkSettled(st, id, authId))
  {
    assert st.index[id] == authId;
  }

  lemma LinkedExpire(st: Store, id: string, authId: string, now: real)
    requires Linked(st)
    ensures Linked(AfterValidate(st, id, authId, now))
  {
  }

  lemma LinkedReceipt(st: Store, id: string)
    requires Linked(st)
    ensures Linked(MarkReceiptIssued(st, id))
  {
  }

  lemma LinkedReject(st: Store, id: string)
    requires Linked(st) && CheckCreated(st, id).None?
    ensures Linked(WithStatus(st, id, Rejected))
  {
  }

  lemma LinkedCreate(st: Store, id: string, intent: Intent)
    requires Linked(st) && id !in st.intents && intent.status == Created
    ensures Linked(st.(intents := st.intents[id := intent]))
  {
  }

  lemma LinkedStep(s: State, m: Message, now: real)
    requires Linked(s.store) && FreshIds(s, m)
    ensures Linked(Handle(s, m, now).store)
  {
    match m {
      case CreateMsg(id, intent) => LinkedCreate(s.store, id, intent.(status := Created, createdAt := now));
      case AuthorizeMsg(id, newAuth, authorizer, policyId, expiresAt) =>
        if expiresAt.Some? && CheckCreated(s.store, id).None? {
          LinkedAuthorize(s.store, id, newAuth, authorizer, policyId, expiresAt.value, now);
        }
      case RejectMsg(id) =>
        if CheckCreated(s.store, id).None? {
          LinkedReject(s.store, id);
        }
      case ExecuteMsg(id, authId) =>
        if Validate(s.store, id, authId, now).None? {
          LinkedSettle(s.store, id, authId, now);
        } else {
          LinkedExpire(s.store, id, authId, now);
        }
      case ReceiptMsg(id) => LinkedReceipt(s.store, id);
      case OtherMsg =>
    }
  }

  lemma {:induction false} LinkedAlways(turns: seq<Turn>)
    requires Fresh(turns)
    ensures Linked(Run(turns).store)
  {
    if turns != [] {
      LinkedAlways(turns[..|turns| - 1]);
      LinkedStep(Run(turns[..|turns| - 1]), turns[|turns| - 1].message, turns[|turns| - 1].now);
    }
  }

  /** In every run an authorized or settled intent has exactly one authorization, and it is the indexed one. */
  lemma ExactlyOneAuthorization(turns: seq<Turn>, i: string, a: string)
    requires Fresh(turns) && StatusIn(Run(turns).store, i) in {Some(Authorized), Some(Settled)}
    ensures var st := Run(turns).store;
            i in st.index && ((a in st.auths && st.auths[a].intentId == i) <==> a == st.index[i])
  {
    LinkedAlways(turns);
  }

  // ----- statuses only rise

  function StatusIn(st: Store, i: string): Option<IntentStatus> {
    if i in st.intents then Some(st.intents[i].status) else None
  }

  function Rank(s: IntentStatus): nat {
    match s
    case Created => 0
    case Authorized => 1
    case Rejected => 1
    case Settled => 2
    case ReceiptIssued => 3
  }

  /** No intent disappears, and its status either stays or rises. */
  lemma StatusRises(s: State, m: Message, now: real, i: string)
    requires Linked(s.store) && FreshIds(s, m) && i in s.store.intents
    ensures var s' := Handle(s, m, now);
            && i in s'.store.intents
            && var earlier, later := s.store.intents[i].status, s'.store.intents[i].status;
               earlier == later || Rank(earlier) < Rank(later)
  {
  }

  lemma {:induction false} StatusNeverFalls(turns: seq<Turn>, k: nat, i: string)
    requires Fresh(turns) && k <= |turns| && i in Run(turns[..k]).store.intents
    ensures i in Run(turns).store.intents
    ensures var earlier, later := Run(turns[..k]).store.intents[i].status, Run(turns).store.intents[i].status;
            earlier == later || Rank(earlier) < Rank(later)
    decreases |turns|
  {
    if k == |turns| {
      assert turns[..k] == turns;
    } else {
      var front, last := turns[..|turns| - 1], turns[|turns| - 1];
      assert front[..k] == turns[..k];
      StatusNeverFalls(front, k, i);
      LinkedAlways(front);
      StatusRises(Run(front), last.message, last.now, i);
    }
  }

  /** A rejected intent is moved exactly by a receipt message for it, and from then on by none. */
  lemma RejectedOrReceipt(s: State, m: Message, now: real, i: string)
    requires Linked(s.store) && FreshIds(s, m) && StatusIn(s.store, i) in {Some(Rejected), Some(ReceiptIssued)}
    ensures StatusIn(Handle(s, m, now).store, i)
         == if m == ReceiptMsg(i) then Some(ReceiptIssued) else StatusIn(s.store, i)
  {
  }

  /** An authorization, once expired or consumed, is moved by no message. */
  lemma AuthStatusStays(s: State, m: Message, now: real, a: string)
    requires Linked(s.store) && FreshIds(s, m) && a in s.store.auths && s.store.auths[a].status != Active
    ensures a in Handle(s, m, now).store.auths && Handle(s, m, now).store.auths[a].status == s.store.auths[a].status
  {
  }

  ghost predicate ReceiptSince(turns: seq<Turn>, k: nat, i: string) {
    exists j :: k <= j < |turns| && turns[j].message == ReceiptMsg(i)
  }

  lemma ReceiptSnoc(turns: seq<Turn>, k: nat, i: string)
    requires k < |turns|
    ensures ReceiptSince(turns, k, i)
       <==> ReceiptSince(turns[..|turns| - 1], k, i) || turns[|turns| - 1].message == ReceiptMsg(i)
  {
    var front := turns[..|turns| - 1];
    assert forall j :: k <= j < |front| ==> front[j] == turns[j];
  }

  /**
   * The documentation calls REJECTED terminal. Along a run it is left exactly by a receipt message for
   * the intent, for good.
   */
  lemma {:induction false} RejectedLeftIff(turns: seq<Turn>, k: nat, i: string)
    requires Fresh(turns) && k <= |turns| && StatusIn(Run(turns[..k]).store, i) == Some(Rejected)
    ensures StatusIn(Run(turns).store, i) == Some(if ReceiptSince(turns, k, i) then ReceiptIssued else Rejected)
    decreases |turns|
  {
    if k == |turns| {
      assert turns[..k] == turns;
    } else {
      var front, last := turns[..|turns| - 1], turns[|turns| - 1];
      assert front[..k] == turns[..k];
      RejectedLeftIff(front, k, i);
      LinkedAlways(front);
      RejectedOrReceipt(Run(front), last.message, last.now, i);
      ReceiptSnoc(turns, k, i);
    }
  }

  /** An authorization found expired or consumed at some point of a run has that status ever after. */
  lemma {:induction false} AuthStatusFinal(turns: seq<Turn>, k: nat, a: string)
    requires Fresh(turns) && k <= |turns|
    requires a in Run(turns[..k]).store.auths && Run(turns[..k]).store.auths[a].status != Active
    ensures a in Run(turns).store.auths
    ensures Run(turns).store.auths[a].status == Run(turns[..k]).store.auths[a].status
    decreases |turns|
  {
    if k == |turns| {
      assert turns[..k] == turns;
    } else {
      var front, last := turns[..|turns| - 1], turns[|turns| - 1];
      assert front[..k] == turns[..k];
      AuthStatusFinal(front, k, a);
      LinkedAlways(front);
      AuthStatusStays(Run(front), last.message, last.now, a);
    }
  }

  // ----- the log decides

  /** What one more event says about an intent. */
  function ExtendIntent(before: Option<IntentStatus>, e: Event, i: string): Option<IntentStatus> {
    match e
    case IntentCreated(id) => if id == i then Some(Created) else before
    case Granted(_, id, _, _, _) => if id == i then Some(Authorized) else before
    case IntentRejected(id) => if id == i then Some(Rejected) else before
    case SettlementExecuted(id, _, _, _, _) => if id == i then Some(Settled) else before
    case ReceiptWasIssued(id, _) => if id == i && before.Some? then Some(ReceiptIssued) else before
    case GrantFailed(_) => before
    case SettlementBlocked(_, _, _) => before
  }

  /** The status the log alone assigns to an intent. */
  function ReplayIntent(log: seq<Event>, i: string): Option<IntentStatus> {
    if log == [] then None else ExtendIntent(ReplayIntent(log[..|log| - 1], i), log[|log| - 1], i)
  }

  datatype Grant = Grant(intentId: string, authorizer: string, policyId: string, expiresAt: Expiry, status: AuthStatus)

  function ExtendAuth(before: Option<Grant>, e: Event, a: string): Option<Grant> {
    match e
    case Granted(id, i, authorizer, policyId, expiresAt) =>
      if id == a then Some(Grant(i, authorizer, policyId, expiresAt, Active)) else before
    case SettlementExecuted(_, id, _, _, _) =>
      if id == a && before.Some? then Some(before.value.(status := Consumed)) else before
    case SettlementBlocked(_, id, reason) =>
      if id == a && reason.AuthHasExpired? && before.Some? then Some(before.value.(status := Expired)) else before
    case IntentCreated(_) => before
    case GrantFailed(_) => before
    case IntentRejected(_) => before
    case ReceiptWasIssued(_, _) => before
  }

  /** What the log alone says of an authorization. */
  function ReplayAuth(log: seq<Event>, a: string): Option<Grant> {
    if log == [] then None else ExtendAuth(ReplayAuth(log[..|log| - 1], a), log[|log| - 1], a)
  }

  function GrantIn(st: Store, a: string): Option<Grant> {
    if a !in st.auths then None
    else
      var g := st.auths[a];
      Some(Grant(g.intentId, g.authorizer, g.policyId, g.expiresAt, g.status))
  }

  /** A message logs at most one event, and that event tells what happened to every intent. */
  lemma EventTellsIntent(s: State, m: Message, now: real, i: string)
    requires Linked(s.store) && FreshIds(s, m)
    ensures var s' := Handle(s, m, now);
            if s'.events == s.events then StatusIn(s'.store, i) == StatusIn(s.store, i)
            else
              && s'.events == s.events + [s'.events[|s.events|]]
              && StatusIn(s'.store, i) == ExtendIntent(StatusIn(s.store, i), s'.events[|s.events|], i)
  {
  }

  predicate TellsAuth(s: State, s': State, a: string)
    requires s'.events != s.events ==> |s'.events| > |s.events|
  {
    GrantIn(s'.store, a)
      == if s'.events == s.events then GrantIn(s.store, a)
         else ExtendAuth(GrantIn(s.store, a), s'.events[|s.events|], a)
  }

  lemma ExecuteTellsAuth(s: State, id: string, authId: string, now: real, a: string)
    ensures TellsAuth(s, Handle(s, ExecuteMsg(id, authId), now), a)
  {
    var blocked := Validate(s.store, id, authId, now);
    var e := Handle(s, ExecuteMsg(id, authId), now).events[|s.events|];
    assert blocked.Some? ==> e == SettlementBlocked(id, authId, blocked.value);
  }

  /** The same for every authorization. */
  lemma EventTellsAuth(s: State, m: Message, now: real, a: string)
    requires FreshIds(s, m)
    ensures TellsAuth(s, Handle(s, m, now), a)
  {
    if m.ExecuteMsg? {
      ExecuteTellsAuth(s, m.intentId, m.authId, now, a);
    } else {
      var after := Handle(s, m, now).store.auths;
      assert a in s.store.auths && a in after ==> after[a] == s.store.auths[a];
    }
  }

  lemma ReplaySnoc(log: seq<Event>, e: Event, i: string, a: string)
    ensures ReplayIntent(log + [e], i) == ExtendIntent(ReplayIntent(log, i), e, i)
    ensures ReplayAuth(log + [e], a) == ExtendAuth(ReplayAuth(log, a), e, a)
  {
    assert (log + [e])[..|log + [e]| - 1] == log;
  }

  /**
   * The event log is a full audit trail: in every run, replaying it gives the status of every intent
   * and the terms and status of every authorization.
   */
  lemma {:induction false} LogDeterminesStore(turns: seq<Turn>, i: string, a: string)
    requires Fresh(turns)
    ensures ReplayIntent(Run(turns).events, i) == StatusIn(Run(turns).store, i)
    ensures ReplayAuth(Run(turns).events, a) == GrantIn(Run(turns).store, a)
  {
    if turns != [] {
      var front, last := turns[..|turns| - 1], turns[|turns| - 1];
      LogDeterminesStore(front, i, a);
      LinkedAlways(front);
      var log, log' := Run(front).events, Run(turns).events;
      EventTellsIntent(Run(front), last.message, last.now, i);
      EventTellsAuth(Run(front), last.message, last.now, a);
      if log' != log {
        ReplaySnoc(log, log'[|log|], i, a);
      }
    }
  }

  lemma ExpiryStep(s: State, m: Message, now: real, a: string)
    requires Linked(s.store) && FreshIds(s, m)
    requires a in Handle(s, m, now).store.auths && Handle(s, m, now).store.auths[a].status == Expired
    ensures IsExpired(Handle(s, m, now).store.auths[a].expiresAt, now)
         || (a in s.store.auths && s.store.auths[a].status == Expired
             && s.store.auths[a].expiresAt == Handle(s, m, now).store.auths[a].expiresAt)
  {
  }

  lemma {:induction false} ExpiryIsPast(turns: seq<Turn>, a: string)
    requires Fresh(turns) && turns != [] && Clocked(turns)
    requires a in Run(turns).store.auths && Run(turns).store.auths[a].status == Expired
    ensures IsExpired(Run(turns).store.auths[a].expiresAt, turns[|turns| - 1].now)
  {
    var front, last := turns[..|turns| - 1], turns[|turns| - 1];
    LinkedAlways(front);
    ExpiryStep(Run(front), last.message, last.now, a);
    if front != [] && a in Run(front).store.auths && Run(front).store.auths[a].status == Expired {
      ExpiryIsPast(front, a);
      assert turns[|turns| - 2].now <= last.now;
    }
  }

  predicate LiveGrant(log: seq<Event>, i: string, a: string, now: real) {
    && ReplayIntent(log, i) == Some(Authorized)
    && ReplayAuth(log, a).Some?
    && ReplayAuth(log, a).value.intentId == i
    && (var e := ReplayAuth(log, a).value.expiresAt; e.At? && e.t > 0.0 ==> now <= e.t)
  }

  /**
   * With a clock that never goes back, settlement is let through exactly when the log shows this
   * intent granted and nothing since, and the grant, which is for this intent, has not expired.
   */
  lemma GateOpensIff(turns: seq<Turn>, i: string, a: string, now: real)
    requires Fresh(turns) && Clocked(turns) && (turns != [] ==> turns[|turns| - 1].now <= now)
    ensures Validate(Run(turns).store, i, a, now).None? <==> LiveGrant(Run(turns).events, i, a, now)
  {
    LogDeterminesStore(turns, i, a);
    LinkedAlways(turns);
    var st := Run(turns).store;
    if a in st.auths && st.auths[a].status == Expired {
      ExpiryIsPast(turns, a);
    }
  }

  // ----- settlement happens at most once, on a live grant

  /** Executed entries: backed by an earlier grant of the same pair, checked in time, never repeated. */
  ghost predicate SoundLog(s: State) {
    && (forall k :: 0 <= k < |s.events| && s.events[k].SettlementExecuted? ==> Backed(s, k))
    && (forall k, l :: 0 <= k < l < |s.events| && s.events[k].SettlementExecuted? && s.events[l].SettlementExecuted? ==>
          s.events[k].intentId != s.events[l].intentId && s.events[k].authId != s.events[l].authId)
    && (forall e :: e in s.events && e.IntentRejected? ==> StaysRejected(s.store, e.intentId))
    && (forall a :: a in s.store.auths ==> GrantEvent(s.store, a) in s.events)
  }

  ghost predicate StaysRejected(st: Store, i: string) {
    i in st.intents && i !in st.index && st.intents[i].status != Created
  }

  ghost function GrantEvent(st: Store, a: string): Event
    requires a in st.auths
  {
    Granted(a, st.auths[a].intentId, st.auths[a].authorizer, st.auths[a].policyId, st.auths[a].expiresAt)
  }

  ghost predicate Backed(s: State, k: nat)
    requires k < |s.events| && s.events[k].SettlementExecuted?
  {
    var e := s.events[k];
    && e.authId in s.store.auths
    && s.store.auths[e.authId].intentId == e.intentId
    && s.store.auths[e.authId].authorizer == e.authorizedBy && s.store.auths[e.authId].policyId == e.policyId
    && s.store.auths[e.authId].status == Consumed
    && (var x := s.store.auths[e.authId].expiresAt; x.At? && x.t > 0.0 ==> e.checkedAt <= x.t)
    && GrantEvent(s.store, e.authId) in s.events[..k]
  }

  lemma LogGrows(s: State, m: Message, now: real)
    ensures var s' := Handle(s, m, now);
            s.events <= s'.events && |s'.events| <= |s.events| + 1
  {
  }

  /** The authorization is still there, with its terms, and still consumed if it was. */
  ghost predicate Kept(st: Store, st': Store, a: string)
    requires a in st.auths
  {
    && a in st'.auths
    && GrantEvent(st', a) == GrantEvent(st, a)
    && (st.auths[a].status == Consumed ==> st'.auths[a].status == Consumed)
  }

  lemma KeptOnExecute(st: Store, id: string, authId: string, now: real, a: string)
    requires a in st.auths
    ensures Kept(st, AfterValidate(st, id, authId, now), a) || st.auths[a].status == Consumed
    ensures Validate(st, id, authId, now).None? ==> Kept(st, MarkSettled(st, id, authId), a)
  {
  }

  /** A consumed authorization belongs to an intent that no longer passes the gate. */
  lemma ConsumedNotExpired(st: Store, id: string, authId: string, now: real)
    requires Linked(st) && authId in st.auths && st.auths[authId].status == Consumed
    ensures AfterValidate(st, id, authId, now) == st
  {
  }

  lemma AuthKept(s: State, m: Message, now: real, a: string)
    requires Linked(s.store) && FreshIds(s, m) && a in s.store.auths
    ensures Kept(s.store, Handle(s, m, now).store, a)
  {
    if m.ExecuteMsg? {
      KeptOnExecute(s.store, m.intentId, m.authId, now, a);
      if s.store.auths[a].status == Consumed && m.authId == a {
        ConsumedNotExpired(s.store, m.intentId, a, now);
      }
    }
  }

  lemma StaysRejectedStep(s: State, m: Message, now: real, i: string)
    requires Linked(s.store) && FreshIds(s, m) && StaysRejected(s.store, i)
    ensures StaysRejected(Handle(s, m, now).store, i)
  {
  }

  /** A settlement that is executed was validated: its authorization is live and was logged when granted. */
  lemma ExecutedIsBacked(s: State, m: Message, now: real)
    requires Linked(s.store) && FreshIds(s, m)
    requires forall a :: a in s.store.auths ==> GrantEvent(s.store, a) in s.events
    requires |Handle(s, m, now).events| == |s.events| + 1 && Handle(s, m, now).events[|s.events|].SettlementExecuted?
    ensures var s' := Handle(s, m, now);
            Backed(s', |s.events|) && s.store.auths[s'.events[|s.events|].authId].status == Active
  {
    var s' := Handle(s, m, now);
    var authId := s'.events[|s.events|].authId;
    assert s'.events[..|s.events|] == s.events;
    assert GrantEvent(s'.store, authId) == GrantEvent(s.store, authId);
  }

  lemma NewRejection(s: State, m: Message, now: real)
    requires Linked(s.store) && FreshIds(s, m)
    requires |Handle(s, m, now).events| == |s.events| + 1 && Handle(s, m, now).events[|s.events|].IntentRejected?
    ensures StaysRejected(Handle(s, m, now).store, Handle(s, m, now).events[|s.events|].intentId)
  {
  }

  lemma GrantLogged(s: State, m: Message, now: real, a: string)
    requires Linked(s.store) && FreshIds(s, m) && a in Handle(s, m, now).store.auths && a !in s.store.auths
    ensures GrantEvent(Handle(s, m, now).store, a) in Handle(s, m, now).events
  {
    var s' := Handle(s, m, now);
    assert s'.events[|s.events|] == GrantEvent(s'.store, a);
  }

  lemma BackedKept(s: State, m: Message, now: real, k: nat)
    requires Linked(s.store) && FreshIds(s, m)
    requires k < |s.events| && s.events[k].SettlementExecuted? && Backed(s, k)
    ensures var s' := Handle(s, m, now);
            k < |s'.events| && s'.events[k] == s.events[k] && Backed(s', k)
  {
    LogGrows(s, m, now);
    AuthKept(s, m, now, s.events[k].authId);
    assert Handle(s, m, now).events[..k] == s.events[..k];
  }

  /** Two backed entries for different authorizations are for different intents, as the index has one each. */
  lemma BackedApart(s: State, k: nat, l: nat)
    requires Linked(s.store) && k < |s.events| && l < |s.events|
    requires s.events[k].SettlementExecuted? && s.events[l].SettlementExecuted? && Backed(s, k) && Backed(s, l)
    ensures s.events[k].intentId == s.events[l].intentId ==> s.events[k].authId == s.events[l].authId
  {
  }

  lemma BackedStep(s: State, m: Message, now: real, k: nat)
    requires Linked(s.store) && FreshIds(s, m) && SoundLog(s)
    requires k < |Handle(s, m, now).events| && Handle(s, m, now).events[k].SettlementExecuted?
    ensures Backed(Handle(s, m, now), k)
  {
    LogGrows(s, m, now);
    if k < |s.events| {
      BackedKept(s, m, now, k);
    } else {
      ExecutedIsBacked(s, m, now);
    }
  }

  lemma ApartStep(s: State, m: Message, now: real, k: nat, l: nat)
    requires Linked(s.store) && FreshIds(s, m) && SoundLog(s)
    requires k < l < |Handle(s, m, now).events|
    requires var log := Handle(s, m, now).events; log[k].SettlementExecuted? && log[l].SettlementExecuted?
    ensures var log := Handle(s, m, now).events; log[k].intentId != log[l].intentId && log[k].authId != log[l].authId
  {
    LogGrows(s, m, now);
    BackedKept(s, m, now, k);
    if l == |s.events| {
      ExecutedIsBacked(s, m, now);
      LinkedStep(s, m, now);
      BackedApart(Handle(s, m, now), k, l);
    }
  }

  lemma RejectedStep(s: State, m: Message, now: real, e: Event)
    requires Linked(s.store) && FreshIds(s, m) && SoundLog(s)
    requires e in Handle(s, m, now).events && e.IntentRejected?
    ensures StaysRejected(Handle(s, m, now).store, e.intentId)
  {
    LogGrows(s, m, now);
    if e in s.events {
      StaysRejectedStep(s, m, now, e.intentId);
    } else {
      assert e == Handle(s, m, now).events[|s.events|];
      NewRejection(s, m, now);
    }
  }

  lemma GrantStep(s: State, m: Message, now: real, a: string)
    requires Linked(s.store) && FreshIds(s, m) && SoundLog(s) && a in Handle(s, m, now).store.auths
    ensures GrantEvent(Handle(s, m, now).store, a) in Handle(s, m, now).events
  {
    LogGrows(s, m, now);
    if a in s.store.auths {
      AuthKept(s, m, now, a);
    } else {
      GrantLogged(s, m, now, a);
    }
  }

  lemma SoundLogStep(s: State, m: Message, now: real)
    requires Linked(s.store) && FreshIds(s, m) && SoundLog(s)
    ensures SoundLog(Handle(s, m, now))
  {
    var s' := Handle(s, m, now);
    forall k | 0 <= k < |s'.events| && s'.events[k].SettlementExecuted? ensures Backed(s', k) {
      BackedStep(s, m, now, k);
    }
    forall k, l | 0 <= k < l < |s'.events| && s'.events[k].SettlementExecuted? && s'.events[l].SettlementExecuted?
      ensures s'.events[k].intentId != s'.events[l].intentId && s'.events[k].authId != s'.events[l].authId
    {
      ApartStep(s, m, now, k, l);
    }
    forall e | e in s'.events && e.IntentRejected? ensures StaysRejected(s'.store, e.intentId) {
      RejectedStep(s, m, now, e);
    }
    forall a | a in s'.store.auths ensures GrantEvent(s'.store, a) in s'.events {
      GrantStep(s, m, now, a);
    }
  }

  lemma {:induction false} SoundLogAlways(turns: seq<Turn>)
    requires Fresh(turns)
    ensures SoundLog(Run(turns))
  {
    if turns != [] {
      var front, last := turns[..|turns| - 1], turns[|turns| - 1];
      SoundLogAlways(front);
      LinkedAlways(front);
      SoundLogStep(Run(front), last.message, last.now);
    }
  }

  /**
   * The key rule of the protocol, over every run: an executed settlement follows a grant of that very
   * pair by the authorizer and under the policy it names, was checked no later than the grant's expiry,
   * never concerns a rejected intent, and is the only one of its intent and of its authorization.
   */
  lemma SettlementOnlyOnLiveGrant(turns: seq<Turn>, k: nat)
    requires Fresh(turns) && k < |Run(turns).events| && Run(turns).events[k].SettlementExecuted?
    ensures var log := Run(turns).events;
            var e := log[k];
            && (exists expiresAt ::
                  && Granted(e.authId, e.intentId, e.authorizedBy, e.policyId, expiresAt) in log[..k]
                  && (expiresAt.At? && expiresAt.t > 0.0 ==> e.checkedAt <= expiresAt.t))
            && IntentRejected(log[k].intentId) !in log
            && forall l :: 0 <= l < |log| && l != k && log[l].SettlementExecuted? ==>
                 log[l].intentId != log[k].intentId && log[l].authId != log[k].authId
  {
    SoundLogAlways(turns);
    LinkedAlways(turns);
    var s := Run(turns);
    assert Backed(s, k);
    var g := GrantEvent(s.store, s.events[k].authId);
    assert g in s.events[..k];
    forall l | 0 <= l < |s.events| && l != k && s.events[l].SettlementExecuted?
      ensures s.events[l].intentId != s.events[k].intentId && s.events[l].authId != s.events[k].authId
    {
      assert l < k || k < l;
    }
  }

  // ----- what a grant is good for

  predicate Names(m: Message, i: string) {
    match m
    case CreateMsg(_, _) => false
    case AuthorizeMsg(id, _, _, _, _) => id == i
    case RejectMsg(id) => id == i
    case ExecuteMsg(id, _) => id == i
    case ReceiptMsg(id) => id == i
    case OtherMsg => false
  }

  /** A message that does not name the intent leaves it and its authorization as they are. */
  lemma UnnamedStays(s: State, m: Message, now: real, i: string, a: string)
    requires Linked(s.store) && FreshIds(s, m) && !Names(m, i)
    requires i in s.store.intents && a in s.store.auths && s.store.auths[a].intentId == i
    ensures var st := Handle(s, m, now).store;
            && i in st.intents && st.intents[i] == s.store.intents[i]
            && a in st.auths && st.auths[a] == s.store.auths[a]
  {
  }

  /** The authorization that turn `k` asks for. */
  function AskedFor(turns: seq<Turn>, k: nat): Auth
    requires k < |turns| && turns[k].message.AuthorizeMsg? && turns[k].message.expiresAt.Some?
    requires turns[k].message.intentId in Run(turns[..k]).store.intents
  {
    var m := turns[k].message;
    var policy := if m.policyId == "" then Run(turns[..k]).store.intents[m.intentId].mandateId else m.policyId;
    Auth(m.intentId, m.authorizer, policy, m.expiresAt.value, turns[k].now, Active)
  }

  ghost predicate GrantedAt(turns: seq<Turn>, k: nat) {
    && k < |turns| && turns[k].message.AuthorizeMsg? && turns[k].message.expiresAt.Some?
    && StatusIn(Run(turns[..k]).store, turns[k].message.intentId) == Some(Created)
  }

  lemma {:induction false} GrantStands(turns: seq<Turn>, k: nat)
    requires Fresh(turns) && GrantedAt(turns, k)
    requires forall j :: k < j < |turns| ==> !Names(turns[j].message, turns[k].message.intentId)
    ensures var (i, a) := (turns[k].message.intentId, turns[k].message.newAuth);
            && StatusIn(Run(turns).store, i) == Some(Authorized)
            && a in Run(turns).store.auths && Run(turns).store.auths[a] == AskedFor(turns, k)
    decreases |turns|
  {
    var front, last := turns[..|turns| - 1], turns[|turns| - 1];
    if k < |turns| - 1 {
      assert front[..k] == turns[..k];
      GrantStands(front, k);
      LinkedAlways(front);
      UnnamedStays(Run(front), last.message, last.now, turns[k].message.intentId, turns[k].message.newAuth);
    }
  }

  /**
   * What a grant is good for, in any run: as long as no later message names its intent, it settles at
   * every time if it was given no expiry (0, less, or not a finite number), and otherwise exactly until
   * that time, under its authorizer and its policy, the intent's mandate if none was given.
   */
  lemma GrantSettlesIff(turns: seq<Turn>, k: nat, now: real)
    requires Fresh(turns) && GrantedAt(turns, k)
    requires forall j :: k < j < |turns| ==> !Names(turns[j].message, turns[k].message.intentId)
    ensures var m := turns[k].message;
            var log := Handle(Run(turns), ExecuteMsg(m.intentId, m.newAuth), now).events;
            var policy := if m.policyId == "" then Run(turns[..k]).store.intents[m.intentId].mandateId else m.policyId;
            var expiry := m.expiresAt.value;
            && |log| == |Run(turns).events| + 1
            && log[|log| - 1] == if expiry.NotFinite? || expiry.t <= 0.0 || now <= expiry.t
                                 then SettlementExecuted(m.intentId, m.newAuth, m.authorizer, policy, now)
                                 else SettlementBlocked(m.intentId, m.newAuth, AuthHasExpired)
  {
    GrantStands(turns, k);
  }

  /** Why the gate stays shut: the first of six conditions in this order. */
  lemma BlockedIff(st: Store, i: string, a: string, now: real)
    ensures var v := Validate(st, i, a, now);
            var authorized := i in st.intents && st.intents[i].status == Authorized;
            var matching := authorized && a in st.auths && st.auths[a].intentId == i;
            var late := matching && st.auths[a].expiresAt.At? && 0.0 < st.auths[a].expiresAt.t < now;
            && (v == Some(IntentNotFound) <==> i !in st.intents)
            && (v.Some? && v.value.IntentNotAuthorized? <==> i in st.intents && !authorized)
            && (v == Some(AuthNotFound) <==> authorized && a !in st.auths)
            && (v == Some(IntentMismatch) <==> authorized && a in st.auths && !matching)
            && (v == Some(AuthHasExpired) <==> late)
            && (v.Some? && v.value.AuthNotActive? <==> matching && !late && st.auths[a].status != Active)
            && (v.None? <==> matching && !late && st.auths[a].status == Active)
  {
  }

  // ----- terms and names on the record

  /** Every grant in the log is still in the store as granted. */
  ghost predicate GrantsStored(s: State) {
    forall e :: e in s.events && e.Granted? ==> e.authId in s.store.auths && GrantEvent(s.store, e.authId) == e
  }

  lemma NewGrantStored(s: State, m: Message, now: real)
    requires FreshIds(s, m) && |Handle(s, m, now).events| == |s.events| + 1
    ensures var s' := Handle(s, m, now);
            var e := s'.events[|s.events|];
            e.Granted? ==> e.authId in s'.store.auths && GrantEvent(s'.store, e.authId) == e
  {
  }

  lemma {:induction false} GrantsStoredAlways(turns: seq<Turn>)
    requires Fresh(turns)
    ensures GrantsStored(Run(turns))
  {
    if turns != [] {
      var front, last := turns[..|turns| - 1], turns[|turns| - 1];
      var s, s' := Run(front), Run(turns);
      GrantsStoredAlways(front);
      LinkedAlways(front);
      LogGrows(s, last.message, last.now);
      forall e | e in s'.events && e.Granted?
        ensures e.authId in s'.store.auths && GrantEvent(s'.store, e.authId) == e
      {
        if e in s.events {
          AuthKept(s, last.message, last.now, e.authId);
        } else {
          assert e == s'.events[|s.events|];
          NewGrantStored(s, last.message, last.now);
        }
      }
    }
  }

  lemma GranterNamed(s: State, e: Event)
    requires Linked(s.store) && GrantsStored(s) && e in s.events && e.Granted?
    ensures AuthorizerOf(s.store, e.intentId) == e.authorizer
  {
    assert s.store.auths[e.authId].intentId == e.intentId;
  }

  lemma NobodyNamed(s: State, i: string)
    requires Linked(s.store) && forall a :: a in s.store.auths ==> GrantEvent(s.store, a) in s.events
    requires forall e :: e in s.events && e.Granted? ==> e.intentId != i
    ensures AuthorizerOf(s.store, i) == ""
  {
    assert i in s.store.index ==> GrantEvent(s.store, s.store.index[i]) in s.events;
  }

  /** A receipt names the authorizer the log shows for its intent, and nobody if the log shows no grant. */
  lemma ReceiptNamesGranter(turns: seq<Turn>, i: string, now: real)
    requires Fresh(turns)
    ensures exists named ::
              && Handle(Run(turns), ReceiptMsg(i), now).events == Run(turns).events + [ReceiptWasIssued(i, named)]
              && (forall e :: e in Run(turns).events && e.Granted? && e.intentId == i ==> named == e.authorizer)
              && ((forall e :: e in Run(turns).events && e.Granted? ==> e.intentId != i) ==> named == "")
  {
    var s := Run(turns);
    GrantsStoredAlways(turns);
    SoundLogAlways(turns);
    LinkedAlways(turns);
    var named := AuthorizerOf(s.store, i);
    assert Handle(s, ReceiptMsg(i), now).events == s.events + [ReceiptWasIssued(i, named)];
    forall e | e in s.events && e.Granted? && e.intentId == i ensures named == e.authorizer {
      GranterNamed(s, e);
    }
    if forall e :: e in s.events && e.Granted? ==> e.intentId != i {
      NobodyNamed(s, i);
    }
  }

  ghost predicate SameTerms(st: Store, st': Store, i: string) {
    i in st.intents && i in st'.intents && st'.intents[i].(status := Created) == st.intents[i].(status := Created)
  }

  lemma TermsStayOnExecute(st: Store, id: string, authId: string, now: real, i: string)
    requires i in st.intents
    ensures SameTerms(st, AfterValidate(st, id, authId, now), i) && SameTerms(st, MarkSettled(st, id, authId), i)
  {
  }

  lemma TermsStay(s: State, m: Message, now: real, i: string)
    requires FreshIds(s, m) && i in s.store.intents
    ensures SameTerms(s.store, Handle(s, m, now).store, i)
  {
    if m.ExecuteMsg? {
      TermsStayOnExecute(s.store, m.intentId, m.authId, now, i);
    }
  }

  /** An intent keeps the terms it was created with, and the time, whatever becomes of its status. */
  lemma {:induction false} IntentTermsKept(turns: seq<Turn>, k: nat)
    requires Fresh(turns) && k < |turns| && turns[k].message.CreateMsg?
    ensures var m := turns[k].message;
            && m.newId in Run(turns).store.intents
            && Run(turns).store.intents[m.newId].(status := Created)
                 == m.intent.(status := Created, createdAt := turns[k].now)
    decreases |turns|
  {
    var front, last := turns[..|turns| - 1], turns[|turns| - 1];
    if k < |turns| - 1 {
      IntentTermsKept(front, k);
      LinkedAlways(front);
      TermsStay(Run(front), last.message, last.now, turns[k].message.newId);
    }
  }

  // ----- what each message logs

  /** One event a message, except for a rejection that fails, an unreadable expiry and other messages. */
  lemma LoggedEvents(s: State, m: Message, now: real)
    ensures var s' := Handle(s, m, now);
            match m
            case CreateMsg(id, _) => s'.events == s.events + [IntentCreated(id)]
            case AuthorizeMsg(id, a, authorizer, policyId, expiresAt) =>
              if expiresAt.None? then s' == s
              else if StatusIn(s.store, id) != Some(Created) then s' == s.(events := s.events + [GrantFailed(id)])
              else
                var policy := if policyId == "" then s.store.intents[id].mandateId else policyId;
                && s'.events == s.events + [Granted(a, id, authorizer, policy, expiresAt.value)]
                && s'.store.auths == s.store.auths[a := Auth(id, authorizer, policy, expiresAt.value, now, Active)]
            case RejectMsg(id) =>
              if StatusIn(s.store, id) != Some(Created) then s' == s
              else s'.events == s.events + [IntentRejected(id)]
            case ExecuteMsg(id, a) =>
              && |s'.events| == |s.events| + 1 && s.events <= s'.events
              && var e := s'.events[|s.events|];
                 if Validate(s.store, id, a, now).None? then e.SettlementExecuted? && e.checkedAt == now
                 else e == SettlementBlocked(id, a, Validate(s.store, id, a, now).value)
            case ReceiptMsg(id) => |s'.events| == |s.events| + 1 && s'.events[|s.events|].ReceiptWasIssued?
            case OtherMsg => s' == s
  {
  }
}
