/**
 * AP2 intents and authorizations: the store of gateway/app/a2a/authorization.py and the message
 * handlers of gateway/app/a2a/routes.py that drive it. Generated ids and clock readings are inputs.
 */
module Authorization {
  import opened Base

  datatype IntentStatus = Created | Authorized | Settled | ReceiptIssued | Rejected

  datatype Intent = Intent(
    mandateId: string,
    buyer: string,
    seller: string,
    maxPrice: string,
    createdBy: string,
    createdAt: real,
    status: IntentStatus)

  /** `float(...)` also reads "inf" and "nan", neither of which ever expires. */
  datatype Expiry = At(t: real) | NotFinite

  /** The statuses ever assigned; REJECTED and REVOKED are only named in the source. */
  datatype AuthStatus = Active | Expired | Consumed

  datatype Auth = Auth(
    intentId: string,
    authorizer: string,
    policyId: string,
    expiresAt: Expiry,
    createdAt: real,
    status: AuthStatus)

  predicate IsExpired(e: Expiry, now: real) {
    e.At? && e.t > 0.0 && now > e.t
  }

  datatype Store = Store(intents: map<string, Intent>, auths: map<string, Auth>, index: map<string, string>)

  // ----- store operations

  function WithStatus(st: Store, id: string, status: IntentStatus): Store
    requires id in st.intents
  {
    st.(intents := st.intents[id := st.intents[id].(status := status)])
  }

  function WithAuthStatus(st: Store, id: string, status: AuthStatus): Store
    requires id in st.auths
  {
    st.(auths := st.auths[id := st.auths[id].(status := status)])
  }

  /** What a handler needs to know when the store raises. */
  datatype StoreError = NotFound | WrongState(status: IntentStatus)

  function CheckCreated(st: Store, id: string): Option<StoreError> {
    if id !in st.intents then Some(NotFound)
    else if st.intents[id].status != Created then Some(WrongState(st.intents[id].status))
    else None
  }

  function AuthorizeIntent(st: Store, id: string, newAuth: string, authorizer: string, policyId: string,
                           expiresAt: Expiry, now: real): Store
    requires CheckCreated(st, id).None?
  {
    var policy := if policyId == "" then st.intents[id].mandateId else policyId;
    WithStatus(st, id, Authorized).(
      auths := st.auths[newAuth := Auth(id, authorizer, policy, expiresAt, now, Active)],
      index := st.index[id := newAuth])
  }

  datatype Blocking =
    | IntentNotFound
    | IntentNotAuthorized(status: IntentStatus)
    | AuthNotFound
    | IntentMismatch
    | AuthHasExpired
    | AuthNotActive(authStatus: AuthStatus)

  /** `validate_for_settlement`: why settlement is blocked, if it is. */
  function Validate(st: Store, id: string, authId: string, now: real): Option<Blocking> {
    if id !in st.intents then Some(IntentNotFound)
    else if st.intents[id].status != Authorized then Some(IntentNotAuthorized(st.intents[id].status))
    else if authId !in st.auths then Some(AuthNotFound)
    else if st.auths[authId].intentId != id then Some(IntentMismatch)
    else if IsExpired(st.auths[authId].expiresAt, now) then Some(AuthHasExpired)
    else if st.auths[authId].status != Active then Some(AuthNotActive(st.auths[authId].status))
    else None
  }

  /** An expired authorization is marked as such in passing. */
  function AfterValidate(st: Store, id: string, authId: string, now: real): Store {
    if Validate(st, id, authId, now) == Some(AuthHasExpired) then WithAuthStatus(st, authId, Expired) else st
  }

  function MarkSettled(st: Store, id: string, authId: string): Store {
    var st1 := if id in st.intents then WithStatus(st, id, Settled) else st;
    if authId in st1.auths then WithAuthStatus(st1, authId, Consumed) else st1
  }

  function MarkReceiptIssued(st: Store, id: string): Store {
    if id in st.intents then WithStatus(st, id, ReceiptIssued) else st
  }

  class AuthorizationStore {
    var intents: map<string, Intent>
    var auths: map<string, Auth>
    var index: map<string, string>

    ghost function Model(): Store
      reads this
    {
      Store(intents, auths, index)
    }

    constructor ()
      ensures Model() == Store(map[], map[], map[])
    {
      intents, auths, index := map[], map[], map[];
    }

    method Create(id: string, intent: Intent)
      modifies this
      ensures Model() == old(Model()).(intents := old(intents)[id := intent])
    {
      intents := intents[id := intent];
    }

    method Authorize(id: string, newAuth: string, authorizer: string, policyId: string, expiresAt: Expiry, now: real)
      returns (error: Option<StoreError>)
      modifies this
      ensures error == CheckCreated(old(Model()), id)
      ensures Model() == if error.Some? then old(Model())
                         else AuthorizeIntent(old(Model()), id, newAuth, authorizer, policyId, expiresAt, now)
    {
      if id !in intents {
        return Some(NotFound);
      }
      var intent := intents[id];
      if intent.status != Created {
        return Some(WrongState(intent.status));
      }
      var policy := if policyId != "" then policyId else intent.mandateId;
      intents := intents[id := intent.(status := Authorized)];
      auths := auths[newAuth := Auth(id, authorizer, policy, expiresAt, now, Active)];
      index := index[id := newAuth];
      return None;
    }

    method Reject(id: string) returns (error: Option<StoreError>)
      modifies this
      ensures error == CheckCreated(old(Model()), id)
      ensures Model() == if error.Some? then old(Model()) else WithStatus(old(Model()), id, Rejected)
    {
      if id !in intents {
        return Some(NotFound);
      }
      if intents[id].status != Created {
        return Some(WrongState(intents[id].status));
      }
      intents := intents[id := intents[id].(status := Rejected)];
      return None;
    }

    method ValidateForSettlement(id: string, authId: string, now: real) returns (blocked: Option<Blocking>)
      modifies this
      ensures blocked == Validate(old(Model()), id, authId, now)
      ensures Model() == AfterValidate(old(Model()), id, authId, now)
    {
      if id !in intents {
        return Some(IntentNotFound);
      }
      if intents[id].status != Authorized {
        return Some(IntentNotAuthorized(intents[id].status));
      }
      if authId !in auths {
        return Some(AuthNotFound);
      }
      var auth := auths[authId];
      if auth.intentId != id {
        return Some(IntentMismatch);
      }
      if IsExpired(auth.expiresAt, now) {
        auths := auths[authId := auth.(status := Expired)];
        return Some(AuthHasExpired);
      }
      if auth.status != Active {
        return Some(AuthNotActive(auth.status));
      }
      return None;
    }

    method Settle(id: string, authId: string)
      modifies this
      ensures Model() == MarkSettled(old(Model()), id, authId)
    {
      if id in intents {
        intents := intents[id := intents[id].(status := Settled)];
      }
      if authId in auths {
        auths := auths[authId := auths[authId].(status := Consumed)];
      }
    }

    method IssueReceipt(id: string)
      modifies this
      ensures Model() == MarkReceiptIssued(old(Model()), id)
    {
      if id in intents {
        intents := intents[id := intents[id].(status := ReceiptIssued)];
      }
    }
  }

  // ----- messages

  datatype Event =
    | IntentCreated(intentId: string)
    | GrantFailed(intentId: string)
    | Granted(authId: string, intentId: string, authorizer: string, policyId: string, expiresAt: Expiry)
    | IntentRejected(intentId: string)
    | SettlementBlocked(intentId: string, authId: string, reason: Blocking)
    | SettlementExecuted(intentId: string, authId: string, authorizedBy: string, policyId: string, checkedAt: real)
    | ReceiptWasIssued(intentId: string, authorizedBy: string)

  datatype Message =
    | CreateMsg(newId: string, intent: Intent)
    | AuthorizeMsg(intentId: string, newAuth: string, authorizer: string, policyId: string, expiresAt: Option<Expiry>)
    | RejectMsg(intentId: string)
    | ExecuteMsg(intentId: string, authId: string)
    | ReceiptMsg(intentId: string)
    | OtherMsg

  datatype State = State(store: Store, events: seq<Event>)

  const INIT := State(Store(map[], map[], map[]), [])

  /** The authorizer named on a receipt: that of the intent's authorization, if it has one. */
  function AuthorizerOf(st: Store, id: string): string {
    if id in st.intents && id in st.index && st.index[id] in st.auths then st.auths[st.index[id]].authorizer else ""
  }

  function ExecutedEvent(id: string, authId: string, auth: Auth, now: real): Event {
    SettlementExecuted(id, authId, auth.authorizer, auth.policyId, now)
  }

  function Handle(s: State, m: Message, now: real): State {
    match m
    case CreateMsg(id, intent) =>
      State(s.store.(intents := s.store.intents[id := intent.(status := Created, createdAt := now)]),
            s.events + [IntentCreated(id)])
    case AuthorizeMsg(id, newAuth, authorizer, policyId, expiresAt) =>
      if expiresAt.None? then s  // unreadable expiry: the request fails before anything happens
      else if CheckCreated(s.store, id).Some? then s.(events := s.events + [GrantFailed(id)])
      else
        var st := AuthorizeIntent(s.store, id, newAuth, authorizer, policyId, expiresAt.value, now);
        State(st, s.events + [Granted(newAuth, id, authorizer, st.auths[newAuth].policyId, expiresAt.value)])
    case RejectMsg(id) =>
      if CheckCreated(s.store, id).Some? then s
      else State(WithStatus(s.store, id, Rejected), s.events + [IntentRejected(id)])
    case ExecuteMsg(id, authId) =>
      var blocked := Validate(s.store, id, authId, now);
      if blocked.Some? then
        State(AfterValidate(s.store, id, authId, now), s.events + [SettlementBlocked(id, authId, blocked.value)])
      else
        State(MarkSettled(s.store, id, authId),
              s.events + [ExecutedEvent(id, authId, s.store.auths[authId], now)])
    case ReceiptMsg(id) =>
      State(MarkReceiptIssued(s.store, id), s.events + [ReceiptWasIssued(id, AuthorizerOf(s.store, id))])
    case OtherMsg => s
  }

  /** The handlers behind `POST /a2a/message`. */
  class Routes {
    const store: AuthorizationStore
    var events: seq<Event>

    ghost function Model(): State
      reads this, store
    {
      State(store.Model(), events)
    }

    constructor ()
      ensures Model() == INIT && fresh(store)
    {
      store := new AuthorizationStore();
      events := [];
    }

    method HandleIntentCreate(id: string, intent: Intent, now: real)
      modifies this, store
      ensures Model() == Handle(old(Model()), CreateMsg(id, intent), now)
    {
      store.Create(id, intent.(status := Created, createdAt := now));
      events := events + [IntentCreated(id)];
    }

    method HandleIntentAuthorize(id: string, newAuth: string, authorizer: string, policyId: string,
                                 expiresAt: Option<Expiry>, now: real)
      returns (accepted: bool)
      modifies this, store
      ensures Model() == Handle(old(Model()), AuthorizeMsg(id, newAuth, authorizer, policyId, expiresAt), now)
      ensures accepted <==> expiresAt.Some? && CheckCreated(old(Model()).store, id).None?
    {
      if expiresAt.None? {
        return false;
      }
      var error := store.Authorize(id, newAuth, authorizer, policyId, expiresAt.value, now);
      if error.Some? {
        events := events + [GrantFailed(id)];
        return false;
      }
      events := events + [Granted(newAuth, id, authorizer, store.auths[newAuth].policyId, expiresAt.value)];
      return true;
    }

    method HandleIntentReject(id: string) returns (accepted: bool)
      modifies this, store
      ensures forall now :: Model() == Handle(old(Model()), RejectMsg(id), now)
      ensures accepted <==> CheckCreated(old(Model()).store, id).None?
    {
      var error := store.Reject(id);
      if error.Some? {
        return false;
      }
      events := events + [IntentRejected(id)];
      return true;
    }

    method HandleSettlementExecute(id: string, authId: string, now: real) returns (blocked: Option<Blocking>)
      modifies this, store
      ensures Model() == Handle(old(Model()), ExecuteMsg(id, authId), now)
      ensures blocked == Validate(old(Model()).store, id, authId, now)
    {
      blocked := store.ValidateForSettlement(id, authId, now);
      if blocked.Some? {
        events := events + [SettlementBlocked(id, authId, blocked.value)];
        return;
      }
      store.Settle(id, authId);
      events := events + [ExecutedEvent(id, authId, store.auths[authId], now)];
    }

    method HandleReceiptIssue(id: string)
      modifies this, store
      ensures forall now :: Model() == Handle(old(Model()), ReceiptMsg(id), now)
    {
      var authorizedBy := "";
      if id in store.intents && id in store.index && store.index[id] in store.auths {
        authorizedBy := store.auths[store.index[id]].authorizer;
      }
      if id in store.intents {
        store.IssueReceipt(id);
      }
      events := events + [ReceiptWasIssued(id, authorizedBy)];
    }
  }
}
