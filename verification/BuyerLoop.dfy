/** The autonomous buyer loop of buyer_agent/loop.py, against an arbitrary environment. */
module BuyerLoop {
  import opened Base
  import opened Strategy
  import Pricing
  import Disputes
  import Gateway

  /** What `agent.call` left behind, as far as the loop reads it. */
  datatype CallResult = CallResult(
    hasRequestId: bool,
    metrics: Option<Option<int>>,  // no metrics at all, or the latency they may hold
    validationPassed: bool,
    success: bool,
    hasError: bool,
    payout: int,
    refund: int)

  datatype CallOutcome = Returned(result: CallResult) | Violated(result: CallResult) | CallRaised

  /** The gateway's answer to opening a dispute; a transport error escapes `run`. */
  datatype DisputeReply = Opened | Declined | DisputeRaised

  /** What the gateway sends back to the client's call, if anything. */
  datatype GatewayReply =
    | NoReply
    | Rejected
    | Answered(hasRequestId: bool, metrics: Option<Option<int>>, validationPassed: bool, payout: int, refund: int)

  /** `BuyerAgent.call`: a receipt that fails a check is refused. */
  function AgentCall(maxPrice: int, invalidMode: bool, reply: GatewayReply): CallOutcome {
    match reply
    case NoReply => CallRaised
    case Rejected => Returned(CallResult(false, None, false, false, true, 0, 0))
    case Answered(hasRequestId, metrics, validationPassed, payout, refund) =>
      var ok := Disputes.Accepts(payout, refund, maxPrice, invalidMode);
      var r := CallResult(hasRequestId, metrics, validationPassed, ok, !ok, payout, refund);
      if ok then Returned(r) else Violated(r)
  }

  datatype Interaction =
    | NegotiationFailed(agentMaxPrice: int)
    | Negotiated(mandate: Pricing.Mandate, outcome: CallOutcome, disputeReply: DisputeReply)

  /** One round's environment: the sellers discovered, in order, and how the chosen one behaves. */
  datatype RoundEnv = RoundEnv(discovered: seq<string>, interaction: Interaction)

  datatype RoundStatus = NegotiationFailedRound | SuccessRound | RefusedRound | ErrorRound

  datatype Round = Round(
    sellerId: string,
    score: real,
    payout: int,
    refund: int,
    before: int,
    after: int,
    validationPassed: bool,
    disputed: bool,
    status: RoundStatus)

  datatype StopReason = MaxRoundsReached | NoSellersAvailable | AllSellersBlacklisted | BudgetExhausted | RunRaised

  datatype State = State(history: seq<Receipt>, rounds: seq<Round>, budget: int, disputes: nat, seen: seq<string>)

  // ----- specification

  /** `_select_seller`: the first seller never tried, else the first one with the best seller's id. */
  function FirstUntried(ids: seq<string>, history: seq<Receipt>): Option<string> {
    if ids == [] then None
    else if Calls(ids[0], history) == 0 then Some(ids[0])
    else FirstUntried(ids[1..], history)
  }

  function Select(ids: seq<string>, history: seq<Receipt>, c: Config): Option<Evaluation> {
    match FirstUntried(ids, history)
    case Some(id) => Some(Evaluate(id, history, c))
    case None => PickBestSeller(ids, history, c)
  }

  /** The result the loop works with after a call, and the round's status. */
  function Outcome(maxPrice: int, o: CallOutcome): (CallResult, RoundStatus) {
    match o
    case Returned(r) => (r, if r.success && !r.hasError then SuccessRound else ErrorRound)
    case Violated(r) => (r, RefusedRound)
    case CallRaised => (CallResult(false, None, false, false, true, 0, maxPrice), ErrorRound)
  }

  function WantsDispute(m: Pricing.Mandate, r: CallResult, d: Disputes.Config): bool {
    r.hasRequestId && r.metrics.Some? &&
    Disputes.Assess(m, r.payout, r.refund, r.metrics.value.GetOr(0), r.validationPassed, true, d).shouldDispute
  }

  function Latency(r: CallResult): Option<int> {
    if r.metrics.Some? then r.metrics.value else None
  }

  datatype Step = Stop(reason: StopReason, stopped: State) | Continue(next: State)

  function SawSeller(seen: seq<string>, id: string): seq<string> {
    if id in seen then seen else seen + [id]
  }

  /** One iteration of `run`. */
  function RoundStep(st: State, env: RoundEnv, c: Config, d: Disputes.Config): Step {
    if env.discovered == [] then Stop(NoSellersAvailable, st)
    else
      match Select(env.discovered, st.history, c)
      case None => Stop(AllSellersBlacklisted, st)
      case Some(e) =>
        var st := st.(seen := SawSeller(st.seen, e.sellerId));
        match env.interaction
        case NegotiationFailed(agentMaxPrice) =>
          Continue(st.(
            history := st.history + [Receipt(e.sellerId, None, false, false, 0, agentMaxPrice, false)],
            rounds := st.rounds
              + [Round(e.sellerId, e.score, 0, 0, st.budget, st.budget, false, false, NegotiationFailedRound)]))
        case Negotiated(m, outcome, disputeReply) => CallStep(st, e, m, outcome, disputeReply, d)
  }

  /** The part of an iteration after a successful negotiation. */
  function CallStep(st: State, e: Evaluation, m: Pricing.Mandate, outcome: CallOutcome, disputeReply: DisputeReply,
                    d: Disputes.Config): Step
  {
    if st.budget < m.maxPrice then Stop(BudgetExhausted, st)
    else
      var (r, status) := Outcome(m.maxPrice, outcome);
      var wants := WantsDispute(m, r, d);
      if wants && disputeReply.DisputeRaised? then Stop(RunRaised, st)
      else
        var disputeOpened := wants && disputeReply.Opened?;
        var after := Max(0, st.budget - r.payout);
        Continue(State(
          st.history
            + [Receipt(e.sellerId, Latency(r), r.validationPassed, status == SuccessRound, r.payout, m.maxPrice,
                       wants)],
          st.rounds
            + [Round(e.sellerId, e.score, r.payout, r.refund, st.budget, after, r.validationPassed, disputeOpened,
                     status)],
          after,
          st.disputes + (if disputeOpened then 1 else 0),
          st.seen))
  }

  function RunFrom(st: State, envs: seq<RoundEnv>, c: Config, d: Disputes.Config): (State, StopReason)
    decreases |envs|
  {
    if envs == [] then (st, MaxRoundsReached)
    else
      match RoundStep(st, envs[0], c, d)
      case Stop(reason, stopped) => (stopped, reason)
      case Continue(next) => RunFrom(next, envs[1..], c, d)
  }

  // ----- the code

  class AutonomousBuyerLoop {
    const budgetTokens: int
    const strategy: Config
    const disputes: Disputes.Config
    var history: seq<Receipt>

    constructor (budgetTokens: int, strategy: Config, disputes: Disputes.Config)
      ensures this.budgetTokens == budgetTokens && this.strategy == strategy && this.disputes == disputes
      ensures history == []
    {
      this.budgetTokens, this.strategy, this.disputes := budgetTokens, strategy, disputes;
      history := [];
    }

    method SelectSeller(discovered: seq<string>) returns (e: Option<Evaluation>)
      ensures e == Select(discovered, history, strategy)
    {
      for i := 0 to |discovered|
        invariant FirstUntried(discovered[i..], history) == FirstUntried(discovered, history)
      {
        var evaluation := Evaluate(discovered[i], history, strategy);
        if evaluation.stats.totalCalls == 0 && !evaluation.blacklisted {
          return Some(evaluation);
        }
        assert discovered[i..][1..] == discovered[i + 1..];
      }
      e := PickBestSeller(discovered, history, strategy);
    }

    /** The part of an iteration after a successful negotiation. */
    method CallSeller(st: State, e: Evaluation, m: Pricing.Mandate, outcome: CallOutcome, disputeReply: DisputeReply)
      returns (step: Step)
      requires st.history == history
      modifies `history
      ensures step == CallStep(st, e, m, outcome, disputeReply, disputes)
      ensures history == if step.Continue? then step.next.history else old(history)
    {
      var budgetBefore := st.budget;
      if budgetBefore < m.maxPrice {
        return Stop(BudgetExhausted, st);
      }
      var (r, status) := Outcome(m.maxPrice, outcome);
      var wants := WantsDispute(m, r, disputes);
      if wants && disputeReply == DisputeRaised {
        return Stop(RunRaised, st);
      }
      var disputesOpened := st.disputes;
      var disputeOpened := wants && disputeReply == Opened;
      if disputeOpened {
        disputesOpened := disputesOpened + 1;
      }
      var budgetAfter := Max(0, budgetBefore - r.payout);
      var success := status == SuccessRound;
      var record := Receipt(e.sellerId, Latency(r), r.validationPassed, success, r.payout, m.maxPrice, wants);
      var round := Round(e.sellerId, e.score, r.payout, r.refund, budgetBefore, budgetAfter, r.validationPassed,
                         disputeOpened, status);
      history := history + [record];
      step := Continue(State(history, st.rounds + [round], budgetAfter, disputesOpened, st.seen));
    }

    /** One iteration: discover, select, negotiate, call. */
    method PlayRound(st: State, env: RoundEnv) returns (step: Step)
      requires st.history == history
      modifies `history
      ensures step == RoundStep(st, env, strategy, disputes)
      ensures history == if step.Continue? then step.next.history else old(history)
    {
      if env.discovered == [] {
        return Stop(NoSellersAvailable, st);
      }
      var selection := SelectSeller(env.discovered);
      if selection.None? {
        return Stop(AllSellersBlacklisted, st);
      }
      var e := selection.value;
      var seen := st.seen;
      if e.sellerId !in seen {
        seen := seen + [e.sellerId];
      }
      match env.interaction {
        case NegotiationFailed(agentMaxPrice) =>
          var record := Receipt(e.sellerId, None, false, false, 0, agentMaxPrice, false);
          var round := Round(e.sellerId, e.score, 0, 0, st.budget, st.budget, false, false, NegotiationFailedRound);
          history := history + [record];
          return Continue(st.(history := history, rounds := st.rounds + [round], seen := seen));
        case Negotiated(m, outcome, disputeReply) =>
          step := CallSeller(st.(seen := seen), e, m, outcome, disputeReply);
      }
    }

    /** `run`: one iteration for each of the `|envs|` rounds allowed. */
    method Run(envs: seq<RoundEnv>) returns (final: State, reason: StopReason)
      modifies this
      ensures (final, reason) == RunFrom(State(old(history), [], budgetTokens, 0, []), envs, strategy, disputes)
      ensures history == final.history
    {
      final, reason := State(history, [], budgetTokens, 0, []), MaxRoundsReached;
      for i := 0 to |envs|
        invariant history == final.history
        invariant RunFrom(final, envs[i..], strategy, disputes)
               == RunFrom(State(old(history), [], budgetTokens, 0, []), envs, strategy, disputes)
      {
        assert envs[i..][1..] == envs[i + 1..];
        var step := PlayRound(final, envs[i]);
        match step {
          case Stop(why, stopped) => return stopped, why;
          case Continue(next) => final := next;
        }
      }
    }
  }

  // ----- what every run is made of

  lemma {:induction false} FirstUntriedMeaning(ids: seq<string>, history: seq<Receipt>)
    ensures var u := FirstUntried(ids, history);
            && (u.None? <==> forall id :: id in ids ==> Calls(id, history) > 0)
            && (u.Some? ==> exists i :: 0 <= i < |ids| && ids[i] == u.value && Calls(ids[i], history) == 0
                                        && forall j :: 0 <= j < i ==> Calls(ids[j], history) > 0)
  {
    if ids != [] && Calls(ids[0], history) > 0 {
      FirstUntriedMeaning(ids[1..], history);
      var u := FirstUntried(ids[1..], history);
      if u.Some? {
        var i :| 0 <= i < |ids[1..]| && ids[1..][i] == u.value && Calls(ids[1..][i], history) == 0
          && forall j :: 0 <= j < i ==> Calls(ids[1..][j], history) > 0;
        assert ids[i + 1] == u.value && forall j :: 0 < j < i + 1 ==> ids[j] == ids[1..][j - 1];
      }
    }
  }

  /** A seller is selected exactly when some seller on offer is not blacklisted, and it is on offer and allowed. */
  lemma SelectMeaning(ids: seq<string>, history: seq<Receipt>, c: Config)
    ensures var e := Select(ids, history, c);
            && (e.None? <==> forall id :: id in ids ==> Blacklisted(id, history, c))
            && (e.Some? ==> e.value.sellerId in ids && !Blacklisted(e.value.sellerId, history, c)
                            && e.value == Evaluate(e.value.sellerId, history, c))
  {
    FirstUntriedMeaning(ids, history);
    PickBestMeaning(ids, history, c);
  }

  function Offer(envs: seq<RoundEnv>, first: nat, j: nat): seq<string>
    requires first <= j < first + |envs|
  {
    envs[j - first].discovered
  }

  /** Record `j` of the history was made with the seller that the history before it selects. */
  ghost predicate SelectedAt(history: seq<Receipt>, j: nat, ids: seq<string>, c: Config)
    requires j < |history|
  {
    var e := Select(ids, history[..j], c);
    e.Some? && e.value.sellerId == history[j].sellerId
  }

  /** The run only appended, one round for each record, with the same seller. */
  ghost predicate Appended(st: State, final: State) {
    && st.history <= final.history
    && st.rounds <= final.rounds
    && |final.history| - |st.history| == |final.rounds| - |st.rounds|
    && forall k :: |st.rounds| <= k < |final.rounds| ==>
         final.rounds[k].sellerId == final.history[k - |st.rounds| + |st.history|].sellerId
  }

  /** The records from `first` on are of the sellers the history before them selects. */
  ghost predicate SelectedFrom(first: nat, history: seq<Receipt>, envs: seq<RoundEnv>, c: Config) {
    && |history| - first <= |envs|
    && forall j :: first <= j < |history| ==> SelectedAt(history, j, Offer(envs, first, j), c)
  }

  /** Every run only appends, round by round, records of the sellers its own history selects. */
  ghost predicate Traced(st: State, final: State, envs: seq<RoundEnv>, c: Config) {
    Appended(st, final) && SelectedFrom(|st.history|, final.history, envs, c)
  }

  lemma StepTrace(st: State, env: RoundEnv, c: Config, d: Disputes.Config)
    requires RoundStep(st, env, c, d).Continue?
    ensures var next := RoundStep(st, env, c, d).next;
            && Appended(st, next) && |next.history| == |st.history| + 1
            && SelectedAt(next.history, |st.history|, env.discovered, c)
  {
    SelectMeaning(env.discovered, st.history, c);
  }

  /** A round that stops the run has at most noted the seller it saw. */
  lemma StopChangesNothing(st: State, env: RoundEnv, c: Config, d: Disputes.Config)
    requires RoundStep(st, env, c, d).Stop?
    ensures RoundStep(st, env, c, d).stopped.(seen := st.seen) == st
  {
  }

  lemma {:induction false} RunTrace(st: State, envs: seq<RoundEnv>, c: Config, d: Disputes.Config)
    ensures Traced(st, RunFrom(st, envs, c, d).0, envs, c)
    decreases |envs|
  {
    if envs != [] {
      var step := RoundStep(st, envs[0], c, d);
      if step.Continue? {
        var final := RunFrom(step.next, envs[1..], c, d).0;
        StepTrace(st, envs[0], c, d);
        RunTrace(step.next, envs[1..], c, d);
        TracedStep(st, step.next, final, envs, c);
      } else {
        StopChangesNothing(st, envs[0], c, d);
      }
    }
  }

  lemma TracedStep(st: State, next: State, final: State, envs: seq<RoundEnv>, c: Config)
    requires envs != [] && Appended(st, next) && |next.history| == |st.history| + 1
    requires SelectedAt(next.history, |st.history|, envs[0].discovered, c) && Traced(next, final, envs[1..], c)
    ensures Traced(st, final, envs, c)
  {
    AppendedStep(st, next, final);
    SelectedStep(|st.history|, next.history, final.history, envs, c);
  }

  lemma SelectedInPrefix(part: seq<Receipt>, whole: seq<Receipt>, j: nat, ids: seq<string>, c: Config)
    requires part <= whole && j < |part|
    ensures SelectedAt(part, j, ids, c) == SelectedAt(whole, j, ids, c)
  {
    assert part[..j] == whole[..j];
  }

  lemma AppendedStep(st: State, next: State, final: State)
    requires Appended(st, next) && |next.history| == |st.history| + 1 && Appended(next, final)
    ensures Appended(st, final)
  {
    assert final.history[|st.history|] == next.history[|st.history|];
    assert final.rounds[|st.rounds|] == next.rounds[|st.rounds|];
  }

  lemma SelectedStep(first: nat, part: seq<Receipt>, whole: seq<Receipt>, envs: seq<RoundEnv>, c: Config)
    requires envs != [] && part <= whole && |part| == first + 1
    requires SelectedAt(part, first, envs[0].discovered, c) && SelectedFrom(first + 1, whole, envs[1..], c)
    ensures SelectedFrom(first, whole, envs, c)
  {
    SelectedInPrefix(part, whole, first, envs[0].discovered, c);
    forall j | first < j < |whole| ensures SelectedAt(whole, j, Offer(envs, first, j), c) {
      assert SelectedAt(whole, j, Offer(envs[1..], first + 1, j), c);
      assert envs[1..][j - (first + 1)] == envs[j - first];
    }
  }

  // ----- blacklisting is permanent

  /**
   * Once blacklisted, never selected again: at no later round of any run, the one that stops it
   * included, whatever is on offer then.
   */
  lemma BlacklistIsPermanent(st: State, envs: seq<RoundEnv>, c: Config, d: Disputes.Config, id: string, i: nat, j: nat,
                             ids: seq<string>)
    requires var final := RunFrom(st, envs, c, d).0;
             && |st.history| <= i <= j <= |final.history|
             && Blacklisted(id, final.history[..i], c)
    ensures var history := RunFrom(st, envs, c, d).0.history;
            && Blacklisted(id, history[..j], c)
            && (var e := Select(ids, history[..j], c); e.Some? ==> e.value.sellerId != id)
            && (j < |history| ==> history[j].sellerId != id)
  {
    var final := RunFrom(st, envs, c, d).0;
    RunTrace(st, envs, c, d);
    TracedBlacklist(|st.history|, final.history, envs, c, id, i, j);
    SelectMeaning(ids, final.history[..j], c);
    if j < |final.history| {
      assert SelectedAt(final.history, j, Offer(envs, |st.history|, j), c);
      SelectMeaning(Offer(envs, |st.history|, j), final.history[..j], c);
    }
  }

  lemma BlacklistedNotSelected(id: string, before: seq<Receipt>, r: Receipt, ids: seq<string>, c: Config)
    requires Blacklisted(id, before, c)
    requires Select(ids, before, c).Some? && Select(ids, before, c).value.sellerId == r.sellerId
    ensures r.sellerId != id && Blacklisted(id, before + [r], c)
  {
    SelectMeaning(ids, before, c);
    OthersUnaffected(id, before, r, c);
  }

  lemma {:induction false} TracedBlacklist(first: nat, history: seq<Receipt>, envs: seq<RoundEnv>, c: Config,
                                           id: string, i: nat, j: nat)
    requires SelectedFrom(first, history, envs, c) && first <= i <= j <= |history|
    requires Blacklisted(id, history[..i], c)
    ensures Blacklisted(id, history[..j], c)
    decreases j - i
  {
    if i < j {
      var ids := Offer(envs, first, i);
      assert SelectedAt(history, i, ids, c);
      BlacklistedOneMore(history, i, ids, c, id);
      TracedBlacklist(first, history, envs, c, id, i + 1, j);
    }
  }

  lemma BlacklistedOneMore(history: seq<Receipt>, j: nat, ids: seq<string>, c: Config, id: string)
    requires j < |history| && SelectedAt(history, j, ids, c) && Blacklisted(id, history[..j], c)
    ensures Blacklisted(id, history[..j + 1], c)
  {
    BlacklistedNotSelected(id, history[..j], history[j], ids, c);
    assert history[..j + 1] == history[..j] + [history[j]];
  }

  // ----- exploration before exploitation

  ghost predicate Distinct(ids: seq<string>) {
    forall i, j :: 0 <= i < j < |ids| ==> ids[i] != ids[j]
  }

  ghost predicate VisitedInOrder(ids: seq<string>, history: seq<Receipt>) {
    && |history| <= |ids|
    && forall k :: 0 <= k < |history| ==> history[k].sellerId == ids[k]
  }

  lemma {:induction false} CallsPositive(id: string, history: seq<Receipt>)
    ensures Calls(id, history) > 0 <==> exists r :: r in history && r.sellerId == id
  {
    if history != [] {
      CallsPositive(id, history[1..]);
    }
  }

  lemma VisitedAreTried(ids: seq<string>, history: seq<Receipt>, i: nat)
    requires VisitedInOrder(ids, history) && i < |history|
    ensures Calls(ids[i], history) > 0
  {
    assert history[i] in history && history[i].sellerId == ids[i];
    CallsPositive(ids[i], history);
  }

  lemma NextIsUntried(ids: seq<string>, history: seq<Receipt>)
    requires Distinct(ids) && VisitedInOrder(ids, history) && |history| < |ids|
    ensures Calls(ids[|history|], history) == 0
  {
    CallsPositive(ids[|history|], history);
  }

  /** After visiting the first k sellers in order, the next one is the untried one. */
  lemma NextUntried(ids: seq<string>, history: seq<Receipt>)
    requires Distinct(ids) && VisitedInOrder(ids, history) && |history| < |ids|
    ensures FirstUntried(ids, history) == Some(ids[|history|])
  {
    FirstUntriedMeaning(ids, history);
    NextIsUntried(ids, history);
    forall i | 0 <= i < |history| ensures Calls(ids[i], history) > 0 {
      VisitedAreTried(ids, history, i);
    }
  }

  /**
   * From an empty history, offered the same distinct sellers every round: round k goes to seller k
   * until all were tried, failed negotiations included; from then on to the best allowed seller.
   */
  lemma ExploreThenExploit(ids: seq<string>, budget: int, envs: seq<RoundEnv>, c: Config, d: Disputes.Config, j: nat)
    requires Distinct(ids) && forall e :: e in envs ==> e.discovered == ids
    requires j < |RunFrom(State([], [], budget, 0, []), envs, c, d).0.history|
    ensures var history := RunFrom(State([], [], budget, 0, []), envs, c, d).0.history;
            if j < |ids| then history[j].sellerId == ids[j]
            else BestAllowed(history[j].sellerId, ids, history[..j], c)
  {
    var final := RunFrom(State([], [], budget, 0, []), envs, c, d).0;
    RunTrace(State([], [], budget, 0, []), envs, c, d);
    forall i | 0 <= i < |final.history| ensures SelectedAt(final.history, i, ids, c) {
      assert Offer(envs, 0, i) == envs[i].discovered && envs[i] in envs;
    }
    if j < |ids| {
      VisitsInOrder(ids, final.history, c, j + 1);
      assert final.history[..j + 1][j] == final.history[j];
    } else {
      AllTried(ids, final.history, c, j);
    }
  }

  lemma AllTried(ids: seq<string>, history: seq<Receipt>, c: Config, j: nat)
    requires Distinct(ids) && |ids| <= j < |history|
    requires forall i :: 0 <= i < |history| ==> SelectedAt(history, i, ids, c)
    ensures BestAllowed(history[j].sellerId, ids, history[..j], c)
  {
    VisitsInOrder(ids, history, c, |ids|);
    var before := history[..j];
    forall id | id in ids ensures Calls(id, before) > 0 {
      var k :| 0 <= k < |ids| && ids[k] == id;
      assert before[k] == history[..|ids|][k];
      assert before[k] in before;
      CallsPositive(id, before);
    }
    FirstUntriedMeaning(ids, before);
    assert SelectedAt(history, j, ids, c);
    PickBestMeaning(ids, before, c);
  }

  lemma {:induction false} VisitsInOrder(ids: seq<string>, history: seq<Receipt>, c: Config, k: nat)
    requires Distinct(ids) && k <= |ids| && k <= |history|
    requires forall i :: 0 <= i < |history| ==> SelectedAt(history, i, ids, c)
    ensures VisitedInOrder(ids, history[..k])
  {
    if k > 0 {
      VisitsInOrder(ids, history, c, k - 1);
      NextUntried(ids, history[..k - 1]);
      assert SelectedAt(history, k - 1, ids, c);
      assert forall i :: 0 <= i < k - 1 ==> history[..k][i] == history[..k - 1][i];
    }
  }

  // ----- how long a run against useless sellers lasts

  function CallSum(ids: seq<string>, history: seq<Receipt>): nat {
    if ids == [] then 0 else Calls(ids[0], history) + CallSum(ids[1..], history)
  }

  lemma {:induction false} CallSumAppend(ids: seq<string>, history: seq<Receipt>, r: Receipt, c: Config)
    requires Distinct(ids)
    ensures CallSum(ids, history + [r]) == CallSum(ids, history) + if r.sellerId in ids then 1 else 0
  {
    if ids != [] {
      CallSumAppend(ids[1..], history, r, c);
      OthersUnaffected(ids[0], history, r, c);
      assert r.sellerId in ids <==> r.sellerId == ids[0] || r.sellerId in ids[1..];
      assert r.sellerId == ids[0] ==> forall i :: 0 <= i < |ids[1..]| ==> ids[1..][i] == ids[i + 1] != r.sellerId;
    }
  }

  lemma OneLess(left: int, price: nat)
    requires left >= 1
    ensures left * price == price + (left - 1) * price >= price
  {
  }

  lemma {:induction false} CallSumBound(ids: seq<string>, history: seq<Receipt>, m: nat)
    requires forall id :: id in ids ==> Calls(id, history) <= m
    ensures CallSum(ids, history) <= |ids| * m
    ensures CallSum(ids, history) == |ids| * m <==> forall id :: id in ids ==> Calls(id, history) == m
  {
    if ids != [] {
      var first, rest := ids[0], ids[1..];
      assert forall id :: id in ids <==> id == first || id in rest;
      CallSumBound(rest, history, m);
      OneLess(|ids|, m);
      var head, sum := Calls(first, history), CallSum(rest, history);
      assert CallSum(ids, history) == head + sum;
      assert head + sum == m + |rest| * m <==> head == m && sum == |rest| * m;
    }
  }

  lemma {:induction false} CallSumOfNothing(ids: seq<string>)
    ensures CallSum(ids, []) == 0
  {
    if ids != [] {
      CallSumOfNothing(ids[1..]);
    }
  }

  /** Offers exactly these sellers, never validates, never breaks the run, and stays within a price. */
  ghost predicate FailingRound(env: RoundEnv, ids: seq<string>, price: nat) {
    && (forall id :: id in env.discovered <==> id in ids)
    && match env.interaction
       case NegotiationFailed(_) => true
       case Negotiated(m, outcome, disputeReply) =>
         && m.maxPrice <= price
         && disputeReply != DisputeRaised
         && (outcome.CallRaised? || (!outcome.result.validationPassed && outcome.result.payout <= price))
  }

  /** Every record so far is a failure of one of these sellers, none over-sampled, and the money still suffices. */
  ghost predicate FailingSoFar(st: State, ids: seq<string>, c: Config, price: nat)
    requires c.minSamplesForBlacklist >= 1
  {
    && (forall r :: r in st.history ==> !r.validationPassed)
    && (forall id :: id in ids ==> Calls(id, st.history) <= c.minSamplesForBlacklist)
    && CallSum(ids, st.history) == |st.history|
    && st.budget >= (|ids| * c.minSamplesForBlacklist - |st.history|) * price
  }

  lemma FailingStep(st: State, env: RoundEnv, ids: seq<string>, c: Config, d: Disputes.Config, price: nat)
    requires Distinct(ids) && ids != [] && c.minPassRate > 0.0 && c.minSamplesForBlacklist >= 1
    requires FailingRound(env, ids, price) && FailingSoFar(st, ids, c, price)
    ensures |st.history| <= |ids| * c.minSamplesForBlacklist
    ensures var step := RoundStep(st, env, c, d);
            if |st.history| == |ids| * c.minSamplesForBlacklist then
              && step.Stop? && step.reason == AllSellersBlacklisted && step.stopped == st
              && forall id :: id in ids ==> Calls(id, st.history) == c.minSamplesForBlacklist
            else
              && step.Continue? && FailingSoFar(step.next, ids, c, price)
              && |step.next.history| == |st.history| + 1 && |step.next.rounds| == |st.rounds| + 1
  {
    var m := c.minSamplesForBlacklist;
    CallSumBound(ids, st.history, m);
    forall id | id in ids ensures Blacklisted(id, st.history, c) <==> Calls(id, st.history) >= m {
      BlacklistIsSampleCount(id, st.history, c);
    }
    SelectMeaning(env.discovered, st.history, c);
    assert ids[0] in env.discovered;
    if |st.history| < |ids| * m {
      var id :| id in ids && Calls(id, st.history) < m;
      assert id in env.discovered;
      var next := FailingContinue(st, env, ids, c, d, price);
    }
  }

  /** A failing round that can be afforded adds one failed record and costs at most the price. */
  lemma FailingRoundRecord(st: State, env: RoundEnv, ids: seq<string>, c: Config, d: Disputes.Config, price: nat)
    returns (next: State, r: Receipt)
    requires FailingRound(env, ids, price) && st.budget >= price
    requires env.discovered != [] && Select(env.discovered, st.history, c).Some?
    ensures RoundStep(st, env, c, d) == Continue(next)
    ensures next.history == st.history + [r] && |next.rounds| == |st.rounds| + 1 && next.budget >= st.budget - price
    ensures !r.validationPassed && r.sellerId == Select(env.discovered, st.history, c).value.sellerId
  {
    next := RoundStep(st, env, c, d).next;
    r := next.history[|st.history|];
  }

  lemma FailingContinue(st: State, env: RoundEnv, ids: seq<string>, c: Config, d: Disputes.Config, price: nat)
    returns (next: State)
    requires Distinct(ids) && c.minSamplesForBlacklist >= 1
    requires FailingRound(env, ids, price) && FailingSoFar(st, ids, c, price)
    requires |st.history| < |ids| * c.minSamplesForBlacklist
    requires env.discovered != [] && Select(env.discovered, st.history, c).Some?
    requires var id := Select(env.discovered, st.history, c).value.sellerId;
             id in ids && Calls(id, st.history) < c.minSamplesForBlacklist
    ensures RoundStep(st, env, c, d) == Continue(next) && FailingSoFar(next, ids, c, price)
    ensures |next.history| == |st.history| + 1 && |next.rounds| == |st.rounds| + 1
  {
    Affordable(st, ids, c, price);
    var r: Receipt;
    next, r := FailingRoundRecord(st, env, ids, c, d, price);
    FailingExtended(st, next, r, ids, c, price);
  }

  lemma Affordable(st: State, ids: seq<string>, c: Config, price: nat)
    requires c.minSamplesForBlacklist >= 1 && FailingSoFar(st, ids, c, price)
    requires |st.history| < |ids| * c.minSamplesForBlacklist
    ensures st.budget >= price
  {
    OneLess(|ids| * c.minSamplesForBlacklist - |st.history|, price);
  }

  lemma FailingExtended(st: State, next: State, r: Receipt, ids: seq<string>, c: Config, price: nat)
    requires Distinct(ids) && c.minSamplesForBlacklist >= 1 && FailingSoFar(st, ids, c, price)
    requires |st.history| < |ids| * c.minSamplesForBlacklist
    requires next.history == st.history + [r] && next.budget >= st.budget - price
    requires !r.validationPassed && r.sellerId in ids && Calls(r.sellerId, st.history) < c.minSamplesForBlacklist
    ensures FailingSoFar(next, ids, c, price)
  {
    OneLess(|ids| * c.minSamplesForBlacklist - |st.history|, price);
    CallSumAppend(ids, st.history, r, c);
    forall id | id in ids ensures Calls(id, next.history) <= c.minSamplesForBlacklist {
      OthersUnaffected(id, st.history, r, c);
    }
  }

  lemma {:induction false} FailingRun(st: State, envs: seq<RoundEnv>, ids: seq<string>, c: Config,
                                      d: Disputes.Config, price: nat)
    requires Distinct(ids) && ids != [] && c.minPassRate > 0.0 && c.minSamplesForBlacklist >= 1
    requires FailingSoFar(st, ids, c, price) && forall e :: e in envs ==> FailingRound(e, ids, price)
    requires |st.history| <= |ids| * c.minSamplesForBlacklist < |st.history| + |envs|
    ensures var (final, reason) := RunFrom(st, envs, c, d);
            && reason == AllSellersBlacklisted
            && |final.rounds| - |st.rounds| == |ids| * c.minSamplesForBlacklist - |st.history|
            && forall id :: id in ids ==> Calls(id, final.history) == c.minSamplesForBlacklist
    decreases |envs|
  {
    assert envs[0] in envs;
    FailingStep(st, envs[0], ids, c, d, price);
    var step := RoundStep(st, envs[0], c, d);
    if step.Continue? {
      FailingRun(step.next, envs[1..], ids, c, d, price);
    }
  }

  /**
   * Against n distinct sellers that never validate, with samples m and money enough, a run of more
   * than n * m allowed rounds plays exactly n * m of them, m per seller, and stops for want of sellers.
   */
  lemma UselessSellersAreDropped(ids: seq<string>, budget: int, envs: seq<RoundEnv>, c: Config,
                                 d: Disputes.Config, price: nat)
    requires Distinct(ids) && ids != [] && c.minPassRate > 0.0 && c.minSamplesForBlacklist >= 1
    requires forall e :: e in envs ==> FailingRound(e, ids, price)
    requires budget >= |ids| * c.minSamplesForBlacklist * price
    requires |envs| > |ids| * c.minSamplesForBlacklist
    ensures var (final, reason) := RunFrom(State([], [], budget, 0, []), envs, c, d);
            && |final.rounds| == |ids| * c.minSamplesForBlacklist
            && reason == AllSellersBlacklisted
            && forall id :: id in ids ==> Calls(id, final.history) == c.minSamplesForBlacklist
  {
    CallSumOfNothing(ids);
    assert |ids| * c.minSamplesForBlacklist >= 0;
    FailingRun(State([], [], budget, 0, []), envs, ids, c, d, price);
  }

  // ----- the loop's money

  function Paid(rounds: seq<Round>): int {
    if rounds == [] then 0 else Paid(rounds[..|rounds| - 1]) + rounds[|rounds| - 1].payout
  }

  ghost predicate LedgerHolds(initial: int, st: State) {
    && st.budget >= initial - Paid(st.rounds)
    && (st.budget == initial - Paid(st.rounds) <==> forall r :: r in st.rounds ==> r.payout <= r.before)
  }

  /** A round enters its payout and balances in the round it appends. */
  lemma RoundEntry(st: State, env: RoundEnv, c: Config, d: Disputes.Config) returns (r: Round)
    requires RoundStep(st, env, c, d).Continue? && st.budget >= 0
    ensures var next := RoundStep(st, env, c, d).next;
            next.rounds == st.rounds + [r] && r.before == st.budget && next.budget == Max(0, st.budget - r.payout)
  {
    r := RoundStep(st, env, c, d).next.rounds[|st.rounds|];
  }

  lemma LedgerEntry(initial: int, rounds: seq<Round>, budget: nat, r: Round)
    requires budget >= initial - Paid(rounds) && r.before == budget
    requires budget == initial - Paid(rounds) <==> forall x :: x in rounds ==> x.payout <= x.before
    ensures var after := Max(0, budget - r.payout);
            && after >= initial - Paid(rounds + [r])
            && (after == initial - Paid(rounds + [r]) <==> forall x :: x in rounds + [r] ==> x.payout <= x.before)
  {
    assert (rounds + [r])[..|rounds + [r]| - 1] == rounds;
    assert forall x :: x in rounds + [r] <==> x in rounds || x == r;
  }

  lemma LedgerStep(initial: int, st: State, env: RoundEnv, c: Config, d: Disputes.Config)
    requires LedgerHolds(initial, st) && RoundStep(st, env, c, d).Continue? && st.budget >= 0
    ensures LedgerHolds(initial, RoundStep(st, env, c, d).next) && RoundStep(st, env, c, d).next.budget >= 0
  {
    var r := RoundEntry(st, env, c, d);
    LedgerEntry(initial, st.rounds, st.budget, r);
  }

  /**
   * The remaining budget is never negative, and it is the initial budget less what was paid exactly
   * when no payout exceeded what was left.
   */
  lemma {:induction false} LoopLedger(initial: int, st: State, envs: seq<RoundEnv>, c: Config, d: Disputes.Config)
    requires LedgerHolds(initial, st) && initial >= 0 && st.budget >= 0
    ensures LedgerHolds(initial, RunFrom(st, envs, c, d).0) && RunFrom(st, envs, c, d).0.budget >= 0
    decreases |envs|
  {
    if envs != [] {
      var step := RoundStep(st, envs[0], c, d);
      if step.Continue? {
        LedgerStep(initial, st, envs[0], c, d);
        LoopLedger(initial, step.next, envs[1..], c, d);
      } else {
        StopChangesNothing(st, envs[0], c, d);
      }
    }
  }

  /** The call's outcome is what the client makes of some reply under the negotiated price. */
  ghost predicate ByClient(env: RoundEnv) {
    env.interaction.Negotiated? ==>
      exists invalidMode, reply ::
        env.interaction.outcome == AgentCall(env.interaction.mandate.maxPrice, invalidMode, reply)
  }

  /** What the client returns was checked against the price, so it fits the budget the guard left. */
  lemma CheckedRoundFits(st: State, env: RoundEnv, c: Config, d: Disputes.Config)
    requires ByClient(env) && st.budget >= 0 && RoundStep(st, env, c, d).Continue?
    ensures var r := RoundStep(st, env, c, d).next.rounds[|st.rounds|];
            !r.status.RefusedRound? ==> 0 <= r.payout <= r.before
  {
    if env.interaction.Negotiated? {
      var m := env.interaction.mandate;
      var invalidMode, reply :| env.interaction.outcome == AgentCall(m.maxPrice, invalidMode, reply);
      if reply.Answered? {
        Disputes.AcceptsIff(reply.payout, reply.refund, m.maxPrice, invalidMode);
      }
    }
  }

  ghost predicate OnlyRefusedOverdraw(rounds: seq<Round>) {
    forall i :: 0 <= i < |rounds| && !rounds[i].status.RefusedRound? ==> 0 <= rounds[i].payout <= rounds[i].before
  }

  lemma {:induction false} CheckedRun(st: State, envs: seq<RoundEnv>, c: Config, d: Disputes.Config)
    requires st.budget >= 0 && OnlyRefusedOverdraw(st.rounds) && forall i :: 0 <= i < |envs| ==> ByClient(envs[i])
    ensures OnlyRefusedOverdraw(RunFrom(st, envs, c, d).0.rounds)
    decreases |envs|
  {
    if envs != [] {
      var step := RoundStep(st, envs[0], c, d);
      if step.Continue? {
        CheckedRoundFits(st, envs[0], c, d);
        var r := RoundEntry(st, envs[0], c, d);
        CheckedRun(step.next, envs[1..], c, d);
      } else {
        StopChangesNothing(st, envs[0], c, d);
      }
    }
  }

  /**
   * With the client's checks in front of it, the loop's ledger is exact if and only if no receipt the
   * client refused asked for more than was left: those are entered at their own word.
   */
  lemma LedgerExactIff(budget: nat, envs: seq<RoundEnv>, c: Config, d: Disputes.Config)
    requires forall i :: 0 <= i < |envs| ==> ByClient(envs[i])
    ensures var final := RunFrom(State([], [], budget, 0, []), envs, c, d).0;
            && (forall r :: r in final.rounds && !r.status.RefusedRound? ==> 0 <= r.payout <= r.before)
            && (final.budget == budget - Paid(final.rounds) <==>
                  forall r :: r in final.rounds && r.status.RefusedRound? ==> r.payout <= r.before)
  {
    var st := State([], [], budget, 0, []);
    LoopLedger(budget, st, envs, c, d);
    CheckedRun(st, envs, c, d);
  }

  /** A refused receipt is entered at its own word. */
  lemma RefusedRoundEntry(st: State, id: string, m: Pricing.Mandate, r: CallResult, c: Config, d: Disputes.Config)
    requires Calls(id, st.history) == 0 && st.budget >= m.maxPrice
    ensures var step := RoundStep(st, RoundEnv([id], Negotiated(m, Violated(r), Declined)), c, d);
            && step.Continue? && |step.next.rounds| == |st.rounds| + 1
            && step.next.rounds[|st.rounds|].payout == r.payout && step.next.budget == Max(0, st.budget - r.payout)
  {
    assert FirstUntried([id], st.history) == Some(id);
  }

  /** And a refused receipt can do it: here one over 20 against a budget of 10. */
  lemma RefusedReceiptOverdraws(id: string, m: Pricing.Mandate, c: Config, d: Disputes.Config)
    requires m.maxPrice == 10
    ensures var outcome := AgentCall(10, false, Answered(true, Some(None), true, 20, 0));
            var final := RunFrom(State([], [], 10, 0, []), [RoundEnv([id], Negotiated(m, outcome, Declined))], c, d).0;
            outcome.Violated? && final.budget == 0 && Paid(final.rounds) == 20
  {
    Disputes.AcceptsIff(20, 0, 10, false);
    var outcome := AgentCall(10, false, Answered(true, Some(None), true, 20, 0));
    var st, env := State([], [], 10, 0, []), RoundEnv([id], Negotiated(m, outcome, Declined));
    RefusedRoundEntry(st, id, m, outcome.result, c, d);
    OneRound(st, env, c, d);
  }

  lemma OneRound(st: State, env: RoundEnv, c: Config, d: Disputes.Config)
    requires RoundStep(st, env, c, d).Continue? && |RoundStep(st, env, c, d).next.rounds| == 1
    ensures var next := RoundStep(st, env, c, d).next;
            RunFrom(st, [env], c, d).0 == next && Paid(next.rounds) == next.rounds[0].payout
  {
    var next := RoundStep(st, env, c, d).next;
    assert [env][1..] == [] && next.rounds[..0] == [];
  }

  // ----- what a round records

  /** What the buyer's rules pay for this result, had the call succeeded. */
  function Rules(m: Pricing.Mandate, r: CallResult): int
    requires r.metrics.Some?
  {
    Pricing.ComputePayout(m, r.metrics.value.GetOr(0), true, r.validationPassed).payout
  }

  /** A call that came back, with the receipt accepted or refused, as history and round list show it. */
  ghost predicate CallRecorded(m: Pricing.Mandate, o: CallOutcome, reply: DisputeReply, d: Disputes.Config,
                               record: Receipt, round: Round)
    requires !o.CallRaised?
  {
    var r := o.result;
    && record.maxPrice == m.maxPrice <= round.before
    && record.payout == round.payout == r.payout && round.refund == r.refund
    && record.validationPassed == round.validationPassed == r.validationPassed
    && record.latencyMs == (if r.metrics.Some? then r.metrics.value else None)
    && (record.success <==> o.Returned? && r.success && !r.hasError)
    && round.status == (if o.Violated? then RefusedRound else if record.success then SuccessRound else ErrorRound)
    && round.after == Max(0, round.before - r.payout)
    && (d.alwaysOnRefundMismatch && r.payout + r.refund == m.maxPrice ==>
          (record.disputed <==> r.hasRequestId && r.metrics.Some? && r.payout != Rules(m, r)))
    && (round.disputed <==> record.disputed && reply.Opened?)
  }

  /** What one round leaves behind, by what happened in it. */
  ghost predicate Recorded(env: RoundEnv, d: Disputes.Config, record: Receipt, round: Round) {
    && record.sellerId == round.sellerId && round.sellerId in env.discovered
    && match env.interaction
       case NegotiationFailed(price) =>
         && record == Receipt(record.sellerId, None, false, false, 0, price, false)
         && round == Round(round.sellerId, round.score, 0, 0, round.before, round.before, false, false,
                           NegotiationFailedRound)
       case Negotiated(m, outcome, reply) =>
         if outcome.CallRaised? then
           && m.maxPrice <= round.before
           && record == Receipt(record.sellerId, None, false, false, 0, m.maxPrice, false)
           && round == Round(round.sellerId, round.score, 0, m.maxPrice, round.before, Max(0, round.before), false,
                             false, ErrorRound)
         else CallRecorded(m, outcome, reply, d, record, round)
  }

  /** With the default refund rule a conserved result is disputed exactly when it was asked about and paid wrongly. */
  lemma DisputeWantedIff(m: Pricing.Mandate, r: CallResult, d: Disputes.Config)
    requires d.alwaysOnRefundMismatch && r.payout + r.refund == m.maxPrice
    ensures WantsDispute(m, r, d) <==> r.hasRequestId && r.metrics.Some? && r.payout != Rules(m, r)
  {
    if r.metrics.Some? {
      Disputes.DisputeIffWrongPayout(m, r.payout, r.refund, r.metrics.value.GetOr(0), r.validationPassed, true, d);
    }
  }

  lemma CallIsRecorded(st: State, e: Evaluation, m: Pricing.Mandate, o: CallOutcome, reply: DisputeReply,
                       d: Disputes.Config)
    requires !o.CallRaised? && CallStep(st, e, m, o, reply, d).Continue?
    ensures var next := CallStep(st, e, m, o, reply, d).next;
            CallRecorded(m, o, reply, d, next.history[|st.history|], next.rounds[|st.rounds|])
  {
    var r := o.result;
    if d.alwaysOnRefundMismatch && r.payout + r.refund == m.maxPrice {
      DisputeWantedIff(m, r, d);
    }
  }

  /** A round that goes on appends one record and one round, for a seller on offer, and they tell what happened. */
  lemma RoundIsRecorded(st: State, env: RoundEnv, c: Config, d: Disputes.Config)
    requires RoundStep(st, env, c, d).Continue?
    ensures var next := RoundStep(st, env, c, d).next;
            && |next.history| == |st.history| + 1 && |next.rounds| == |st.rounds| + 1
            && Recorded(env, d, next.history[|st.history|], next.rounds[|st.rounds|])
            && next.rounds[|st.rounds|].before == st.budget && next.rounds[|st.rounds|].after == next.budget
            && next.rounds[|st.rounds|].score == Evaluate(next.rounds[|st.rounds|].sellerId, st.history, c).score
            && next.disputes == st.disputes + (if next.rounds[|st.rounds|].disputed then 1 else 0)
            && next.seen == (if next.rounds[|st.rounds|].sellerId in st.seen then st.seen
                             else st.seen + [next.rounds[|st.rounds|].sellerId])
  {
    SelectMeaning(env.discovered, st.history, c);
    var e := Select(env.discovered, st.history, c).value;
    if env.interaction.Negotiated? && !env.interaction.outcome.CallRaised? {
      var seen := st.(seen := SawSeller(st.seen, e.sellerId));
      CallIsRecorded(seen, e, env.interaction.mandate, env.interaction.outcome, env.interaction.disputeReply, d);
    }
  }

  /** The k-th round of a run, and the balance it starts from. */
  ghost predicate RecordedAt(st: State, final: State, envs: seq<RoundEnv>, d: Disputes.Config, k: nat) {
    var (h, r) := (|st.history| + k, |st.rounds| + k);
    && k < |envs| && h < |final.history| && r < |final.rounds|
    && Recorded(envs[k], d, final.history[h], final.rounds[r])
    && final.rounds[r].before == if k == 0 then st.budget else final.rounds[r - 1].after
  }

  lemma RecordedLater(st: State, next: State, final: State, envs: seq<RoundEnv>, d: Disputes.Config, k: nat)
    requires envs != [] && Appended(st, next) && |next.rounds| == |st.rounds| + 1 && Appended(next, final)
    requires next.rounds[|st.rounds|].after == next.budget
    requires RecordedAt(next, final, envs[1..], d, k)
    ensures RecordedAt(st, final, envs, d, k + 1)
  {
    assert envs[1..][k] == envs[k + 1];
    assert final.rounds[|st.rounds|] == next.rounds[|st.rounds|];
  }

  ghost predicate FirstRecorded(st: State, next: State, env: RoundEnv, d: Disputes.Config) {
    && Appended(st, next) && |next.rounds| == |st.rounds| + 1 && |next.history| == |st.history| + 1
    && Recorded(env, d, next.history[|st.history|], next.rounds[|st.rounds|])
    && next.rounds[|st.rounds|].before == st.budget && next.rounds[|st.rounds|].after == next.budget
  }

  lemma RoundAppended(st: State, env: RoundEnv, c: Config, d: Disputes.Config)
    requires RoundStep(st, env, c, d).Continue?
    ensures FirstRecorded(st, RoundStep(st, env, c, d).next, env, d)
  {
    StepTrace(st, env, c, d);
    RoundIsRecorded(st, env, c, d);
  }

  lemma RecordedStep(st: State, next: State, final: State, envs: seq<RoundEnv>, d: Disputes.Config, k: nat)
    requires envs != [] && FirstRecorded(st, next, envs[0], d) && Appended(next, final)
    requires k > 0 ==> RecordedAt(next, final, envs[1..], d, k - 1)
    ensures RecordedAt(st, final, envs, d, k)
  {
    if k == 0 {
      assert final.history[|st.history|] == next.history[|st.history|];
      assert final.rounds[|st.rounds|] == next.rounds[|st.rounds|];
    } else {
      RecordedLater(st, next, final, envs, d, k - 1);
    }
  }

  ghost predicate AllRecorded(st: State, final: State, envs: seq<RoundEnv>, d: Disputes.Config) {
    && Appended(st, final)
    && forall k: nat :: k < |final.rounds| - |st.rounds| ==> RecordedAt(st, final, envs, d, k)
  }

  lemma AllRecordedStep(st: State, next: State, final: State, envs: seq<RoundEnv>, d: Disputes.Config)
    requires envs != [] && FirstRecorded(st, next, envs[0], d)
    requires AllRecorded(next, final, envs[1..], d)
    ensures AllRecorded(st, final, envs, d)
  {
    AppendedStep(st, next, final);
    forall k: nat | k < |final.rounds| - |st.rounds| ensures RecordedAt(st, final, envs, d, k) {
      if k > 0 {
        assert RecordedAt(next, final, envs[1..], d, k - 1);
      }
      RecordedStep(st, next, final, envs, d, k);
    }
  }

  /** Every round of a run is recorded as it went, each starting from the balance the one before it left. */
  lemma {:induction false} RunIsRecorded(st: State, envs: seq<RoundEnv>, c: Config, d: Disputes.Config)
    ensures AllRecorded(st, RunFrom(st, envs, c, d).0, envs, d)
    decreases |envs|
  {
    if envs != [] {
      var step := RoundStep(st, envs[0], c, d);
      if step.Continue? {
        RoundAppended(st, envs[0], c, d);
        RunIsRecorded(step.next, envs[1..], c, d);
        AllRecordedStep(st, step.next, RunFrom(step.next, envs[1..], c, d).0, envs, d);
      } else {
        StopChangesNothing(st, envs[0], c, d);
      }
    }
  }

  function DisputedRounds(rounds: seq<Round>): nat {
    |Filter(rounds, (r: Round) => r.disputed)|
  }

  lemma OneMoreDisputed(rounds: seq<Round>, r: Round)
    ensures DisputedRounds(rounds + [r]) == DisputedRounds(rounds) + if r.disputed then 1 else 0
  {
    FilterAppend(rounds, [r], (x: Round) => x.disputed);
    assert DisputedRounds([r]) == if r.disputed then 1 else 0;
  }

  lemma RoundAddsOne(st: State, env: RoundEnv, c: Config, d: Disputes.Config) returns (r: Round)
    requires RoundStep(st, env, c, d).Continue?
    ensures var next := RoundStep(st, env, c, d).next;
            next.rounds == st.rounds + [r] && next.disputes == st.disputes + (if r.disputed then 1 else 0)
  {
    r := RoundStep(st, env, c, d).next.rounds[|st.rounds|];
  }

  lemma RoundIsCounted(st: State, env: RoundEnv, c: Config, d: Disputes.Config)
    requires st.disputes == DisputedRounds(st.rounds) && RoundStep(st, env, c, d).Continue?
    ensures var next := RoundStep(st, env, c, d).next; next.disputes == DisputedRounds(next.rounds)
  {
    var r := RoundAddsOne(st, env, c, d);
    OneMoreDisputed(st.rounds, r);
  }

  /** A run counts exactly the rounds whose dispute the gateway opened. */
  lemma {:induction false} DisputesAreCounted(st: State, envs: seq<RoundEnv>, c: Config, d: Disputes.Config)
    requires st.disputes == DisputedRounds(st.rounds)
    ensures var final := RunFrom(st, envs, c, d).0; final.disputes == DisputedRounds(final.rounds)
    decreases |envs|
  {
    if envs != [] {
      var step := RoundStep(st, envs[0], c, d);
      if step.Continue? {
        RoundIsCounted(st, envs[0], c, d);
        DisputesAreCounted(step.next, envs[1..], c, d);
      } else {
        StopChangesNothing(st, envs[0], c, d);
      }
    }
  }

  /**
   * A receipt the gateway priced by the negotiated mandate's rules is accepted by the client and never
   * disputed by the loop.
   */
  lemma HonestRoundUndisputed(st: State, env: RoundEnv, call: Gateway.Call, reply: DisputeReply, c: Config,
                              d: Disputes.Config)
    requires Pricing.NonNegativeTerms(call.mandate) && call.success && call.reply.Unavailable?
    requires d.alwaysOnRefundMismatch
    requires var answer := Gateway.Respond(call);
             env.interaction == Negotiated(call.mandate,
               AgentCall(call.mandate.maxPrice, false,
                         Answered(true, Some(Some(call.latencyMs)), answer.validationPassed, answer.decision.payout,
                                  answer.decision.refund)),
               reply)
    requires env.discovered != [] && Select(env.discovered, st.history, c).Some? && st.budget >= call.mandate.maxPrice
    ensures var step := RoundStep(st, env, c, d);
            && step.Continue? && step.next.disputes == st.disputes
            && var (record, round) := (step.next.history[|st.history|], step.next.rounds[|st.rounds|]);
               && !record.disputed && !round.disputed && round.status == SuccessRound
               && record.payout == Gateway.Respond(call).decision.payout
  {
    Disputes.HonestCallUndisputed(call, d);
    var r := env.interaction.outcome.result;
    assert env.interaction.outcome.Returned?;
    DisputeWantedIff(call.mandate, r, d);
    Disputes.Conserved(call);
  }

  /** Why a run stops at a round, in the order the loop finds out. */
  lemma StopIff(st: State, env: RoundEnv, c: Config, d: Disputes.Config)
    ensures var step := RoundStep(st, env, c, d);
            var selectable := exists id :: id in env.discovered && !Blacklisted(id, st.history, c);
            var affordable := env.interaction.NegotiationFailed? || env.interaction.mandate.maxPrice <= st.budget;
            && (step.Stop? && step.reason == NoSellersAvailable <==> env.discovered == [])
            && (step.Stop? && step.reason == AllSellersBlacklisted <==> env.discovered != [] && !selectable)
            && (step.Stop? && step.reason == BudgetExhausted <==> selectable && !affordable)
            && (step.Stop? && step.reason == RunRaised ==>
                  selectable && affordable && env.interaction.Negotiated?
                  && env.interaction.disputeReply.DisputeRaised?)
            && (step.Continue? ==> selectable && affordable)
            && !(step.Stop? && step.reason == MaxRoundsReached)
  {
    SelectMeaning(env.discovered, st.history, c);
  }

  /** The client's verdict on a reply: accepted if conserved, in bounds and, in invalid mode, unpaid; else refused. */
  lemma AgentCallMeaning(maxPrice: int, invalidMode: bool, reply: GatewayReply)
    ensures var o := AgentCall(maxPrice, invalidMode, reply);
            match reply
            case NoReply => o.CallRaised?
            case Rejected =>
              && o.Returned? && !o.result.success && o.result.hasError && !o.result.hasRequestId
              && !o.result.validationPassed && o.result.metrics.None? && o.result.payout == o.result.refund == 0
            case Answered(hasRequestId, metrics, validationPassed, payout, refund) =>
              var sound := payout + refund == maxPrice && 0 <= payout <= maxPrice && (invalidMode ==> payout == 0);
              && !o.CallRaised? && (o.Returned? <==> sound)
              && o.result == CallResult(hasRequestId, metrics, validationPassed, sound, !sound, payout, refund)
  {
    if reply.Answered? {
      Disputes.AcceptsIff(reply.payout, reply.refund, maxPrice, invalidMode);
    }
  }
}
