/** The deposit-first tool chain of buyer_agent/tools.py and its budget ledger. */
module Budget {
  import opened Base
  import opened Pricing
  import opened Gateway

  datatype Afford = Affordable | BudgetExceeded | MaxStepPriceExceeded

  datatype Ledger = Ledger(budget: int, maxStepPrice: int, remaining: int, spent: int, refunded: int)

  function Fresh(budget: int, maxStepPrice: int): Ledger {
    Ledger(budget, maxStepPrice, budget, 0, 0)
  }

  function CanAfford(l: Ledger, price: int): Afford {
    if price > l.remaining then BudgetExceeded
    else if price > l.maxStepPrice then MaxStepPriceExceeded
    else Affordable
  }

  function Record(l: Ledger, price: int, refund: int): Ledger {
    var spent := l.spent + (price - refund);
    l.(spent := spent, refunded := l.refunded + refund, remaining := l.budget - spent)
  }

  class BudgetManager {
    const budget: int
    const maxStepPrice: int
    var remaining: int
    var totalSpent: int
    var totalRefunded: int

    function Model(): Ledger
      reads this
    {
      Ledger(budget, maxStepPrice, remaining, totalSpent, totalRefunded)
    }

    constructor (budget: int, maxStepPrice: int)
      ensures Model() == Fresh(budget, maxStepPrice)
    {
      this.budget, this.maxStepPrice := budget, maxStepPrice;
      remaining, totalSpent, totalRefunded := budget, 0, 0;
    }

    method CanAffordStep(price: int) returns (a: Afford)
      ensures a == CanAfford(Model(), price)
    {
      if price > remaining {
        return BudgetExceeded;
      }
      if price > maxStepPrice {
        return MaxStepPriceExceeded;
      }
      return Affordable;
    }

    method RecordSpend(price: int, refund: int)
      modifies this
      ensures Model() == Record(old(Model()), price, refund)
    {
      var net := price - refund;
      totalSpent := totalSpent + net;
      totalRefunded := totalRefunded + refund;
      remaining := budget - totalSpent;
    }
  }

  // ----- one chain

  /** What the gateway answered to a paid request; `Broken` is an exception that ends the run. */
  datatype Reply = Paid(payout: int, refund: int, validated: bool) | Refused | Broken

  datatype Status = Success | Failed | OverBudget | OverStepPrice

  datatype Step = Step(price: int, payout: int, refund: int, charged: bool, before: int, after: int, status: Status)

  datatype Ending = Completed | Aborted | Raised

  datatype Chain = Chain(steps: seq<Step>, ledger: Ledger, ending: Ending)

  /** `execute_tool` on the ledger; `None` when the request raised. */
  function Execute(l: Ledger, price: int, reply: Reply): (Option<Step>, Ledger) {
    match CanAfford(l, price)
    case BudgetExceeded => (Some(Step(price, 0, 0, false, l.remaining, l.remaining, OverBudget)), l)
    case MaxStepPriceExceeded => (Some(Step(price, 0, 0, false, l.remaining, l.remaining, OverStepPrice)), l)
    case Affordable =>
      match reply
      case Broken => (None, l)
      case Refused => (Some(Step(price, 0, 0, false, l.remaining, l.remaining, Failed)), l)
      case Paid(payout, refund, validated) =>
        var l' := Record(l, price, refund);
        (Some(Step(price, payout, refund, true, l.remaining, l'.remaining, if validated then Success else Failed)), l')
  }

  /** The run over the remaining tools. */
  function RunChain(l: Ledger, prices: seq<int>, replies: seq<Reply>): Chain
    requires |prices| == |replies|
    decreases |prices|
  {
    if prices == [] then Chain([], l, Completed)
    else
      var (step, l') := Execute(l, prices[0], replies[0]);
      if step.None? then Chain([], l', Raised)
      else if step.value.status in {OverBudget, OverStepPrice} then Chain([step.value], l', Aborted)
      else
        var rest := RunChain(l', prices[1..], replies[1..]);
        rest.(steps := [step.value] + rest.steps)
  }

  class ToolChainExecutor {
    const manager: BudgetManager

    constructor (manager: BudgetManager)
      ensures this.manager == manager
    {
      this.manager := manager;
    }

    method ExecuteTool(price: int, reply: Reply) returns (step: Option<Step>)
      modifies manager
      ensures (step, manager.Model()) == Execute(old(manager.Model()), price, reply)
    {
      var before := manager.remaining;
      var afford := manager.CanAffordStep(price);
      if afford != Affordable {
        var status := if afford == BudgetExceeded then OverBudget else OverStepPrice;
        return Some(Step(price, 0, 0, false, before, before, status));
      }
      match reply {
        case Broken => return None;
        case Refused => return Some(Step(price, 0, 0, false, before, before, Failed));
        case Paid(payout, refund, validated) =>
          manager.RecordSpend(price, refund);
          var status := if validated then Success else Failed;
          return Some(Step(price, payout, refund, true, before, manager.remaining, status));
      }
    }

    /** `run_chain`: one tool after the other until the list ends or a guard stops it. */
    method Run(prices: seq<int>, replies: seq<Reply>) returns (c: Chain)
      requires |prices| == |replies|
      modifies manager
      ensures c == RunChain(old(manager.Model()), prices, replies)
      ensures manager.Model() == c.ledger
    {
      var steps: seq<Step> := [];
      ghost var whole := RunChain(manager.Model(), prices, replies);
      for i := 0 to |prices|
        invariant var rest := RunChain(manager.Model(), prices[i..], replies[i..]);
                  whole == rest.(steps := steps + rest.steps)
      {
        assert prices[i..][1..] == prices[i + 1..] && replies[i..][1..] == replies[i + 1..];
        var step := ExecuteTool(prices[i], replies[i]);
        if step.None? {
          c := Chain(steps, manager.Model(), Raised);
          assert steps + [] == steps;
          return;
        }
        ghost var before := steps;
        steps := steps + [step.value];
        if step.value.status == OverBudget || step.value.status == OverStepPrice {
          c := Chain(steps, manager.Model(), Aborted);
          return;
        }
        ghost var rest := RunChain(manager.Model(), prices[i + 1..], replies[i + 1..]);
        assert before + ([step.value] + rest.steps) == steps + rest.steps;
      }
      c := Chain(steps, manager.Model(), Completed);
      assert steps + [] == steps;
    }
  }

  // ----- properties

  function Charged(steps: seq<Step>, amount: Step -> int): int {
    if steps == [] then 0 else (if steps[0].charged then amount(steps[0]) else 0) + Charged(steps[1..], amount)
  }

  const PRICE: Step -> int := (s: Step) => s.price
  const PAYOUT: Step -> int := (s: Step) => s.payout
  const REFUND: Step -> int := (s: Step) => s.refund
  const SETTLED: Step -> int := (s: Step) => s.payout + s.refund

  ghost predicate Consistent(l: Ledger) {
    l.remaining == l.budget - l.spent
  }

  /** The books balance for any gateway answers at all: every charged price is spent or refunded. */
  lemma {:induction false} BooksBalance(l: Ledger, prices: seq<int>, replies: seq<Reply>)
    requires |prices| == |replies| && Consistent(l)
    ensures var c := RunChain(l, prices, replies);
            && Consistent(c.ledger)
            && c.ledger.budget == l.budget
            && (c.ledger.spent - l.spent) + (c.ledger.refunded - l.refunded) == Charged(c.steps, PRICE)
            && c.ledger.refunded - l.refunded == Charged(c.steps, REFUND)
    decreases |prices|
  {
    if prices != [] {
      var (step, l') := Execute(l, prices[0], replies[0]);
      if step.Some? && step.value.status !in {OverBudget, OverStepPrice} {
        BooksBalance(l', prices[1..], replies[1..]);
        var rest := RunChain(l', prices[1..], replies[1..]);
        assert ([step.value] + rest.steps)[1..] == rest.steps;
      } else if step.Some? {
        assert [step.value][1..] == [];
      }
    }
  }

  /** Every step starts where the one before it ended. */
  lemma {:induction false} StepsAreContiguous(l: Ledger, prices: seq<int>, replies: seq<Reply>)
    requires |prices| == |replies|
    ensures var c := RunChain(l, prices, replies);
            && (c.steps != [] ==>
                  c.steps[0].before == l.remaining && c.steps[|c.steps| - 1].after == c.ledger.remaining)
            && (c.steps == [] ==> c.ledger == l)
            && forall i :: 0 <= i < |c.steps| - 1 ==> c.steps[i].after == c.steps[i + 1].before
    decreases |prices|
  {
    if prices != [] {
      var (step, l') := Execute(l, prices[0], replies[0]);
      if step.Some? && step.value.status !in {OverBudget, OverStepPrice} {
        StepsAreContiguous(l', prices[1..], replies[1..]);
      }
    }
  }

  /** With refunds that are never negative the budget is never overdrawn, at any step. */
  lemma {:induction false} NeverOverdrawn(l: Ledger, prices: seq<int>, replies: seq<Reply>)
    requires |prices| == |replies| && Consistent(l) && l.remaining >= 0
    requires forall r :: r in replies && r.Paid? ==> r.refund >= 0
    ensures var c := RunChain(l, prices, replies);
            c.ledger.remaining >= 0 && forall s :: s in c.steps ==> s.before >= 0 && s.after >= 0
    decreases |prices|
  {
    if prices != [] {
      var (step, l') := Execute(l, prices[0], replies[0]);
      assert replies[0] in replies;
      if step.Some? && step.value.status !in {OverBudget, OverStepPrice} {
        NeverOverdrawn(l', prices[1..], replies[1..]);
      }
    }
  }

  /** The ledger's spending is what the sellers were paid exactly when the settled sums match the prices. */
  lemma SpentEqualsPayoutsIff(budget: int, maxStepPrice: int, prices: seq<int>, replies: seq<Reply>)
    requires |prices| == |replies|
    ensures var c := RunChain(Fresh(budget, maxStepPrice), prices, replies);
            c.ledger.spent == Charged(c.steps, PAYOUT) <==> Charged(c.steps, SETTLED) == Charged(c.steps, PRICE)
  {
    var c := RunChain(Fresh(budget, maxStepPrice), prices, replies);
    BooksBalance(Fresh(budget, maxStepPrice), prices, replies);
    SettledSplits(c.steps);
  }

  lemma {:induction false} SettledSplits(steps: seq<Step>)
    ensures Charged(steps, SETTLED) == Charged(steps, PAYOUT) + Charged(steps, REFUND)
  {
    if steps != [] {
      SettledSplits(steps[1..]);
    }
  }

  /** The reply to a request is the gateway's decision on a mandate written for the tool's price. */
  ghost predicate PricedByGateway(price: int, reply: Reply) {
    reply.Paid? ==> exists call: Call :: NonNegativeTerms(call.mandate) && Answers(call, price, reply)
  }

  predicate Answers(call: Call, price: int, reply: Reply) {
    var r := Respond(call);
    && call.mandate.maxPrice == price && r.Priced?
    && reply == Paid(r.decision.payout, r.decision.refund, r.validationPassed)
  }

  /**
   * The whole money path: whatever the tools, latencies, validators and models do, a chain priced by
   * the gateway conserves the budget to the token.
   */
  lemma GatewayChainConserves(budget: nat, maxStepPrice: int, prices: seq<int>, replies: seq<Reply>)
    requires |prices| == |replies|
    requires forall i :: 0 <= i < |prices| ==> PricedByGateway(prices[i], replies[i])
    ensures var c := RunChain(Fresh(budget, maxStepPrice), prices, replies);
            && c.ledger.spent == Charged(c.steps, PAYOUT)
            && c.ledger.refunded == Charged(c.steps, REFUND)
            && c.ledger.spent + c.ledger.refunded == Charged(c.steps, PRICE)
            && c.ledger.remaining + c.ledger.spent == budget
            && 0 <= c.ledger.remaining <= budget
            && forall s :: s in c.steps ==> 0 <= s.after <= s.before
  {
    var l := Fresh(budget, maxStepPrice);
    var c := RunChain(l, prices, replies);
    forall i | 0 <= i < |prices| && replies[i].Paid?
      ensures replies[i].payout + replies[i].refund == prices[i] && 0 <= replies[i].payout <= prices[i]
    {
      assert PricedByGateway(prices[i], replies[i]);
      var call: Call :| NonNegativeTerms(call.mandate) && Answers(call, prices[i], replies[i]);
      DecisionSafe(call);
    }
    BooksBalance(l, prices, replies);
    NeverOverdrawn(l, prices, replies);
    SettledMatchesPrices(l, prices, replies);
    SettledSplits(c.steps);
  }

  lemma {:induction false} SettledMatchesPrices(l: Ledger, prices: seq<int>, replies: seq<Reply>)
    requires |prices| == |replies| && Consistent(l)
    requires forall i :: 0 <= i < |prices| && replies[i].Paid? ==>
               replies[i].payout + replies[i].refund == prices[i] && 0 <= replies[i].payout <= prices[i]
    ensures var c := RunChain(l, prices, replies);
            && Charged(c.steps, SETTLED) == Charged(c.steps, PRICE)
            && c.ledger.remaining <= l.remaining
            && forall s :: s in c.steps ==> s.after <= s.before
    decreases |prices|
  {
    if prices != [] {
      var (step, l') := Execute(l, prices[0], replies[0]);
      if step.Some? && step.value.status !in {OverBudget, OverStepPrice} {
        SettledMatchesPrices(l', prices[1..], replies[1..]);
        var rest := RunChain(l', prices[1..], replies[1..]);
        assert ([step.value] + rest.steps)[1..] == rest.steps;
      } else if step.Some? {
        assert [step.value][1..] == [];
      }
    }
  }

  // ----- every step as it went

  /** The step of one tool, by what was left and what the gateway answered. */
  ghost predicate StepOf(step: Step, price: int, reply: Reply, maxStepPrice: int) {
    && step.price == price
    && if price > step.before then
         step == Step(price, 0, 0, false, step.before, step.before, OverBudget)
       else if price > maxStepPrice then
         step == Step(price, 0, 0, false, step.before, step.before, OverStepPrice)
       else match reply
         case Broken => false
         case Refused => step == Step(price, 0, 0, false, step.before, step.before, Failed)
         case Paid(payout, refund, validated) =>
           && step.charged && step.payout == payout && step.refund == refund
           && step.after == step.before - price + refund
           && (step.status.Success? <==> validated) && (step.status.Failed? <==> !validated)
  }

  predicate Blocked(step: Step) {
    step.status.OverBudget? || step.status.OverStepPrice?
  }

  /**
   * Every step of a chain is that of its tool, charged only for a price within both limits; only the last
   * can be blocked; and the chain ends where a step is blocked, a request raises, or the tools run out.
   */
  lemma {:induction false} ChainIsRecorded(l: Ledger, prices: seq<int>, replies: seq<Reply>)
    requires |prices| == |replies| && Consistent(l)
    ensures var c := RunChain(l, prices, replies);
            && |c.steps| <= |prices|
            && (forall i :: 0 <= i < |c.steps| ==> StepOf(c.steps[i], prices[i], replies[i], l.maxStepPrice))
            && (forall i :: 0 <= i < |c.steps| - 1 ==> !Blocked(c.steps[i]))
            && (c.ending.Aborted? <==> c.steps != [] && Blocked(c.steps[|c.steps| - 1]))
            && (c.ending.Completed? <==> |c.steps| == |prices| && !c.ending.Aborted?)
            && (c.ending.Raised? ==> replies[|c.steps|].Broken?)
    decreases |prices|
  {
    if prices != [] {
      var (step, l') := Execute(l, prices[0], replies[0]);
      if step.Some? && !Blocked(step.value) {
        ChainIsRecorded(l', prices[1..], replies[1..]);
      }
    }
  }
}
