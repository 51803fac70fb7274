/**
 * The buyer's side of a priced call: the arithmetic checks of buyer_agent/client.py and the
 * dispute policy of buyer_agent/dispute_policy.py, met by what the gateway answers.
 */
module Disputes {
  import opened Base
  import opened Pricing
  import opened LlmPolicy
  import opened Gateway

  datatype Role = Buyer | Seller

  datatype Config = Config(role: Role, minExpectedGain: int, minGainToBond: real, alwaysOnRefundMismatch: bool)

  datatype Reason = OverpaidSeller | UnderpaidSeller | GainBelowThreshold | RatioBelowThreshold | RefundMismatch

  datatype Assessment = Assessment(
    shouldDispute: bool,
    expectedPayout: int,
    expectedRefund: int,
    expectedGain: nat,
    gainToBond: Option<real>,
    reasons: seq<Reason>)

  function Round4(x: real): real {
    RoundHalfEven(x * 10000.0) as real / 10000.0
  }

  /** `assess_dispute`. */
  function Assess(m: Mandate, payout: int, refund: int, latencyMs: int, validationPassed: bool, success: bool,
                  config: Config): Assessment
  {
    var pricing := ComputePayout(m, latencyMs, success, validationPassed);
    var gain := if config.role.Buyer? then Max(0, payout - pricing.payout) else Max(0, pricing.payout - payout);
    var ratio := if m.bond <= 0 then None else Some(Round4(gain as real / m.bond as real));
    var gainGate := gain >= config.minExpectedGain;
    var ratioGate := m.bond <= 0 || ratio.value >= config.minGainToBond;
    var mismatch := refund != pricing.refund;
    var gainReasons :=
      if gain > 0 then
        [if config.role.Buyer? then OverpaidSeller else UnderpaidSeller]
        + (if gainGate then [] else [GainBelowThreshold])
        + (if ratioGate then [] else [RatioBelowThreshold])
      else [];
    Assessment(
      (gain > 0 && gainGate && ratioGate) || (mismatch && config.alwaysOnRefundMismatch),
      pricing.payout, pricing.refund, gain, ratio,
      gainReasons + if mismatch then [RefundMismatch] else [])
  }

  // ----- the buyer's receipt checks

  datatype Check =
    | PayoutLeMaxPrice
    | RefundCorrect
    | TotalConserved
    | InvalidZeroPayout
    | PayoutNonNegative
    | RefundNonNegative

  /** `_check_invariants`: every check made, with its outcome. */
  function CheckInvariants(payout: int, refund: int, maxPrice: int, invalidMode: bool): seq<(Check, bool)> {
    [(PayoutLeMaxPrice, payout <= maxPrice),
     (RefundCorrect, refund == maxPrice - payout),
     (TotalConserved, payout + refund == maxPrice)]
    + (if invalidMode then [(InvalidZeroPayout, payout == 0)] else [])
    + [(PayoutNonNegative, payout >= 0), (RefundNonNegative, refund >= 0)]
  }

  /** `call` returns the receipt when no check failed and refuses it otherwise. */
  predicate Accepts(payout: int, refund: int, maxPrice: int, invalidMode: bool) {
    forall c :: c in CheckInvariants(payout, refund, maxPrice, invalidMode) ==> c.1
  }

  lemma AcceptsIff(payout: int, refund: int, maxPrice: int, invalidMode: bool)
    ensures Accepts(payout, refund, maxPrice, invalidMode)
       <==> payout + refund == maxPrice && 0 <= payout <= maxPrice && (invalidMode ==> payout == 0)
  {
    var checks := CheckInvariants(payout, refund, maxPrice, invalidMode);
    var n := |checks|;
    assert checks[0] in checks && checks[1] in checks && checks[2] in checks;
    assert checks[n - 2] == (PayoutNonNegative, payout >= 0) && checks[n - 2] in checks;
    if invalidMode {
      assert checks[3] == (InvalidZeroPayout, payout == 0) && checks[3] in checks;
    }
  }

  // ----- properties

  /**
   * On a conserved observation, with the default refund-mismatch rule, a dispute follows exactly
   * from a wrong payout; role, gain, bond and ratio thresholds cannot change that.
   */
  lemma DisputeIffWrongPayout(m: Mandate, payout: int, refund: int, latencyMs: int, validationPassed: bool,
                              success: bool, config: Config)
    requires payout + refund == m.maxPrice
    requires config.alwaysOnRefundMismatch
    ensures Assess(m, payout, refund, latencyMs, validationPassed, success, config).shouldDispute
       <==> payout != ComputePayout(m, latencyMs, success, validationPassed).payout
  {
  }

  /** Without the refund rule only a worthwhile gain for the own role is disputed. */
  lemma DisputeNeedsGain(m: Mandate, payout: int, refund: int, latencyMs: int, validationPassed: bool,
                         success: bool, config: Config)
    requires !config.alwaysOnRefundMismatch
    requires Assess(m, payout, refund, latencyMs, validationPassed, success, config).shouldDispute
    ensures var expected := ComputePayout(m, latencyMs, success, validationPassed).payout;
            if config.role.Buyer? then payout > expected && payout - expected >= config.minExpectedGain
            else payout < expected && expected - payout >= config.minExpectedGain
  {
  }

  // ----- the loop and the gateway, each with a mandate of its own

  /**
   * What the autonomous loop asks about a gateway answer: it always claims the call succeeded. It
   * assesses the mandate it negotiated, which is the gateway's only if that mandate was registered: a
   * call without a mandate id is priced by the gateway's default.
   */
  function LoopDisputes(c: Call, buyers: Mandate, config: Config): bool
    requires Respond(c).Priced?
  {
    var r := Respond(c);
    Assess(buyers, r.decision.payout, r.decision.refund, c.latencyMs, r.validationPassed, true, config).shouldDispute
  }

  function Expected(c: Call, m: Mandate): int
    requires Respond(c).Priced?
  {
    ComputePayout(m, c.latencyMs, true, Respond(c).validationPassed).payout
  }

  /** What the gateway's price cap has over the buyer's. */
  function Excess(c: Call, buyers: Mandate): int {
    c.mandate.maxPrice - buyers.maxPrice
  }

  /** An amount paid too much (to a buyer) or too little (to a seller) that passes every threshold. */
  predicate WorthDisputing(overpaid: int, bond: int, config: Config) {
    var gain := if config.role.Buyer? then overpaid else -overpaid;
    && gain > 0 && gain >= config.minExpectedGain
    && (bond <= 0 || Round4(gain as real / bond as real) >= config.minGainToBond)
  }

  /** The gateway's decision always adds up to its own cap. */
  lemma Conserved(c: Call)
    requires Respond(c).Priced?
    ensures Respond(c).decision.payout + Respond(c).decision.refund == c.mandate.maxPrice
  {
  }

  /**
   * Under any two mandates: the loop disputes exactly when the payout is off by something other than
   * the excess of the caps, which shows in the refund, or by the excess and that is worth a dispute.
   */
  lemma LoopDisputesIff(c: Call, buyers: Mandate, config: Config)
    requires Respond(c).Priced? && config.alwaysOnRefundMismatch
    ensures LoopDisputes(c, buyers, config)
       <==> || Respond(c).decision.payout - Expected(c, buyers) != Excess(c, buyers)
            || WorthDisputing(Excess(c, buyers), buyers.bond, config)
  {
    Conserved(c);
    ComputePayoutConserves(buyers, c.latencyMs, true, Respond(c).validationPassed);
  }

  lemma ComputePayoutConserves(m: Mandate, latencyMs: int, success: bool, validationPass: bool)
    ensures var d := ComputePayout(m, latencyMs, success, validationPass);
            d.payout + d.refund == m.maxPrice
  {
  }

  /** The buyer's checks pass exactly when both sides have the same cap (and an invalid call earned nothing). */
  lemma GatewayAnswerAcceptedIff(c: Call, buyers: Mandate, invalidMode: bool)
    requires NonNegativeTerms(c.mandate) && Respond(c).Priced?
    ensures var d := Respond(c).decision;
            Accepts(d.payout, d.refund, buyers.maxPrice, invalidMode) <==>
              c.mandate.maxPrice == buyers.maxPrice && (invalidMode ==> d.payout == 0)
  {
    DecisionSafe(c);
    var d := Respond(c).decision;
    AcceptsIff(d.payout, d.refund, buyers.maxPrice, invalidMode);
  }

  /**
   * A successful call priced by the rules alone is accepted exactly under equal caps, and disputed
   * exactly when the two mandates' rules differ by other than their caps do, or the caps differ enough.
   */
  lemma HonestCallIff(c: Call, buyers: Mandate, config: Config)
    requires NonNegativeTerms(c.mandate) && c.success && c.reply.Unavailable?
    requires config.alwaysOnRefundMismatch
    ensures var d := Respond(c).decision;
            Accepts(d.payout, d.refund, buyers.maxPrice, false) <==> c.mandate.maxPrice == buyers.maxPrice
    ensures LoopDisputes(c, buyers, config)
       <==> || Expected(c, c.mandate) - Expected(c, buyers) != Excess(c, buyers)
            || WorthDisputing(Excess(c, buyers), buyers.bond, config)
  {
    GatewayAnswerAcceptedIff(c, buyers, false);
    LoopDisputesIff(c, buyers, config);
  }

  /** Under one mandate an honest call is therefore accepted and never disputed. */
  lemma HonestCallUndisputed(c: Call, config: Config)
    requires NonNegativeTerms(c.mandate) && c.success && c.reply.Unavailable?
    requires config.alwaysOnRefundMismatch
    ensures var d := Respond(c).decision;
            Accepts(d.payout, d.refund, c.mandate.maxPrice, false) && !LoopDisputes(c, c.mandate, config)
  {
    HonestCallIff(c, c.mandate, config);
  }

  /**
   * On a successful call under equal caps the loop disputes exactly a payout other than its own rules'.
   * Where those are the gateway's too, that is exactly a payout the model moved.
   */
  lemma OverlayDisputedIff(c: Call, buyers: Mandate, config: Config)
    requires c.success && Respond(c).Priced? && config.alwaysOnRefundMismatch
    requires c.mandate.maxPrice == buyers.maxPrice
    ensures LoopDisputes(c, buyers, config) <==> Respond(c).decision.payout != Expected(c, buyers)
    ensures Expected(c, buyers) == Expected(c, c.mandate) ==>
              (LoopDisputes(c, buyers, config) <==> Respond(c).decision.rule == LlmNegotiated)
  {
    LoopDisputesIff(c, buyers, config);
    assert ComputePayout(c.mandate, c.latencyMs, true, Respond(c).validationPassed).rule != LlmNegotiated;
  }

  /** A failed call's validation stands unless a model, asked, does not say that the SLA passed. */
  predicate ValidationStands(c: Call) {
    c.reply.Unavailable? || (!c.scenario.Breaches? && c.reply.slaPass == Some(true))
  }

  /**
   * A failed seller call is refunded in full, but the loop assesses it as a success. It disputes the
   * full refund exactly when its rules would not have paid what the buyer's cap has over the gateway's
   * (nothing, under equal caps) or that difference is worth a dispute.
   */
  lemma FullRefundDisputedIff(c: Call, buyers: Mandate, config: Config)
    requires !c.success && Respond(c).Priced? && config.alwaysOnRefundMismatch
    ensures Respond(c).decision.payout == 0 && Respond(c).decision.refund == c.mandate.maxPrice
    ensures Respond(c).validationPassed <==> ValidationStands(c)
    ensures var rules := ComputePayout(buyers, c.latencyMs, true, ValidationStands(c)).payout;
            LoopDisputes(c, buyers, config) <==>
              rules != buyers.maxPrice - c.mandate.maxPrice || WorthDisputing(Excess(c, buyers), buyers.bond, config)
    ensures c.mandate.maxPrice == buyers.maxPrice ==>
              (LoopDisputes(c, buyers, config) <==>
                 ValidationStands(c) && ComputePayout(buyers, c.latencyMs, true, true).payout != 0)
  {
    LoopDisputesIff(c, buyers, config);
  }

  /**
   * An untagged call in a failing mode, judged by a model, earns nothing whatever the model wrote, and
   * so passes every check of the buyer, the one on invalid mode included, exactly under equal caps.
   */
  lemma FailingModeUnpaid(c: Call, buyers: Mandate, mode: string, delayMs: int)
    requires NonNegativeTerms(c.mandate) && c.reply.SlaReply? && Respond(c).Priced?
    requires mode in ["invalid", "error", "timeout"] && c.scenario == ScenarioOf("", mode, delayMs)
    ensures var d := Respond(c).decision;
            && d.payout == 0
            && (Accepts(d.payout, d.refund, buyers.maxPrice, mode == "invalid") <==>
                  c.mandate.maxPrice == buyers.maxPrice)
  {
    ScenarioPayouts(c);
    GatewayAnswerAcceptedIff(c, buyers, mode == "invalid");
  }

  // ----- the differences occur

  /** The gateway's mandate for calls that name none. */
  const DEFAULT_MANDATE :=
    Mandate(100_000, 60_000, LatencyTiers([Tier(2000, 100_000), Tier(5000, 80_000), Tier(999_999_999, 60_000)]), 0)

  const DEFAULT_CONFIG := Config(Buyer, 10_000, 0.25, true)

  /** A fast call that met no model, as the gateway's default prices it. */
  const DEFAULT_CALL := Call(DEFAULT_MANDATE, 1000, true, [JsonSchema(true)], Auto, Unavailable)

  lemma DefaultPrices()
    ensures NonNegativeTerms(DEFAULT_CALL.mandate) && DEFAULT_CALL.mandate.maxPrice == 100_000
    ensures ComputePayout(DEFAULT_MANDATE, 1000, true, true).payout == 100_000
    ensures Respond(DEFAULT_CALL).Priced? && Respond(DEFAULT_CALL).decision.payout == 100_000
  {
    PayingTierIsChosen(DEFAULT_MANDATE.rules.tiers, 1000, 0);
  }

  /**
   * A buyer that agreed on 80000 with a seller whose mandate was not registered refuses and disputes
   * the honest 100000 of the gateway's default, whatever else its own mandate says.
   */
  lemma UnregisteredMandateDisputed(buyers: Mandate)
    requires buyers.maxPrice == 80_000 && buyers.bond == 50_000
    ensures var d := Respond(DEFAULT_CALL).decision;
            && d.payout == 100_000
            && !Accepts(d.payout, d.refund, buyers.maxPrice, false)
            && LoopDisputes(DEFAULT_CALL, buyers, DEFAULT_CONFIG)
  {
    DefaultPrices();
    ExcessIsWorthIt();
    WorthyExcessDisputed(DEFAULT_CALL, buyers, DEFAULT_CONFIG);
  }

  /** A worthwhile excess of the caps is refused and disputed whatever was paid. */
  lemma WorthyExcessDisputed(c: Call, buyers: Mandate, config: Config)
    requires NonNegativeTerms(c.mandate) && Respond(c).Priced? && config.alwaysOnRefundMismatch
    requires WorthDisputing(Excess(c, buyers), buyers.bond, config)
    ensures var d := Respond(c).decision;
            !Accepts(d.payout, d.refund, buyers.maxPrice, false) && LoopDisputes(c, buyers, config)
  {
    GatewayAnswerAcceptedIff(c, buyers, false);
    LoopDisputesIff(c, buyers, config);
  }

  lemma ExcessIsWorthIt()
    ensures WorthDisputing(20_000, 50_000, DEFAULT_CONFIG)
  {
    assert 20_000 as real / 50_000 as real * 10000.0 == 4000.0;
  }

  /** A failed call under the default terms on both sides, whatever the bond: refunded in full, and disputed. */
  lemma FullRefundDisputed(bond: int)
    ensures var c := DEFAULT_CALL.(success := false);
            Respond(c).decision.refund == 100_000
            && LoopDisputes(c, DEFAULT_MANDATE.(bond := bond), DEFAULT_CONFIG)
  {
    DefaultPrices();
    var buyers := DEFAULT_MANDATE.(bond := bond);
    assert ComputePayout(buyers, 1000, true, true) == ComputePayout(DEFAULT_MANDATE, 1000, true, true);
    FullRefundDisputedIff(DEFAULT_CALL.(success := false), buyers, DEFAULT_CONFIG);
  }

  // ----- the assessment in full

  /** Gain ratios are compared to the nearest ten-thousandth. */
  lemma RatioIsRounded(x: real)
    ensures -0.00005 <= Round4(x) - x <= 0.00005
    ensures exists k: int :: Round4(x) == TenThousandths(k)
  {
    var k := RoundHalfEven(x * 10000.0);
    assert Round4(x) == TenThousandths(k);
    assert -0.5 <= k as real - x * 10000.0 <= 0.5;
  }

  function TenThousandths(k: int): real {
    k as real / 10000.0
  }

  /**
   * A dispute follows exactly from a gain for the own role that passes every threshold, or from a refund
   * other than the rules' when that alone suffices.
   */
  lemma DisputeIff(m: Mandate, payout: int, refund: int, latencyMs: int, validationPassed: bool, success: bool,
                   config: Config)
    ensures var rules := ComputePayout(m, latencyMs, success, validationPassed);
            Assess(m, payout, refund, latencyMs, validationPassed, success, config).shouldDispute <==>
              || WorthDisputing(payout - rules.payout, m.bond, config)
              || (config.alwaysOnRefundMismatch && refund != m.maxPrice - rules.payout)
  {
    ComputePayoutConserves(m, latencyMs, success, validationPassed);
  }

  /** The figures and reasons it reports. */
  lemma AssessmentReport(m: Mandate, payout: int, refund: int, latencyMs: int, validationPassed: bool, success: bool,
                         config: Config)
    ensures var rules := ComputePayout(m, latencyMs, success, validationPassed);
            var a := Assess(m, payout, refund, latencyMs, validationPassed, success, config);
            var over := if config.role.Buyer? then payout - rules.payout else rules.payout - payout;
            && a.expectedPayout == rules.payout && a.expectedRefund == rules.refund
            && a.expectedGain == (if over > 0 then over else 0)
            && (a.gainToBond.None? <==> m.bond <= 0)
            && (OverpaidSeller in a.reasons <==> over > 0 && config.role.Buyer?)
            && (UnderpaidSeller in a.reasons <==> over > 0 && config.role.Seller?)
            && (GainBelowThreshold in a.reasons <==> 0 < over < config.minExpectedGain)
            && (RefundMismatch in a.reasons <==> refund != rules.refund)
            && (RatioBelowThreshold in a.reasons <==>
                  over > 0 && m.bond > 0 && Round4(over as real / m.bond as real) < config.minGainToBond)
  {
  }
}
