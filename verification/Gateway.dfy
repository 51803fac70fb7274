/** The decision inside `call_endpoint` of gateway/app/main.py: validators, rules, then the model's overlay. */
module Gateway {
  import opened Base
  import opened Pricing
  import opened LlmPolicy

  /** A configured validator, with the outcome the seller's body gives it. */
  datatype Validator = JsonSchema(passes: bool) | OtherValidator

  datatype Call = Call(
    mandate: Mandate,
    latencyMs: int,
    success: bool,
    validators: seq<Validator>,
    scenario: Scenario,
    reply: SlaReply)

  /** The scenario of a request: its tag, or, untagged, one derived from the mode and delay. */
  function ScenarioOf(tag: string, mode: string, delayMs: int): Scenario {
    if tag == "" then
      if mode in ["invalid", "error", "timeout"] then Breaches
      else if mode == "slow" || delayMs >= 3000 then Slow
      else Happy
    else if tag == "happy" then Happy
    else if tag == "slow" then Slow
    else if tag == "breaches" then Breaches
    else Auto
  }

  datatype Response = Priced(validationPassed: bool, decision: Decision) | ServerError

  // ----- specification

  /** Validators only run on a successful call, so a failed one counts as passing. */
  predicate SchemaPass(success: bool, validators: seq<Validator>) {
    success ==> JsonSchema(false) !in validators
  }

  /** The decision once the schema verdict and the judgement are known. */
  function Overlay(m: Mandate, latencyMs: int, success: bool, schemaPass: bool, j: Judgement): Response {
    match j
    case JudgementRaised => ServerError
    case NoJudgement => Priced(schemaPass, ComputePayout(m, latencyMs, success, schemaPass))
    case Judged(slaPass, payout) =>
      var pass := schemaPass && slaPass;
      var rules := ComputePayout(m, latencyMs, success, pass);
      if payout.None? || !success || !pass then Priced(pass, rules)
      else
        var bounded := Clamp(payout.value, 0, m.maxPrice);
        if bounded == rules.payout then Priced(pass, rules)
        else
          var breaches := if bounded < m.maxPrice && BreachLlmNegotiatedDown !in rules.breaches
                          then rules.breaches + [BreachLlmNegotiatedDown] else rules.breaches;
          Priced(pass, Decision(m.maxPrice, bounded, m.maxPrice - bounded, LlmNegotiated, breaches))
  }

  function Respond(c: Call): Response {
    var schemaPass := SchemaPass(c.success, c.validators);
    Overlay(c.mandate, c.latencyMs, c.success, schemaPass,
            Judge(c.mandate, c.success, schemaPass, c.scenario, c.reply))
  }

  // ----- the code

  /** `call_endpoint` from the seller's answer to the final pricing decision. */
  method CallEndpoint(c: Call) returns (r: Response)
    ensures r == Respond(c)
  {
    var overallPass := true;
    if c.success {
      for i := 0 to |c.validators|
        invariant overallPass <==> JsonSchema(false) !in c.validators[..i]
      {
        assert c.validators[..i + 1] == c.validators[..i] + [c.validators[i]];
        if c.validators[i].JsonSchema? && !c.validators[i].passes {
          overallPass := false;
        }
      }
      assert c.validators[..|c.validators|] == c.validators;
    }
    var decision := ComputePayout(c.mandate, c.latencyMs, c.success, overallPass);
    var judgement := EvaluateSla(c.mandate, c.success, overallPass, c.scenario, c.reply);
    if judgement.JudgementRaised? {
      return ServerError;
    }
    if judgement.Judged? {
      if !judgement.slaPass && overallPass {
        overallPass := false;
        decision := ComputePayout(c.mandate, c.latencyMs, c.success, false);
      }
      if judgement.payout.Some? && c.success && overallPass {
        var bounded := Clamp(judgement.payout.value, 0, decision.maxPrice);
        if bounded != decision.payout {
          var breaches := decision.breaches;
          if bounded < decision.maxPrice && BreachLlmNegotiatedDown !in breaches {
            breaches := breaches + [BreachLlmNegotiatedDown];
          }
          decision := Decision(decision.maxPrice, bounded, decision.maxPrice - bounded, LlmNegotiated, breaches);
        }
      }
    }
    r := Priced(overallPass, decision);
  }

  // ----- properties

  /** Whatever the model wrote: the money is conserved, bounded, and a failed call earns nothing. */
  lemma DecisionSafe(c: Call)
    requires NonNegativeTerms(c.mandate) && Respond(c).Priced?
    ensures var d := Respond(c).decision;
            && d.maxPrice == c.mandate.maxPrice
            && d.payout + d.refund == c.mandate.maxPrice
            && 0 <= d.payout <= c.mandate.maxPrice
            && (!c.success ==> d.payout == 0)
            && (c.success && JsonSchema(false) in c.validators ==> d.payout == 0)
            && (!Respond(c).validationPassed ==> d.payout == 0)
  {
    PayoutBounds(c.mandate, c.latencyMs, c.success, true);
  }

  /** A model that says the SLA failed zeroes the payout, unless a scenario guardrail overrules it. */
  lemma ModelRejectionZeroes(c: Call)
    requires c.reply.SlaReply? && c.reply.slaPass == Some(false) && Respond(c).Priced?
    ensures Respond(c).decision.payout == 0
         || (c.scenario in {Happy, Slow} && c.success && JsonSchema(false) !in c.validators)
  {
  }

  /** Breach scenarios never pay; the other two pay what their guardrail promises. */
  lemma ScenarioPayouts(c: Call)
    requires NonNegativeTerms(c.mandate) && c.reply.SlaReply? && Respond(c).Priced?
    ensures c.scenario == Breaches ==> Respond(c).decision.payout == 0 && !Respond(c).validationPassed
    ensures c.scenario == Happy && c.success && JsonSchema(false) !in c.validators ==>
              Respond(c).decision.payout == c.mandate.maxPrice && Respond(c).validationPassed
    ensures c.scenario == Slow && c.success && JsonSchema(false) !in c.validators
            && c.mandate.basePay < c.mandate.maxPrice ==>
              c.mandate.basePay <= Respond(c).decision.payout <= c.mandate.maxPrice - 1
  {
  }

  /** Fail-open: with no usable model the deterministic rules stand alone. */
  lemma WithoutModelRulesDecide(c: Call)
    requires c.reply.Unavailable?
    ensures Respond(c) == Priced(SchemaPass(c.success, c.validators),
              ComputePayout(c.mandate, c.latencyMs, c.success, SchemaPass(c.success, c.validators)))
  {
  }

  /** When the answer counts as validated, for every call. */
  lemma ValidationPassedIff(c: Call)
    requires Respond(c).Priced?
    ensures var checks := !c.success || JsonSchema(false) !in c.validators;
            Respond(c).validationPassed <==>
              && checks
              && (|| c.reply.Unavailable?
                  || (!c.scenario.Auto? && !c.scenario.Breaches? && c.success)
                  || (!c.scenario.Breaches? && (if c.reply.slaPass.Some? then c.reply.slaPass.value else c.success)))
  {
  }

  /** The endpoint fails exactly when reading the model's numbers raises. */
  lemma ServerErrorIff(c: Call)
    ensures Respond(c).ServerError? <==>
              c.reply.SlaReply? && (c.reply.recommended.NonFinite? || c.reply.confidenceOverflows)
  {
  }

  /**
   * In the free scenario a good call that the model does not reject is paid what the model recommends,
   * cut to the mandate's bounds, and what the rules say if it recommends no number.
   */
  lemma RecommendationPaid(c: Call, asked: int)
    requires NonNegativeTerms(c.mandate) && c.scenario.Auto? && c.success && JsonSchema(false) !in c.validators
    requires Respond(c).Priced? && c.reply.SlaReply? && c.reply.slaPass != Some(false)
    ensures ReadsAs(c.reply.recommended, asked) ==> Nearest(0, c.mandate.maxPrice, asked, Respond(c).decision.payout)
    ensures c.reply.recommended.NotANumber? ==>
              Respond(c).decision == ComputePayout(c.mandate, c.latencyMs, true, true)
  {
    AutoRecommendation(c.mandate, true, true, c.reply, asked);
  }

  /** A payout that is not the rules' is marked as negotiated, keeps their breaches, and is flagged if not in full. */
  lemma NegotiatedMarks(c: Call)
    requires Respond(c).Priced?
    ensures var r := Respond(c);
            var rules := ComputePayout(c.mandate, c.latencyMs, c.success, r.validationPassed);
            && (r.decision.payout == rules.payout ==> r.decision == rules)
            && (r.decision.payout != rules.payout ==>
                  && r.decision.rule == LlmNegotiated
                  && (forall b :: b in rules.breaches ==> b in r.decision.breaches)
                  && (BreachLlmNegotiatedDown in r.decision.breaches <==> r.decision.payout < c.mandate.maxPrice))
  {
  }

  /** The scenario of an untagged request, at its boundaries; a tag of another name is no scenario. */
  lemma ScenarioBoundaries(mode: string, delayMs: int)
    requires mode !in ["invalid", "error", "timeout"]
    ensures ScenarioOf("", mode, delayMs) == if mode == "slow" || delayMs > 2999 then Slow else Happy
    ensures ScenarioOf("happy", "slow", 5000) == Happy && ScenarioOf("slow", "fast", 0) == Slow
    ensures ScenarioOf("breaches", "fast", 0) == Breaches && ScenarioOf("autonomous", "invalid", 5000) == Auto
  {
  }
}
