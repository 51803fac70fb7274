/**
 * gateway/app/llm_policy.py after the model call: whatever the language model wrote, normalised.
 * The model's reply is an arbitrary value; a reply that cannot be obtained is `Unavailable`.
 */
module LlmPolicy {
  import opened Base
  import opened Sorting
  import opened Pricing

  datatype Scenario = Happy | Slow | Breaches | Auto

  /** A JSON value read as a number; a non-finite float makes Python's `int` raise. */
  datatype RawNumber = NotANumber | Whole(i: int) | Fraction(r: real) | NonFinite

  /** Python's `int` on a float: towards zero. */
  function Truncate(r: real): int {
    if r >= 0.0 then r.Floor else -((-r).Floor)
  }

  /** The confidence reaches no decision, but an integer beyond the range of a float raises. */
  datatype SlaReply = Unavailable | SlaReply(slaPass: Option<bool>, recommended: RawNumber, confidenceOverflows: bool)

  datatype Judgement = NoJudgement | Judged(slaPass: bool, payout: Option<int>) | JudgementRaised

  // ----- SLA judgement

  /** The judgement as a table over scenarios. */
  function Judge(m: Mandate, success: bool, schemaPass: bool, scenario: Scenario, reply: SlaReply): Judgement {
    match reply
    case Unavailable => NoJudgement
    case SlaReply(slaPass, recommended, confidenceOverflows) =>
      if recommended.NonFinite? || confidenceOverflows then JudgementRaised
      else
        var asked := match recommended
          case NotANumber => None
          case Whole(i) => Some(Clamp(i, 0, m.maxPrice))
          case Fraction(r) => Some(Clamp(Truncate(r), 0, m.maxPrice))
          case NonFinite => None;
        if scenario.Breaches? then Judged(false, Some(0))
        else if scenario.Happy? && success && schemaPass then
          Judged(true, Some(if asked.None? then m.maxPrice else Max(0, m.maxPrice)))
        else if scenario.Slow? && success && schemaPass then
          var floor := Max(0, Min(m.basePay, m.maxPrice));
          var ceil := Max(floor, m.maxPrice - 1);
          Judged(true, Some(if asked.None? then ceil else Clamp(asked.value, floor, ceil)))
        else
          Judged(if slaPass.None? then schemaPass && success else slaPass.value, asked)
  }

  /** `evaluate_sla_with_gemini`, reassigning its locals as the source does. */
  method EvaluateSla(m: Mandate, success: bool, schemaPass: bool, scenario: Scenario, reply: SlaReply)
    returns (j: Judgement)
    ensures j == Judge(m, success, schemaPass, scenario, reply)
  {
    if reply.Unavailable? {
      return NoJudgement;
    }
    var slaPass := if reply.slaPass.Some? then reply.slaPass.value else schemaPass && success;
    var payout: Option<int> := None;
    match reply.recommended {
      case NotANumber =>
      case Whole(i) => payout := Some(Clamp(i, 0, m.maxPrice));
      case Fraction(r) => payout := Some(Clamp(Truncate(r), 0, m.maxPrice));
      case NonFinite => return JudgementRaised;
    }
    if reply.confidenceOverflows {
      return JudgementRaised;
    }
    if scenario == Breaches {
      slaPass, payout := false, Some(0);
    } else if scenario == Happy && success && schemaPass {
      slaPass := true;
      payout := if payout.None? then Some(m.maxPrice)
                else Some(Clamp(Max(payout.value, m.maxPrice), 0, m.maxPrice));
    } else if scenario == Slow && success && schemaPass {
      slaPass := true;
      var floor := Max(0, Min(m.basePay, m.maxPrice));
      var ceil := Max(floor, m.maxPrice - 1);
      if payout.None? {
        payout := Some(ceil);
      }
      payout := Some(Clamp(payout.value, floor, ceil));
    }
    j := Judged(slaPass, payout);
  }

  /**
   * The written policy wants a slow call to be paid strictly less than the maximum. The guardrail
   * achieves that for every reply exactly when the base pay leaves room below a positive maximum.
   */
  lemma SlowIsDegradedIff(m: Mandate)
    requires m.maxPrice >= 0
    ensures (forall reply: SlaReply :: var j := Judge(m, true, true, Slow, reply);
               j.Judged? ==> j.payout.Some? && j.payout.value < m.maxPrice)
       <==> 0 < m.maxPrice && m.basePay < m.maxPrice
  {
    var witnessReply := SlaReply(None, NotANumber, false);
    assert Judge(m, true, true, Slow, witnessReply).Judged?;
  }

  // ----- mandate negotiation

  /** A counter-term: falsy or missing, a value `int` accepts, or one it raises on. */
  datatype RawTerm = Absent | Given(i: int) | Unreadable

  /** An entry of the suggested tier list: one `int` reads twice, or one the loop skips. */
  datatype RawTier = Readable(lteMs: int, payout: int) | Skipped

  /** The suggested tiers: missing, something the loop cannot run over, or its entries. */
  datatype RawTiers = NoTiers | NotIterable | Listed(entries: seq<RawTier>)

  datatype Counter = Counter(maxPrice: RawTerm, basePay: RawTerm, tiers: RawTiers)

  datatype Suggestion = Suggested(terms: Mandate) | SuggestionRaised

  const LAST_TIER_MS := 999_999_999

  /** `int(k / 10 * v)` for a non-negative amount, in exact arithmetic. */
  function Tenths(k: nat, v: nat): nat {
    k * v / 10
  }

  lemma TenthsBounds(j: nat, k: nat, v: nat)
    requires j <= k <= 10
    ensures Tenths(j, v) <= Tenths(k, v) <= v
  {
    assert j * v <= k * v <= 10 * v;
  }

  function SuggestedMax(m: Mandate, c: Counter): nat
    requires !c.maxPrice.Unreadable?
  {
    Max(0, if c.maxPrice.Given? then c.maxPrice.i else m.maxPrice)
  }

  function SuggestedBase(m: Mandate, c: Counter, scenario: Scenario): int
    requires !c.maxPrice.Unreadable? && !c.basePay.Unreadable?
  {
    var max := SuggestedMax(m, c);
    var raw := if c.basePay.Given? then c.basePay.i else m.basePay;
    var base := Clamp(raw, 0, if max > 0 then max else raw);
    match scenario
    case Breaches => Clamp(Tenths(6, Max(0, base)), 0, max)
    case Slow => Clamp(Max(base, Tenths(7, max)), 0, max)
    case Happy => Clamp(Max(base, max), 0, max)
    case Auto => base
  }

  function ReadTiers(raw: seq<RawTier>, max: nat): (r: seq<Tier>)
    ensures forall t :: t in r ==> 0 <= t.payout <= max
  {
    if raw == [] then []
    else
      var rest := ReadTiers(raw[..|raw| - 1], max);
      match raw[|raw| - 1]
      case Readable(lteMs, payout) => rest + [Tier(lteMs, Clamp(payout, 0, max))]
      case Skipped => rest
  }

  function ScenarioTiers(scenario: Scenario, max: nat, base: int, read: seq<Tier>): seq<Tier> {
    match scenario
    case Happy => [
      Tier(2000, max),
      Tier(5000, Max(base, Tenths(9, max))),
      Tier(LAST_TIER_MS, Max(base, Tenths(8, max)))]
    case Slow => [
      Tier(2000, Max(base, Tenths(9, max))),
      Tier(5000, Max(base, Tenths(8, max))),
      Tier(LAST_TIER_MS, Max(base, Tenths(7, max)))]
    case Breaches => [
      Tier(2000, Tenths(7, max)),
      Tier(5000, Tenths(5, max)),
      Tier(LAST_TIER_MS, Tenths(3, max))]
    case Auto =>
      if read == [] then [Tier(LAST_TIER_MS, base)] else Sort(read, TierLeq)
  }

  /** The mandate's own tiers, of whatever rule type, stand in when the model names none. */
  function OfferedTiers(m: Mandate, c: Counter): seq<RawTier>
    requires !c.tiers.NotIterable?
  {
    if c.tiers.Listed? then c.tiers.entries
    else
      var own := m.rules.tiers;
      seq(|own|, i requires 0 <= i < |own| => Readable(own[i].lteMs, own[i].payout))
  }

  function Suggest(m: Mandate, c: Counter, scenario: Scenario): Suggestion {
    if c.maxPrice.Unreadable? || c.basePay.Unreadable? || c.tiers.NotIterable? then SuggestionRaised
    else
      var max := SuggestedMax(m, c);
      var base := SuggestedBase(m, c, scenario);
      var read := ReadTiers(OfferedTiers(m, c), max);
      Suggested(Mandate(max, base, LatencyTiers(ScenarioTiers(scenario, max, base, read)), m.bond))
  }

  /** `suggest_mandate_with_gemini`: clamp, read the tiers in a loop, then override by scenario. */
  method SuggestMandate(m: Mandate, c: Counter, scenario: Scenario) returns (s: Suggestion)
    ensures s == Suggest(m, c, scenario)
  {
    if c.maxPrice.Unreadable? || c.basePay.Unreadable? {
      return SuggestionRaised;
    }
    var max := if c.maxPrice.Given? then c.maxPrice.i else m.maxPrice;
    var base := if c.basePay.Given? then c.basePay.i else m.basePay;
    max := Max(0, max);
    base := Clamp(base, 0, if max > 0 then max else base);
    if scenario == Breaches {
      base := Clamp(Tenths(6, Max(0, base)), 0, max);
    } else if scenario == Slow {
      base := Clamp(Max(base, Tenths(7, max)), 0, max);
    } else if scenario == Happy {
      base := Clamp(Max(base, max), 0, max);
    }

    var normTiers: seq<Tier> := [];
    if c.tiers.NotIterable? {
      return SuggestionRaised;
    }
    var offered := OfferedTiers(m, c);
    for i := 0 to |offered|
      invariant normTiers == ReadTiers(offered[..i], max)
    {
      assert offered[..i + 1][..i] == offered[..i];
      match offered[i] {
        case Readable(lteMs, payout) => normTiers := normTiers + [Tier(lteMs, Clamp(payout, 0, max))];
        case Skipped =>
      }
    }
    assert offered[..|offered|] == offered;
    normTiers := if normTiers == [] then [Tier(LAST_TIER_MS, base)] else Sort(normTiers, TierLeq);
    if scenario != Auto {
      normTiers := ScenarioTiers(scenario, max, base, []);
    }
    s := Suggested(Mandate(max, base, LatencyTiers(normTiers), m.bond));
  }

  ghost predicate SoundTerms(t: Mandate) {
    && 0 <= t.basePay <= t.maxPrice
    && t.rules.LatencyTiers?
    && t.rules.tiers != []
    && Sorted(t.rules.tiers, TierLeq)
    && forall tier :: tier in t.rules.tiers ==> 0 <= tier.payout <= t.maxPrice
  }

  lemma ReadTiersSound(raw: seq<RawTier>, max: nat, base: int)
    requires 0 <= base <= max
    ensures var tiers := ScenarioTiers(Auto, max, base, ReadTiers(raw, max));
            && tiers != [] && Sorted(tiers, TierLeq)
            && forall tier :: tier in tiers ==> 0 <= tier.payout <= max
  {
    var read := ReadTiers(raw, max);
    SortSorts(read, TierLeq);
    SortKeepsElements(read, TierLeq);
  }

  lemma ScenarioTiersSound(scenario: Scenario, max: nat, base: int)
    requires !scenario.Auto? && 0 <= base <= max
    ensures var tiers := ScenarioTiers(scenario, max, base, []);
            && tiers != [] && Sorted(tiers, TierLeq)
            && forall tier :: tier in tiers ==> 0 <= tier.payout <= max
  {
    TenthsBounds(3, 5, max);
    TenthsBounds(7, 8, max);
    TenthsBounds(8, 9, max);
  }

  /** Every reply that normalises with a positive maximum yields sound terms, in every scenario. */
  lemma SuggestedTermsSound(m: Mandate, c: Counter, scenario: Scenario)
    requires Suggest(m, c, scenario).Suggested? && Suggest(m, c, scenario).terms.maxPrice > 0
    ensures SoundTerms(Suggest(m, c, scenario).terms)
  {
    var max, base := SuggestedMax(m, c), SuggestedBase(m, c, scenario);
    if scenario.Auto? {
      ReadTiersSound(OfferedTiers(m, c), max, base);
    } else {
      ScenarioTiersSound(scenario, max, base);
    }
  }

  /** Without a scenario, base can exceed maximum: exactly when the maximum is zero and the raw base positive. */
  lemma BaseWithinMaxIff(m: Mandate, c: Counter, scenario: Scenario)
    requires !c.maxPrice.Unreadable? && !c.basePay.Unreadable?
    ensures SuggestedBase(m, c, scenario) <= SuggestedMax(m, c)
       <==> !(scenario.Auto? && SuggestedMax(m, c) == 0 && (if c.basePay.Given? then c.basePay.i else m.basePay) > 0)
  {
    if !scenario.Auto? {
      assert forall v, hi: nat :: Clamp(v, 0, hi) <= hi;
    }
  }

  /** For example a suggested maximum of -1, read as 0, beside a suggested base of 5. */
  lemma BaseExceedsMax(m: Mandate)
    ensures var s := Suggest(m, Counter(Given(-1), Given(5), NoTiers), Auto);
            s.Suggested? && s.terms.maxPrice == 0 && s.terms.basePay == 5
  {
    assert SuggestedMax(m, Counter(Given(-1), Given(5), NoTiers)) == 0;
  }

  lemma ThreeTiersDegrade(max: nat, fast: int, medium: int, slow: int)
    requires fast >= medium >= slow
    ensures Degrading(max, [Tier(2000, fast), Tier(5000, medium), Tier(LAST_TIER_MS, slow)])
  {
  }

  lemma ScenarioTiersDegrade(scenario: Scenario, max: nat, base: int, read: seq<Tier>)
    requires !scenario.Auto? && 0 <= base <= max
    ensures Degrading(max, ScenarioTiers(scenario, max, base, read))
  {
    TenthsBounds(3, 5, max);
    TenthsBounds(5, 7, max);
    TenthsBounds(7, 8, max);
    TenthsBounds(8, 9, max);
    match scenario {
      case Happy => ThreeTiersDegrade(max, max, Max(base, Tenths(9, max)), Max(base, Tenths(8, max)));
      case Slow =>
        ThreeTiersDegrade(max, Max(base, Tenths(9, max)), Max(base, Tenths(8, max)), Max(base, Tenths(7, max)));
      case Breaches => ThreeTiersDegrade(max, Tenths(7, max), Tenths(5, max), Tenths(3, max));
      case Auto =>
    }
  }

  /** Pricing a call with suggested scenario terms: slower never earns more. */
  lemma SuggestedTermsDegrade(m: Mandate, c: Counter, scenario: Scenario, x: int, y: int)
    requires !scenario.Auto? && x <= y
    requires Suggest(m, c, scenario).Suggested? && Suggest(m, c, scenario).terms.maxPrice > 0
    ensures var t := Suggest(m, c, scenario).terms;
            ComputePayout(t, y, true, true).payout <= ComputePayout(t, x, true, true).payout
  {
    var t := Suggest(m, c, scenario).terms;
    SuggestedTermsSound(m, c, scenario);
    ScenarioTiersDegrade(scenario, t.maxPrice, t.basePay, ReadTiers(OfferedTiers(m, c), t.maxPrice));
    SlowerNeverPaysMore(t.maxPrice, t.rules.tiers, x, y);
  }

  /** Slow terms never pay a passing call below the agreed base while some tier covers it. */
  lemma SlowTermsPayBase(m: Mandate, c: Counter, latencyMs: int)
    requires Suggest(m, c, Slow).Suggested? && Suggest(m, c, Slow).terms.maxPrice > 0
    requires latencyMs <= LAST_TIER_MS
    ensures var t := Suggest(m, c, Slow).terms;
            t.basePay <= ComputePayout(t, latencyMs, true, true).payout <= t.maxPrice
  {
    var t := Suggest(m, c, Slow).terms;
    SuggestedTermsSound(m, c, Slow);
    var chosen := LeastTier(Covering(t.rules.tiers, latencyMs));
    assert t.rules.tiers[2] in Covering(t.rules.tiers, latencyMs);
    assert chosen.value in t.rules.tiers;
    assert forall tier :: tier in t.rules.tiers ==> t.basePay <= tier.payout;
  }

  // ----- the reply is followed as far as the bounds let it

  /** `got` is the amount between the bounds that comes nearest to the one asked for. */
  predicate Nearest(lo: int, hi: int, asked: int, got: int) {
    got == if asked < lo then lo else if asked > hi then hi else asked
  }

  /** A recommendation as a whole number: fractions lose what is after the point. */
  ghost predicate ReadsAs(n: RawNumber, i: int) {
    match n
    case Whole(k) => i == k
    case Fraction(r) => if r >= 0.0 then i as real <= r < i as real + 1.0 else i as real - 1.0 < r <= i as real
    case _ => false
  }

  lemma TruncateReads(r: real)
    ensures ReadsAs(Fraction(r), Truncate(r))
  {
  }

  /** A reply is a judgement unless reading its numbers raises. */
  lemma JudgedIff(m: Mandate, success: bool, schemaPass: bool, scenario: Scenario, reply: SlaReply)
    ensures var j := Judge(m, success, schemaPass, scenario, reply);
            && (j.NoJudgement? <==> reply.Unavailable?)
            && (j.JudgementRaised? <==> reply.SlaReply? && (reply.recommended.NonFinite? || reply.confidenceOverflows))
  {
  }

  /** Outside the guarded scenarios the model's verdict stands, or the checks' if it gave none, ... */
  lemma VerdictFollowed(m: Mandate, success: bool, schemaPass: bool, scenario: Scenario, reply: SlaReply)
    requires Judge(m, success, schemaPass, scenario, reply).Judged?
    ensures Judge(m, success, schemaPass, scenario, reply).slaPass <==>
              if scenario.Breaches? then false
              else if !scenario.Auto? && success && schemaPass then true
              else if reply.slaPass.Some? then reply.slaPass.value
              else success && schemaPass
  {
  }

  /** ... and its recommendation, cut to what the mandate allows; no number is no recommendation. */
  lemma AutoRecommendation(m: Mandate, success: bool, schemaPass: bool, reply: SlaReply, asked: int)
    requires m.maxPrice >= 0 && Judge(m, success, schemaPass, Auto, reply).Judged?
    ensures var payout := Judge(m, success, schemaPass, Auto, reply).payout;
            && (payout.None? <==> reply.recommended.NotANumber?)
            && (ReadsAs(reply.recommended, asked) ==> payout.Some? && Nearest(0, m.maxPrice, asked, payout.value))
  {
  }

  /** A slow call is paid what the model recommends between the base pay and one below the maximum, or the latter. */
  lemma SlowRecommendation(m: Mandate, reply: SlaReply, asked: int)
    requires 0 <= m.basePay < m.maxPrice && Judge(m, true, true, Slow, reply).Judged?
    ensures var payout := Judge(m, true, true, Slow, reply).payout;
            && payout.Some?
            && (reply.recommended.NotANumber? ==> payout.value == m.maxPrice - 1)
            && (ReadsAs(reply.recommended, asked) ==> Nearest(m.basePay, m.maxPrice - 1, asked, payout.value))
  {
  }

  // ----- the suggested terms, amount by amount

  /** `x` is k tenths of `v`, rounded down. */
  predicate IsTenths(x: int, k: nat, v: nat) {
    10 * x <= k * v < 10 * (x + 1)
  }

  lemma TenthsRoundDown(k: nat, v: nat)
    ensures IsTenths(Tenths(k, v), k, v)
  {
  }

  /** The suggested maximum is the model's, or the mandate's if it gave none, and 0 at least. */
  lemma SuggestedMaxMeaning(m: Mandate, c: Counter, scenario: Scenario)
    requires Suggest(m, c, scenario).Suggested?
    ensures var asked := if c.maxPrice.Given? then c.maxPrice.i else m.maxPrice;
            Suggest(m, c, scenario).terms.maxPrice == if asked < 0 then 0 else asked
  {
  }

  /**
   * The suggested base, under a positive maximum: the model's or the mandate's between 0 and the maximum;
   * six tenths of that for breaches, at least seven tenths of the maximum for slow, all of it for happy.
   */
  lemma SuggestedBaseMeaning(m: Mandate, c: Counter, scenario: Scenario, base: int)
    requires Suggest(m, c, scenario).Suggested? && Suggest(m, c, scenario).terms.maxPrice > 0
    requires var asked := if c.basePay.Given? then c.basePay.i else m.basePay;
             Nearest(0, Suggest(m, c, scenario).terms.maxPrice, asked, base)
    ensures var t := Suggest(m, c, scenario).terms;
            match scenario
            case Auto => t.basePay == base
            case Happy => t.basePay == t.maxPrice
            case Breaches => IsTenths(t.basePay, 6, base)
            case Slow => t.basePay >= base && (t.basePay == base || IsTenths(t.basePay, 7, t.maxPrice))
                         && 10 * (t.basePay + 1) > 7 * t.maxPrice
  {
    ScenarioBase(SuggestedMax(m, c), base);
  }

  lemma ScenarioBase(max: nat, base: nat)
    requires base <= max
    ensures Clamp(Tenths(6, base), 0, max) == Tenths(6, base) && IsTenths(Tenths(6, base), 6, base)
    ensures Clamp(Max(base, Tenths(7, max)), 0, max) == Max(base, Tenths(7, max)) && IsTenths(Tenths(7, max), 7, max)
  {
    TenthsRoundDown(6, base);
    TenthsRoundDown(7, max);
    TenthsBounds(6, 10, base);
    TenthsBounds(7, 10, max);
  }

  /** A scenario's tiers: three thresholds, and for each a share of the maximum in tenths, raised to the base or not. */
  ghost predicate TierTable(t: Mandate, fast: nat, medium: nat, slow: nat, raised: bool) {
    && t.rules.LatencyTiers? && |t.rules.tiers| == 3
    && t.rules.tiers[0].lteMs == 2000 && t.rules.tiers[1].lteMs == 5000 && t.rules.tiers[2].lteMs == 999_999_999
    && t.maxPrice >= 0
    && Share(t, t.rules.tiers[0].payout, fast, raised)
    && Share(t, t.rules.tiers[1].payout, medium, raised)
    && Share(t, t.rules.tiers[2].payout, slow, raised)
  }

  ghost predicate Share(t: Mandate, payout: int, tenths: nat, raised: bool)
    requires t.maxPrice >= 0
  {
    if raised && 10 * t.basePay > tenths * t.maxPrice then payout == t.basePay else IsTenths(payout, tenths, t.maxPrice)
  }

  lemma SuggestedTiersMeaning(m: Mandate, c: Counter, scenario: Scenario)
    requires !scenario.Auto? && Suggest(m, c, scenario).Suggested? && Suggest(m, c, scenario).terms.maxPrice > 0
    ensures var t := Suggest(m, c, scenario).terms;
            match scenario
            case Happy => TierTable(t, 10, 9, 8, true)
            case Slow => TierTable(t, 9, 8, 7, true)
            case Breaches => TierTable(t, 7, 5, 3, false)
            case Auto => true
  {
    var max, base := SuggestedMax(m, c), SuggestedBase(m, c, scenario);
    RaisedShare(9, max, base);
    RaisedShare(8, max, base);
    RaisedShare(7, max, base);
    TenthsRoundDown(5, max);
    TenthsRoundDown(3, max);
  }

  lemma RaisedShare(k: nat, max: nat, base: int)
    ensures IsTenths(Tenths(k, max), k, max)
    ensures Max(base, Tenths(k, max)) == if 10 * base > k * max then base else Tenths(k, max)
  {
    TenthsRoundDown(k, max);
  }

  /** Without a scenario: the readable tiers, cut to the maximum and sorted, or one tier with the base if none is. */
  lemma SuggestedAutoTiers(m: Mandate, c: Counter, entries: seq<RawTier>)
    requires c.tiers == Listed(entries) && Suggest(m, c, Auto).Suggested?
    ensures var t := Suggest(m, c, Auto).terms;
            && t.rules.LatencyTiers?
            && (if forall e :: e in entries ==> e.Skipped? then t.rules.tiers == [Tier(999_999_999, t.basePay)]
                else |t.rules.tiers| == ReadableCount(entries)
                     && forall tier :: tier in t.rules.tiers <==>
                          exists e :: e in entries && e.Readable? && e.lteMs == tier.lteMs
                                      && Nearest(0, t.maxPrice, e.payout, tier.payout))
  {
    var max := SuggestedMax(m, c);
    ReadTiersMembers(entries, max);
    SortKeepsElements(ReadTiers(entries, max), TierLeq);
  }

  function ReadableCount(entries: seq<RawTier>): nat {
    |Filter(entries, (e: RawTier) => e.Readable?)|
  }

  ghost predicate ReadFrom(e: RawTier, max: nat, tier: Tier) {
    e.Readable? && e.lteMs == tier.lteMs && Nearest(0, max, e.payout, tier.payout)
  }

  lemma {:induction false} ReadTiersMembers(entries: seq<RawTier>, max: nat)
    ensures |ReadTiers(entries, max)| == ReadableCount(entries)
    ensures ReadTiers(entries, max) == [] <==> forall e :: e in entries ==> e.Skipped?
    ensures forall tier :: tier in ReadTiers(entries, max) <==> exists e :: e in entries && ReadFrom(e, max, tier)
  {
    if entries != [] {
      var front, last := entries[..|entries| - 1], entries[|entries| - 1];
      ReadTiersMembers(front, max);
      assert entries == front + [last];
      FilterAppend(front, [last], (e: RawTier) => e.Readable?);
      assert forall e :: e in entries <==> e in front || e == last;
      assert last.Readable? ==> ReadFrom(last, max, Tier(last.lteMs, Clamp(last.payout, 0, max)));
    }
  }
}
