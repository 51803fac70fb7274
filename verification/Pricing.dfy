/** The pricing engine of gateway/app/pricing.py: what a measured call pays. */
module Pricing {
  import opened Base
  import opened Sorting

  datatype Tier = Tier(lteMs: int, payout: int)

  /** `bonus_rules`: latency tiers, or any other (or no) rule type, beside which tiers may still be written. */
  datatype BonusRules = LatencyTiers(tiers: seq<Tier>) | OtherRules(tiers: seq<Tier>)

  datatype Mandate = Mandate(maxPrice: int, basePay: int, rules: BonusRules, bond: int)

  datatype Rule =
    | UpstreamError
    | ValidationFailed
    | BasePayOnly
    | LatencyTier(lteMs: int)
    | NoTierMatched
    | LlmNegotiated

  datatype Breach = BreachUpstreamError | BreachSchemaFail | BreachTierDown | BreachLlmNegotiatedDown

  datatype Decision = Decision(maxPrice: int, payout: int, refund: int, rule: Rule, breaches: seq<Breach>)

  predicate TierLeq(a: Tier, b: Tier) {
    a.lteMs <= b.lteMs
  }

  // ----- the declarative meaning

  /** The tier with the least threshold, the first one written among equals. */
  function LeastTier(tiers: seq<Tier>): (r: Option<Tier>)
    ensures r.None? <==> tiers == []
    ensures r.Some? ==> r.value in tiers && forall t :: t in tiers ==> r.value.lteMs <= t.lteMs
  {
    if tiers == [] then None
    else
      var rest := LeastTier(tiers[1..]);
      if rest.None? || tiers[0].lteMs <= rest.value.lteMs then Some(tiers[0]) else rest
  }

  function Covering(tiers: seq<Tier>, latencyMs: int): seq<Tier> {
    Filter(tiers, (t: Tier) => latencyMs <= t.lteMs)
  }

  /** The payout the best tier asks for; it is compared unclamped. */
  function BestPayout(maxPrice: int, tiers: seq<Tier>): int {
    match LeastTier(tiers)
    case None => maxPrice
    case Some(t) => t.payout
  }

  function Charge(maxPrice: int, chosen: Option<Tier>, bestPayout: int): Decision {
    match chosen
    case None => Decision(maxPrice, 0, maxPrice, NoTierMatched, [BreachTierDown])
    case Some(t) =>
      var payout := Min(t.payout, maxPrice);
      var breaches := if payout < bestPayout then [BreachTierDown] else [];
      Decision(maxPrice, payout, maxPrice - payout, LatencyTier(t.lteMs), breaches)
  }

  function TierDecision(maxPrice: int, tiers: seq<Tier>, latencyMs: int): Decision {
    Charge(maxPrice, LeastTier(Covering(tiers, latencyMs)), BestPayout(maxPrice, tiers))
  }

  // ----- the code: sort, then scan

  lemma {:induction false} InsertLeast(x: Tier, s: seq<Tier>)
    requires Sorted(s, TierLeq)
    ensures Insert(x, s, TierLeq)[0] == if s == [] || x.lteMs <= s[0].lteMs then x else s[0]
    ensures Sorted(Insert(x, s, TierLeq), TierLeq)
  {
    InsertKeepsSorted(x, s, TierLeq);
  }

  lemma {:induction false} SortedHeadIsLeast(tiers: seq<Tier>)
    requires tiers != []
    ensures Sort(tiers, TierLeq) != []
    ensures Some(Sort(tiers, TierLeq)[0]) == LeastTier(tiers)
  {
    SortSorts(tiers[1..], TierLeq);
    if |tiers| > 1 {
      SortedHeadIsLeast(tiers[1..]);
    }
    InsertLeast(tiers[0], Sort(tiers[1..], TierLeq));
  }

  /** Covering tiers keep their order under the stable sort. */
  lemma {:induction false} FilterInsert(x: Tier, s: seq<Tier>, latencyMs: int)
    requires Sorted(s, TierLeq)
    ensures Covering(Insert(x, s, TierLeq), latencyMs)
         == if latencyMs <= x.lteMs then Insert(x, Covering(s, latencyMs), TierLeq) else Covering(s, latencyMs)
  {
    if s != [] {
      if TierLeq(x, s[0]) {
        assert ([x] + s)[1..] == s;
        if latencyMs <= x.lteMs {
          assert latencyMs <= s[0].lteMs;
        }
      } else {
        FilterInsert(x, s[1..], latencyMs);
        var rest := Insert(x, s[1..], TierLeq);
        assert ([s[0]] + rest)[1..] == rest;
        if latencyMs <= s[0].lteMs {
          assert ([s[0]] + Covering(s[1..], latencyMs))[1..] == Covering(s[1..], latencyMs);
        } else if latencyMs <= x.lteMs {
          assert Covering(s, latencyMs) == Covering(s[1..], latencyMs);
        }
      }
    }
  }

  lemma {:induction false} SortThenFilter(tiers: seq<Tier>, latencyMs: int)
    ensures Covering(Sort(tiers, TierLeq), latencyMs) == Sort(Covering(tiers, latencyMs), TierLeq)
  {
    if tiers != [] {
      SortSorts(tiers[1..], TierLeq);
      SortThenFilter(tiers[1..], latencyMs);
      FilterInsert(tiers[0], Sort(tiers[1..], TierLeq), latencyMs);
      if latencyMs <= tiers[0].lteMs {
        var c := Covering(tiers, latencyMs);
        assert c[1..] == Covering(tiers[1..], latencyMs);
      }
    }
  }

  /** The scan: the first tier that covers the latency. */
  function FirstCovering(tiers: seq<Tier>, latencyMs: int): Option<Tier> {
    if tiers == [] then None
    else if latencyMs <= tiers[0].lteMs then Some(tiers[0])
    else FirstCovering(tiers[1..], latencyMs)
  }

  lemma {:induction false} ScanIsHead(tiers: seq<Tier>, latencyMs: int)
    ensures var c := Covering(tiers, latencyMs);
            FirstCovering(tiers, latencyMs) == if c == [] then None else Some(c[0])
  {
    if tiers != [] {
      ScanIsHead(tiers[1..], latencyMs);
    }
  }

  /** Sorting first makes the scan find the covering tier of least threshold, and the head the best tier. */
  lemma SortedScan(maxPrice: int, tiers: seq<Tier>, latencyMs: int)
    ensures var s := Sort(tiers, TierLeq);
            && FirstCovering(s, latencyMs) == LeastTier(Covering(tiers, latencyMs))
            && BestPayout(maxPrice, tiers) == if s == [] then maxPrice else s[0].payout
  {
    var s, covering := Sort(tiers, TierLeq), Covering(tiers, latencyMs);
    SortKeepsElements(tiers, TierLeq);
    if tiers != [] {
      SortedHeadIsLeast(tiers);
    }
    ScanIsHead(s, latencyMs);
    SortThenFilter(tiers, latencyMs);
    SortKeepsElements(covering, TierLeq);
    if covering != [] {
      SortedHeadIsLeast(covering);
    }
  }

  /** `_apply_latency_tiers`: the first tier of the sorted list whose threshold covers the latency. */
  method ApplyLatencyTiers(maxPrice: int, tiers: seq<Tier>, latencyMs: int) returns (d: Decision)
    ensures d == TierDecision(maxPrice, tiers, latencyMs)
  {
    var sortedTiers := Sort(tiers, TierLeq);
    SortedScan(maxPrice, tiers, latencyMs);
    var bestPayout := if sortedTiers != [] then sortedTiers[0].payout else maxPrice;
    for i := 0 to |sortedTiers|
      invariant FirstCovering(sortedTiers[i..], latencyMs) == FirstCovering(sortedTiers, latencyMs)
    {
      var tier := sortedTiers[i];
      if latencyMs <= tier.lteMs {
        var payout := Min(tier.payout, maxPrice);
        var breaches := if payout < bestPayout then [BreachTierDown] else [];
        return Decision(maxPrice, payout, maxPrice - payout, LatencyTier(tier.lteMs), breaches);
      }
      assert sortedTiers[i..][1..] == sortedTiers[i + 1..];
    }
    d := Decision(maxPrice, 0, maxPrice, NoTierMatched, [BreachTierDown]);
  }

  function ComputePayout(m: Mandate, latencyMs: int, success: bool, validationPass: bool): (d: Decision)
    ensures d.maxPrice == m.maxPrice
    ensures d.payout + d.refund == m.maxPrice
    ensures !success || !validationPass ==> d.payout == 0
  {
    if !success then Decision(m.maxPrice, 0, m.maxPrice, UpstreamError, [BreachUpstreamError])
    else if !validationPass then Decision(m.maxPrice, 0, m.maxPrice, ValidationFailed, [BreachSchemaFail])
    else
      match m.rules
      case LatencyTiers(tiers) => TierDecision(m.maxPrice, tiers, latencyMs)
      case OtherRules(_) =>
        var payout := Min(m.basePay, m.maxPrice);
        var breaches := if payout < m.maxPrice then [BreachTierDown] else [];
        Decision(m.maxPrice, payout, m.maxPrice - payout, BasePayOnly, breaches)
  }

  // ----- properties

  /** Non-negative terms, the ones the gateway's bounds are promised for. */
  ghost predicate NonNegativeTerms(m: Mandate) {
    && m.maxPrice >= 0
    && m.basePay >= 0
    && (m.rules.LatencyTiers? ==> forall t :: t in m.rules.tiers ==> t.payout >= 0)
  }

  lemma PayoutBounds(m: Mandate, latencyMs: int, success: bool, validationPass: bool)
    requires NonNegativeTerms(m)
    ensures 0 <= ComputePayout(m, latencyMs, success, validationPass).payout <= m.maxPrice
  {
    if m.rules.LatencyTiers? {
      var c := LeastTier(Covering(m.rules.tiers, latencyMs));
      assert c.Some? ==> c.value in m.rules.tiers;
    }
  }

  /** Which tier pays, by position: least threshold among those that cover, first written on a tie. */
  ghost predicate Pays(tiers: seq<Tier>, latencyMs: int, i: nat) {
    && i < |tiers|
    && latencyMs <= tiers[i].lteMs
    && forall j :: 0 <= j < |tiers| && latencyMs <= tiers[j].lteMs ==>
         tiers[i].lteMs < tiers[j].lteMs || (tiers[i].lteMs == tiers[j].lteMs && i <= j)
  }

  lemma {:induction false} PayingTierIsChosen(tiers: seq<Tier>, latencyMs: int, i: nat)
    requires Pays(tiers, latencyMs, i)
    ensures LeastTier(Covering(tiers, latencyMs)) == Some(tiers[i])
  {
    var rest := Covering(tiers[1..], latencyMs);
    if latencyMs <= tiers[0].lteMs {
      assert Covering(tiers, latencyMs)[1..] == rest;
    }
    if i > 0 {
      assert forall j :: 0 <= j < |tiers[1..]| ==> tiers[1..][j] == tiers[j + 1];
      assert Pays(tiers[1..], latencyMs, i - 1);
      PayingTierIsChosen(tiers[1..], latencyMs, i - 1);
    } else {
      forall t | t in rest ensures tiers[0].lteMs <= t.lteMs {
        var j :| 0 <= j < |tiers[1..]| && tiers[1..][j] == t;
        assert t == tiers[j + 1];
      }
    }
  }

  lemma {:induction false} SomeTierPays(tiers: seq<Tier>, latencyMs: int) returns (i: nat)
    requires exists t :: t in tiers && latencyMs <= t.lteMs
    ensures Pays(tiers, latencyMs, i)
  {
    if exists t :: t in tiers[1..] && latencyMs <= t.lteMs {
      var k := SomeTierPays(tiers[1..], latencyMs);
      assert forall j :: 0 < j < |tiers| ==> tiers[j] == tiers[1..][j - 1];
      i := if latencyMs <= tiers[0].lteMs <= tiers[k + 1].lteMs then 0 else k + 1;
    } else {
      i := 0;
      assert forall j :: 0 < j < |tiers| ==> tiers[j] == tiers[1..][j - 1];
    }
  }

  /** The whole meaning of tier pricing, without any mention of sorting. */
  lemma TierPriceMeaning(maxPrice: int, tiers: seq<Tier>, latencyMs: int)
    ensures (exists t :: t in tiers && latencyMs <= t.lteMs)
        <==> TierDecision(maxPrice, tiers, latencyMs).rule != NoTierMatched
    ensures (forall t :: t in tiers ==> t.lteMs < latencyMs) ==> TierDecision(maxPrice, tiers, latencyMs).payout == 0
    ensures forall i: nat :: Pays(tiers, latencyMs, i) ==>
              && TierDecision(maxPrice, tiers, latencyMs).payout == Min(tiers[i].payout, maxPrice)
              && TierDecision(maxPrice, tiers, latencyMs).rule == LatencyTier(tiers[i].lteMs)
  {
    forall i: nat | Pays(tiers, latencyMs, i)
      ensures LeastTier(Covering(tiers, latencyMs)) == Some(tiers[i])
    {
      PayingTierIsChosen(tiers, latencyMs, i);
    }
    if t :| t in tiers && latencyMs <= t.lteMs {
      assert t in Covering(tiers, latencyMs);
    }
  }

  /** Order does not matter, as long as tiers with one threshold are the same tier. */
  lemma OrderIrrelevant(maxPrice: int, a: seq<Tier>, b: seq<Tier>, latencyMs: int)
    requires multiset(a) == multiset(b)
    requires forall t, u :: t in a && u in a && t.lteMs == u.lteMs ==> t == u
    ensures TierDecision(maxPrice, a, latencyMs) == TierDecision(maxPrice, b, latencyMs)
  {
    assert forall t :: t in a <==> t in multiset(a);
    assert forall t :: t in b <==> t in multiset(b);
    SameLeast(a, b);
    SameLeast(Covering(a, latencyMs), Covering(b, latencyMs));
  }

  lemma SameLeast(a: seq<Tier>, b: seq<Tier>)
    requires forall t :: t in a <==> t in b
    requires forall t, u :: t in a && u in a && t.lteMs == u.lteMs ==> t == u
    ensures LeastTier(a) == LeastTier(b)
  {
    assert a != [] ==> a[0] in b;
    assert b != [] ==> b[0] in a;
  }

  function TierPayout(maxPrice: int, tiers: seq<Tier>, latencyMs: int): int {
    TierDecision(maxPrice, tiers, latencyMs).payout
  }

  ghost predicate Antitone(maxPrice: int, tiers: seq<Tier>) {
    forall x, y :: x <= y ==> TierPayout(maxPrice, tiers, y) <= TierPayout(maxPrice, tiers, x)
  }

  /** No later threshold pays more than an earlier one, once both are capped at the price. */
  ghost predicate Degrading(maxPrice: int, tiers: seq<Tier>) {
    forall t, u :: t in tiers && u in tiers && t.lteMs < u.lteMs ==> Min(u.payout, maxPrice) <= Min(t.payout, maxPrice)
  }

  /** The first tier written for its threshold; the others of that threshold never pay. */
  ghost predicate FirstWritten(tiers: seq<Tier>, i: nat) {
    i < |tiers| && forall j :: 0 <= j < i ==> tiers[j].lteMs != tiers[i].lteMs
  }

  /** Among the tiers that can pay, capped payouts do not rise with the threshold, nor lie below the zero beyond it. */
  ghost predicate FirstDegrading(maxPrice: int, tiers: seq<Tier>) {
    && (forall i: nat :: FirstWritten(tiers, i) ==> Min(tiers[i].payout, maxPrice) >= 0)
    && (forall i: nat, j: nat :: FirstWritten(tiers, i) && FirstWritten(tiers, j) && tiers[i].lteMs < tiers[j].lteMs ==>
          Min(tiers[j].payout, maxPrice) <= Min(tiers[i].payout, maxPrice))
  }

  /** Either the first-written tier that pays, or nothing when no tier covers. */
  lemma PaidBy(maxPrice: int, tiers: seq<Tier>, latencyMs: int) returns (i: Option<nat>)
    ensures i.Some? ==> Pays(tiers, latencyMs, i.value) && FirstWritten(tiers, i.value)
    ensures i.None? ==> forall t :: t in tiers ==> t.lteMs < latencyMs
    ensures TierPayout(maxPrice, tiers, latencyMs) == if i.Some? then Min(tiers[i.value].payout, maxPrice) else 0
  {
    TierPriceMeaning(maxPrice, tiers, latencyMs);
    if exists t :: t in tiers && latencyMs <= t.lteMs {
      var k := SomeTierPays(tiers, latencyMs);
      i := Some(k);
    } else {
      i := None;
    }
  }

  lemma PaysAtItsThreshold(maxPrice: int, tiers: seq<Tier>, i: nat)
    requires FirstWritten(tiers, i)
    ensures TierPayout(maxPrice, tiers, tiers[i].lteMs) == Min(tiers[i].payout, maxPrice)
  {
    assert Pays(tiers, tiers[i].lteMs, i);
    PayingTierIsChosen(tiers, tiers[i].lteMs, i);
  }

  lemma {:induction false} Beyond(tiers: seq<Tier>) returns (latencyMs: int)
    ensures forall t :: t in tiers ==> t.lteMs < latencyMs
  {
    latencyMs := 0;
    if tiers != [] {
      var rest := Beyond(tiers[1..]);
      latencyMs := Max(rest, tiers[0].lteMs + 1);
      assert forall t :: t in tiers ==> t == tiers[0] || t in tiers[1..];
    }
  }

  lemma FirstDegradingIsAntitone(maxPrice: int, tiers: seq<Tier>, x: int, y: int)
    requires FirstDegrading(maxPrice, tiers) && x <= y
    ensures TierPayout(maxPrice, tiers, y) <= TierPayout(maxPrice, tiers, x)
  {
    var i := PaidBy(maxPrice, tiers, x);
    var j := PaidBy(maxPrice, tiers, y);
    if j.Some? {
      assert tiers[j.value] in tiers && i.Some?;
      assert tiers[i.value].lteMs <= tiers[j.value].lteMs;
      if tiers[i.value].lteMs == tiers[j.value].lteMs {
        SameFirst(tiers, i.value, j.value);
      }
    }
  }

  lemma SameFirst(tiers: seq<Tier>, i: nat, j: nat)
    requires FirstWritten(tiers, i) && FirstWritten(tiers, j) && tiers[i].lteMs == tiers[j].lteMs
    ensures i == j
  {
  }

  /** For any tiers whatever, pricing is antitone in latency exactly when the tiers that can pay degrade to zero. */
  lemma AntitoneIff(maxPrice: int, tiers: seq<Tier>)
    ensures Antitone(maxPrice, tiers) <==> FirstDegrading(maxPrice, tiers)
  {
    if FirstDegrading(maxPrice, tiers) {
      forall x, y | x <= y ensures TierPayout(maxPrice, tiers, y) <= TierPayout(maxPrice, tiers, x) {
        FirstDegradingIsAntitone(maxPrice, tiers, x, y);
      }
    }
    if Antitone(maxPrice, tiers) {
      var beyond := Beyond(tiers);
      var none := PaidBy(maxPrice, tiers, beyond);
      forall i: nat | FirstWritten(tiers, i) ensures Min(tiers[i].payout, maxPrice) >= 0 {
        PaysAtItsThreshold(maxPrice, tiers, i);
        assert tiers[i] in tiers;
      }
      forall i: nat, j: nat | FirstWritten(tiers, i) && FirstWritten(tiers, j) && tiers[i].lteMs < tiers[j].lteMs
        ensures Min(tiers[j].payout, maxPrice) <= Min(tiers[i].payout, maxPrice)
      {
        PaysAtItsThreshold(maxPrice, tiers, i);
        PaysAtItsThreshold(maxPrice, tiers, j);
      }
    }
  }

  /** In particular non-negative payouts that nowhere rise with the threshold never pay a slower call more. */
  lemma SlowerNeverPaysMore(maxPrice: int, tiers: seq<Tier>, x: int, y: int)
    requires maxPrice >= 0 && forall t :: t in tiers ==> t.payout >= 0
    requires Degrading(maxPrice, tiers) && x <= y
    ensures TierPayout(maxPrice, tiers, y) <= TierPayout(maxPrice, tiers, x)
  {
    assert FirstDegrading(maxPrice, tiers) by {
      assert forall i: nat :: FirstWritten(tiers, i) ==> tiers[i] in tiers;
    }
    FirstDegradingIsAntitone(maxPrice, tiers, x, y);
  }

  /**
   * A full payout is reported as a tier breach exactly when the best tier is written above the
   * maximum price, because the best payout is compared unclamped.
   */
  lemma FullPayoutFlaggedIff(maxPrice: int, tiers: seq<Tier>, latencyMs: int)
    requires TierDecision(maxPrice, tiers, latencyMs).rule.LatencyTier?
    requires TierPayout(maxPrice, tiers, latencyMs) == maxPrice
    ensures BreachTierDown in TierDecision(maxPrice, tiers, latencyMs).breaches
       <==> BestPayout(maxPrice, tiers) > maxPrice
  {
    var chosen, best := LeastTier(Covering(tiers, latencyMs)), BestPayout(maxPrice, tiers);
    assert chosen.Some?;
    assert Charge(maxPrice, chosen, best).breaches == if maxPrice < best then [BreachTierDown] else [];
  }

  /** For example a best tier of 120 under a maximum of 100: the full 100 is paid, and flagged. */
  lemma FullPayoutFlagged()
    ensures var d := TierDecision(100, [Tier(2000, 120)], 1000);
            d.payout == d.maxPrice == 100 && d.breaches == [BreachTierDown]
  {
    PayingTierIsChosen([Tier(2000, 120)], 1000, 0);
  }

  /** Without latency tiers a good call earns the base pay, or the maximum if that is less, flagged if it is less. */
  lemma BasePayMeaning(m: Mandate, latencyMs: int)
    requires m.rules.OtherRules?
    ensures var d := ComputePayout(m, latencyMs, true, true);
            && d.payout == (if m.basePay <= m.maxPrice then m.basePay else m.maxPrice)
            && d.rule == BasePayOnly
            && d.breaches == if m.basePay < m.maxPrice then [BreachTierDown] else []
  {
  }

  /** Failures earn nothing and say why, the failed call before the failed validation. */
  lemma FailuresMeaning(m: Mandate, latencyMs: int, validationPass: bool)
    ensures ComputePayout(m, latencyMs, false, validationPass)
         == Decision(m.maxPrice, 0, m.maxPrice, UpstreamError, [BreachUpstreamError])
    ensures ComputePayout(m, latencyMs, true, false)
         == Decision(m.maxPrice, 0, m.maxPrice, ValidationFailed, [BreachSchemaFail])
  {
  }

  /** The best tier, by position: the least threshold of all, first written on a tie. */
  ghost predicate Leads(tiers: seq<Tier>, k: nat) {
    && k < |tiers|
    && forall j :: 0 <= j < |tiers| ==>
         tiers[k].lteMs < tiers[j].lteMs || (tiers[k].lteMs == tiers[j].lteMs && k <= j)
  }

  lemma {:induction false} LeadIsLeast(tiers: seq<Tier>, k: nat)
    requires Leads(tiers, k)
    ensures LeastTier(tiers) == Some(tiers[k])
  {
    if k > 0 {
      assert forall j :: 0 <= j < |tiers[1..]| ==> tiers[1..][j] == tiers[j + 1];
      assert Leads(tiers[1..], k - 1);
      LeadIsLeast(tiers[1..], k - 1);
    } else if |tiers| > 1 {
      forall t | t in tiers[1..] ensures tiers[0].lteMs <= t.lteMs {
        var j :| 0 <= j < |tiers[1..]| && tiers[1..][j] == t;
        assert t == tiers[j + 1];
      }
    }
  }

  /** A covered call is flagged exactly when it is paid less than the best tier is written for. */
  lemma FlaggedIff(m: Mandate, latencyMs: int, i: nat, k: nat)
    requires m.rules.LatencyTiers? && Pays(m.rules.tiers, latencyMs, i) && Leads(m.rules.tiers, k)
    ensures var d := ComputePayout(m, latencyMs, true, true);
            && d.payout == Min(m.rules.tiers[i].payout, m.maxPrice)
            && d.breaches == if d.payout < m.rules.tiers[k].payout then [BreachTierDown] else []
  {
    PayingTierIsChosen(m.rules.tiers, latencyMs, i);
    LeadIsLeast(m.rules.tiers, k);
  }

  /** A call slower than every tier earns nothing and is flagged. */
  lemma UncoveredMeaning(m: Mandate, latencyMs: int)
    requires m.rules.LatencyTiers? && forall t :: t in m.rules.tiers ==> t.lteMs < latencyMs
    ensures ComputePayout(m, latencyMs, true, true)
         == Decision(m.maxPrice, 0, m.maxPrice, NoTierMatched, [BreachTierDown])
  {
    TierPriceMeaning(m.maxPrice, m.rules.tiers, latencyMs);
    assert Covering(m.rules.tiers, latencyMs) == [];
  }
}
