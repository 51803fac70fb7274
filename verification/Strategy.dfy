/** Seller statistics, scores and ranking of buyer_agent/strategy.py. */
module Strategy {
  import opened Base
  import opened Sorting

  datatype Receipt = Receipt(
    sellerId: string,
    latencyMs: Option<int>,
    validationPassed: bool,
    success: bool,
    payout: int,
    maxPrice: int,
    disputed: bool)

  datatype Config = Config(
    targetLatencyMs: int,
    degradedLatencyMs: int,
    minSamplesForBlacklist: int,
    blacklistScore: real,
    minPassRate: real,
    minSuccessRate: real,
    coldStartScore: real)

  datatype Stats = Stats(
    totalCalls: nat,
    successRate: real,
    passRate: real,
    disputeRate: real,
    avgLatencyMs: Option<real>,
    avgPayoutRatio: real)

  datatype Evaluation = Evaluation(sellerId: string, stats: Stats, score: real, blacklisted: bool)

  // ----- statistics

  function Relevant(id: string, history: seq<Receipt>): seq<Receipt> {
    Filter(history, (r: Receipt) => r.sellerId == id)
  }

  function PayoutRatio(r: Receipt): real {
    if r.maxPrice <= 0 then 0.0
    else
      var ratio := r.payout as real / r.maxPrice as real;
      if ratio < 0.0 then 0.0 else if ratio > 1.0 then 1.0 else ratio
  }

  datatype Flag = Succeeded | Validated | Disputed

  predicate Has(r: Receipt, f: Flag) {
    match f
    case Succeeded => r.success
    case Validated => r.validationPassed
    case Disputed => r.disputed
  }

  function Tally(rs: seq<Receipt>, f: Flag): nat {
    if rs == [] then 0 else (if Has(rs[0], f) then 1 else 0) + Tally(rs[1..], f)
  }

  function RatioSum(rs: seq<Receipt>): real {
    if rs == [] then 0.0 else PayoutRatio(rs[0]) + RatioSum(rs[1..])
  }

  function Latencies(rs: seq<Receipt>): seq<int> {
    if rs == [] then []
    else (if rs[0].latencyMs.Some? then [rs[0].latencyMs.value] else []) + Latencies(rs[1..])
  }

  function Rate(rs: seq<Receipt>, f: Flag): real
    requires rs != []
  {
    Tally(rs, f) as real / |rs| as real
  }

  /** `summarize_receipts`. */
  function Summarize(id: string, history: seq<Receipt>): Stats {
    var rs := Relevant(id, history);
    if rs == [] then Stats(0, 0.0, 0.0, 0.0, None, 0.0)
    else
      var latencies := Latencies(rs);
      Stats(
        |rs|, Rate(rs, Succeeded), Rate(rs, Validated), Rate(rs, Disputed),
        if latencies == [] then None else Some(Sum(latencies) as real / |latencies| as real),
        RatioSum(rs) / |rs| as real)
  }

  // ----- evaluation

  function MaxReal(a: real, b: real): real {
    if a <= b then b else a
  }

  function LatencyScore(avg: Option<real>, c: Config): real {
    if avg.None? then 0.5
    else
      var x := avg.value;
      if x <= c.targetLatencyMs as real then 1.0
      else if x >= c.degradedLatencyMs as real then
        // A zero average above a negative target divides by zero in the source; 0.1 stands for it.
        if x == 0.0 then 0.1 else MaxReal(0.1, c.degradedLatencyMs as real / x)
      else
        var span := Max(1, c.degradedLatencyMs - c.targetLatencyMs) as real;
        MaxReal(0.4, 1.0 - (x - c.targetLatencyMs as real) / span)
  }

  function Round2(x: real): real {
    RoundHalfEven(x * 100.0) as real / 100.0
  }

  /** The weighted score before it is rounded. */
  function RawScore(s: Stats, c: Config): real {
    100.0 * (s.passRate * 0.40 + s.successRate * 0.20 + LatencyScore(s.avgLatencyMs, c) * 0.25
             + s.avgPayoutRatio * 0.15)
    - s.disputeRate * 15.0
  }

  function Score(s: Stats, c: Config): real {
    Round2(RawScore(s, c))
  }

  /** `evaluate_seller`. */
  function Evaluate(id: string, history: seq<Receipt>, c: Config): Evaluation {
    var s := Summarize(id, history);
    if s.totalCalls == 0 then Evaluation(id, s, c.coldStartScore, false)
    else
      var score := Score(s, c);
      Evaluation(id, s, score,
        && s.totalCalls >= c.minSamplesForBlacklist
        && (s.passRate < c.minPassRate || s.successRate < c.minSuccessRate || score < c.blacklistScore))
  }

  predicate Blacklisted(id: string, history: seq<Receipt>, c: Config) {
    Evaluate(id, history, c).blacklisted
  }

  // ----- ranking

  /** Python's order on strings, by code point. */
  predicate LexLeq(a: string, b: string) {
    a == [] || (b != [] && (a[0] < b[0] || (a[0] == b[0] && LexLeq(a[1..], b[1..]))))
  }

  lemma {:induction false} LexTotal(a: string, b: string)
    ensures LexLeq(a, b) || LexLeq(b, a)
  {
    if a != [] && b != [] {
      LexTotal(a[1..], b[1..]);
    }
  }

  lemma {:induction false} LexTransitive(a: string, b: string, c: string)
    requires LexLeq(a, b) && LexLeq(b, c)
    ensures LexLeq(a, c)
  {
    if a != [] && b[0] == a[0] && c[0] == b[0] {
      LexTransitive(a[1..], b[1..], c[1..]);
    }
  }

  /** The sort key `(blacklisted, -score, seller_id)`. */
  predicate EvalLeq(a: Evaluation, b: Evaluation) {
    if a.blacklisted != b.blacklisted then b.blacklisted
    else if a.score != b.score then a.score > b.score
    else LexLeq(a.sellerId, b.sellerId)
  }

  lemma EvalLeqIsTotalPreorder()
    ensures TotalPreorder(EvalLeq)
  {
    forall a, b ensures EvalLeq(a, b) || EvalLeq(b, a) {
      LexTotal(a.sellerId, b.sellerId);
    }
    forall a, b, c | EvalLeq(a, b) && EvalLeq(b, c) ensures EvalLeq(a, c) {
      if LexLeq(a.sellerId, b.sellerId) && LexLeq(b.sellerId, c.sellerId) {
        LexTransitive(a.sellerId, b.sellerId, c.sellerId);
      }
    }
  }

  function Evaluations(ids: seq<string>, history: seq<Receipt>, c: Config): (r: seq<Evaluation>)
    ensures |r| == |ids|
    ensures forall i :: 0 <= i < |ids| ==> r[i] == Evaluate(ids[i], history, c)
  {
    if ids == [] then [] else [Evaluate(ids[0], history, c)] + Evaluations(ids[1..], history, c)
  }

  function RankSellers(ids: seq<string>, history: seq<Receipt>, c: Config): seq<Evaluation> {
    Sort(Evaluations(ids, history, c), EvalLeq)
  }

  function FirstAllowed(ranked: seq<Evaluation>): Option<Evaluation> {
    if ranked == [] then None
    else if !ranked[0].blacklisted then Some(ranked[0])
    else FirstAllowed(ranked[1..])
  }

  function PickBestSeller(ids: seq<string>, history: seq<Receipt>, c: Config): Option<Evaluation> {
    FirstAllowed(RankSellers(ids, history, c))
  }

  /** `id` is allowed, and no allowed seller on offer beats its score, or ties it with a smaller id. */
  ghost predicate BestAllowed(id: string, ids: seq<string>, history: seq<Receipt>, c: Config) {
    && id in ids
    && !Blacklisted(id, history, c)
    && forall other :: other in ids && !Blacklisted(other, history, c) ==>
         var s, t := Evaluate(id, history, c).score, Evaluate(other, history, c).score;
         s > t || (s == t && LexLeq(id, other))
  }

  lemma {:induction false} FirstAllowedLeads(ranked: seq<Evaluation>)
    requires Sorted(ranked, EvalLeq)
    ensures FirstAllowed(ranked).None? <==> forall e :: e in ranked ==> e.blacklisted
    ensures FirstAllowed(ranked).Some? ==>
              && FirstAllowed(ranked).value in ranked
              && !FirstAllowed(ranked).value.blacklisted
              && forall e :: e in ranked && !e.blacklisted ==>
                   e == FirstAllowed(ranked).value || EvalLeq(FirstAllowed(ranked).value, e)
  {
    if ranked != [] && ranked[0].blacklisted {
      FirstAllowedLeads(ranked[1..]);
    }
  }

  lemma {:induction false} LexReflexive(a: string)
    ensures LexLeq(a, a)
  {
    if a != [] {
      LexReflexive(a[1..]);
    }
  }

  /** The ranked list holds exactly the evaluations of the ids on offer. */
  lemma RankedMembers(ids: seq<string>, history: seq<Receipt>, c: Config)
    ensures Sorted(RankSellers(ids, history, c), EvalLeq)
    ensures forall e :: e in RankSellers(ids, history, c) ==> e.sellerId in ids && e == Evaluate(e.sellerId, history, c)
    ensures forall id :: id in ids ==> Evaluate(id, history, c) in RankSellers(ids, history, c)
  {
    var evals := Evaluations(ids, history, c);
    EvalLeqIsTotalPreorder();
    SortSorts(evals, EvalLeq);
    SortKeepsElements(evals, EvalLeq);
    forall id | id in ids ensures Evaluate(id, history, c) in evals {
      var i :| 0 <= i < |ids| && ids[i] == id;
      assert evals[i] == Evaluate(id, history, c);
    }
    forall e | e in evals ensures e.sellerId in ids && e == Evaluate(e.sellerId, history, c) {
      var i :| 0 <= i < |evals| && evals[i] == e;
      assert e == Evaluate(ids[i], history, c);
    }
  }

  lemma EvalLeqOfAllowed(a: Evaluation, b: Evaluation)
    requires !a.blacklisted && !b.blacklisted && (a == b || EvalLeq(a, b))
    ensures a.score > b.score || (a.score == b.score && LexLeq(a.sellerId, b.sellerId))
  {
    LexReflexive(a.sellerId);
  }

  lemma PickBestMeaning(ids: seq<string>, history: seq<Receipt>, c: Config)
    ensures var best := PickBestSeller(ids, history, c);
            && (best.None? <==> forall id :: id in ids ==> Blacklisted(id, history, c))
            && (best.Some? ==> BestAllowed(best.value.sellerId, ids, history, c)
                               && best.value == Evaluate(best.value.sellerId, history, c))
  {
    RankedMembers(ids, history, c);
    FirstAllowedLeads(RankSellers(ids, history, c));
    var best := PickBestSeller(ids, history, c);
    forall id | id in ids && !Blacklisted(id, history, c)
      ensures best.Some?
      ensures var s, t := best.value.score, Evaluate(id, history, c).score;
              s > t || (s == t && LexLeq(best.value.sellerId, id))
    {
      var e := Evaluate(id, history, c);
      assert e in RankSellers(ids, history, c) && !e.blacklisted;
      EvalLeqOfAllowed(best.value, e);
    }
  }

  // ----- what selection depends on

  function Calls(id: string, history: seq<Receipt>): nat {
    |Relevant(id, history)|
  }

  /** A record about one seller changes nothing that is known about another. */
  lemma OthersUnaffected(id: string, history: seq<Receipt>, r: Receipt, c: Config)
    ensures Relevant(id, history + [r]) == Relevant(id, history) + if r.sellerId == id then [r] else []
    ensures r.sellerId != id ==> Evaluate(id, history + [r], c) == Evaluate(id, history, c)
  {
    FilterAppend(history, [r], (x: Receipt) => x.sellerId == id);
    assert Relevant(id, [r]) == if r.sellerId == id then [r] else [];
    assert Relevant(id, history) + [] == Relevant(id, history);
  }

  lemma {:induction false} NonePassed(id: string, history: seq<Receipt>)
    requires forall r :: r in history ==> !r.validationPassed
    ensures Tally(Relevant(id, history), Validated) == 0
  {
    if history != [] {
      NonePassed(id, history[1..]);
      var rest := Relevant(id, history[1..]);
      assert ([history[0]] + rest)[1..] == rest;
    }
  }

  /** When nothing ever passed validation, the blacklist is a pure sample count. */
  lemma BlacklistIsSampleCount(id: string, history: seq<Receipt>, c: Config)
    requires forall r :: r in history ==> !r.validationPassed
    requires c.minPassRate > 0.0 && c.minSamplesForBlacklist >= 1
    ensures Blacklisted(id, history, c) <==> Calls(id, history) >= c.minSamplesForBlacklist
  {
    NonePassed(id, history);
    var rs := Relevant(id, history);
    if rs != [] {
      assert Rate(rs, Validated) == 0.0 / |rs| as real == 0.0;
    }
  }

  // ----- the scale of scores

  lemma {:induction false} TallyBound(rs: seq<Receipt>, f: Flag)
    ensures Tally(rs, f) <= |rs|
    ensures (forall r :: r in rs ==> Has(r, f)) ==> Tally(rs, f) == |rs|
    ensures (forall r :: r in rs ==> !Has(r, f)) ==> Tally(rs, f) == 0
  {
    if rs != [] {
      TallyBound(rs[1..], f);
    }
  }

  lemma {:induction false} RatioSumBound(rs: seq<Receipt>)
    ensures 0.0 <= RatioSum(rs) <= |rs| as real
    ensures (forall r :: r in rs ==> r.payout >= r.maxPrice > 0) ==> RatioSum(rs) == |rs| as real
  {
    if rs != [] {
      RatioSumBound(rs[1..]);
      RatioIsFraction(rs[0]);
    }
  }

  lemma RatioIsFraction(r: Receipt)
    ensures 0.0 <= PayoutRatio(r) <= 1.0
    ensures r.payout >= r.maxPrice > 0 ==> PayoutRatio(r) == 1.0
  {
    if r.payout >= r.maxPrice > 0 {
      var q := r.payout as real / r.maxPrice as real;
      assert q * r.maxPrice as real == r.payout as real;
      assert (q - 1.0) * r.maxPrice as real >= 0.0;
    }
  }

  lemma Fraction(a: real, n: real)
    requires 0.0 <= a <= n && n > 0.0
    ensures 0.0 <= a / n <= 1.0
    ensures a == n ==> a / n == 1.0
    ensures a == 0.0 ==> a / n == 0.0
  {
    var q := a / n;
    assert q * n == a;
    assert (1.0 - q) * n == n - a;
  }

  lemma RatesAreFractions(id: string, history: seq<Receipt>)
    ensures var s := Summarize(id, history);
            && 0.0 <= s.successRate <= 1.0 && 0.0 <= s.passRate <= 1.0
            && 0.0 <= s.disputeRate <= 1.0 && 0.0 <= s.avgPayoutRatio <= 1.0
  {
    var rs := Relevant(id, history);
    if rs != [] {
      TallyBound(rs, Succeeded);
      TallyBound(rs, Validated);
      TallyBound(rs, Disputed);
      RatioSumBound(rs);
      var n := |rs| as real;
      Fraction(Tally(rs, Succeeded) as real, n);
      Fraction(Tally(rs, Validated) as real, n);
      Fraction(Tally(rs, Disputed) as real, n);
      Fraction(RatioSum(rs), n);
    }
  }

  lemma LatencyScoreRange(avg: Option<real>, c: Config)
    requires 0 <= c.targetLatencyMs && 0 <= c.degradedLatencyMs
    ensures 0.1 <= LatencyScore(avg, c) <= 1.0
  {
    if avg.Some? && avg.value > c.targetLatencyMs as real {
      var x, t, d := avg.value, c.targetLatencyMs as real, c.degradedLatencyMs as real;
      if x >= d {
        DivAntitone(d, x, x);
      } else {
        var span := Max(1, c.degradedLatencyMs - c.targetLatencyMs) as real;
        Fraction(x - t, span);
      }
    }
  }

  lemma Round2Range(x: real, lo: int, hi: int)
    requires lo as real <= x * 10.0 <= hi as real
    ensures lo as real <= Round2(x) * 10.0 <= hi as real
  {
    var r := RoundHalfEven(x * 100.0);
    assert (10 * lo) as real - 0.5 <= r as real <= (10 * hi) as real + 0.5;
    assert 10 * lo <= r <= 10 * hi;
    assert Round2(x) * 10.0 == r as real / 10.0;
  }

  /** The weights make a scale: whatever the history, a score lies between -12.5 and 100. */
  lemma ScoreRange(id: string, history: seq<Receipt>, c: Config)
    requires 0 <= c.targetLatencyMs && 0 <= c.degradedLatencyMs
    ensures -12.5 <= Score(Summarize(id, history), c) <= 100.0
  {
    var s := Summarize(id, history);
    RatesAreFractions(id, history);
    LatencyScoreRange(s.avgLatencyMs, c);
    Round2Range(RawScore(s, c), -125, 1000);
  }

  /** A record nobody could complain about: it succeeded, validated, undisputed and was paid in full. */
  predicate Flawless(r: Receipt) {
    r.success && r.validationPassed && !r.disputed && r.payout >= r.maxPrice > 0
  }

  /**
   * A seller with a flawless record and an average latency within the target scores exactly 100, and
   * thresholds on that scale never blacklist it.
   */
  lemma FlawlessSellerScoresFull(id: string, history: seq<Receipt>, c: Config)
    requires Calls(id, history) > 0 && forall r :: r in history && r.sellerId == id ==> Flawless(r)
    requires var s := Summarize(id, history); s.avgLatencyMs.Some? && s.avgLatencyMs.value <= c.targetLatencyMs as real
    ensures Evaluate(id, history, c).score == 100.0
    ensures c.minPassRate <= 1.0 && c.minSuccessRate <= 1.0 && c.blacklistScore <= 100.0 ==>
              !Blacklisted(id, history, c)
  {
    var rs := Relevant(id, history);
    TallyBound(rs, Succeeded);
    TallyBound(rs, Validated);
    TallyBound(rs, Disputed);
    RatioSumBound(rs);
    var n := |rs| as real;
    Fraction(n, n);
    Fraction(0.0, n);
    var s := Summarize(id, history);
    assert s.passRate == s.successRate == s.avgPayoutRatio == 1.0 && s.disputeRate == 0.0;
    Round2Range(100.0, 1000, 1000);
  }

  // ----- the latency score

  /**
   * The latency score never rewards a slower seller exactly when the degraded threshold does not lie
   * above the target; with the defaults (2000 and 5000) it jumps up at the degraded threshold.
   */
  lemma LatencyScoreAntitoneIff(c: Config)
    requires 0 <= c.targetLatencyMs && 0 <= c.degradedLatencyMs
    ensures (forall x: real, y: real :: x <= y ==> LatencyScore(Some(y), c) <= LatencyScore(Some(x), c))
       <==> c.degradedLatencyMs <= c.targetLatencyMs
  {
    var t, d := c.targetLatencyMs as real, c.degradedLatencyMs as real;
    if c.degradedLatencyMs <= c.targetLatencyMs {
      forall x: real, y: real | x <= y ensures LatencyScore(Some(y), c) <= LatencyScore(Some(x), c) {
        if t < x {
          DivAntitone(d, x, y);
        } else if t < y {
          DivAntitone(d, y, y);
          assert d / y <= 1.0;
        }
      }
    } else {
      JumpsUp(c);
      var x := (t + d) / 2.0;
      assert x <= d && LatencyScore(Some(x), c) < LatencyScore(Some(d), c);
    }
  }

  /** Half way between the thresholds the score is 0.5; at the degraded one it is 1 again. */
  lemma JumpsUp(c: Config)
    requires 0 <= c.targetLatencyMs < c.degradedLatencyMs
    ensures var t, d := c.targetLatencyMs as real, c.degradedLatencyMs as real;
            LatencyScore(Some((t + d) / 2.0), c) == 0.5 && LatencyScore(Some(d), c) == 1.0
  {
    var t, d := c.targetLatencyMs as real, c.degradedLatencyMs as real;
    var x, span := (t + d) / 2.0, d - t;
    assert span == Max(1, c.degradedLatencyMs - c.targetLatencyMs) as real;
    assert x - t == 0.5 * span;
    Ratio(0.5, span);
    assert t < x < d;
    Ratio(1.0, d);
  }

  lemma Ratio(r: real, y: real)
    requires y > 0.0
    ensures (r * y) / y == r
  {
    var q := (r * y) / y;
    assert (q - r) * y == 0.0;
  }

  lemma DivAntitone(d: real, x: real, y: real)
    requires 0.0 <= d && 0.0 < x <= y
    ensures d / y <= d / x
    ensures d <= x ==> d / x <= 1.0
  {
    var q, p := d / y, d / x;
    assert q * y == d && p * x == d;
    assert (p - q) * y == p * (y - x) >= 0.0;
    assert d <= x ==> (1.0 - p) * x >= 0.0;
  }

  // ----- what a record is worth

  /** A seller's score before rounding. */
  function Raw(id: string, history: seq<Receipt>, c: Config): real {
    RawScore(Summarize(id, history), c)
  }

  lemma {:induction false} TallyAppend(a: seq<Receipt>, b: seq<Receipt>, f: Flag)
    ensures Tally(a + b, f) == Tally(a, f) + Tally(b, f)
  {
    if a == [] {
      assert a + b == b;
    } else {
      assert (a + b)[1..] == a[1..] + b;
      TallyAppend(a[1..], b, f);
    }
  }

  lemma {:induction false} RatioSumAppend(a: seq<Receipt>, b: seq<Receipt>)
    ensures RatioSum(a + b) == RatioSum(a) + RatioSum(b)
  {
    if a == [] {
      assert a + b == b;
    } else {
      assert (a + b)[1..] == a[1..] + b;
      RatioSumAppend(a[1..], b);
    }
  }

  lemma {:induction false} LatenciesAppend(a: seq<Receipt>, b: seq<Receipt>)
    ensures Latencies(a + b) == Latencies(a) + Latencies(b)
  {
    if a == [] {
      assert a + b == b;
    } else {
      assert (a + b)[1..] == a[1..] + b;
      LatenciesAppend(a[1..], b);
      var head := if a[0].latencyMs.Some? then [a[0].latencyMs.value] else [];
      assert head + (Latencies(a[1..]) + Latencies(b)) == head + Latencies(a[1..]) + Latencies(b);
    }
  }

  /** The seller's records with one of them singled out. */
  lemma RelevantAround(id: string, a: seq<Receipt>, r: Receipt, b: seq<Receipt>)
    requires r.sellerId == id
    ensures Relevant(id, a + [r] + b) == Relevant(id, a) + [r] + Relevant(id, b)
  {
    FilterAppend(a + [r], b, (x: Receipt) => x.sellerId == id);
    FilterAppend(a, [r], (x: Receipt) => x.sellerId == id);
    assert Relevant(id, [r]) == [r];
  }

  lemma TallyAround(x: seq<Receipt>, r: Receipt, y: seq<Receipt>, f: Flag)
    ensures Tally(x + [r] + y, f) == Tally(x, f) + Tally(y, f) + if Has(r, f) then 1 else 0
  {
    TallyAppend(x + [r], y, f);
    TallyAppend(x, [r], f);
    assert Tally([r], f) == if Has(r, f) then 1 else 0;
  }

  lemma RatioSumAround(x: seq<Receipt>, r: Receipt, y: seq<Receipt>)
    ensures RatioSum(x + [r] + y) == RatioSum(x) + RatioSum(y) + PayoutRatio(r)
  {
    RatioSumAppend(x + [r], y);
    RatioSumAppend(x, [r]);
    assert RatioSum([r]) == PayoutRatio(r);
  }

  lemma LatenciesAround(x: seq<Receipt>, r: Receipt, y: seq<Receipt>)
    ensures Latencies(x + [r] + y)
         == Latencies(x) + (if r.latencyMs.Some? then [r.latencyMs.value] else []) + Latencies(y)
  {
    LatenciesAppend(x + [r], y);
    LatenciesAppend(x, [r]);
    assert Latencies([r]) == if r.latencyMs.Some? then [r.latencyMs.value] else [];
  }

  function Indicator(b: bool): real {
    if b then 1.0 else 0.0
  }

  /** The points of a record, latency aside. */
  function Points(r: Receipt): real {
    40.0 * Indicator(r.validationPassed) + 20.0 * Indicator(r.success) + 15.0 * PayoutRatio(r)
    - 15.0 * Indicator(r.disputed)
  }

  function SumOfPoints(rs: seq<Receipt>): real {
    40.0 * Tally(rs, Validated) as real + 20.0 * Tally(rs, Succeeded) as real + 15.0 * RatioSum(rs)
    - 15.0 * Tally(rs, Disputed) as real
  }

  lemma RawIsMean(id: string, history: seq<Receipt>, c: Config)
    requires Calls(id, history) > 0
    ensures Raw(id, history, c)
         == SumOfPoints(Relevant(id, history)) / Calls(id, history) as real
            + 25.0 * LatencyScore(Summarize(id, history).avgLatencyMs, c)
  {
    var rs := Relevant(id, history);
    MeanOfPoints(Tally(rs, Validated) as real, Tally(rs, Succeeded) as real, RatioSum(rs), Tally(rs, Disputed) as real,
                 |rs| as real);
  }

  lemma MeanOfPoints(v: real, s: real, p: real, d: real, n: real)
    requires n > 0.0
    ensures 100.0 * (v / n * 0.40 + s / n * 0.20 + p / n * 0.15) - d / n * 15.0
         == (40.0 * v + 20.0 * s + 15.0 * p - 15.0 * d) / n
  {
  }

  /** The sum of points, with one record singled out. */
  lemma PointsAround(x: seq<Receipt>, r: Receipt, y: seq<Receipt>)
    ensures SumOfPoints(x + [r] + y) == SumOfPoints(x) + SumOfPoints(y) + Points(r)
  {
    TallyAround(x, r, y, Validated);
    TallyAround(x, r, y, Succeeded);
    TallyAround(x, r, y, Disputed);
    RatioSumAround(x, r, y);
  }

  lemma Difference(a: real, b: real, n: real)
    requires n > 0.0
    ensures a / n - b / n == (a - b) / n
  {
  }

  lemma SameLatencies(id: string, a: seq<Receipt>, r: Receipt, r': Receipt, b: seq<Receipt>)
    requires r.sellerId == r'.sellerId == id && r.latencyMs == r'.latencyMs
    ensures Summarize(id, a + [r] + b).avgLatencyMs == Summarize(id, a + [r'] + b).avgLatencyMs
  {
    RelevantAround(id, a, r, b);
    RelevantAround(id, a, r', b);
    LatenciesAround(Relevant(id, a), r, Relevant(id, b));
    LatenciesAround(Relevant(id, a), r', Relevant(id, b));
  }

  /** Among a seller's n records, one that validates instead of not is worth 40/n points, ... */
  lemma ValidatingIsWorth40(id: string, a: seq<Receipt>, r: Receipt, b: seq<Receipt>, c: Config)
    requires r.sellerId == id && !r.validationPassed
    ensures var n := Calls(id, a + [r] + b) as real;
            n >= 1.0 && Raw(id, a + [r.(validationPassed := true)] + b, c) - Raw(id, a + [r] + b, c) == 40.0 / n
  {
    OneChange(id, a, r, r.(validationPassed := true), b, c);
  }

  /** ... one that succeeds 20/n, ... */
  lemma SucceedingIsWorth20(id: string, a: seq<Receipt>, r: Receipt, b: seq<Receipt>, c: Config)
    requires r.sellerId == id && !r.success
    ensures var n := Calls(id, a + [r] + b) as real;
            n >= 1.0 && Raw(id, a + [r.(success := true)] + b, c) - Raw(id, a + [r] + b, c) == 20.0 / n
  {
    OneChange(id, a, r, r.(success := true), b, c);
  }

  /** ... one that is no longer disputed 15/n, ... */
  lemma DisputeCosts15(id: string, a: seq<Receipt>, r: Receipt, b: seq<Receipt>, c: Config)
    requires r.sellerId == id && r.disputed
    ensures var n := Calls(id, a + [r] + b) as real;
            n >= 1.0 && Raw(id, a + [r.(disputed := false)] + b, c) - Raw(id, a + [r] + b, c) == 15.0 / n
  {
    OneChange(id, a, r, r.(disputed := false), b, c);
  }

  /** ... one paid a part of its price, instead of nothing, that part of 15/n, ... */
  lemma PaymentIsWorth15(id: string, a: seq<Receipt>, r: Receipt, b: seq<Receipt>, c: Config)
    requires r.sellerId == id && 0 <= r.payout <= r.maxPrice && 0 < r.maxPrice
    ensures var n := Calls(id, a + [r] + b) as real;
            n >= 1.0
            && Raw(id, a + [r] + b, c) - Raw(id, a + [r.(payout := 0)] + b, c)
                 == 15.0 * (r.payout as real / r.maxPrice as real) / n
  {
    OneChange(id, a, r.(payout := 0), r, b, c);
    Fraction(r.payout as real, r.maxPrice as real);
    Fraction(0.0, r.maxPrice as real);
  }

  /** Exchanging one record, with the same latency, moves the raw score by its share of the points. */
  lemma OneChange(id: string, a: seq<Receipt>, r: Receipt, r': Receipt, b: seq<Receipt>, c: Config)
    requires r.sellerId == r'.sellerId == id && r.latencyMs == r'.latencyMs
    ensures Calls(id, a + [r] + b) == Calls(id, a + [r'] + b) > 0
    ensures Raw(id, a + [r'] + b, c) - Raw(id, a + [r] + b, c)
         == (Points(r') - Points(r)) / Calls(id, a + [r] + b) as real
  {
    var x, y := Relevant(id, a), Relevant(id, b);
    RelevantAround(id, a, r, b);
    RelevantAround(id, a, r', b);
    RawIsMean(id, a + [r] + b, c);
    RawIsMean(id, a + [r'] + b, c);
    SameLatencies(id, a, r, r', b);
    PointsAround(x, r, y);
    PointsAround(x, r', y);
    Difference(SumOfPoints(x + [r'] + y), SumOfPoints(x + [r] + y), Calls(id, a + [r] + b) as real);
  }

  /** ... and a first measured latency within the target 12.5 points. */
  lemma FirstLatencyIsWorth12(id: string, a: seq<Receipt>, r: Receipt, b: seq<Receipt>, c: Config, ms: int)
    requires r.sellerId == id && r.latencyMs.None? && ms <= c.targetLatencyMs
    requires Latencies(Relevant(id, a)) == Latencies(Relevant(id, b)) == []
    ensures Raw(id, a + [r.(latencyMs := Some(ms))] + b, c) - Raw(id, a + [r] + b, c) == 12.5
  {
    var r' := r.(latencyMs := Some(ms));
    OnlyLatency(id, a, r, b);
    OnlyLatency(id, a, r', b);
    SamePoints(id, a, r, r', b);
    RawIsMean(id, a + [r] + b, c);
    RawIsMean(id, a + [r'] + b, c);
  }

  lemma SamePoints(id: string, a: seq<Receipt>, r: Receipt, r': Receipt, b: seq<Receipt>)
    requires r.sellerId == r'.sellerId == id && Points(r) == Points(r')
    ensures Calls(id, a + [r] + b) == Calls(id, a + [r'] + b) > 0
    ensures SumOfPoints(Relevant(id, a + [r] + b)) / Calls(id, a + [r] + b) as real
         == SumOfPoints(Relevant(id, a + [r'] + b)) / Calls(id, a + [r'] + b) as real
  {
    RelevantAround(id, a, r, b);
    RelevantAround(id, a, r', b);
    PointsAround(Relevant(id, a), r, Relevant(id, b));
    PointsAround(Relevant(id, a), r', Relevant(id, b));
  }

  lemma OnlyLatency(id: string, a: seq<Receipt>, r: Receipt, b: seq<Receipt>)
    requires r.sellerId == id && Latencies(Relevant(id, a)) == Latencies(Relevant(id, b)) == []
    ensures Summarize(id, a + [r] + b).avgLatencyMs
         == if r.latencyMs.None? then None else Some(r.latencyMs.value as real)
  {
    RelevantAround(id, a, r, b);
    LatenciesAround(Relevant(id, a), r, Relevant(id, b));
    if r.latencyMs.Some? {
      assert Sum([r.latencyMs.value]) == r.latencyMs.value;
      assert r.latencyMs.value as real / 1.0 == r.latencyMs.value as real;
    }
  }

  /** How far these latencies lie above `v`, in all. */
  function Deviation(latencies: seq<int>, v: real): real {
    if latencies == [] then 0.0 else latencies[0] as real - v + Deviation(latencies[1..], v)
  }

  lemma {:induction false} DeviationIsSum(latencies: seq<int>, v: real)
    ensures Deviation(latencies, v) == Sum(latencies) as real - |latencies| as real * v
  {
    if latencies != [] {
      DeviationIsSum(latencies[1..], v);
      assert |latencies| as real * v == |latencies[1..]| as real * v + v;
    }
  }

  /** The average is the value the measured latencies lie around, and absent exactly when none was measured. */
  lemma AverageIsBalanced(id: string, history: seq<Receipt>)
    ensures var avg := Summarize(id, history).avgLatencyMs;
            && (avg.None? <==> forall r :: r in history && r.sellerId == id ==> r.latencyMs.None?)
            && (avg.Some? ==> Deviation(Latencies(Relevant(id, history)), avg.value) == 0.0)
  {
    var latencies := Latencies(Relevant(id, history));
    LatenciesEmptyIff(Relevant(id, history));
    if latencies != [] {
      MeanBalances(latencies);
    }
  }

  lemma MeanBalances(latencies: seq<int>)
    requires latencies != []
    ensures Deviation(latencies, Sum(latencies) as real / |latencies| as real) == 0.0
  {
    var n, v := |latencies| as real, Sum(latencies) as real;
    DeviationIsSum(latencies, v / n);
    assert n * (v / n) == v;
  }

  lemma {:induction false} LatenciesEmptyIff(rs: seq<Receipt>)
    ensures Latencies(rs) == [] <==> forall r :: r in rs ==> r.latencyMs.None?
  {
    if rs != [] {
      LatenciesEmptyIff(rs[1..]);
      assert forall r :: r in rs <==> r == rs[0] || r in rs[1..];
    }
  }

  /** A score is its raw value to the nearest hundredth. */
  lemma ScoreIsNearestHundredth(id: string, history: seq<Receipt>, c: Config)
    requires Calls(id, history) > 0
    ensures var score := Evaluate(id, history, c).score;
            && -0.005 <= score - Raw(id, history, c) <= 0.005
            && exists cents: int :: score == Hundredths(cents)
  {
    var raw := Raw(id, history, c);
    var cents := RoundHalfEven(raw * 100.0);
    assert Evaluate(id, history, c).score == Hundredths(cents);
    assert -0.5 <= cents as real - raw * 100.0 <= 0.5;
  }

  function Hundredths(cents: int): real {
    cents as real / 100.0
  }

  /** An untried seller gets the cold-start score and no blacklisting. */
  lemma UntriedEvaluation(id: string, history: seq<Receipt>, c: Config)
    requires Calls(id, history) == 0
    ensures Evaluate(id, history, c).score == c.coldStartScore && !Blacklisted(id, history, c)
  {
  }

  /** The number of a seller's records with a mark. */
  function Marked(id: string, history: seq<Receipt>, f: Flag): nat {
    |Filter(history, (r: Receipt) => r.sellerId == id && Has(r, f))|
  }

  lemma {:induction false} TallyIsMarked(id: string, history: seq<Receipt>, f: Flag)
    ensures Tally(Relevant(id, history), f) == Marked(id, history, f)
  {
    if history != [] {
      TallyIsMarked(id, history[1..], f);
      var rest := Relevant(id, history[1..]);
      assert history[0].sellerId == id ==> ([history[0]] + rest)[1..] == rest;
    }
  }

  lemma RatesAreMarked(id: string, history: seq<Receipt>)
    requires Calls(id, history) > 0
    ensures var (s, n) := (Summarize(id, history), Calls(id, history));
            && s.totalCalls == n
            && s.passRate == Marked(id, history, Validated) as real / n as real
            && s.successRate == Marked(id, history, Succeeded) as real / n as real
  {
    TallyIsMarked(id, history, Validated);
    TallyIsMarked(id, history, Succeeded);
  }

  /** The seller's record, its score aside, condemns it: too few of its calls validated, or succeeded. */
  predicate TooManyFailures(s: Stats, c: Config) {
    s.passRate < c.minPassRate || s.successRate < c.minSuccessRate
  }

  lemma BlacklistClauses(id: string, history: seq<Receipt>, c: Config)
    ensures var n := Calls(id, history);
            Blacklisted(id, history, c) <==>
              && n > 0 && n >= c.minSamplesForBlacklist
              && (TooManyFailures(Summarize(id, history), c) || Evaluate(id, history, c).score < c.blacklistScore)
  {
  }

  /**
   * A seller is blacklisted exactly when it has enough samples and too small a share of them validated,
   * or succeeded, or its score is too low.
   */
  lemma BlacklistedIff(id: string, history: seq<Receipt>, c: Config)
    ensures var n := Calls(id, history);
            Blacklisted(id, history, c) <==>
              && n > 0 && n >= c.minSamplesForBlacklist
              && (|| Marked(id, history, Validated) as real / n as real < c.minPassRate
                  || Marked(id, history, Succeeded) as real / n as real < c.minSuccessRate
                  || Evaluate(id, history, c).score < c.blacklistScore)
  {
    BlacklistClauses(id, history, c);
    if Calls(id, history) > 0 {
      RatesAreMarked(id, history);
    }
  }

  const DEFAULT_STRATEGY := Config(2000, 5000, 3, 45.0, 0.5, 0.5, 55.0)

  /** The score of a seller with a single record, before rounding. */
  lemma SingleRecordScore(r: Receipt, c: Config)
    requires 0 <= r.payout <= r.maxPrice && 0 < r.maxPrice
    ensures Raw(r.sellerId, [r], c)
         == 40.0 * Indicator(r.validationPassed) + 20.0 * Indicator(r.success) - 15.0 * Indicator(r.disputed)
            + 15.0 * (r.payout as real / r.maxPrice as real)
            + (if r.latencyMs.None? then 12.5
               else if r.latencyMs.value <= c.targetLatencyMs then 25.0
               else 25.0 * LatencyScore(Some(r.latencyMs.value as real), c))
  {
    assert Relevant(r.sellerId, [r]) == [r];
    RawIsMean(r.sellerId, [r], c);
    PointsOfOne(r);
    Fraction(r.payout as real, r.maxPrice as real);
    LatencyOfOne(r);
  }

  lemma PointsOfOne(r: Receipt)
    ensures SumOfPoints([r]) / 1.0 == Points(r)
  {
    PointsAround([], r, []);
    assert [] + [r] + [] == [r];
    assert SumOfPoints([]) == 0.0;
  }

  lemma LatencyOfOne(r: Receipt)
    ensures Summarize(r.sellerId, [r]).avgLatencyMs
         == if r.latencyMs.None? then None else Some(r.latencyMs.value as real)
  {
    assert Relevant(r.sellerId, [r]) == [r];
    LatenciesAround([], r, []);
    assert [] + [r] + [] == [r];
    if r.latencyMs.Some? {
      assert Latencies([r]) == [r.latencyMs.value] && Sum([r.latencyMs.value]) == r.latencyMs.value;
      assert r.latencyMs.value as real / 1.0 == r.latencyMs.value as real;
    }
  }

  lemma SingleEvaluation(r: Receipt, c: Config, cents: int)
    requires 0 <= r.payout <= r.maxPrice && 0 < r.maxPrice && Raw(r.sellerId, [r], c) == Hundredths(cents)
    ensures Calls(r.sellerId, [r]) == 1 && Evaluate(r.sellerId, [r], c).score == Hundredths(cents)
    ensures c.minSamplesForBlacklist <= 1 ==>
              (Blacklisted(r.sellerId, [r], c) <==>
                 || Indicator(r.validationPassed) < c.minPassRate || Indicator(r.success) < c.minSuccessRate
                 || Hundredths(cents) < c.blacklistScore)
  {
    assert Relevant(r.sellerId, [r]) == [r];
    assert Hundredths(cents) * 100.0 == cents as real;
    assert RoundHalfEven(cents as real) == cents;
    BlacklistClauses(r.sellerId, [r], c);
    RateOfOne(r, Validated);
    RateOfOne(r, Succeeded);
  }

  lemma RateOfOne(r: Receipt, f: Flag)
    ensures Rate([r], f) == if Has(r, f) then 1.0 else 0.0
  {
    assert Tally([r], f) == if Has(r, f) then 1 else 0;
  }

  /** Each clause condemns on its own: here a single record, with the default thresholds or one of them moved. */
  lemma EachClauseAlone(id: string)
    ensures var c := DEFAULT_STRATEGY.(minSamplesForBlacklist := 1);
            var good := Receipt(id, Some(1000), true, true, 100, 100, false);
            && !Blacklisted(id, [good], c)
            && (var h := [good.(validationPassed := false)]; Evaluate(id, h, c).score == 60.0 && Blacklisted(id, h, c))
            && (var h := [good.(success := false)]; Evaluate(id, h, c).score == 80.0 && Blacklisted(id, h, c))
            && (var h := [good.(payout := 0, disputed := true)];
                Evaluate(id, h, c).score == 70.0 && !Blacklisted(id, h, c)
                && Blacklisted(id, h, c.(blacklistScore := 71.0)))
  {
    var c := DEFAULT_STRATEGY.(minSamplesForBlacklist := 1);
    var good := Receipt(id, Some(1000), true, true, 100, 100, false);
    ExactScore(good, c, 10000);
    ExactScore(good.(validationPassed := false), c, 6000);
    ExactScore(good.(success := false), c, 8000);
    ExactScore(good.(payout := 0, disputed := true), c, 7000);
    ExactScore(good.(payout := 0, disputed := true), c.(blacklistScore := 71.0), 7000);
  }

  /** A fast single record paid nothing or in full, in cents of a point. */
  lemma ExactScore(r: Receipt, c: Config, cents: int)
    requires r.latencyMs.Some? && r.latencyMs.value <= c.targetLatencyMs
    requires 0 < r.maxPrice && r.payout in {0, r.maxPrice}
    requires cents == 2500 + (if r.validationPassed then 4000 else 0) + (if r.success then 2000 else 0)
                      + (if r.payout > 0 then 1500 else 0) - (if r.disputed then 1500 else 0)
    ensures Calls(r.sellerId, [r]) == 1 && Evaluate(r.sellerId, [r], c).score == Hundredths(cents)
    ensures c.minSamplesForBlacklist <= 1 ==>
              (Blacklisted(r.sellerId, [r], c) <==>
                 || Indicator(r.validationPassed) < c.minPassRate || Indicator(r.success) < c.minSuccessRate
                 || Hundredths(cents) < c.blacklistScore)
  {
    SingleRecordScore(r, c);
    Fraction(r.payout as real, r.maxPrice as real);
    SingleEvaluation(r, c, cents);
  }

  /** Validating counts twice as much as succeeding: of two otherwise equal sellers the validated one is picked. */
  lemma ValidatedBeatsSucceeded()
    ensures var (v, s) := ("validated", "succeeded");
            var history := [Receipt(v, Some(1000), true, false, 0, 100_000, false),
                            Receipt(s, Some(1000), false, true, 0, 100_000, false)];
            && Evaluate(v, history, DEFAULT_STRATEGY).score == 65.0
            && Evaluate(s, history, DEFAULT_STRATEGY).score == 45.0
            && PickBestSeller([s, v], history, DEFAULT_STRATEGY).Some?
            && PickBestSeller([s, v], history, DEFAULT_STRATEGY).value.sellerId == v
  {
    var (v, s) := ("validated", "succeeded");
    assert v[0] != s[0];
    var rv := Receipt(v, Some(1000), true, false, 0, 100_000, false);
    var rs := Receipt(s, Some(1000), false, true, 0, 100_000, false);
    var history := [rv, rs];
    ExactScore(rv, DEFAULT_STRATEGY, 6500);
    ExactScore(rs, DEFAULT_STRATEGY, 4500);
    OthersUnaffected(v, [rv], rs, DEFAULT_STRATEGY);
    assert [rv] + [rs] == history;
    assert Relevant(s, history) == [rs] == Relevant(s, [rs]);
    PickBestMeaning([s, v], history, DEFAULT_STRATEGY);
    BlacklistClauses(v, history, DEFAULT_STRATEGY);
    BlacklistClauses(s, history, DEFAULT_STRATEGY);
  }

  /** No measured latency scores half, one within the target in full. */
  lemma LatencyWithinTarget(c: Config, x: real)
    ensures LatencyScore(None, c) == 0.5
    ensures x <= c.targetLatencyMs as real ==> LatencyScore(Some(x), c) == 1.0
  {
  }

  /** Above the target the score falls in a straight line to 0 at the degraded threshold, but not below 0.4. */
  lemma LatencySlope(c: Config, f: real, x: real)
    requires c.targetLatencyMs < c.degradedLatencyMs && 0.0 < f < 1.0
    requires x - c.targetLatencyMs as real == f * (c.degradedLatencyMs - c.targetLatencyMs) as real
    ensures LatencyScore(Some(x), c) == if f <= 0.6 then 1.0 - f else 0.4
  {
    var span := (c.degradedLatencyMs - c.targetLatencyMs) as real;
    assert span == Max(1, c.degradedLatencyMs - c.targetLatencyMs) as real >= 1.0;
    assert span == c.degradedLatencyMs as real - c.targetLatencyMs as real;
    Part(f, span, x - c.targetLatencyMs as real);
    assert c.targetLatencyMs as real < x < c.degradedLatencyMs as real;
  }

  lemma Part(f: real, span: real, rise: real)
    requires 0.0 < f < 1.0 && span > 0.0 && rise == f * span
    ensures 0.0 < rise && rise < span && rise / span == f
  {
    Ratio(f, span);
    assert rise / span == f;
    assert !(rise >= span);
  }

  /** From there on it is the degraded threshold's share of the latency, but not below 0.1. */
  lemma LatencyTail(c: Config, share: real, x: real)
    requires 0.0 < c.degradedLatencyMs as real <= x && c.targetLatencyMs as real < x
    requires share * x == c.degradedLatencyMs as real
    ensures LatencyScore(Some(x), c) == if share >= 0.1 then share else 0.1
  {
    Ratio(share, x);
    assert c.degradedLatencyMs as real / x == share;
  }
}
