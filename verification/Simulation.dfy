/**
  The pre-flight fee simulation, in exact arithmetic.  Amounts, fees and percentages are reals;
  `Math.round` rounds halves up.
 */
module Simulation {
  import opened Options

  datatype Action = Settlement | Routing | Conversion | EscrowRelease

  datatype Provider =
    | PayPal | BankWire | UsdcArbitrum | UsdcOptimism | Bep20 | Payoneer | Attijari | BankingCircle
    | OtherProvider

  datatype Threshold = Threshold(maxFeePct: real, maxGas: real)

  datatype Schedule = Schedule(fixedFee: real, pctFee: real, gas: real)

  const SAFETY_LIMIT := 1_000_000.0

  function ThresholdOf(action: Action): Threshold {
    match action
    case Settlement => Threshold(5.0, 50.0)
    case Routing => Threshold(3.0, 25.0)
    case Conversion => Threshold(2.0, 15.0)
    case EscrowRelease => Threshold(1.0, 10.0)
  }

  /** The fee schedule, with the conservative default for a provider that is absent or not listed. */
  function ScheduleOf(provider: Provider): Schedule {
    match provider
    case PayPal => Schedule(0.30, 2.9, 0.0)
    case BankWire => Schedule(15.0, 0.0, 0.0)
    case UsdcArbitrum => Schedule(0.10, 0.0, 0.50)
    case UsdcOptimism => Schedule(0.05, 0.0, 0.30)
    case Bep20 => Schedule(0.01, 0.0, 0.10)
    case Payoneer => Schedule(1.0, 2.0, 0.0)
    case Attijari => Schedule(5.0, 0.5, 0.0)
    case BankingCircle => Schedule(10.0, 0.0, 0.0)
    case OtherProvider => Schedule(1.0, 3.0, 5.0)
  }

  datatype Request = Request(action: Action, amount: real, provider: Provider)

  datatype Reason =
    | FeeTooHigh | GasTooHigh | FeeExceedsHalf | NetBelowCent | GasExceedsAmount | NegativeNet
    | NotPositive | AboveSafetyLimit

  datatype Result = Result(approved: bool, fee: real, net: real, gas: real, reason: Option<Reason>)

  function Fee(r: Request): real {
    var s := ScheduleOf(r.provider);
    s.fixedFee + r.amount * s.pctFee / 100.0
  }

  function Net(r: Request): real {
    r.amount - Fee(r) - ScheduleOf(r.provider).gas
  }

  /** `Math.round(x * 100) / 100` */
  function Cents(x: real): real {
    (x * 100.0 + 0.5).Floor as real / 100.0
  }

  lemma CentsIsClose(x: real) returns (cents: int)
    ensures -0.005 < Cents(x) - x <= 0.005
    ensures Cents(x) == cents as real / 100.0
  {
    cents := (x * 100.0 + 0.5).Floor;
  }

  lemma CentsOfCents(c: int)
    ensures Cents(c as real / 100.0) == c as real / 100.0
  {
    assert (c as real / 100.0) * 100.0 == c as real;
    assert (c as real + 0.5).Floor == c;
  }

  method SimulatePipeline(r: Request) returns (result: Result)
    ensures result.approved == Approved(r) && result.reason == FirstFailure(r)
    ensures result.fee == Cents(Fee(r)) && result.net == Cents(Net(r))
    ensures result.gas == Cents(ScheduleOf(r.provider).gas)
  {
    var threshold := ThresholdOf(r.action);
    var schedule := ScheduleOf(r.provider);
    var fee := schedule.fixedFee + r.amount * schedule.pctFee / 100.0;
    var gas := schedule.gas;
    var net := r.amount - fee - gas;
    var reason: Option<Reason> := None;

    var feePct := if r.amount > 0.0 then fee / r.amount * 100.0 else 100.0;
    if feePct > threshold.maxFeePct {
      reason := Some(FeeTooHigh);
    }
    if gas > threshold.maxGas {
      reason := if reason.Some? then reason else Some(GasTooHigh);
    }
    if reason.None? {
      if r.amount > 0.0 && fee / r.amount > 0.5 {
        reason := Some(FeeExceedsHalf);
      } else if net < 0.01 {
        reason := Some(NetBelowCent);
      } else if gas > r.amount {
        reason := Some(GasExceedsAmount);
      }
    }
    if reason.None? && net < 0.0 {
      reason := Some(NegativeNet);
    }
    if r.amount <= 0.0 {
      reason := Some(NotPositive);
    }
    if r.amount > SAFETY_LIMIT {
      reason := if reason.Some? then reason else Some(AboveSafetyLimit);
    }
    result := Result(reason.None?, Cents(fee), Cents(net), Cents(gas), reason);
  }

  /** The checks of the pipeline, together. */
  predicate Approved(r: Request) {
    && 0.0 < r.amount <= SAFETY_LIMIT
    && Fee(r) / r.amount * 100.0 <= ThresholdOf(r.action).maxFeePct
    && ScheduleOf(r.provider).gas <= ThresholdOf(r.action).maxGas
    && Fee(r) / r.amount <= 0.5
    && Net(r) >= 0.01
    && ScheduleOf(r.provider).gas <= r.amount
  }

  /** The reason reported: the amount's sign first, then the first check that fails. */
  function FirstFailure(r: Request): Option<Reason> {
    var s, t := ScheduleOf(r.provider), ThresholdOf(r.action);
    if r.amount <= 0.0 then Some(NotPositive)
    else if Fee(r) / r.amount * 100.0 > t.maxFeePct then Some(FeeTooHigh)
    else if s.gas > t.maxGas then Some(GasTooHigh)
    else if Fee(r) / r.amount > 0.5 then Some(FeeExceedsHalf)
    else if Net(r) < 0.01 then Some(NetBelowCent)
    else if s.gas > r.amount then Some(GasExceedsAmount)
    else if r.amount > SAFETY_LIMIT then Some(AboveSafetyLimit)
    else None
  }

  /** With the thresholds and schedules as they are, half of the checks never decide. */
  lemma ReasonsGiven(r: Request)
    ensures FirstFailure(r)
         in {None, Some(NotPositive), Some(FeeTooHigh), Some(NetBelowCent), Some(AboveSafetyLimit)}
  {
    ScheduleFacts(r.provider, r.action);
    if r.amount > 0.0 {
      SmallFeeImpliesHalf(r, ThresholdOf(r.action).maxFeePct);
    }
  }

  /** Which reason is given, in products: the sign first, then the fee share, the last cent and the limit. */
  lemma ReasonIff(r: Request)
    ensures var failure, share := FirstFailure(r), ThresholdOf(r.action).maxFeePct * r.amount / 100.0;
            && (failure == Some(NotPositive) <==> r.amount <= 0.0)
            && (failure == Some(FeeTooHigh) <==> r.amount > 0.0 && Fee(r) > share)
            && (failure == Some(NetBelowCent) <==> r.amount > 0.0 && Fee(r) <= share && Net(r) < 0.01)
            && (failure == Some(AboveSafetyLimit)
                <==> r.amount > 1_000_000.0 && Fee(r) <= share && Net(r) >= 0.01)
            && (failure == None <==> 0.0 < r.amount <= 1_000_000.0 && Fee(r) <= share && Net(r) >= 0.01)
  {
    ReasonsGiven(r);
    if r.amount > 0.0 {
      QuotientBound(Fee(r), r.amount, ThresholdOf(r.action).maxFeePct / 100.0);
    }
  }

  // ---------------------------------------------------------------- the approved amounts

  function Max(a: real, b: real): real {
    if a >= b then a else b
  }

  /**
    The least amount approved for an action and a provider: large enough for the fixed fee to fit under
    the fee percentage, and for a cent to remain.  None, when the provider's percentage alone reaches it.
   */
  function LeastApproved(action: Action, provider: Provider): Option<real> {
    var s, limit := ScheduleOf(provider), ThresholdOf(action).maxFeePct;
    if s.pctFee >= limit then None
    else Some(Max(100.0 * s.fixedFee / (limit - s.pctFee), (0.01 + s.fixedFee + s.gas) / (1.0 - s.pctFee / 100.0)))
  }

  lemma QuotientBound(x: real, y: real, c: real)
    requires y > 0.0
    ensures x / y <= c <==> x <= c * y
  {
    assert (x / y) * y == x;
    if x / y <= c {
      assert (c - x / y) * y >= 0.0;
    } else {
      assert (x / y - c) * y > 0.0;
    }
  }

  lemma FeeBound(r: Request, limit: real)
    requires r.amount > 0.0
    ensures var s := ScheduleOf(r.provider);
            Fee(r) / r.amount * 100.0 <= limit <==> 100.0 * s.fixedFee <= (limit - s.pctFee) * r.amount
  {
    var s := ScheduleOf(r.provider);
    QuotientBound(Fee(r), r.amount, limit / 100.0);
    assert (limit - s.pctFee) * r.amount == limit * r.amount - s.pctFee * r.amount;
    assert (limit / 100.0) * r.amount == limit * r.amount / 100.0;
  }

  lemma ScheduleFacts(provider: Provider, action: Action)
    ensures var s, t := ScheduleOf(provider), ThresholdOf(action);
            && s.fixedFee > 0.0 && 0.0 <= s.pctFee <= 3.0 && 0.0 <= s.gas <= t.maxGas && 0.0 < t.maxFeePct <= 5.0
  {
  }

  /** Under a fee percentage above the provider's, only the fixed fee and the last cent bound the amount below. */
  lemma ApprovedIff(r: Request, limit: real)
    requires r.amount > 0.0 && limit == ThresholdOf(r.action).maxFeePct && ScheduleOf(r.provider).pctFee < limit
    ensures var s := ScheduleOf(r.provider);
            Approved(r) <==> && 100.0 * s.fixedFee / (limit - s.pctFee) <= r.amount <= SAFETY_LIMIT
                             && (0.01 + s.fixedFee + s.gas) / (1.0 - s.pctFee / 100.0) <= r.amount
  {
    var s := ScheduleOf(r.provider);
    ScheduleFacts(r.provider, r.action);
    FeeBound(r, limit);
    NetBound(r);
    QuotientBound(100.0 * s.fixedFee, limit - s.pctFee, r.amount);
    SmallFeeImpliesHalf(r, limit);
  }

  /** A transfer is approved exactly between the least amount and the safety limit. */
  lemma {:induction false} ApprovedIsAnInterval(r: Request)
    ensures Approved(r)
       <==> && LeastApproved(r.action, r.provider).Some?
            && LeastApproved(r.action, r.provider).value <= r.amount <= SAFETY_LIMIT
  {
    var s, limit := ScheduleOf(r.provider), ThresholdOf(r.action).maxFeePct;
    ScheduleFacts(r.provider, r.action);
    if s.pctFee >= limit {
      if r.amount > 0.0 {
        FeeBound(r, limit);
        assert (limit - s.pctFee) * r.amount <= 0.0;
      }
    } else if r.amount > 0.0 {
      ApprovedIff(r, limit);
    } else {
      QuotientBound(100.0 * s.fixedFee, limit - s.pctFee, 0.0);
    }
  }

  lemma NetBound(r: Request)
    ensures var s := ScheduleOf(r.provider);
            Net(r) >= 0.01 <==> (0.01 + s.fixedFee + s.gas) / (1.0 - s.pctFee / 100.0) <= r.amount
  {
    var s := ScheduleOf(r.provider);
    ScheduleFacts(r.provider, r.action);
    var share := 1.0 - s.pctFee / 100.0;
    QuotientBound(0.01 + s.fixedFee + s.gas, share, r.amount);
    assert r.amount * share == r.amount - r.amount * s.pctFee / 100.0;
  }

  lemma SmallFeeImpliesHalf(r: Request, limit: real)
    requires r.amount > 0.0 && limit <= 5.0
    ensures Fee(r) / r.amount * 100.0 <= limit ==> Fee(r) / r.amount <= 0.5
    ensures Net(r) >= 0.01 ==> ScheduleOf(r.provider).gas <= r.amount
  {
    ScheduleFacts(r.provider, r.action);
    assert r.amount * ScheduleOf(r.provider).pctFee >= 0.0;
  }

  /** Approval is upward closed in the amount, up to the safety limit. */
  lemma LargerAmountsStayApproved(r: Request, larger: real)
    requires Approved(r) && r.amount <= larger <= SAFETY_LIMIT
    ensures Approved(r.(amount := larger))
  {
    ApprovedIsAnInterval(r);
    ApprovedIsAnInterval(r.(amount := larger));
  }

  // ---------------------------------------------------------------- chains

  function ExactNet(requests: seq<Request>): real {
    if requests == [] then 0.0
    else ExactNet(requests[..|requests| - 1]) + Net(requests[|requests| - 1])
  }

  function RoundedNet(requests: seq<Request>): real {
    if requests == [] then 0.0
    else RoundedNet(requests[..|requests| - 1]) + Cents(Net(requests[|requests| - 1]))
  }

  lemma {:induction false} RoundedIsClose(requests: seq<Request>) returns (cents: int)
    ensures -0.005 * |requests| as real <= RoundedNet(requests) - ExactNet(requests) <= 0.005 * |requests| as real
    ensures RoundedNet(requests) == cents as real / 100.0
  {
    if requests == [] {
      cents := 0;
    } else {
      var n := |requests| - 1;
      var before := RoundedIsClose(requests[..n]);
      var last := CentsIsClose(Net(requests[n]));
      cents := before + last;
      assert 0.005 * |requests| as real == 0.005 * n as real + 0.005;
    }
  }

  lemma OneMoreNet(requests: seq<Request>, k: nat, total: real, net: real)
    requires k < |requests| && total == RoundedNet(requests[..k]) && net == Cents(Net(requests[k]))
    ensures total + net == RoundedNet(requests[..k + 1])
  {
    assert requests[..k + 1][..k] == requests[..k];
  }

  /** A sum of rounded nets is a number of cents: rounding it again changes nothing. */
  lemma TotalInCents(requests: seq<Request>, total: real)
    requires total == RoundedNet(requests)
    ensures Cents(total) == total
    ensures -0.005 * |requests| as real <= total - ExactNet(requests) <= 0.005 * |requests| as real
  {
    var cents := RoundedIsClose(requests);
    CentsOfCents(cents);
  }

  /** The number of requests simulated: all of them, or up to and including the first that is not approved. */
  function Reach(requests: seq<Request>): (n: nat)
    ensures n <= |requests|
    ensures forall k | 0 <= k < n - 1 :: Approved(requests[k])
    ensures n < |requests| ==> n > 0 && !Approved(requests[n - 1])
  {
    if requests == [] then 0
    else if !Approved(requests[0]) then 1
    else 1 + Reach(requests[1..])
  }

  method SimulateSettlementChain(requests: seq<Request>)
    returns (allApproved: bool, results: seq<Result>, totalNet: real)
    ensures allApproved <==> forall k | 0 <= k < |requests| :: Approved(requests[k])
    ensures |results| == Reach(requests)
    ensures forall k | 0 <= k < |results| ::
              results[k].approved == Approved(requests[k]) && results[k].net == Cents(Net(requests[k]))
    ensures totalNet == RoundedNet(requests[..|results|])
    ensures -0.005 * |results| as real <= totalNet - ExactNet(requests[..|results|]) <= 0.005 * |results| as real
  {
    results := [];
    totalNet := 0.0;
    var k := 0;
    while k < |requests|
      invariant 0 <= k <= |requests| && |results| == k
      invariant forall j | 0 <= j < k ::
                  results[j].approved && Approved(requests[j]) && results[j].net == Cents(Net(requests[j]))
      invariant totalNet == RoundedNet(requests[..k])
    {
      var result := SimulatePipeline(requests[k]);
      OneMoreNet(requests, k, totalNet, result.net);
      results := results + [result];
      totalNet := totalNet + result.net;
      k := k + 1;
      if !result.approved {
        ReachOfPrefix(requests, k);
        TotalInCents(requests[..k], totalNet);
        return false, results, totalNet;
      }
    }
    assert requests[..k] == requests;
    ReachOfPrefix(requests, k);
    TotalInCents(requests, totalNet);
    return true, results, Cents(totalNet);
  }

  lemma {:induction false} ReachOfPrefix(requests: seq<Request>, n: nat)
    requires n <= |requests| && forall k | 0 <= k < n - 1 :: Approved(requests[k])
    requires n < |requests| || (n > 0 && !Approved(requests[n - 1])) ==> n > 0 && !Approved(requests[n - 1])
    ensures Reach(requests) == n
  {
    if n > 1 {
      ReachOfPrefix(requests[1..], n - 1);
    }
  }

  // ---------------------------------------------------------------- what transfers cost

  /** What the thresholds mean for a fixed fee of fifteen: the least wire each action allows. */
  lemma BankWireAmounts(amount: real)
    ensures Approved(Request(Settlement, amount, BankWire)) <==> 300.0 <= amount <= 1_000_000.0
    ensures Approved(Request(Routing, amount, BankWire)) <==> 500.0 <= amount <= 1_000_000.0
    ensures Approved(Request(Conversion, amount, BankWire)) <==> 750.0 <= amount <= 1_000_000.0
    ensures Approved(Request(EscrowRelease, amount, BankWire)) <==> 1500.0 <= amount <= 1_000_000.0
  {
    BankWireFrom(Settlement, amount, 300.0);
    BankWireFrom(Routing, amount, 500.0);
    BankWireFrom(Conversion, amount, 750.0);
    BankWireFrom(EscrowRelease, amount, 1500.0);
  }

  lemma BankWireFrom(action: Action, amount: real, least: real)
    requires 15.01 <= least == 1500.0 / ThresholdOf(action).maxFeePct
    ensures Approved(Request(action, amount, BankWire)) <==> least <= amount <= 1_000_000.0
  {
    ApprovedIsAnInterval(Request(action, amount, BankWire));
  }

  /** The fee without any amount and for a hundred, and the gas. */
  predicate Costs(action: Action, provider: Provider, fixed: real, hundred: real, gas: real) {
    && Fee(Request(action, 0.0, provider)) == fixed && Fee(Request(action, 100.0, provider)) == hundred
    && ScheduleOf(provider).gas == gas
  }

  lemma CostsOfAHundred(a: Action)
    ensures Costs(a, PayPal, 0.30, 3.20, 0.0) && Costs(a, BankWire, 15.0, 15.0, 0.0)
    ensures Costs(a, UsdcArbitrum, 0.10, 0.10, 0.50) && Costs(a, UsdcOptimism, 0.05, 0.05, 0.30)
    ensures Costs(a, Bep20, 0.01, 0.01, 0.10) && Costs(a, Payoneer, 1.0, 3.0, 0.0)
    ensures Costs(a, Attijari, 5.0, 5.5, 0.0) && Costs(a, BankingCircle, 10.0, 10.0, 0.0)
    ensures Costs(a, OtherProvider, 1.0, 4.0, 5.0)
  {
  }
}
