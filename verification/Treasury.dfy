/**
  Transfer limits under asynchronous interleaving.  Between two awaits a call runs alone; the segments
  of `plan` and `execute` between awaits are the methods below, and the calls that are suspended at an
  await are the object's `calls`.  The velocity window and the approval callback answer as they please.
 */
module Treasury {
  datatype Config = Config(maxPerTransfer: real, maxDaily: real, multiSigThreshold: real)

  /** Where a call is suspended: after its check, before the provider answers, or in the compensation hook. */
  datatype Stage = Checked(capOk: bool, dailyOk: bool) | Sending | Settling(ok: bool)

  datatype Call = Call(amount: real, confirm: bool, stage: Stage)

  datatype Record = Record(amount: real, ok: bool)

  /** `recorded` holds the metric records since the last reset of the daily state. */
  datatype State = State(day: int, used: real, calls: seq<Call>, recorded: seq<Record>)

  datatype Action =
    | Plan(today: int)
    | Begin(amount: real, confirm: bool, today: int)
    | Decide(call: nat, velocityOk: bool, approval: bool)
    | Abandon(call: nat)
    | Paid(call: nat, eventStored: bool)
    | Refused(call: nat)
    | Finish(call: nat)

  const INITIAL := State(-1, 0.0, [], [])

  function Without(calls: seq<Call>, i: nat): seq<Call>
    requires i < |calls|
  {
    calls[..i] + calls[i + 1..]
  }

  function AtDay(s: State, today: int): State {
    if s.day == today then s else s.(day := today, used := 0.0, recorded := [])
  }

  function Step(s: State, action: Action, cfg: Config): State {
    match action
    case Plan(today) => AtDay(s, today)
    case Begin(amount, confirm, today) =>
      var t := AtDay(s, today);
      var gate := Checked(amount <= cfg.maxPerTransfer, t.used + amount <= cfg.maxDaily);
      t.(calls := t.calls + [Call(amount, confirm, gate)])
    case Decide(i, velocityOk, approval) =>
      if i >= |s.calls| || !s.calls[i].stage.Checked? then s
      else if Approves(s.calls[i], velocityOk, approval, cfg) then
        s.(calls := s.calls[i := s.calls[i].(stage := Sending)])
      else s.(calls := Without(s.calls, i))
    case Abandon(i) =>
      if i < |s.calls| && s.calls[i].stage.Sending? then s.(calls := Without(s.calls, i)) else s
    case Paid(i, eventStored) =>
      if i >= |s.calls| || !s.calls[i].stage.Sending? then s
      else
        var t := s.(used := s.used + s.calls[i].amount);
        if eventStored then
          t.(calls := Without(s.calls, i), recorded := s.recorded + [Record(s.calls[i].amount, true)])
        else t.(calls := s.calls[i := s.calls[i].(stage := Settling(true))])
    case Refused(i) =>
      if i < |s.calls| && s.calls[i].stage.Sending?
      then s.(calls := s.calls[i := s.calls[i].(stage := Settling(false))]) else s
    case Finish(i) =>
      if i < |s.calls| && s.calls[i].stage.Settling? then
        s.(calls := Without(s.calls, i),
           recorded := s.recorded + [Record(s.calls[i].amount, s.calls[i].stage.ok)])
      else s
  }

  predicate Approves(call: Call, velocityOk: bool, approval: bool, cfg: Config)
    requires call.stage.Checked?
  {
    && call.confirm && call.stage.capOk && call.stage.dailyOk && velocityOk
    && (call.amount <= cfg.multiSigThreshold || approval)
  }

  function Run(actions: seq<Action>, cfg: Config): State {
    if actions == [] then INITIAL
    else Step(Run(actions[..|actions| - 1], cfg), actions[|actions| - 1], cfg)
  }

  // ---------------------------------------------------------------- the object

  class TreasuryEdge {
    const cfg: Config
    var day: int
    var used: real
    var calls: seq<Call>
    var recorded: seq<Record>

    constructor (cfg: Config)
      ensures this.cfg == cfg && Abs() == INITIAL
    {
      this.cfg := cfg;
      day, used, calls, recorded := -1, 0.0, [], [];
    }

    ghost function Abs(): State
      reads this
    {
      State(day, used, calls, recorded)
    }

    method StartPlan(today: int)
      modifies this
      ensures Abs() == Step(old(Abs()), Plan(today), cfg)
    {
      if day != today {
        day, used, recorded := today, 0.0, [];
      }
    }

    method StartExecute(amount: real, confirm: bool, today: int)
      modifies this
      ensures Abs() == Step(old(Abs()), Begin(amount, confirm, today), cfg)
    {
      StartPlan(today);
      var capOk := amount <= cfg.maxPerTransfer;
      var dailyOk := used + amount <= cfg.maxDaily;
      calls := calls + [Call(amount, confirm, Checked(capOk, dailyOk))];
    }

    method AfterGates(i: nat, velocityOk: bool, approval: bool)
      requires i < |calls| && calls[i].stage.Checked?
      modifies this
      ensures Abs() == Step(old(Abs()), Decide(i, velocityOk, approval), cfg)
    {
      var call := calls[i];
      var multiSigNeeded := call.amount > cfg.multiSigThreshold;
      var multiSigOk := !multiSigNeeded || approval;
      var allOk := call.stage.capOk && call.stage.dailyOk && velocityOk && multiSigOk;
      if call.confirm && allOk {
        calls := calls[i := call.(stage := Sending)];
      } else {
        calls := calls[..i] + calls[i + 1..];
      }
    }

    method DependencyMissing(i: nat)
      requires i < |calls| && calls[i].stage.Sending?
      modifies this
      ensures Abs() == Step(old(Abs()), Abandon(i), cfg)
    {
      calls := calls[..i] + calls[i + 1..];
    }

    /** The provider accepted; storing the signed event either succeeds or throws into the catch block. */
    method ProviderAccepted(i: nat, eventStored: bool)
      requires i < |calls| && calls[i].stage.Sending?
      modifies this
      ensures Abs() == Step(old(Abs()), Paid(i, eventStored), cfg)
    {
      var call := calls[i];
      used := used + call.amount;
      if eventStored {
        calls := calls[..i] + calls[i + 1..];
        recorded := recorded + [Record(call.amount, true)];
      } else {
        calls := calls[i := call.(stage := Settling(true))];
      }
    }

    method ProviderRefused(i: nat)
      requires i < |calls| && calls[i].stage.Sending?
      modifies this
      ensures Abs() == Step(old(Abs()), Refused(i), cfg)
    {
      calls := calls[i := calls[i].(stage := Settling(false))];
    }

    method AfterCompensation(i: nat)
      requires i < |calls| && calls[i].stage.Settling?
      modifies this
      ensures Abs() == Step(old(Abs()), Finish(i), cfg)
    {
      var call := calls[i];
      calls := calls[..i] + calls[i + 1..];
      recorded := recorded + [Record(call.amount, call.stage.ok)];
    }
  }

  // ---------------------------------------------------------------- sums over calls

  /** Uncommitted: may still be added to the daily total.  Unrecorded: added to it but not yet to the metrics. */
  datatype Measure = Uncommitted | Unrecorded

  function Weight(call: Call, measure: Measure): real {
    match measure
    case Uncommitted =>
      (match call.stage
       case Checked(capOk, dailyOk) => if capOk && dailyOk && call.confirm then call.amount else 0.0
       case Sending => call.amount
       case Settling(_) => 0.0)
    case Unrecorded => if call.stage == Settling(true) then call.amount else 0.0
  }

  function Total(calls: seq<Call>, measure: Measure): real {
    if calls == [] then 0.0
    else Total(calls[..|calls| - 1], measure) + Weight(calls[|calls| - 1], measure)
  }

  lemma {:induction false} TotalOfConcat(a: seq<Call>, b: seq<Call>, measure: Measure)
    ensures Total(a + b, measure) == Total(a, measure) + Total(b, measure)
  {
    if b == [] {
      assert a + b == a;
    } else {
      TotalOfConcat(a, b[..|b| - 1], measure);
      assert (a + b)[..|a + b| - 1] == a + b[..|b| - 1];
    }
  }

  lemma TotalOfSnoc(calls: seq<Call>, c: Call, measure: Measure)
    ensures Total(calls + [c], measure) == Total(calls, measure) + Weight(c, measure)
  {
    assert (calls + [c])[..|calls|] == calls;
  }

  lemma TotalWithout(calls: seq<Call>, i: nat, measure: Measure)
    requires i < |calls|
    ensures Total(Without(calls, i), measure) == Total(calls, measure) - Weight(calls[i], measure)
  {
    var above, below := calls[..i], calls[i + 1..];
    assert calls == (above + [calls[i]]) + below;
    TotalOfConcat(above + [calls[i]], below, measure);
    TotalOfSnoc(above, calls[i], measure);
    TotalOfConcat(above, below, measure);
  }

  lemma TotalUpdated(calls: seq<Call>, i: nat, c: Call, measure: Measure)
    requires i < |calls|
    ensures Total(calls[i := c], measure) == Total(calls, measure) - Weight(calls[i], measure) + Weight(c, measure)
  {
    TotalWithout(calls, i, measure);
    TotalWithout(calls[i := c], i, measure);
    assert Without(calls[i := c], i) == Without(calls, i);
  }

  function Positive(x: real): real {
    if x > 0.0 then x else 0.0
  }

  function Min(x: real, y: real): real {
    if x <= y then x else y
  }

  /** The largest single amount that can pass both checks: they bound it by the transfer cap and by the daily cap. */
  function Slot(cfg: Config): (slot: real)
    ensures slot >= 0.0
  {
    Positive(Min(cfg.maxPerTransfer, cfg.maxDaily))
  }

  /** An amount that may still be added fits into a slot. */
  predicate CallCapped(c: Call, cfg: Config) {
    && c.amount >= 0.0
    && Weight(c, Uncommitted) <= Slot(cfg)
    && (c.stage.Checked? && c.stage.capOk && c.stage.dailyOk ==> c.amount <= Slot(cfg))
  }

  ghost predicate Capped(calls: seq<Call>, cfg: Config) {
    forall i | 0 <= i < |calls| :: CallCapped(calls[i], cfg)
  }

  /** `n` transfers of the largest possible size. */
  ghost function Slots(n: nat, cfg: Config): (total: real)
    ensures total >= 0.0
  {
    if n == 0 then 0.0 else Slots(n - 1, cfg) + Slot(cfg)
  }

  lemma SlotsGrow(m: nat, n: nat, cfg: Config)
    requires m <= n
    ensures Slots(m, cfg) <= Slots(n, cfg)
  {
  }

  lemma SlotsAreMultiples(n: nat, cfg: Config)
    ensures Slots(n, cfg) == n as real * Slot(cfg)
  {
    if n > 0 {
      SlotsAreMultiples(n - 1, cfg);
      assert n as real * Slot(cfg) == (n - 1) as real * Slot(cfg) + Slot(cfg);
    }
  }

  lemma {:induction false} CappedTotal(calls: seq<Call>, cfg: Config)
    requires Capped(calls, cfg)
    ensures 0.0 <= Total(calls, Uncommitted) <= Slots(|calls|, cfg)
  {
    if calls != [] {
      var n := |calls| - 1;
      CappedTotal(calls[..n], cfg);
      assert CallCapped(calls[n], cfg);
    }
  }

  // ---------------------------------------------------------------- the daily limit

  /** What has been used today, together with everything approved that may still be added. */
  ghost function Exposure(s: State): real {
    s.used + Total(s.calls, Uncommitted)
  }

  ghost function Limit(k: nat, cfg: Config): real
    requires k > 0
  {
    Positive(cfg.maxDaily) + Slots(k - 1, cfg)
  }

  /** At most `k` calls are in flight at any time, and no amount is negative. */
  ghost predicate Admissible(actions: seq<Action>, k: nat, cfg: Config) {
    && (forall n | 0 <= n <= |actions| :: |Run(actions[..n], cfg).calls| <= k)
    && (forall a <- actions | a.Begin? :: a.amount >= 0.0)
  }

  ghost predicate WithinLimit(s: State, k: nat, cfg: Config)
    requires k > 0
  {
    s.used >= 0.0 && Capped(s.calls, cfg) && Exposure(s) <= Limit(k, cfg)
  }

  /** A call that passes its check adds at most what the daily cap still allows. */
  lemma CheckedCallKeepsLimit(s: State, call: Call, k: nat, cfg: Config)
    requires |s.calls| < k && WithinLimit(s, k, cfg) && call.amount >= 0.0
    requires call.stage == Checked(call.amount <= cfg.maxPerTransfer, s.used + call.amount <= cfg.maxDaily)
    ensures WithinLimit(s.(calls := s.calls + [call]), k, cfg)
  {
    TotalOfSnoc(s.calls, call, Uncommitted);
    CappedTotal(s.calls, cfg);
    SlotsGrow(|s.calls|, k - 1, cfg);
    assert CallCapped(call, cfg);
  }

  lemma BeginKeepsLimit(s: State, action: Action, k: nat, cfg: Config)
    requires k > 0 && WithinLimit(s, k, cfg) && action.Begin? && action.amount >= 0.0
    requires |Step(s, action, cfg).calls| <= k
    ensures WithinLimit(Step(s, action, cfg), k, cfg)
  {
    var t := AtDay(s, action.today);
    var gate := Checked(action.amount <= cfg.maxPerTransfer, t.used + action.amount <= cfg.maxDaily);
    CheckedCallKeepsLimit(t, Call(action.amount, action.confirm, gate), k, cfg);
  }

  lemma MoveKeepsLimit(s: State, t: State, i: nat, k: nat, cfg: Config)
    requires k > 0 && WithinLimit(s, k, cfg) && i < |s.calls| && t.used >= 0.0
    requires
      || (t.calls == Without(s.calls, i) && t.used <= s.used + Weight(s.calls[i], Uncommitted))
      || (&& |t.calls| == |s.calls| && t.calls == s.calls[i := t.calls[i]] && CallCapped(t.calls[i], cfg)
          && t.used + Weight(t.calls[i], Uncommitted) <= s.used + Weight(s.calls[i], Uncommitted))
    ensures WithinLimit(t, k, cfg)
  {
    TotalWithout(s.calls, i, Uncommitted);
    if t.calls != Without(s.calls, i) {
      TotalUpdated(s.calls, i, t.calls[i], Uncommitted);
    }
  }

  lemma StepKeepsLimit(s: State, action: Action, t: State, k: nat, cfg: Config)
    requires k > 0 && WithinLimit(s, k, cfg) && t == Step(s, action, cfg)
    requires |t.calls| <= k && (action.Begin? ==> action.amount >= 0.0)
    ensures WithinLimit(t, k, cfg)
  {
    if action.Begin? {
      BeginKeepsLimit(s, action, k, cfg);
    } else if !action.Plan? && t != s {
      var i := action.call;
      assert CallCapped(s.calls[i], cfg);
      if |t.calls| == |s.calls| {
        assert t.calls == s.calls[i := t.calls[i]];
      }
      MoveKeepsLimit(s, t, i, k, cfg);
    }
  }

  lemma {:induction false} RunStaysWithinLimit(actions: seq<Action>, k: nat, cfg: Config)
    requires k > 0 && Admissible(actions, k, cfg)
    ensures WithinLimit(Run(actions, cfg), k, cfg)
  {
    if actions != [] {
      var n := |actions| - 1;
      forall m | 0 <= m <= n ensures |Run(actions[..n][..m], cfg).calls| <= k {
        assert actions[..n][..m] == actions[..m];
      }
      RunStaysWithinLimit(actions[..n], k, cfg);
      assert actions[..|actions|] == actions;
      assert actions[n] in actions;
      StepKeepsLimit(Run(actions[..n], cfg), actions[n], Run(actions, cfg), k, cfg);
    }
  }

  /**
    With at most `k` calls in flight, what is used plus what is approved stays within the daily cap and
    `k - 1` further transfers, in every interleaving and across day changes.
   */
  lemma {:induction false} ConcurrentUseIsBounded(actions: seq<Action>, k: nat, cfg: Config)
    requires k > 0 && Admissible(actions, k, cfg)
    ensures Exposure(Run(actions, cfg)) <= Limit(k, cfg)
    ensures Run(actions, cfg).used <= Limit(k, cfg)
  {
    RunStaysWithinLimit(actions, k, cfg);
    CappedTotal(Run(actions, cfg).calls, cfg);
  }

  /** Calls made one after another never exceed the daily cap. */
  lemma {:induction false} SequentialUseRespectsCap(actions: seq<Action>, cfg: Config)
    requires Admissible(actions, 1, cfg) && cfg.maxDaily >= 0.0
    ensures Run(actions, cfg).used <= cfg.maxDaily
  {
    ConcurrentUseIsBounded(actions, 1, cfg);
  }

  // ---------------------------------------------------------------- the limit is exact

  lemma RunSnoc(actions: seq<Action>, action: Action, cfg: Config)
    ensures Run(actions + [action], cfg) == Step(Run(actions, cfg), action, cfg)
  {
    assert (actions + [action])[..|actions|] == actions;
  }

  lemma AdmissibleSnoc(actions: seq<Action>, action: Action, k: nat, cfg: Config)
    requires Admissible(actions, k, cfg) && (action.Begin? ==> action.amount >= 0.0)
    requires |Run(actions + [action], cfg).calls| <= k
    ensures Admissible(actions + [action], k, cfg)
  {
    var more := actions + [action];
    forall n | 0 <= n <= |more| ensures |Run(more[..n], cfg).calls| <= k {
      if n <= |actions| {
        assert more[..n] == actions[..n];
      } else {
        assert more[..n] == more;
      }
    }
  }

  /** One confirmed transfer that nothing interleaves with. */
  function Transfer(amount: real): seq<Action> {
    [Begin(amount, true, 0), Decide(0, true, true), Paid(0, true)]
  }

  predicate AtRest(s: State, used: real) {
    s.day == 0 && s.used == used && s.calls == []
  }

  lemma TransferAdds(before: seq<Action>, amount: real, cfg: Config)
    requires Admissible(before, 1, cfg) && AtRest(Run(before, cfg), Run(before, cfg).used)
    requires 0.0 <= amount <= cfg.maxPerTransfer && Run(before, cfg).used + amount <= cfg.maxDaily
    ensures Admissible(before + Transfer(amount), 1, cfg)
    ensures AtRest(Run(before + Transfer(amount), cfg), Run(before, cfg).used + amount)
  {
    var begun := before + [Begin(amount, true, 0)];
    var decided := begun + [Decide(0, true, true)];
    RunSnoc(before, Begin(amount, true, 0), cfg);
    AdmissibleSnoc(before, Begin(amount, true, 0), 1, cfg);
    RunSnoc(begun, Decide(0, true, true), cfg);
    AdmissibleSnoc(begun, Decide(0, true, true), 1, cfg);
    RunSnoc(decided, Paid(0, true), cfg);
    AdmissibleSnoc(decided, Paid(0, true), 1, cfg);
    assert before + Transfer(amount) == decided + [Paid(0, true)];
  }

  /** Transfers one after another can use up any amount the daily cap allows. */
  lemma {:induction false} FillDay(target: real, n: nat, cfg: Config) returns (actions: seq<Action>)
    requires 0.0 <= target <= Slots(n, cfg) && target <= cfg.maxDaily && 0.0 < Slot(cfg)
    ensures Admissible(actions, 1, cfg) && AtRest(Run(actions, cfg), target)
    decreases n
  {
    if n == 0 {
      actions := [Plan(0)];
      assert [Plan(0)] == [] + [Plan(0)];
      RunSnoc([], Plan(0), cfg);
      AdmissibleSnoc([], Plan(0), 1, cfg);
    } else {
      var last := Min(target, Slot(cfg));
      var before := FillDay(target - last, n - 1, cfg);
      TransferAdds(before, last, cfg);
      actions := before + Transfer(last);
    }
  }

  lemma EnoughSlots(target: real, cfg: Config) returns (n: nat)
    requires target >= 0.0 && Slot(cfg) > 0.0
    ensures target <= Slots(n, cfg)
  {
    n := EnoughTimes(target, Slot(cfg));
    SlotsAreMultiples(n, cfg);
  }

  lemma EnoughTimes(target: real, size: real) returns (n: nat)
    requires target >= 0.0 && size > 0.0
    ensures target <= n as real * size
  {
    var ratio := target / size;
    assert ratio * size == target;
    n := Positive(ratio).Floor + 1;
    ProductGrows(ratio, n as real, size);
  }

  lemma ProductGrows(x: real, y: real, z: real)
    requires x <= y && z >= 0.0
    ensures x * z <= y * z
  {
  }

  /** `k` calls that are all checked, after `fill`, ... */
  function Begins(fill: seq<Action>, k: nat, amount: real): seq<Action> {
    if k == 0 then fill else Begins(fill, k - 1, amount) + [Begin(amount, true, 0)]
  }

  /** ... before the first `n` of them are approved ... */
  function Decides(fill: seq<Action>, k: nat, n: nat, amount: real): seq<Action> {
    if n == 0 then Begins(fill, k, amount) else Decides(fill, k, n - 1, amount) + [Decide(n - 1, true, true)]
  }

  /** ... and all are approved before the first `n` commit. */
  function Pays(fill: seq<Action>, k: nat, n: nat, amount: real): seq<Action> {
    if n == 0 then Decides(fill, k, k, amount) else Pays(fill, k, n - 1, amount) + [Paid(0, true)]
  }

  function Decided(k: nat, n: nat, amount: real): seq<Call>
    requires n <= k
  {
    seq(k, i => Call(amount, true, if i < n then Sending else Checked(true, true)))
  }

  /** The amount still fits under the daily cap once `fill` has been carried out. */
  ghost predicate Fits(fill: seq<Action>, amount: real, cfg: Config) {
    && Admissible(fill, 1, cfg) && AtRest(Run(fill, cfg), Run(fill, cfg).used)
    && 0.0 <= amount <= cfg.maxPerTransfer && Run(fill, cfg).used + amount <= cfg.maxDaily
  }

  lemma AdmissibleForMore(actions: seq<Action>, k: nat, cfg: Config)
    requires Admissible(actions, 1, cfg) && k >= 1
    ensures Admissible(actions, k, cfg)
  {
  }

  lemma BeginOne(s: State, n: nat, amount: real, cfg: Config)
    requires n > 0 && s.day == 0 && s.calls == Decided(n - 1, 0, amount)
    requires amount <= cfg.maxPerTransfer && s.used + amount <= cfg.maxDaily
    ensures Step(s, Begin(amount, true, 0), cfg) == s.(calls := Decided(n, 0, amount))
  {
    assert Decided(n, 0, amount) == Decided(n - 1, 0, amount) + [Call(amount, true, Checked(true, true))];
  }

  lemma BurstBeginsOne(before: seq<Action>, n: nat, k: nat, amount: real, cfg: Config)
    requires 0 < n <= k && Admissible(before, k, cfg) && 0.0 <= amount <= cfg.maxPerTransfer
    requires Run(before, cfg).day == 0 && Run(before, cfg).calls == Decided(n - 1, 0, amount)
    requires Run(before, cfg).used + amount <= cfg.maxDaily
    ensures Admissible(before + [Begin(amount, true, 0)], k, cfg)
    ensures Run(before + [Begin(amount, true, 0)], cfg) == Run(before, cfg).(calls := Decided(n, 0, amount))
  {
    RunSnoc(before, Begin(amount, true, 0), cfg);
    BeginOne(Run(before, cfg), n, amount, cfg);
    AdmissibleSnoc(before, Begin(amount, true, 0), k, cfg);
  }

  lemma {:induction false} BurstBegins(fill: seq<Action>, n: nat, k: nat, amount: real, cfg: Config)
    requires n <= k && k > 0 && Fits(fill, amount, cfg)
    ensures Admissible(Begins(fill, n, amount), k, cfg)
    ensures var s := Run(Begins(fill, n, amount), cfg);
            s.day == 0 && s.used == Run(fill, cfg).used && s.calls == Decided(n, 0, amount)
  {
    if n == 0 {
      AdmissibleForMore(fill, k, cfg);
    } else {
      BurstBegins(fill, n - 1, k, amount, cfg);
      var before := Begins(fill, n - 1, amount);
      BurstBeginsOne(before, n, k, amount, cfg);
      assert Begins(fill, n, amount) == before + [Begin(amount, true, 0)];
    }
  }

  lemma {:induction false} BurstDecides(fill: seq<Action>, k: nat, n: nat, amount: real, cfg: Config)
    requires n <= k && k > 0 && Fits(fill, amount, cfg)
    ensures Admissible(Decides(fill, k, n, amount), k, cfg)
    ensures var s := Run(Decides(fill, k, n, amount), cfg);
            s.used == Run(fill, cfg).used && s.calls == Decided(k, n, amount)
  {
    if n == 0 {
      BurstBegins(fill, k, k, amount, cfg);
    } else {
      BurstDecides(fill, k, n - 1, amount, cfg);
      var before := Decides(fill, k, n - 1, amount);
      RunSnoc(before, Decide(n - 1, true, true), cfg);
      DecideOne(Run(before, cfg), k, n, amount, cfg);
      AdmissibleSnoc(before, Decide(n - 1, true, true), k, cfg);
      assert Decides(fill, k, n, amount) == before + [Decide(n - 1, true, true)];
    }
  }

  lemma DecideOne(s: State, k: nat, n: nat, amount: real, cfg: Config)
    requires 0 < n <= k && s.calls == Decided(k, n - 1, amount)
    ensures Step(s, Decide(n - 1, true, true), cfg) == s.(calls := Decided(k, n, amount))
  {
    var sent := s.calls[n - 1].(stage := Sending);
    assert Approves(s.calls[n - 1], true, true, cfg);
    assert s.calls[n - 1 := sent] == Decided(k, n, amount);
  }

  ghost function Times(n: nat, amount: real): real {
    if n == 0 then 0.0 else Times(n - 1, amount) + amount
  }

  lemma {:induction false} BurstPays(fill: seq<Action>, k: nat, n: nat, amount: real, cfg: Config)
    requires n <= k && k > 0 && Fits(fill, amount, cfg)
    ensures Admissible(Pays(fill, k, n, amount), k, cfg)
    ensures var s := Run(Pays(fill, k, n, amount), cfg);
            s.used == Run(fill, cfg).used + Times(n, amount) && s.calls == Decided(k - n, k - n, amount)
  {
    if n == 0 {
      BurstDecides(fill, k, k, amount, cfg);
    } else {
      BurstPays(fill, k, n - 1, amount, cfg);
      var before := Pays(fill, k, n - 1, amount);
      RunSnoc(before, Paid(0, true), cfg);
      assert k - (n - 1) == k - n + 1;
      PayOne(Run(before, cfg), k - n, amount, cfg);
      AdmissibleSnoc(before, Paid(0, true), k, cfg);
      assert Pays(fill, k, n, amount) == before + [Paid(0, true)];
    }
  }

  lemma PayOne(s: State, left: nat, amount: real, cfg: Config)
    requires s.calls == Decided(left + 1, left + 1, amount)
    ensures var t := Step(s, Paid(0, true), cfg);
            t.used == s.used + amount && t.calls == Decided(left, left, amount)
  {
    assert Without(s.calls, 0) == Decided(left, left, amount);
  }

  lemma TimesIsSlots(n: nat, cfg: Config)
    ensures Times(n, Slot(cfg)) == Slots(n, cfg)
  {
  }

  /** The limit for `k` calls in flight is reached, under every pair of positive caps. */
  lemma LimitIsReached(k: nat, cfg: Config) returns (actions: seq<Action>)
    requires k > 0 && cfg.maxPerTransfer > 0.0 && cfg.maxDaily > 0.0
    ensures Admissible(actions, k, cfg) && Run(actions, cfg).used == Limit(k, cfg)
  {
    var n := EnoughSlots(cfg.maxDaily - Slot(cfg), cfg);
    var fill := FillDay(cfg.maxDaily - Slot(cfg), n, cfg);
    BurstPays(fill, k, k, Slot(cfg), cfg);
    TimesIsSlots(k, cfg);
    actions := Pays(fill, k, k, Slot(cfg));
  }

  /** The daily cap alone, as the code documents it, for `k` calls in flight. */
  ghost predicate DailyCapHolds(k: nat, cfg: Config) {
    forall actions | Admissible(actions, k, cfg) :: Run(actions, cfg).used <= cfg.maxDaily
  }

  /** A cap that is not negative holds exactly for one call at a time, or when no positive amount passes the checks. */
  lemma DailyCapHoldsIff(k: nat, cfg: Config)
    requires k > 0
    ensures DailyCapHolds(k, cfg)
       <==> cfg.maxDaily >= 0.0 && (k == 1 || cfg.maxPerTransfer <= 0.0 || cfg.maxDaily == 0.0)
  {
    if cfg.maxDaily < 0.0 {
      assert Admissible([], k, cfg) && Run([], cfg).used > cfg.maxDaily;
    } else if k == 1 || cfg.maxPerTransfer <= 0.0 || cfg.maxDaily == 0.0 {
      SlotsAreMultiples(k - 1, cfg);
      forall actions | Admissible(actions, k, cfg) ensures Run(actions, cfg).used <= cfg.maxDaily {
        ConcurrentUseIsBounded(actions, k, cfg);
      }
    } else {
      var actions := LimitIsReached(k, cfg);
      SlotsGrow(1, k - 1, cfg);
      assert Slots(1, cfg) == Slots(0, cfg) + Slot(cfg);
      assert Run(actions, cfg).used > cfg.maxDaily;
    }
  }

  /** `k` calls checked before any of them commits together use `k` times the transfer cap. */
  lemma BurstOvershoots(k: nat, cfg: Config)
    requires k > 0 && 0.0 <= cfg.maxPerTransfer <= cfg.maxDaily
    ensures var actions := Pays([Plan(0)], k, k, cfg.maxPerTransfer);
            Admissible(actions, k, cfg) && Run(actions, cfg).used == k as real * cfg.maxPerTransfer
  {
    assert [Plan(0)] == [] + [Plan(0)];
    RunSnoc([], Plan(0), cfg);
    AdmissibleSnoc([], Plan(0), 1, cfg);
    BurstPays([Plan(0)], k, k, cfg.maxPerTransfer, cfg);
    TimesIsProduct(k, cfg.maxPerTransfer);
  }

  lemma TimesIsProduct(n: nat, amount: real)
    ensures Times(n, amount) == n as real * amount
  {
    if n > 0 {
      TimesIsProduct(n - 1, amount);
      assert n as real * amount == (n - 1) as real * amount + amount;
    }
  }

  // ---------------------------------------------------------------- the daily total and the metrics

  function Succeeded(records: seq<Record>): real {
    if records == [] then 0.0
    else Succeeded(records[..|records| - 1]) + if records[|records| - 1].ok then records[|records| - 1].amount else 0.0
  }

  /**
    The amounts that were added to the previous day's total and whose metric records arrive only after
    the last reset: their calls sat in the compensation hook, with the transfer made, at that moment.
   */
  ghost function Stray(actions: seq<Action>, cfg: Config): real {
    if actions == [] then 0.0
    else
      var n := |actions| - 1;
      var s := Run(actions[..n], cfg);
      if (actions[n].Plan? || actions[n].Begin?) && s.day != actions[n].today then Total(s.calls, Unrecorded)
      else Stray(actions[..n], cfg)
  }

  lemma SucceededSnoc(records: seq<Record>, r: Record)
    ensures Succeeded(records + [r]) == Succeeded(records) + if r.ok then r.amount else 0.0
  {
    assert (records + [r])[..|records|] == records;
  }

  ghost function Outstanding(s: State): real {
    s.used - Succeeded(s.recorded)
  }

  /** The part of the daily total that neither the metrics nor the calls in flight account for. */
  ghost function Unaccounted(s: State): real {
    Outstanding(s) - Total(s.calls, Unrecorded)
  }

  /** Call `i` leaves, or moves to another stage, and takes its unrecorded amount with it. */
  ghost predicate MovesCall(s: State, t: State, i: nat) {
    && i < |s.calls|
    && (|| (t.calls == Without(s.calls, i) && Outstanding(t) == Outstanding(s) - Weight(s.calls[i], Unrecorded))
        || (&& |t.calls| == |s.calls| && t.calls == s.calls[i := t.calls[i]]
            && Outstanding(t) == Outstanding(s) - Weight(s.calls[i], Unrecorded) + Weight(t.calls[i], Unrecorded)))
  }

  lemma StepMovesCall(s: State, action: Action, cfg: Config)
    requires !action.Plan? && !action.Begin? && Step(s, action, cfg) != s
    ensures MovesCall(s, Step(s, action, cfg), action.call)
  {
    var t, i := Step(s, action, cfg), action.call;
    if action.Paid? {
      SucceededSnoc(s.recorded, Record(s.calls[i].amount, true));
    } else if action.Finish? {
      SucceededSnoc(s.recorded, Record(s.calls[i].amount, s.calls[i].stage.ok));
    }
    if |t.calls| == |s.calls| {
      assert t.calls == s.calls[i := t.calls[i]];
    }
  }

  lemma MoveBalances(s: State, t: State, i: nat)
    requires MovesCall(s, t, i)
    ensures Unaccounted(t) == Unaccounted(s)
  {
    if t.calls == Without(s.calls, i) {
      TotalWithout(s.calls, i, Unrecorded);
    } else {
      TotalUpdated(s.calls, i, t.calls[i], Unrecorded);
    }
  }

  lemma StepBalances(s: State, action: Action, cfg: Config)
    ensures Unaccounted(Step(s, action, cfg))
         == if (action.Plan? || action.Begin?) && s.day != action.today then -Total(s.calls, Unrecorded)
            else Unaccounted(s)
  {
    var t := Step(s, action, cfg);
    if action.Begin? {
      assert t.calls == s.calls + [t.calls[|s.calls|]];
      TotalOfSnoc(s.calls, t.calls[|s.calls|], Unrecorded);
    } else if !action.Plan? && t != s {
      StepMovesCall(s, action, cfg);
      MoveBalances(s, t, action.call);
    }
  }

  lemma {:induction false} LedgerBalances(actions: seq<Action>, cfg: Config)
    ensures Unaccounted(Run(actions, cfg)) == -Stray(actions, cfg)
  {
    if actions != [] {
      var n := |actions| - 1;
      LedgerBalances(actions[..n], cfg);
      StepBalances(Run(actions[..n], cfg), actions[n], cfg);
    }
  }

  /**
    At quiescence the daily total is the sum of the successful metric records since the last reset
    exactly when no transferred amount was still waiting for its record at that reset.
   */
  lemma {:induction false} QuiescentTotalIsRecorded(actions: seq<Action>, cfg: Config)
    requires Run(actions, cfg).calls == []
    ensures Run(actions, cfg).used == Succeeded(Run(actions, cfg).recorded) <==> Stray(actions, cfg) == 0.0
  {
    LedgerBalances(actions, cfg);
  }

  /** A transfer whose event could not be stored and whose compensation outlasts midnight is recorded but not used. */
  lemma CompensationAcrossMidnight(cfg: Config)
    requires cfg.maxPerTransfer >= 1.0 && cfg.maxDaily >= 1.0
    ensures var s := Run([Begin(1.0, true, 0), Decide(0, true, true), Paid(0, false), Plan(1), Finish(0)], cfg);
            s.calls == [] && s.used == 0.0 && s.recorded == [Record(1.0, true)]
  {
    var actions := [Begin(1.0, true, 0), Decide(0, true, true), Paid(0, false), Plan(1), Finish(0)];
    forall n | 0 <= n < 5 ensures Run(actions[..n + 1], cfg) == Step(Run(actions[..n], cfg), actions[n], cfg) {
      assert actions[..n + 1][..n] == actions[..n];
    }
    assert actions[..0] == [] && actions[..5] == actions;
    var s1 := Step(INITIAL, actions[0], cfg);
    assert s1 == State(0, 0.0, [Call(1.0, true, Checked(true, true))], []);
    var s2 := Step(s1, actions[1], cfg);
    assert s2 == State(0, 0.0, [Call(1.0, true, Sending)], []);
    var s3 := Step(s2, actions[2], cfg);
    assert s3 == State(0, 1.0, [Call(1.0, true, Settling(true))], []);
    var s4 := Step(s3, actions[3], cfg);
    assert Step(s4, actions[4], cfg) == State(1, 0.0, [], [Record(1.0, true)]);
  }
}
