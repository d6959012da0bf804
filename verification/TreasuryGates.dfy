/**
  Where the amounts of `Treasury` come from.  The calls of a run are followed by the position of the action
  that began them, through every interleaving: what is sent, counted for the day or recorded was confirmed,
  met both caps when it was checked, and passed the velocity and the approval gate of its own call.
 */
module TreasuryGates {
  import opened Options
  import opened Treasury

  /**
    Where the suspended calls, the amounts counted for the day and the records since the last reset began;
    and, over the whole run, the beginnings of the transfers that the provider accepted.
   */
  datatype Trace = Trace(origins: seq<nat>, spent: seq<nat>, booked: seq<nat>, moved: set<nat>)

  /** The call an action continues. */
  function Target(action: Action): Option<nat> {
    match action
    case Plan(_) => None
    case Begin(_, _, _) => None
    case Decide(i, _, _) => Some(i)
    case Abandon(i) => Some(i)
    case Paid(i, _) => Some(i)
    case Refused(i) => Some(i)
    case Finish(i) => Some(i)
  }

  /** The origin of the call the action continues, if there is such a call. */
  function OriginOf(trace: Trace, action: Action): seq<nat> {
    var i := Target(action);
    if i.Some? && i.value < |trace.origins| then [trace.origins[i.value]] else []
  }

  function Shortened(origins: seq<nat>, action: Action): seq<nat> {
    var i := Target(action);
    if i.Some? && i.value < |origins| then origins[..i.value] + origins[i.value + 1..] else origins
  }

  /** The provider accepts a transfer that has been sent. */
  predicate Moves(s: State, action: Action) {
    action.Paid? && action.call < |s.calls| && s.calls[action.call].stage.Sending?
  }

  /** Action number `n` takes the run from `s` to `t`. */
  function Follow(trace: Trace, s: State, t: State, action: Action, n: nat): Trace {
    Trace(
      if action.Begin? then trace.origins + [n]
      else if |t.calls| < |s.calls| then Shortened(trace.origins, action)
      else trace.origins,
      if t.day != s.day then []
      else if Moves(s, action) then trace.spent + OriginOf(trace, action)
      else trace.spent,
      if t.day != s.day then []
      else if |t.recorded| > |s.recorded| then trace.booked + OriginOf(trace, action)
      else trace.booked,
      trace.moved + if Moves(s, action) then (set b | b in OriginOf(trace, action)) else {})
  }

  function TraceOf(actions: seq<Action>, cfg: Config): Trace {
    if actions == [] then Trace([], [], [], {})
    else
      var n := |actions| - 1;
      Follow(TraceOf(actions[..n], cfg), Run(actions[..n], cfg), Run(actions, cfg), actions[n], n)
  }

  // ---------------------------------------------------------------- the gates of a call

  /** Action `b` began a confirmed transfer within both caps. */
  ghost predicate WithinCaps(actions: seq<Action>, b: nat, cfg: Config) {
    && b < |actions| && actions[b].Begin?
    && actions[b].amount <= cfg.maxPerTransfer
    && AtDay(Run(actions[..b], cfg), actions[b].today).used + actions[b].amount <= cfg.maxDaily
  }

  /** Action `d` decides the call that action `b` began, and lets it pass both gates. */
  ghost predicate LetsPass(actions: seq<Action>, b: nat, d: nat, cfg: Config) {
    && b < d < |actions| && actions[b].Begin? && actions[d].Decide?
    && OriginOf(TraceOf(actions[..d], cfg), actions[d]) == [b]
    && actions[d].velocityOk && (actions[b].amount > cfg.multiSigThreshold ==> actions[d].approval)
  }

  ghost predicate Cleared(actions: seq<Action>, b: nat, cfg: Config) {
    WithinCaps(actions, b, cfg) && actions[b].confirm && exists d: nat :: LetsPass(actions, b, d, cfg)
  }

  lemma ClearedStays(actions: seq<Action>, n: nat, b: nat, cfg: Config)
    requires n <= |actions| && Cleared(actions[..n], b, cfg)
    ensures Cleared(actions, b, cfg)
  {
    var d: nat :| LetsPass(actions[..n], b, d, cfg);
    assert actions[..n][..b] == actions[..b] && actions[..n][..d] == actions[..d];
    assert LetsPass(actions, b, d, cfg);
  }

  /** What the position of its beginning says about a suspended call. */
  ghost predicate CallFrom(actions: seq<Action>, b: nat, call: Call, cfg: Config) {
    && b < |actions| && actions[b].Begin? && call.amount == actions[b].amount && call.confirm == actions[b].confirm
    && (if call.stage.Checked? then call.stage.capOk && call.stage.dailyOk <==> WithinCaps(actions, b, cfg)
        else Cleared(actions, b, cfg))
  }

  lemma CallFromStays(actions: seq<Action>, n: nat, b: nat, call: Call, cfg: Config)
    requires n <= |actions| && CallFrom(actions[..n], b, call, cfg)
    ensures CallFrom(actions, b, call, cfg)
  {
    assert actions[..n][..b] == actions[..b];
    if !call.stage.Checked? {
      ClearedStays(actions, n, b, cfg);
    }
  }

  ghost predicate CallsTraced(actions: seq<Action>, calls: seq<Call>, origins: seq<nat>, cfg: Config) {
    && |calls| == |origins|
    && forall j | 0 <= j < |calls| :: CallFrom(actions, origins[j], calls[j], cfg)
  }

  lemma CallsStay(actions: seq<Action>, n: nat, calls: seq<Call>, origins: seq<nat>, cfg: Config)
    requires n <= |actions| && CallsTraced(actions[..n], calls, origins, cfg)
    ensures CallsTraced(actions, calls, origins, cfg)
  {
    forall j | 0 <= j < |calls| ensures CallFrom(actions, origins[j], calls[j], cfg) {
      CallFromStays(actions, n, origins[j], calls[j], cfg);
    }
  }

  // ---------------------------------------------------------------- calls, step by step

  lemma CallsWithout(actions: seq<Action>, calls: seq<Call>, origins: seq<nat>, i: nat, cfg: Config)
    requires CallsTraced(actions, calls, origins, cfg) && i < |calls|
    ensures CallsTraced(actions, Without(calls, i), origins[..i] + origins[i + 1..], cfg)
  {
    var fewer, left := Without(calls, i), origins[..i] + origins[i + 1..];
    forall j | 0 <= j < |fewer| ensures CallFrom(actions, left[j], fewer[j], cfg) {
      var k := if j < i then j else j + 1;
      assert CallFrom(actions, origins[k], calls[k], cfg);
    }
  }

  lemma CallsUpdated(actions: seq<Action>, calls: seq<Call>, origins: seq<nat>, i: nat, call: Call, cfg: Config)
    requires CallsTraced(actions, calls, origins, cfg) && i < |calls| && CallFrom(actions, origins[i], call, cfg)
    ensures CallsTraced(actions, calls[i := call], origins, cfg)
  {
  }

  /** A call that its `Decide` approves has passed both gates. */
  lemma ApprovalClears(actions: seq<Action>, call: Call, i: nat, cfg: Config)
    requires actions != [] && actions[|actions| - 1].Decide? && i == actions[|actions| - 1].call
    requires i < |TraceOf(actions[..|actions| - 1], cfg).origins|
    requires call.stage.Checked? && CallFrom(actions, TraceOf(actions[..|actions| - 1], cfg).origins[i], call, cfg)
    requires TraceOf(actions[..|actions| - 1], cfg).origins[i] < |actions| - 1
    requires Approves(call, actions[|actions| - 1].velocityOk, actions[|actions| - 1].approval, cfg)
    ensures Cleared(actions, TraceOf(actions[..|actions| - 1], cfg).origins[i], cfg)
  {
    var n := |actions| - 1;
    assert LetsPass(actions, TraceOf(actions[..n], cfg).origins[i], n, cfg);
  }

  lemma BegunCall(actions: seq<Action>, cfg: Config)
    requires actions != [] && actions[|actions| - 1].Begin?
    ensures var n := |actions| - 1;
            var t := Run(actions, cfg);
            |t.calls| == |Run(actions[..n], cfg).calls| + 1 && t.calls[..|t.calls| - 1] == Run(actions[..n], cfg).calls
            && CallFrom(actions, n, t.calls[|t.calls| - 1], cfg)
  {
  }

  /** What an action does to the call it continues: the call goes, or only its stage changes. */
  lemma StepTouchesTarget(s: State, action: Action, cfg: Config)
    requires Target(action).Some?
    ensures var t, i := Step(s, action, cfg), Target(action).value;
            || t.calls == s.calls
            || (i < |s.calls| && t.calls == Without(s.calls, i))
            || (i < |s.calls| && |t.calls| == |s.calls| && t.calls == s.calls[i := t.calls[i]]
                && t.calls[i] == s.calls[i].(stage := t.calls[i].stage) && !t.calls[i].stage.Checked?
                && (s.calls[i].stage.Checked? ==>
                      action.Decide? && Approves(s.calls[i], action.velocityOk, action.approval, cfg)))
    ensures Step(s, action, cfg).day == s.day
  {
  }

  lemma TargetFollows(actions: seq<Action>, s: State, t: State, origins: seq<nat>, action: Action, cfg: Config)
    returns (left: seq<nat>)
    requires actions != [] && action == actions[|actions| - 1] && Target(action).Some?
    requires s == Run(actions[..|actions| - 1], cfg) && t == Step(s, action, cfg)
    requires origins == TraceOf(actions[..|actions| - 1], cfg).origins
    requires CallsTraced(actions, s.calls, origins, cfg)
    requires forall j | 0 <= j < |origins| :: origins[j] < |actions| - 1
    ensures left == if |t.calls| < |s.calls| then Shortened(origins, action) else origins
    ensures CallsTraced(actions, t.calls, left, cfg)
  {
    var i := Target(action).value;
    left := origins;
    StepTouchesTarget(s, action, cfg);
    if i < |s.calls| {
      if t.calls == Without(s.calls, i) {
        left := origins[..i] + origins[i + 1..];
        CallsWithout(actions, s.calls, origins, i, cfg);
      } else if t.calls != s.calls {
        if s.calls[i].stage.Checked? {
          ApprovalClears(actions, s.calls[i], i, cfg);
        }
        CallsUpdated(actions, s.calls, origins, i, t.calls[i], cfg);
      }
    }
  }

  lemma CallsFollow(actions: seq<Action>, cfg: Config)
    requires actions != []
    requires var init := actions[..|actions| - 1];
             CallsTraced(init, Run(init, cfg).calls, TraceOf(init, cfg).origins, cfg)
    ensures CallsTraced(actions, Run(actions, cfg).calls, TraceOf(actions, cfg).origins, cfg)
  {
    var n := |actions| - 1;
    var s, origins, action := Run(actions[..n], cfg), TraceOf(actions[..n], cfg).origins, actions[n];
    forall j | 0 <= j < |origins| ensures origins[j] < n {
      assert CallFrom(actions[..n], origins[j], s.calls[j], cfg);
    }
    CallsStay(actions, n, s.calls, origins, cfg);
    if action.Begin? {
      BegunCall(actions, cfg);
    } else if !action.Plan? {
      var left := TargetFollows(actions, s, Run(actions, cfg), origins, action, cfg);
    }
  }

  lemma {:induction false} RunIsTraced(actions: seq<Action>, cfg: Config)
    ensures CallsTraced(actions, Run(actions, cfg).calls, TraceOf(actions, cfg).origins, cfg)
  {
    if actions != [] {
      RunIsTraced(actions[..|actions| - 1], cfg);
      CallsFollow(actions, cfg);
    }
  }

  // ---------------------------------------------------------------- amounts

  function AmountOf(actions: seq<Action>, b: nat): real {
    if b < |actions| && actions[b].Begin? then actions[b].amount else 0.0
  }

  function Amounts(actions: seq<Action>, begins: seq<nat>): real {
    if begins == [] then 0.0
    else Amounts(actions, begins[..|begins| - 1]) + AmountOf(actions, begins[|begins| - 1])
  }

  lemma {:induction false} AmountsStay(actions: seq<Action>, n: nat, begins: seq<nat>)
    requires n <= |actions| && forall k | 0 <= k < |begins| :: begins[k] < n
    ensures Amounts(actions, begins) == Amounts(actions[..n], begins)
  {
    if begins != [] {
      AmountsStay(actions, n, begins[..|begins| - 1]);
    }
  }

  lemma AmountsSnoc(actions: seq<Action>, begins: seq<nat>, b: nat)
    ensures Amounts(actions, begins + [b]) == Amounts(actions, begins) + AmountOf(actions, b)
  {
    assert (begins + [b])[..|begins|] == begins;
  }

  ghost predicate AllCleared(actions: seq<Action>, begins: seq<nat>, cfg: Config) {
    forall b <- begins :: Cleared(actions, b, cfg)
  }

  lemma ClearedStay(actions: seq<Action>, n: nat, begins: seq<nat>, cfg: Config)
    requires n <= |actions| && AllCleared(actions[..n], begins, cfg)
    ensures AllCleared(actions, begins, cfg) && Amounts(actions, begins) == Amounts(actions[..n], begins)
  {
    forall b <- begins ensures Cleared(actions, b, cfg) {
      ClearedStays(actions, n, b, cfg);
    }
    forall k | 0 <= k < |begins| ensures begins[k] < n {
      assert Cleared(actions[..n], begins[k], cfg);
    }
    AmountsStay(actions, n, begins);
  }

  /** The amount counted for the day is that of cleared transfers. */
  ghost predicate UsedIsCleared(actions: seq<Action>, cfg: Config) {
    var spent := TraceOf(actions, cfg).spent;
    AllCleared(actions, spent, cfg) && Run(actions, cfg).used == Amounts(actions, spent)
  }

  ghost predicate RecordsAreCleared(actions: seq<Action>, cfg: Config) {
    var recorded, booked := Run(actions, cfg).recorded, TraceOf(actions, cfg).booked;
    && |recorded| == |booked| && AllCleared(actions, booked, cfg)
    && forall k | 0 <= k < |booked| :: recorded[k].amount == AmountOf(actions, booked[k])
  }

  /** What a step does to the daily amount and the records. */
  lemma StepSpends(s: State, action: Action, cfg: Config)
    ensures var t := Step(s, action, cfg);
            if t.day != s.day then t.used == 0.0 && t.recorded == []
            else t.used == s.used + if Moves(s, action) then s.calls[action.call].amount else 0.0
    ensures var t := Step(s, action, cfg);
            t.day == s.day ==>
              || t.recorded == s.recorded
              || (Target(action).Some? && Target(action).value < |s.calls|
                  && t.recorded == s.recorded + [Record(s.calls[Target(action).value].amount,
                                                        t.recorded[|s.recorded|].ok)]
                  && !s.calls[Target(action).value].stage.Checked?)
  {
  }

  /** A call that has passed its gates began with an action that is cleared, and with its amount. */
  lemma OriginIsCleared(actions: seq<Action>, calls: seq<Call>, origins: seq<nat>, i: nat, cfg: Config)
    returns (b: nat)
    requires actions != [] && CallsTraced(actions[..|actions| - 1], calls, origins, cfg) && i < |calls|
    requires !calls[i].stage.Checked?
    ensures b == origins[i] && Cleared(actions, b, cfg) && AmountOf(actions, b) == calls[i].amount
  {
    b := origins[i];
    CallFromStays(actions, |actions| - 1, b, calls[i], cfg);
  }

  lemma NextSpent(actions: seq<Action>, s: State, t: State, trace: Trace, cfg: Config) returns (spent: seq<nat>)
    requires actions != [] && CallsTraced(actions[..|actions| - 1], s.calls, trace.origins, cfg)
    requires AllCleared(actions, trace.spent, cfg) && s.used == Amounts(actions, trace.spent)
    requires t == Step(s, actions[|actions| - 1], cfg)
    ensures spent == Follow(trace, s, t, actions[|actions| - 1], |actions| - 1).spent
    ensures AllCleared(actions, spent, cfg) && t.used == Amounts(actions, spent)
  {
    var action := actions[|actions| - 1];
    StepSpends(s, action, cfg);
    if t.day != s.day {
      spent := [];
    } else if Moves(s, action) {
      spent := trace.spent + [trace.origins[action.call]];
      var b := OriginIsCleared(actions, s.calls, trace.origins, action.call, cfg);
      ClearedSnoc(actions, trace.spent, b, cfg);
      AmountsSnoc(actions, trace.spent, b);
    } else {
      spent := trace.spent;
    }
  }

  lemma {:induction false} UsedComesFromCleared(actions: seq<Action>, cfg: Config)
    ensures UsedIsCleared(actions, cfg)
  {
    if actions != [] {
      var n := |actions| - 1;
      var s, trace := Run(actions[..n], cfg), TraceOf(actions[..n], cfg);
      UsedComesFromCleared(actions[..n], cfg);
      RunIsTraced(actions[..n], cfg);
      ClearedStay(actions, n, trace.spent, cfg);
      var spent := NextSpent(actions, s, Run(actions, cfg), trace, cfg);
    }
  }

  lemma ClearedSnoc(actions: seq<Action>, begins: seq<nat>, b: nat, cfg: Config)
    requires AllCleared(actions, begins, cfg) && Cleared(actions, b, cfg)
    ensures AllCleared(actions, begins + [b], cfg)
  {
    forall x <- begins + [b] ensures Cleared(actions, x, cfg) {
      assert x in begins || x == b;
    }
  }

  lemma {:induction false} RecordsComeFromCleared(actions: seq<Action>, cfg: Config)
    ensures RecordsAreCleared(actions, cfg)
  {
    if actions != [] {
      var n := |actions| - 1;
      var s, trace, action := Run(actions[..n], cfg), TraceOf(actions[..n], cfg), actions[n];
      RecordsComeFromCleared(actions[..n], cfg);
      RunIsTraced(actions[..n], cfg);
      ClearedStay(actions, n, trace.booked, cfg);
      StepSpends(s, action, cfg);
      if |Run(actions, cfg).recorded| > |s.recorded| {
        var i := Target(action).value;
        CallFromStays(actions, n, trace.origins[i], s.calls[i], cfg);
      }
      forall k | 0 <= k < |trace.booked|
        ensures AmountOf(actions, trace.booked[k]) == AmountOf(actions[..n], trace.booked[k])
      {
        assert Cleared(actions[..n], trace.booked[k], cfg);
      }
    }
  }

  // ---------------------------------------------------------------- once each

  ghost predicate Distinct(begins: seq<nat>) {
    forall i, j | 0 <= i < j < |begins| :: begins[i] != begins[j]
  }

  /** What the provider has accepted is what the stage of a suspended call says. */
  ghost predicate StageSays(call: Call, b: nat, moved: set<nat>) {
    b in moved <==> call.stage == Settling(true)
  }

  /** No transfer is counted or recorded twice, and a record says whether the provider accepted. */
  ghost predicate OnceEach(s: State, trace: Trace, n: nat) {
    && |s.calls| == |trace.origins| && |s.recorded| == |trace.booked|
    && (forall j | 0 <= j < |trace.origins| :: trace.origins[j] < n)
    && (forall b <- trace.moved :: b < n) && (forall b <- trace.booked :: b < n)
    && Distinct(trace.origins) && Distinct(trace.spent) && Distinct(trace.booked)
    && (forall b <- trace.spent :: b in trace.moved)
    && (forall j | 0 <= j < |s.calls| ::
          StageSays(s.calls[j], trace.origins[j], trace.moved) && trace.origins[j] !in trace.booked)
    && (forall k | 0 <= k < |s.recorded| :: s.recorded[k].ok <==> trace.booked[k] in trace.moved)
  }

  lemma OnceWithout(s: State, t: State, trace: Trace, after: Trace, i: nat, n: nat)
    requires OnceEach(s, trace, n) && i < |s.calls| && t.calls == Without(s.calls, i) && t.recorded == s.recorded
    requires after == trace.(origins := trace.origins[..i] + trace.origins[i + 1..])
    ensures OnceEach(t, after, n)
  {
    forall j | 0 <= j < |t.calls|
      ensures after.origins[j] == trace.origins[if j < i then j else j + 1]
      ensures t.calls[j] == s.calls[if j < i then j else j + 1]
    {
    }
  }

  lemma OnceBegun(s: State, t: State, trace: Trace, n: nat, call: Call)
    requires OnceEach(s, trace, n) && t.calls == s.calls + [call] && t.recorded == s.recorded && call.stage.Checked?
    ensures OnceEach(t, trace.(origins := trace.origins + [n]), n + 1)
  {
    assert n !in trace.moved && n !in trace.booked;
  }

  /** A transfer that the provider accepts was not counted before. */
  lemma OnceMoved(s: State, t: State, trace: Trace, i: nat, n: nat)
    requires OnceEach(s, trace, n) && i < |s.calls| && s.calls[i].stage.Sending?
    requires t.calls == s.calls[i := s.calls[i].(stage := Settling(true))] && t.recorded == s.recorded
    ensures OnceEach(t, trace.(spent := trace.spent + [trace.origins[i]], moved := trace.moved + {trace.origins[i]}), n)
  {
    assert StageSays(s.calls[i], trace.origins[i], trace.moved);
    assert trace.origins[i] !in trace.spent;
    forall j | 0 <= j < |s.calls| && j != i
      ensures StageSays(t.calls[j], trace.origins[j], trace.moved + {trace.origins[i]})
    {
      assert StageSays(s.calls[j], trace.origins[j], trace.moved);
    }
  }

  lemma OnceRestaged(s: State, t: State, trace: Trace, i: nat, stage: Stage, n: nat)
    requires OnceEach(s, trace, n) && i < |s.calls|
    requires s.calls[i].stage != Settling(true) && stage != Settling(true)
    requires t.calls == s.calls[i := s.calls[i].(stage := stage)] && t.recorded == s.recorded
    ensures OnceEach(t, trace, n)
  {
    assert StageSays(s.calls[i], trace.origins[i], trace.moved);
    forall j | 0 <= j < |s.calls| ensures StageSays(t.calls[j], trace.origins[j], trace.moved) {
      assert StageSays(s.calls[j], trace.origins[j], trace.moved);
    }
  }

  /** A settled call is recorded as it leaves. */
  lemma OnceRecorded(s: State, t: State, trace: Trace, i: nat, ok: bool, n: nat)
    requires OnceEach(s, trace, n) && i < |s.calls| && s.calls[i].stage == Settling(ok)
    requires t.calls == Without(s.calls, i) && t.recorded == s.recorded + [Record(s.calls[i].amount, ok)]
    ensures OnceEach(t, trace.(origins := trace.origins[..i] + trace.origins[i + 1..],
                               booked := trace.booked + [trace.origins[i]]), n)
  {
    assert StageSays(s.calls[i], trace.origins[i], trace.moved);
    OnceWithout(s, t.(recorded := s.recorded), trace,
                trace.(origins := trace.origins[..i] + trace.origins[i + 1..]), i, n);
    var left := trace.origins[..i] + trace.origins[i + 1..];
    forall j | 0 <= j < |left| ensures left[j] != trace.origins[i] {
      assert left[j] == trace.origins[if j < i then j else j + 1];
    }
  }

  lemma OnceReset(s: State, t: State, trace: Trace, n: nat)
    requires OnceEach(s, trace, n) && t.calls == s.calls && t.recorded == []
    ensures OnceEach(t, trace.(spent := [], booked := []), n)
  {
  }

  lemma OnceLater(s: State, trace: Trace, n: nat)
    requires OnceEach(s, trace, n)
    ensures OnceEach(s, trace, n + 1)
  {
  }

  lemma OnceNextDay(s: State, trace: Trace, today: int, n: nat) returns (t: State, after: Trace)
    requires OnceEach(s, trace, n)
    ensures t == AtDay(s, today) && after == if s.day == today then trace else trace.(spent := [], booked := [])
    ensures OnceEach(t, after, n)
  {
    t, after := s, trace;
    if s.day != today {
      t, after := AtDay(s, today), trace.(spent := [], booked := []);
      OnceReset(s, t, trace, n);
    }
  }

  lemma OncePlanned(s: State, trace: Trace, action: Action, n: nat, cfg: Config) returns (t: State, after: Trace)
    requires OnceEach(s, trace, n) && action.Plan?
    ensures t == Step(s, action, cfg) && after == Follow(trace, s, t, action, n) && OnceEach(t, after, n + 1)
  {
    t, after := OnceNextDay(s, trace, action.today, n);
    OnceLater(t, after, n);
  }

  lemma OnceStarted(s: State, trace: Trace, action: Action, n: nat, cfg: Config) returns (t: State, after: Trace)
    requires OnceEach(s, trace, n) && action.Begin?
    ensures t == Step(s, action, cfg) && after == Follow(trace, s, t, action, n) && OnceEach(t, after, n + 1)
  {
    var today, same := OnceNextDay(s, trace, action.today, n);
    t, after := Step(s, action, cfg), same.(origins := same.origins + [n]);
    OnceBegun(today, t, same, n, t.calls[|t.calls| - 1]);
  }

  lemma OnceLeft(s: State, trace: Trace, action: Action, n: nat, cfg: Config) returns (t: State, after: Trace)
    requires OnceEach(s, trace, n) && (action.Decide? || action.Abandon?)
    requires |Step(s, action, cfg).calls| < |s.calls|
    ensures t == Step(s, action, cfg) && after == Follow(trace, s, t, action, n) && OnceEach(t, after, n)
  {
    var i := LeavingCall(s, action, cfg);
    t, after := s.(calls := Without(s.calls, i)), trace.(origins := trace.origins[..i] + trace.origins[i + 1..]);
    OnceWithout(s, t, trace, after, i, n);
  }

  lemma LeavingCall(s: State, action: Action, cfg: Config) returns (i: nat)
    requires (action.Decide? || action.Abandon?) && |Step(s, action, cfg).calls| < |s.calls|
    ensures i == action.call < |s.calls| && Step(s, action, cfg) == s.(calls := Without(s.calls, i))
  {
    i := action.call;
  }

  /** A decision that lets a call pass, or a refusal by the provider, only changes the stage. */
  lemma OnceKept(s: State, trace: Trace, action: Action, n: nat, cfg: Config) returns (t: State, after: Trace)
    requires OnceEach(s, trace, n) && (action.Decide? || action.Abandon? || action.Refused?)
    requires |Step(s, action, cfg).calls| == |s.calls|
    ensures t == Step(s, action, cfg) && after == Follow(trace, s, t, action, n) && OnceEach(t, after, n)
  {
    var i := action.call;
    t, after := Step(s, action, cfg), trace;
    if t != s {
      OnceRestaged(s, t, trace, i, t.calls[i].stage, n);
    }
  }

  lemma OnceFinished(s: State, trace: Trace, action: Action, n: nat, cfg: Config) returns (t: State, after: Trace)
    requires OnceEach(s, trace, n) && action.Finish?
    ensures t == Step(s, action, cfg) && after == Follow(trace, s, t, action, n) && OnceEach(t, after, n)
  {
    var i := action.call;
    t, after := Step(s, action, cfg), trace;
    if t != s {
      after := trace.(origins := trace.origins[..i] + trace.origins[i + 1..],
                      booked := trace.booked + [trace.origins[i]]);
      OnceRecorded(s, t, trace, i, s.calls[i].stage.ok, n);
    }
  }

  lemma OncePaid(s: State, trace: Trace, action: Action, n: nat, cfg: Config) returns (t: State, after: Trace)
    requires OnceEach(s, trace, n) && action.Paid?
    ensures t == Step(s, action, cfg) && after == Follow(trace, s, t, action, n) && OnceEach(t, after, n)
  {
    t, after := Step(s, action, cfg), trace;
    if Moves(s, action) {
      var i := action.call;
      var b := trace.origins[i];
      var settling := s.(used := s.used + s.calls[i].amount,
                         calls := s.calls[i := s.calls[i].(stage := Settling(true))]);
      OnceMoved(s, settling, trace, i, n);
      assert (set x | x in [b]) == {b};
      after := trace.(spent := trace.spent + [b], moved := trace.moved + {b});
      if action.eventStored {
        assert Without(settling.calls, i) == Without(s.calls, i);
        OnceRecorded(settling, t, after, i, true, n);
        after := after.(origins := trace.origins[..i] + trace.origins[i + 1..], booked := trace.booked + [b]);
      }
    }
  }

  lemma OnceFollows(s: State, trace: Trace, action: Action, n: nat, cfg: Config) returns (t: State, after: Trace)
    requires OnceEach(s, trace, n)
    ensures t == Step(s, action, cfg) && after == Follow(trace, s, t, action, n) && OnceEach(t, after, n + 1)
  {
    if action.Plan? {
      t, after := OncePlanned(s, trace, action, n, cfg);
    } else if action.Begin? {
      t, after := OnceStarted(s, trace, action, n, cfg);
    } else {
      if action.Paid? {
        t, after := OncePaid(s, trace, action, n, cfg);
      } else if action.Finish? {
        t, after := OnceFinished(s, trace, action, n, cfg);
      } else if |Step(s, action, cfg).calls| < |s.calls| {
        t, after := OnceLeft(s, trace, action, n, cfg);
      } else {
        t, after := OnceKept(s, trace, action, n, cfg);
      }
      OnceLater(t, after, n);
    }
  }

  lemma {:induction false} EachOnce(actions: seq<Action>, cfg: Config)
    ensures OnceEach(Run(actions, cfg), TraceOf(actions, cfg), |actions|)
  {
    if actions != [] {
      var n := |actions| - 1;
      EachOnce(actions[..n], cfg);
      var t, after := OnceFollows(Run(actions[..n], cfg), TraceOf(actions[..n], cfg), actions[n], n, cfg);
    }
  }

  // ---------------------------------------------------------------- the gates hold

  /**
    In every run, the amount counted for the day is the sum of transfers begun by distinct actions; every one
    of them was confirmed, met both caps when checked, and was let pass by the decision on its own call.
   */
  lemma UsedPassedItsGates(actions: seq<Action>, cfg: Config)
    ensures var spent := TraceOf(actions, cfg).spent;
            && Run(actions, cfg).used == Amounts(actions, spent) && Distinct(spent)
            && forall b <- spent :: Cleared(actions, b, cfg)
  {
    UsedComesFromCleared(actions, cfg);
    EachOnce(actions, cfg);
  }

  /** The same of every record, and it says whether the provider accepted the transfer. */
  lemma RecordsPassedTheirGates(actions: seq<Action>, cfg: Config)
    ensures var recorded, trace := Run(actions, cfg).recorded, TraceOf(actions, cfg);
            && |recorded| == |trace.booked| && Distinct(trace.booked)
            && forall k | 0 <= k < |recorded| ::
                 && Cleared(actions, trace.booked[k], cfg)
                 && recorded[k].amount == actions[trace.booked[k]].amount
                 && (recorded[k].ok <==> trace.booked[k] in trace.moved)
  {
    RecordsComeFromCleared(actions, cfg);
    EachOnce(actions, cfg);
    forall k | 0 <= k < |TraceOf(actions, cfg).booked| ensures Cleared(actions, TraceOf(actions, cfg).booked[k], cfg) {
      assert TraceOf(actions, cfg).booked[k] in TraceOf(actions, cfg).booked;
    }
  }

  /** The same of every call that has been sent. */
  lemma SentPassedItsGates(actions: seq<Action>, j: nat, cfg: Config) returns (b: nat)
    requires j < |Run(actions, cfg).calls| && !Run(actions, cfg).calls[j].stage.Checked?
    ensures Cleared(actions, b, cfg) && Run(actions, cfg).calls[j].amount == actions[b].amount
  {
    RunIsTraced(actions, cfg);
    b := TraceOf(actions, cfg).origins[j];
    assert CallFrom(actions, b, Run(actions, cfg).calls[j], cfg);
  }

  lemma VelocityOfCleared(actions: seq<Action>, b: nat, cfg: Config) returns (a: Action)
    requires Cleared(actions, b, cfg)
    ensures a in actions && a.Decide? && a.velocityOk
  {
    var d: nat :| LetsPass(actions, b, d, cfg);
    a := actions[d];
  }

  /** Where the velocity gate refuses everything, nothing is ever counted or recorded. */
  lemma RefusedVelocityMovesNothing(actions: seq<Action>, cfg: Config)
    requires forall a <- actions :: a.Decide? ==> !a.velocityOk
    ensures var s := Run(actions, cfg);
            s.used == 0.0 && s.recorded == [] && forall j | 0 <= j < |s.calls| :: s.calls[j].stage.Checked?
  {
    UsedPassedItsGates(actions, cfg);
    RecordsPassedTheirGates(actions, cfg);
    var s, trace := Run(actions, cfg), TraceOf(actions, cfg);
    if trace.spent != [] {
      var a := VelocityOfCleared(actions, trace.spent[0], cfg);
    }
    if s.recorded != [] {
      var a := VelocityOfCleared(actions, trace.booked[0], cfg);
    }
    forall j | 0 <= j < |s.calls| ensures s.calls[j].stage.Checked? {
      if !s.calls[j].stage.Checked? {
        var b := SentPassedItsGates(actions, j, cfg);
        var a := VelocityOfCleared(actions, b, cfg);
      }
    }
  }

  lemma UnapprovedIsSmall(actions: seq<Action>, b: nat, cfg: Config)
    requires (forall a <- actions :: a.Decide? ==> !a.approval) && Cleared(actions, b, cfg)
    ensures actions[b].amount <= cfg.multiSigThreshold
  {
    var d: nat :| LetsPass(actions, b, d, cfg);
    assert actions[d] in actions;
  }

  /** Without approvals no amount above the threshold is ever sent, counted or recorded. */
  lemma UnapprovedStaysUnderThreshold(actions: seq<Action>, cfg: Config)
    requires forall a <- actions :: a.Decide? ==> !a.approval
    ensures forall b <- TraceOf(actions, cfg).spent :: AmountOf(actions, b) <= cfg.multiSigThreshold
    ensures forall r <- Run(actions, cfg).recorded :: r.amount <= cfg.multiSigThreshold
    ensures forall c <- Run(actions, cfg).calls :: !c.stage.Checked? ==> c.amount <= cfg.multiSigThreshold
  {
    UsedPassedItsGates(actions, cfg);
    RecordsPassedTheirGates(actions, cfg);
    var s, trace := Run(actions, cfg), TraceOf(actions, cfg);
    forall b <- trace.spent ensures AmountOf(actions, b) <= cfg.multiSigThreshold {
      UnapprovedIsSmall(actions, b, cfg);
    }
    forall k | 0 <= k < |s.recorded| ensures s.recorded[k].amount <= cfg.multiSigThreshold {
      UnapprovedIsSmall(actions, trace.booked[k], cfg);
    }
    forall j | 0 <= j < |s.calls| && !s.calls[j].stage.Checked? ensures s.calls[j].amount <= cfg.multiSigThreshold {
      var b := SentPassedItsGates(actions, j, cfg);
      UnapprovedIsSmall(actions, b, cfg);
    }
  }

  /**
    Conversely, a confirmed call within both caps that is still waiting for its decision is sent exactly when
    the decision lets it pass.
   */
  lemma PassingCallIsSent(actions: seq<Action>, i: nat, velocityOk: bool, approval: bool, cfg: Config)
    requires i < |Run(actions, cfg).calls| && Run(actions, cfg).calls[i].stage.Checked?
    ensures var call, b := Run(actions, cfg).calls[i], TraceOf(actions, cfg).origins;
            var t := Run(actions + [Decide(i, velocityOk, approval)], cfg);
            |b| == |Run(actions, cfg).calls|
            && if WithinCaps(actions, b[i], cfg) && actions[b[i]].confirm && velocityOk
                  && (actions[b[i]].amount > cfg.multiSigThreshold ==> approval)
               then t.calls == Run(actions, cfg).calls[i := call.(stage := Sending)]
               else t.calls == Without(Run(actions, cfg).calls, i)
  {
    RunIsTraced(actions, cfg);
    RunSnoc(actions, Decide(i, velocityOk, approval), cfg);
    assert CallFrom(actions, TraceOf(actions, cfg).origins[i], Run(actions, cfg).calls[i], cfg);
  }
}
