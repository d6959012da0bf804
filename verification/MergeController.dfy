/**
  The repository merge controller: its state machine, and the checkpoints and pushes it journals.
  Git, the export and the audit log answer, or raise, as they please.
 */
module MergeController {
  import opened Options

  datatype State = Merging | Done | AdminLockoutSuspend | DegradedRecovery

  function Transitions(s: State): set<State> {
    match s
    case Merging => {Done, AdminLockoutSuspend, DegradedRecovery}
    case AdminLockoutSuspend => {Merging}
    case DegradedRecovery => {Merging}
    case Done => {}
  }

  datatype Outcome = Unknown | Success | SuccessUnverified | Suspended | Degraded

  /** What the checkpoint store and the remote see, in order. */
  datatype Entry = Opened | Pushed(success: bool) | Committed(outcome: Outcome, raised: bool)

  /** What a push attempt runs into. */
  datatype Push =
    | UnsafeTarget
    | Accepted(verified: Option<bool>, auditRaises: bool)
    | LockedOut(exportRaises: bool, auditRaises: bool)
    | Rejected(nonFastForward: bool, auditRaises: bool)

  datatype Call = Attempt(storeRaises: bool, push: Push, commitRaises: bool) | Resume

  /** `trail` lists every state the controller has been in, oldest first. */
  datatype Machine = Machine(state: State, trail: seq<State>, journal: seq<Entry>)

  const START := Machine(Merging, [Merging], [])

  function Enter(m: Machine, target: State): Machine {
    m.(state := target, trail := m.trail + [target])
  }

  function Log(m: Machine, e: Entry): Machine {
    m.(journal := m.journal + [e])
  }

  /** The body of the `try`: the machine after it and the outcome the `finally` clause commits. */
  function Try(m: Machine, push: Push): (Machine, Outcome) {
    match push
    case UnsafeTarget => (m, Unknown)
    case Accepted(verified, _) =>
      (Enter(Log(m, Pushed(true)), Done), if verified == Some(false) then SuccessUnverified else Success)
    case LockedOut(exportRaises, auditRaises) =>
      var pushed := Log(m, Pushed(false));
      if exportRaises || auditRaises then (pushed, Unknown) else (Enter(pushed, AdminLockoutSuspend), Suspended)
    case Rejected(nonFastForward, auditRaises) =>
      var pushed := Log(m, Pushed(false));
      if nonFastForward && auditRaises then (pushed, Unknown) else (Enter(pushed, DegradedRecovery), Degraded)
  }

  function Step(m: Machine, call: Call): Machine {
    match call
    case Resume => if Merging in Transitions(m.state) then Enter(m, Merging) else m
    case Attempt(storeRaises, push, commitRaises) =>
      if m.state != Merging && Merging !in Transitions(m.state) then m
      else
        var ready := if m.state == Merging then m else Enter(m, Merging);
        if storeRaises then ready
        else
          var (after, outcome) := Try(Log(ready, Opened), push);
          Log(after, Committed(outcome, commitRaises))
  }

  function Run(calls: seq<Call>): Machine {
    if calls == [] then START else Step(Run(calls[..|calls| - 1]), calls[|calls| - 1])
  }

  class Controller {
    var state: State
    ghost var trail: seq<State>
    var journal: seq<Entry>

    constructor ()
      ensures Abs() == START
    {
      state, trail, journal := Merging, [Merging], [];
    }

    ghost function Abs(): Machine
      reads this
    {
      Machine(state, trail, journal)
    }

    method Transition(target: State) returns (ok: bool)
      modifies this`state, this`trail
      ensures ok == (target in Transitions(old(state)))
      ensures Abs() == if ok then Enter(old(Abs()), target) else old(Abs())
    {
      if target !in Transitions(state) {
        return false;
      }
      state := target;
      trail := trail + [target];
      return true;
    }

    /** False stands for a raised error. */
    method ResumeMerging() returns (ok: bool)
      modifies this
      ensures ok == (Merging in Transitions(old(state))) && Abs() == Step(old(Abs()), Resume)
    {
      ok := Transition(Merging);
    }

    /** None stands for a raised error; the checkpoint is given to the store's commit on every path that opened it. */
    method AttemptRemoteMerge(storeRaises: bool, push: Push, commitRaises: bool) returns (result: Option<State>)
      modifies this
      ensures Abs() == Step(old(Abs()), Attempt(storeRaises, push, commitRaises))
      ensures result.Some? ==> result.value == state
    {
      if state != Merging {
        var ok := Transition(Merging);
        if !ok {
          return None;
        }
      }
      if storeRaises {
        return None;
      }
      journal := journal + [Opened];
      var outcome;
      result, outcome := TryPush(push);
      journal := journal + [Committed(outcome, commitRaises)];
      if commitRaises {
        result := None;
      }
    }

    method TryPush(push: Push) returns (result: Option<State>, outcome: Outcome)
      requires state == Merging
      modifies this
      ensures (Abs(), outcome) == Try(old(Abs()), push)
      ensures result.Some? ==> result.value == state
    {
      outcome := Unknown;
      if push.UnsafeTarget? {
        return None, outcome;
      }
      journal := journal + [Pushed(push.Accepted?)];
      if push.Accepted? {
        outcome := if push.verified != Some(false) then Success else SuccessUnverified;
        var ok := Transition(Done);
        if push.auditRaises {
          return None, outcome;
        }
        return Some(state), outcome;
      }
      if push.LockedOut? {
        if push.exportRaises || push.auditRaises {
          return None, outcome;
        }
        var ok := Transition(AdminLockoutSuspend);
        outcome := Suspended;
        return Some(state), outcome;
      }
      if push.nonFastForward && push.auditRaises {
        return None, outcome;
      }
      var ok := Transition(DegradedRecovery);
      outcome := Degraded;
      return Some(state), outcome;
    }
  }

  // ---------------------------------------------------------------- where an attempt leads

  /** What the journal says of the last attempt fits the state the controller is left in. */
  predicate Leads(push: Push, state: State, outcome: Outcome) {
    match push
    case UnsafeTarget => state == Merging && outcome == Unknown
    case Accepted(verified, _) =>
      state == Done && (outcome == SuccessUnverified <==> verified == Some(false))
      && outcome in {Success, SuccessUnverified}
    case LockedOut(exportRaises, auditRaises) =>
      if exportRaises || auditRaises then state == Merging && outcome == Unknown
      else state == AdminLockoutSuspend && outcome == Suspended
    case Rejected(nonFastForward, auditRaises) =>
      if nonFastForward && auditRaises then state == Merging && outcome == Unknown
      else state == DegradedRecovery && outcome == Degraded
  }

  /** A lockout suspends, a rejection degrades, a success is final, and an attempt cut short stays in merging. */
  lemma AttemptLeads(m: Machine, push: Push, raised: bool)
    requires m.state == Merging || Merging in Transitions(m.state)
    ensures var after := Step(m, Attempt(false, push, raised));
            && |after.journal| > |m.journal| && m.journal <= after.journal
            && after.journal[|after.journal| - 1].Committed? && after.journal[|after.journal| - 1].raised == raised
            && Leads(push, after.state, after.journal[|after.journal| - 1].outcome)
  {
  }

  /** A suspended or degraded controller is one whose last attempt ended so. */
  ghost predicate StateIsLastOutcome(m: Machine) {
    match m.state
    case Merging => true
    case Done => LastOutcomeIn(m.journal, {Success, SuccessUnverified})
    case AdminLockoutSuspend => LastOutcomeIn(m.journal, {Suspended})
    case DegradedRecovery => LastOutcomeIn(m.journal, {Degraded})
  }

  predicate LastOutcomeIn(journal: seq<Entry>, outcomes: set<Outcome>) {
    journal != [] && journal[|journal| - 1].Committed? && journal[|journal| - 1].outcome in outcomes
  }

  lemma {:induction false} RunsEndAsRecorded(calls: seq<Call>)
    ensures StateIsLastOutcome(Run(calls))
  {
    if calls != [] {
      var m, call := Run(calls[..|calls| - 1]), calls[|calls| - 1];
      RunsEndAsRecorded(calls[..|calls| - 1]);
      if call.Attempt? && !call.storeRaises && (m.state == Merging || Merging in Transitions(m.state)) {
        AttemptLeads(m, call.push, call.commitRaises);
      }
    }
  }

  /** A suspended or degraded controller can be resumed, and an attempt resumes it by itself. */
  lemma SuspensionIsResumable(m: Machine, push: Push, raised: bool)
    requires m.state in {AdminLockoutSuspend, DegradedRecovery}
    ensures Step(m, Resume) == m.(state := Merging, trail := m.trail + [Merging])
    ensures Step(m, Attempt(false, push, raised)) == Step(Step(m, Resume), Attempt(false, push, raised))
  {
  }

  // ---------------------------------------------------------------- over all runs

  ghost predicate FollowsTable(trail: seq<State>) {
    forall i | 0 <= i < |trail| - 1 :: trail[i + 1] in Transitions(trail[i])
  }

  /**
    The journal is a sequence of checkpoints, each opened, at most once pushed, and committed before the
    next is opened; and a successful push is in the last of them.
   */
  ghost predicate WellBracketed(journal: seq<Entry>) {
    if journal == [] then true
    else
      var n := |journal| - 1;
      && journal[n].Committed? && n > 0
      && ((journal[n - 1] == Opened && WellBracketed(journal[..n - 1]))
          || (n > 1 && journal[n - 1].Pushed? && journal[n - 2] == Opened && WellBracketed(journal[..n - 2])))
  }

  function Successes(journal: seq<Entry>): nat {
    if journal == [] then 0
    else Successes(journal[..|journal| - 1]) + if journal[|journal| - 1] == Pushed(true) then 1 else 0
  }

  ghost predicate Inv(m: Machine) {
    && |m.trail| > 0 && m.trail[0] == Merging && m.trail[|m.trail| - 1] == m.state
    && FollowsTable(m.trail)
    && WellBracketed(m.journal)
    && Successes(m.journal) == if m.state == Done then 1 else 0
  }

  lemma LogSnoc(journal: seq<Entry>, e: Entry)
    ensures Successes(journal + [e]) == Successes(journal) + if e == Pushed(true) then 1 else 0
  {
    assert (journal + [e])[..|journal|] == journal;
  }

  lemma BracketOne(journal: seq<Entry>, commit: Entry)
    requires WellBracketed(journal) && commit.Committed?
    ensures WellBracketed(journal + [Opened] + [commit])
    ensures Successes(journal + [Opened] + [commit]) == Successes(journal)
  {
    var all := journal + [Opened] + [commit];
    assert all[..|journal|] == journal;
    LogSnoc(journal, Opened);
    LogSnoc(journal + [Opened], commit);
  }

  lemma BracketPush(journal: seq<Entry>, success: bool, commit: Entry)
    requires WellBracketed(journal) && commit.Committed?
    ensures WellBracketed(journal + [Opened] + [Pushed(success)] + [commit])
    ensures Successes(journal + [Opened] + [Pushed(success)] + [commit])
         == Successes(journal) + if success then 1 else 0
  {
    var all := journal + [Opened] + [Pushed(success)] + [commit];
    assert all[..|journal|] == journal;
    LogSnoc(journal, Opened);
    LogSnoc(journal + [Opened], Pushed(success));
    LogSnoc(journal + [Opened] + [Pushed(success)], commit);
  }

  lemma EnterKeepsTable(m: Machine, target: State)
    requires |m.trail| > 0 && m.trail[|m.trail| - 1] == m.state && FollowsTable(m.trail)
    requires target in Transitions(m.state)
    ensures FollowsTable(Enter(m, target).trail)
  {
  }

  lemma StepKeepsInv(m: Machine, call: Call)
    requires Inv(m)
    ensures Inv(Step(m, call))
  {
    if Merging in Transitions(m.state) {
      EnterKeepsTable(m, Merging);
    }
    if call.Attempt? && !call.storeRaises && (m.state == Merging || Merging in Transitions(m.state)) {
      var ready := if m.state == Merging then m else Enter(m, Merging);
      AttemptKeepsInv(ready, call.push, call.commitRaises);
    }
  }

  lemma AttemptKeepsInv(m: Machine, push: Push, raised: bool)
    requires Inv(m) && m.state == Merging
    ensures var (after, outcome) := Try(Log(m, Opened), push); Inv(Log(after, Committed(outcome, raised)))
  {
    var (after, outcome) := Try(Log(m, Opened), push);
    if push.UnsafeTarget? {
      BracketOne(m.journal, Committed(outcome, raised));
    } else {
      BracketPush(m.journal, push.Accepted?, Committed(outcome, raised));
      if after.state != Merging {
        EnterKeepsTable(m, after.state);
      }
    }
  }

  /**
    In every run the controller moves only along the transition table, commits every checkpoint before it
    opens the next, and pushes successfully at most once.
   */
  lemma {:induction false} RunsAreSafe(calls: seq<Call>)
    ensures Inv(Run(calls)) && Successes(Run(calls).journal) <= 1
  {
    if calls != [] {
      RunsAreSafe(calls[..|calls| - 1]);
      StepKeepsInv(Run(calls[..|calls| - 1]), calls[|calls| - 1]);
    }
  }

  /** Once a push has succeeded nothing happens any more: no push, no checkpoint, no transition. */
  lemma {:induction false} SuccessIsFinal(calls: seq<Call>, n: nat)
    requires n <= |calls| && Successes(Run(calls[..n]).journal) > 0
    ensures Run(calls) == Run(calls[..n])
    decreases |calls|
  {
    RunsAreSafe(calls[..n]);
    if n == |calls| {
      assert calls[..n] == calls;
    } else {
      assert calls[..|calls| - 1][..n] == calls[..n];
      SuccessIsFinal(calls[..|calls| - 1], n);
    }
  }
}
