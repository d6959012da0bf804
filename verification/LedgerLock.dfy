/**
  Many processes calling one ledger file.  Every file operation of `acquireLockSync`, `readLastLine`,
  `appendLine` and the release is one step, as is reading the clock, and the steps of different processes
  and the passing of time interleave freely.  A process may be killed at any point; if it held the lock,
  the lock file stays behind.
 */
module LedgerLock {
  import opened Options
  import opened Ledger

  type Pid = nat

  /** `Age` holds the modification time read, `Note` is between creating the lock file and writing into it. */
  datatype Phase =
    | Stat
    | Age(mtime: nat)
    | Unlink
    | Try(attempt: nat)
    | Note
    | Read
    | Look(line: Line)
    | Write(line: Line, separator: Text)
    | Release(result: Option<Line>)

  /**
    A running process executes `call`; while `inner` holds it is inside the `bootstrap(false)` that
    `append` makes on a file without a readable line, here `nested`.
   */
  datatype Process = Idle | Running(phase: Phase, call: Call, nested: Call, inner: bool) {
    function Active(): Call
      requires Running?
    {
      if inner then nested else call
    }

    /** Between the successful acquire and the release of the outer call. */
    predicate Holds() {
      Running? && (inner || phase.Note? || phase.Read? || phase.Look? || phase.Write? || phase.Release?)
    }
  }

  datatype LockFile = LockFile(mtime: nat, maker: Pid)

  /**
    `order` records, oldest first, the calls that acquired the lock, and of those killed before they were
    done how much of their write reached the file.
   */
  datatype State = State(
    file: Text,
    lock: Option<LockFile>,
    now: nat,
    processes: map<Pid, Process>,
    order: seq<Op>)
  {
    function At(p: Pid): Process {
      if p in processes then processes[p] else Idle
    }

    function With(p: Pid, process: Process): State {
      this.(processes := processes[p := process])
    }

    /** The processes between acquire and release. */
    function Inside(): set<Pid> {
      set p | p in processes && processes[p].Holds()
    }
  }

  datatype Action = Start(p: Pid, call: Call, nested: Call) | Step(p: Pid) | Kill(p: Pid, cut: Cut) | Tick(ms: nat)

  function Next(s: State, action: Action, key: Key): State {
    match action
    case Tick(ms) => s.(now := s.now + ms)
    case Start(p, call, nested) =>
      if s.At(p) != Idle || !nested.Boot? || nested.force then s
      else if call.Post? && call.kind !in KNOWN_EVENT_TYPES then s
      else s.With(p, Running(Stat, call, nested, false))
    case Step(p) =>
      if s.At(p) == Idle then s else StepProcess(s, p, s.At(p), key)
    case Kill(p, cut) =>
      if s.At(p) == Idle then s else Killed(s, p, s.At(p), cut)
  }

  /** What a process killed while writing leaves in the file. */
  function Fragment(phase: Phase, cut: Cut): Text {
    match phase
    case Write(line, separator) =>
      (match cut
       case BeforeSeparator => []
       case AfterSeparator => separator
       case InsideLine => separator + [Part(line)]
       case BeforeNewLine => separator + [Whole(line)])
    case _ => []
  }

  function Killed(s: State, p: Pid, proc: Process, cut: Cut): State
    requires proc.Running?
  {
    if !proc.Holds() || proc.phase.Release? || s.order == [] then s.With(p, Idle)
    else
      var end := if proc.phase.Write? then cut else BeforeSeparator;
      s.With(p, Idle).(file := s.file + Fragment(proc.phase, cut),
                       order := s.order[..|s.order| - 1] + [Crash(proc.call, end)])
  }

  function StepProcess(s: State, p: Pid, proc: Process, key: Key): State
    requires proc.Running?
  {
    match proc.phase
    case Stat =>
      s.With(p, proc.(phase := if s.lock.Some? then Age(s.lock.value.mtime) else Try(0)))
    case Age(mtime) =>
      s.With(p, proc.(phase := if s.now > mtime + STALE_LOCK_MS then Unlink else Try(0)))
    case Unlink =>
      s.With(p, proc.(phase := Try(0))).(lock := None)
    case Try(attempt) =>
      if s.lock.None? then
        s.With(p, proc.(phase := Note)).(lock := Some(LockFile(s.now, p)), order := s.order + [Finish(proc.Active())])
      else if attempt + 1 < LOCK_ATTEMPTS then s.With(p, proc.(phase := Try(attempt + 1)))
      else if proc.inner then s.With(p, proc.(phase := Release(None), inner := false))
      else s.With(p, Idle)
    case Note =>
      var mine := s.lock.Some? && s.lock.value.maker == p;
      s.With(p, proc.(phase := Read)).(lock := if mine then Some(LockFile(s.now, p)) else s.lock)
    case Read =>
      var last := LastLine(Rows(s.file));
      var line := LineFor(last, proc.Active(), key);
      if line.Some? then s.With(p, proc.(phase := Look(line.value)))
      else if last.None? && !proc.inner then s.With(p, proc.(phase := Stat, inner := true))
      else s.With(p, proc.(phase := Release(last)))
    case Look(line) =>
      s.With(p, proc.(phase := Write(line, Separator(s.file))))
    case Write(line, separator) =>
      s.With(p, proc.(phase := Release(Some(line)))).(file := s.file + separator + [Whole(line), NewLine])
    case Release(result) =>
      var released := s.(lock := None);
      if proc.inner && result.Some? then
        var line := MakeLine(EventOf(proc.call), result.value.hash, key);
        released.With(p, proc.(phase := Look(line), inner := false))
      else released.With(p, Idle)
  }

  function Run(s: State, actions: seq<Action>, key: Key): State {
    if actions == [] then s
    else Next(Run(s, actions[..|actions| - 1], key), actions[|actions| - 1], key)
  }

  /** The cleanup of a lock taken for stale runs only while nobody is between acquire and release. */
  ghost predicate SafeStep(s: State, action: Action) {
    action.Step? && s.At(action.p).Running? && s.At(action.p).phase.Unlink? ==> forall q: Pid :: !s.At(q).Holds()
  }

  ghost predicate CleansSafely(s: State, actions: seq<Action>, key: Key) {
    forall n: nat | n < |actions| :: SafeStep(Run(s, actions[..n], key), actions[n])
  }

  /** No process runs yet; there may be a lock file that somebody left behind. */
  predicate IsStart(s: State) {
    s.processes == map[] && s.order == []
  }

  /** The file as the calls that acquired the lock leave it when they run one after another. */
  function Serial(file: Text, order: seq<Op>, key: Key): Text {
    RunOps(file, order, key)
  }

  /** How far the lock owner has come, in terms of the serial file before its call. */
  ghost predicate OwnerConsistent(s: State, proc: Process, file: Text, key: Key)
    requires proc.Running?
  {
    && |s.order| > 0
    && s.order[|s.order| - 1] == Finish(proc.call)
    && (var before := Serial(file, s.order[..|s.order| - 1], key);
        if proc.inner then
          && (proc.phase.Stat? || proc.phase.Age? || proc.phase.Unlink? || proc.phase.Try?)
          && s.file == before
          && LineWritten(before, proc.call, key) == None
        else match proc.phase
          case Note => s.file == before
          case Read => s.file == before
          case Look(line) => s.file == before && LineWritten(before, proc.call, key) == Some(line)
          case Write(line, separator) =>
            s.file == before && LineWritten(before, proc.call, key) == Some(line) && separator == Separator(before)
          case Release(_) => s.file == Serial(file, s.order, key)
          case _ => false)
  }

  /** `abandoned` says whether a lock file may be there that belongs to nobody. */
  ghost predicate Inv(s: State, owner: Option<Pid>, abandoned: bool, file: Text, key: Key) {
    && (owner.Some? ==> s.lock.Some? && s.At(owner.value).Holds())
    && (forall p: Pid :: s.At(p).Holds() ==> owner == Some(p))
    && (if owner.None? then s.file == Serial(file, s.order, key) && (s.lock.Some? ==> abandoned)
        else OwnerConsistent(s, s.At(owner.value), file, key))
  }

  lemma SerialStep(file: Text, order: seq<Op>, op: Op, key: Key)
    ensures Serial(file, order + [op], key) == ApplyOp(Serial(file, order, key), op, key)
    ensures (order + [op])[..|order|] == order
  {
    assert (order + [op])[..|order|] == order;
  }

  lemma NextKeepsInv(s: State, owner: Option<Pid>, abandoned: bool, action: Action, file: Text, key: Key)
    returns (owner': Option<Pid>)
    requires Inv(s, owner, abandoned, file, key) && SafeStep(s, action)
    ensures Inv(Next(s, action, key), owner', abandoned || action.Kill?, file, key)
  {
    owner' := owner;
    if action.Step? && s.At(action.p) != Idle {
      if owner == Some(action.p) {
        owner' := OwnerStep(s, action.p, abandoned, file, key);
      } else {
        owner' := StrangerStep(s, owner, action.p, abandoned, file, key);
      }
    } else if action.Kill? && s.At(action.p) != Idle {
      if owner == Some(action.p) {
        owner' := None;
        OwnerKilled(s, action.p, action.cut, abandoned, file, key);
      } else {
        StrangerKilled(s, owner, action.p, action.cut, abandoned, file, key);
      }
    } else {
      QuietStep(s, owner, abandoned, action, file, key);
    }
  }

  /** Time passes, or an idle process starts a call. */
  lemma QuietStep(s: State, owner: Option<Pid>, abandoned: bool, action: Action, file: Text, key: Key)
    requires Inv(s, owner, abandoned, file, key)
    requires action.Step? || action.Kill? ==> s.At(action.p) == Idle
    ensures Inv(Next(s, action, key), owner, abandoned, file, key)
  {
    var t := Next(s, action, key);
    if action.Start? && t != s {
      assert forall q | q != action.p :: t.At(q) == s.At(q);
      assert !t.At(action.p).Holds();
    } else {
      assert forall q :: t.At(q) == s.At(q);
    }
    if owner.Some? {
      assert OwnerConsistent(t, t.At(owner.value), file, key);
    }
  }

  /** The file a killed owner leaves is that of the crashed serial call. */
  lemma KilledFile(s: State, p: Pid, cut: Cut, abandoned: bool, file: Text, key: Key)
    requires Inv(s, Some(p), abandoned, file, key)
    ensures Killed(s, p, s.At(p), cut).file == Serial(file, Killed(s, p, s.At(p), cut).order, key)
  {
    var proc := s.At(p);
    if !proc.phase.Release? {
      var n := |s.order| - 1;
      var end := if proc.phase.Write? then cut else BeforeSeparator;
      SerialStep(file, s.order[..n], Crash(proc.call, end), key);
      FragmentOfOwner(s, proc, cut, Serial(file, s.order[..n], key), file, key);
    }
  }

  /** What the owner had written of its line is what a crash of its call leaves. */
  lemma FragmentOfOwner(s: State, proc: Process, cut: Cut, before: Text, file: Text, key: Key)
    requires proc.Holds() && !proc.phase.Release? && OwnerConsistent(s, proc, file, key)
    requires before == Serial(file, s.order[..|s.order| - 1], key)
    ensures s.file + Fragment(proc.phase, cut)
         == ApplyOp(before, Crash(proc.call, if proc.phase.Write? then cut else BeforeSeparator), key)
  {
    if proc.phase.Write? && !proc.inner {
      FragmentIsCrash(before, proc.call, proc.phase.line, cut, key);
    }
  }

  /** A killed owner leaves the lock behind, and in the file what its operation had written. */
  lemma OwnerKilled(s: State, p: Pid, cut: Cut, abandoned: bool, file: Text, key: Key)
    requires Inv(s, Some(p), abandoned, file, key)
    ensures Inv(Killed(s, p, s.At(p), cut), None, true, file, key)
  {
    KilledFile(s, p, cut, abandoned, file, key);
    assert forall q | q != p :: Killed(s, p, s.At(p), cut).At(q) == s.At(q);
  }

  lemma FragmentIsCrash(before: Text, call: Call, line: Line, cut: Cut, key: Key)
    requires LineWritten(before, call, key) == Some(line)
    ensures before + Fragment(Write(line, Separator(before)), cut) == ApplyOp(before, Crash(call, cut), key)
  {
    assert before + (Separator(before) + [Part(line)]) == before + Separator(before) + [Part(line)];
    assert before + (Separator(before) + [Whole(line)]) == before + Separator(before) + [Whole(line)];
  }

  lemma StrangerKilled(
    s: State, owner: Option<Pid>, p: Pid, cut: Cut, abandoned: bool, file: Text, key: Key)
    requires Inv(s, owner, abandoned, file, key) && owner != Some(p) && s.At(p).Running?
    ensures Inv(Killed(s, p, s.At(p), cut), owner, abandoned, file, key)
  {
    var t := Killed(s, p, s.At(p), cut);
    assert !s.At(p).Holds();
    assert forall q | q != p :: t.At(q) == s.At(q);
    if owner.Some? {
      assert OwnerConsistent(t, t.At(owner.value), file, key);
    }
  }

  lemma OwnerStep(s: State, p: Pid, abandoned: bool, file: Text, key: Key) returns (owner': Option<Pid>)
    requires Inv(s, Some(p), abandoned, file, key) && !s.At(p).phase.Unlink?
    ensures Inv(StepProcess(s, p, s.At(p), key), owner', abandoned, file, key)
  {
    var t := StepProcess(s, p, s.At(p), key);
    assert forall q | q != p :: t.At(q) == s.At(q);
    OwnerStaysConsistent(s, p, abandoned, file, key);
    owner' := if t.lock.None? then None else Some(p);
  }

  lemma OwnerStaysConsistent(s: State, p: Pid, abandoned: bool, file: Text, key: Key)
    requires Inv(s, Some(p), abandoned, file, key) && !s.At(p).phase.Unlink?
    ensures var t := StepProcess(s, p, s.At(p), key);
            if t.lock.Some? then t.At(p).Holds() && OwnerConsistent(t, t.At(p), file, key)
            else !t.At(p).Holds() && t.file == Serial(file, t.order, key)
  {
    var before := Serial(file, s.order[..|s.order| - 1], key);
    SerialLast(s, p, file, key);
    if s.At(p).phase.Read? {
      OwnerReads(s, p, before, file, key);
    } else if s.At(p).phase.Write? {
      OwnerWrites(s, p, before, file, key);
    }
  }

  /** What the owner writes is what its call, run alone, appends. */
  lemma OwnerWrites(s: State, p: Pid, before: Text, file: Text, key: Key)
    requires s.At(p).Running? && s.At(p).phase.Write? && s.lock.Some?
    requires OwnerConsistent(s, s.At(p), file, key) && before == Serial(file, s.order[..|s.order| - 1], key)
    requires Serial(file, s.order, key) == Apply(before, s.At(p).call, key)
    ensures var t := StepProcess(s, p, s.At(p), key);
            t.lock.Some? && t.At(p).Holds() && OwnerConsistent(t, t.At(p), file, key)
  {
    assert Apply(before, s.At(p).call, key) == AppendText(before, s.At(p).phase.line);
  }

  /** The owner reads the last line and knows whether, and what, it will write. */
  lemma OwnerReads(s: State, p: Pid, before: Text, file: Text, key: Key)
    requires s.At(p).Running? && s.At(p).phase.Read? && !s.At(p).inner && s.lock.Some?
    requires OwnerConsistent(s, s.At(p), file, key) && before == Serial(file, s.order[..|s.order| - 1], key)
    requires Serial(file, s.order, key) == Apply(before, s.At(p).call, key)
    ensures var t := StepProcess(s, p, s.At(p), key);
            t.lock.Some? && t.At(p).Holds() && OwnerConsistent(t, t.At(p), file, key)
  {
    var t := StepProcess(s, p, s.At(p), key);
    assert t == s.With(p, t.At(p));
  }

  lemma SerialLast(s: State, p: Pid, file: Text, key: Key)
    requires s.At(p).Running? && OwnerConsistent(s, s.At(p), file, key)
    ensures Serial(file, s.order, key) == Apply(Serial(file, s.order[..|s.order| - 1], key), s.At(p).call, key)
  {
    var n := |s.order| - 1;
    assert s.order == s.order[..n] + [s.order[n]];
    SerialStep(file, s.order[..n], Finish(s.At(p).call), key);
  }

  lemma StrangerStep(s: State, owner: Option<Pid>, p: Pid, abandoned: bool, file: Text, key: Key)
    returns (owner': Option<Pid>)
    requires Inv(s, owner, abandoned, file, key) && owner != Some(p) && s.At(p).Running?
    requires SafeStep(s, Step(p))
    ensures Inv(StepProcess(s, p, s.At(p), key), owner', abandoned, file, key)
  {
    assert !s.At(p).Holds();
    if s.At(p).phase.Try? && s.lock.None? {
      owner' := Some(p);
      StrangerAcquires(s, p, abandoned, file, key);
    } else if s.At(p).phase.Unlink? {
      owner' := None;
      StrangerCleans(s, p, abandoned, file, key);
    } else {
      owner' := owner;
      StrangerWaits(s, owner, p, abandoned, file, key);
    }
  }

  lemma StrangerAcquires(s: State, p: Pid, abandoned: bool, file: Text, key: Key)
    requires Inv(s, None, abandoned, file, key) && s.At(p).Running? && s.At(p).phase.Try? && s.lock.None?
    ensures Inv(StepProcess(s, p, s.At(p), key), Some(p), abandoned, file, key)
  {
    var proc := s.At(p).(phase := Note);
    assert !s.At(p).Holds();
    AcquiredIsConsistent(s, p, proc, abandoned, file, key);
  }

  /** A process that has just acquired the lock finds the serial file. */
  lemma AcquiredIsConsistent(s: State, p: Pid, proc: Process, abandoned: bool, file: Text, key: Key)
    requires Inv(s, None, abandoned, file, key) && proc.Running? && !proc.inner && proc.phase.Note?
    ensures var t := s.With(p, proc).(lock := Some(LockFile(s.now, p)), order := s.order + [Finish(proc.call)]);
            Inv(t, Some(p), abandoned, file, key)
  {
    var t := s.With(p, proc).(lock := Some(LockFile(s.now, p)), order := s.order + [Finish(proc.call)]);
    assert t.At(p) == proc;
    assert forall q | q != p :: t.At(q) == s.At(q);
    SerialStep(file, s.order, Finish(proc.call), key);
  }

  /** The recovery: a lock that belongs to nobody is removed. */
  lemma StrangerCleans(s: State, p: Pid, abandoned: bool, file: Text, key: Key)
    requires Inv(s, None, abandoned, file, key) && s.At(p).Running? && s.At(p).phase.Unlink?
    ensures Inv(StepProcess(s, p, s.At(p), key), None, abandoned, file, key)
  {
    var t := StepProcess(s, p, s.At(p), key);
    assert !s.At(p).Holds();
    assert forall q | q != p :: t.At(q) == s.At(q);
  }

  lemma StrangerWaits(s: State, owner: Option<Pid>, p: Pid, abandoned: bool, file: Text, key: Key)
    requires Inv(s, owner, abandoned, file, key) && owner != Some(p) && s.At(p).Running? && !s.At(p).Holds()
    requires (s.At(p).phase.Try? ==> s.lock.Some?) && !s.At(p).phase.Unlink?
    ensures Inv(StepProcess(s, p, s.At(p), key), owner, abandoned, file, key)
  {
    var t := StepProcess(s, p, s.At(p), key);
    assert t == s.With(p, t.At(p)) && !t.At(p).Holds();
    assert forall q | q != p :: t.At(q) == s.At(q);
    if owner.Some? {
      assert OwnerConsistent(t, t.At(owner.value), file, key);
    }
  }

  /** Some process was killed, or the run began with a lock file. */
  ghost predicate Abandons(start: State, actions: seq<Action>) {
    start.lock.Some? || exists a <- actions :: a.Kill?
  }

  lemma CleansSafelyInit(start: State, actions: seq<Action>, key: Key)
    requires actions != [] && CleansSafely(start, actions, key)
    ensures CleansSafely(start, actions[..|actions| - 1], key)
    ensures SafeStep(Run(start, actions[..|actions| - 1], key), actions[|actions| - 1])
  {
    var init := actions[..|actions| - 1];
    forall n: nat | n < |init| ensures SafeStep(Run(start, init[..n], key), init[n]) {
      assert init[..n] == actions[..n] && init[n] == actions[n];
    }
  }

  lemma {:induction false} RunKeepsInv(start: State, actions: seq<Action>, key: Key) returns (owner: Option<Pid>)
    requires IsStart(start) && CleansSafely(start, actions, key)
    ensures Inv(Run(start, actions, key), owner, Abandons(start, actions), start.file, key)
  {
    if actions == [] {
      owner := None;
    } else {
      var n := |actions| - 1;
      CleansSafelyInit(start, actions, key);
      var earlier := RunKeepsInv(start, actions[..n], key);
      owner := NextKeepsInv(Run(start, actions[..n], key), earlier, Abandons(start, actions[..n]), actions[n],
                            start.file, key);
      assert Abandons(start, actions) <==> Abandons(start, actions[..n]) || actions[n].Kill? by {
        assert actions == actions[..n] + [actions[n]];
        assert forall a :: a in actions <==> a in actions[..n] || a == actions[n];
      }
    }
  }

  /**
    Mutual exclusion, through kills, abandoned locks and their recovery, as long as no cleanup runs while
    somebody is inside.
   */
  lemma {:induction false} AtMostOneHolder(start: State, actions: seq<Action>, key: Key, p: Pid, q: Pid)
    requires IsStart(start) && CleansSafely(start, actions, key)
    requires Run(start, actions, key).At(p).Holds() && Run(start, actions, key).At(q).Holds()
    ensures p == q
  {
    var owner := RunKeepsInv(start, actions, key);
  }

  /**
    Whenever no process holds the lock, the file is what the calls leave behind in acquire order; and a
    lock file is there only if it was there at the start or a process was killed.
   */
  lemma {:induction false} InterleavingIsSerial(start: State, actions: seq<Action>, key: Key)
    requires IsStart(start) && CleansSafely(start, actions, key)
    requires forall p: Pid :: !Run(start, actions, key).At(p).Holds()
    ensures var s := Run(start, actions, key);
            s.file == RunOps(start.file, s.order, key) && (s.lock.Some? ==> Abandons(start, actions))
  {
    var owner := RunKeepsInv(start, actions, key);
  }

  /** Some process was killed with its line half written. */
  ghost predicate KilledInsideLine(actions: seq<Action>) {
    exists a <- actions :: a.Kill? && a.cut == InsideLine
  }

  lemma {:induction false} OrderIsWhole(s: State, actions: seq<Action>, key: Key)
    requires s.order == [] && !KilledInsideLine(actions)
    ensures forall op <- Run(s, actions, key).order :: op.Crash? ==> op.cut != InsideLine
  {
    if actions != [] {
      var n := |actions| - 1;
      assert forall a <- actions[..n] :: a in actions;
      assert actions[n] in actions;
      OrderIsWhole(s, actions[..n], key);
    }
  }

  /**
    A ledger that many processes write from empty is accepted by `verify`, whenever it is at rest, exactly
    if no kill tore a line, and then it has one line per completed write.
   */
  lemma {:induction false} SharedLedgerVerifiesIff(start: State, actions: seq<Action>, key: Key)
    requires IsStart(start) && start.file == [] && CleansSafely(start, actions, key)
    requires forall p: Pid :: !Run(start, actions, key).At(p).Holds()
    ensures var s := Run(start, actions, key);
            && (Accepted(Written(s.file), key) <==> NeverTorn(s.order, key))
            && (NeverTorn(s.order, key) ==> |Written(s.file)| == CompletedLines([], s.order, key))
  {
    var order := Run(start, actions, key).order;
    InterleavingIsSerial(start, actions, key);
    VerifiesIffNeverTorn(order, key);
    if NeverTorn(order, key) {
      ReachableFilesVerify(order, key);
    }
  }

  lemma {:induction false} SharedLedgerVerifies(start: State, actions: seq<Action>, key: Key)
    requires IsStart(start) && start.file == [] && CleansSafely(start, actions, key)
    requires !KilledInsideLine(actions) && forall p: Pid :: !Run(start, actions, key).At(p).Holds()
    ensures var s := Run(start, actions, key);
            Accepted(Written(s.file), key) && |Written(s.file)| == CompletedLines([], s.order, key)
  {
    var order := Run(start, actions, key).order;
    SharedLedgerVerifiesIff(start, actions, key);
    OrderIsWhole(start, actions, key);
    forall j: nat | j < |order| ensures !TornAt(order, j, key) {
      assert order[j] in order;
    }
  }

  /** At rest, and if no kill tore a line, every row stores what the call that completed it was given. */
  lemma SharedRowsCarryCalls(start: State, actions: seq<Action>, key: Key)
    requires IsStart(start) && start.file == [] && CleansSafely(start, actions, key)
    requires forall p: Pid :: !Run(start, actions, key).At(p).Holds()
    requires NeverTorn(Run(start, actions, key).order, key)
    ensures var s := Run(start, actions, key);
            CarryCalls(Written(s.file), CompletedCalls([], s.order, key))
  {
    InterleavingIsSerial(start, actions, key);
    RowsCarryCalls(Run(start, actions, key).order, key);
  }

  // ---------------------------------------------------------------- who touches a lock file

  /** A lock file that stays is touched by nobody but its maker, who sets its time when it writes into it. */
  lemma OnlyMakerTouches(s: State, action: Action, key: Key)
    requires s.lock.Some? && Next(s, action, key).lock.Some?
    ensures var touched := action.Step? && action.p == s.lock.value.maker
                           && s.At(action.p).Running? && s.At(action.p).phase == Note;
            Next(s, action, key).lock == Some(if touched then LockFile(s.now, s.lock.value.maker) else s.lock.value)
  {
  }

  // ---------------------------------------------------------------- waiting for the lock

  function Steps(p: Pid, n: nat): seq<Action> {
    if n == 0 then [] else Steps(p, n - 1) + [Step(p)]
  }

  /** The process has failed `n` attempts since it stood at its first one; after ten it has given up. */
  function Waiting(s: State, p: Pid, n: nat): State
    requires s.At(p).Running?
  {
    if n == 0 then s else s.With(p, if n < 10 then s.At(p).(phase := Try(n)) else Idle)
  }

  lemma AttemptFails(s: State, p: Pid, n: nat, key: Key)
    requires s.lock.Some? && n < 10 && s.At(p).Running? && s.At(p).phase == Try(0) && !s.At(p).inner
    ensures Next(Waiting(s, p, n), Step(p), key) == Waiting(s, p, n + 1)
  {
    var t, proc := Waiting(s, p, n), s.At(p).(phase := Try(n));
    assert t.At(p) == proc && t.lock == s.lock;
    var after := if n + 1 < 10 then proc.(phase := Try(n + 1)) else Idle;
    assert Next(t, Step(p), key) == t.With(p, after);
    assert t.With(p, after).processes == s.With(p, after).processes;
  }

  /** Against a lock that stays, a call makes ten attempts and gives up, having changed nothing. */
  lemma {:induction false} TenAttempts(s: State, p: Pid, n: nat, key: Key)
    requires s.lock.Some? && n <= 10 && s.At(p).Running? && s.At(p).phase == Try(0) && !s.At(p).inner
    ensures Run(s, Steps(p, n), key) == Waiting(s, p, n)
  {
    if n > 0 {
      TenAttempts(s, p, n - 1, key);
      AttemptFails(s, p, n - 1, key);
      StepsLength(p, n);
      StepsLength(p, n - 1);
      assert Steps(p, n)[..n - 1] == Steps(p, n - 1);
    }
  }

  lemma {:induction false} StepsLength(p: Pid, n: nat)
    ensures |Steps(p, n)| == n
  {
    if n > 0 {
      StepsLength(p, n - 1);
    }
  }

  // ---------------------------------------------------------------- the age bound

  /** The lock file, if there is one, is not older than the staleness bound. */
  predicate LockIsFresh(s: State) {
    s.lock.Some? ==> s.now <= s.lock.value.mtime + STALE_LOCK_MS
  }

  /** Nor is any modification time that a process has read and not yet compared with the clock. */
  ghost predicate Fresh(s: State) {
    && LockIsFresh(s)
    && forall p: Pid :: s.At(p).Running? && s.At(p).phase.Age? ==> s.now <= s.At(p).phase.mtime + STALE_LOCK_MS
  }

  ghost predicate StaysFresh(s: State, actions: seq<Action>, key: Key) {
    forall n: nat | n <= |actions| :: Fresh(Run(s, actions[..n], key))
  }

  ghost predicate NobodyCleans(s: State) {
    forall p: Pid :: s.At(p).Running? ==> !s.At(p).phase.Unlink?
  }

  lemma FreshStepCleansNothing(s: State, p: Pid, key: Key)
    requires Fresh(s) && s.At(p).Running?
    ensures var proc := StepProcess(s, p, s.At(p), key).At(p); proc.Running? ==> !proc.phase.Unlink?
    ensures forall q: Pid | q != p :: StepProcess(s, p, s.At(p), key).At(q) == s.At(q)
  {
  }

  lemma FreshNextCleansNothing(s: State, action: Action, key: Key)
    requires Fresh(s) && NobodyCleans(s)
    ensures NobodyCleans(Next(s, action, key))
  {
    var t := Next(s, action, key);
    match action
    case Tick(_) => assert forall q :: t.At(q) == s.At(q);
    case Start(p, _, _) => assert forall q | q != p :: t.At(q) == s.At(q);
    case Kill(p, _) => assert forall q | q != p :: t.At(q) == s.At(q);
    case Step(p) =>
      if s.At(p) != Idle {
        FreshStepCleansNothing(s, p, key);
      }
  }

  lemma {:induction false} FreshRunCleansNothing(start: State, actions: seq<Action>, n: nat, key: Key)
    requires IsStart(start) && StaysFresh(start, actions, key) && n <= |actions|
    ensures NobodyCleans(Run(start, actions[..n], key))
  {
    if n > 0 {
      FreshRunCleansNothing(start, actions, n - 1, key);
      assert actions[..n][..n - 1] == actions[..n - 1];
      FreshNextCleansNothing(Run(start, actions[..n - 1], key), actions[n - 1], key);
    }
  }

  /**
    While no lock file, and no modification time read from one, gets older than the staleness bound before
    it is compared, no cleanup runs at all, so none is unsafe.
   */
  lemma FreshRunsCleanSafely(start: State, actions: seq<Action>, key: Key)
    requires IsStart(start) && StaysFresh(start, actions, key)
    ensures CleansSafely(start, actions, key)
  {
    forall n: nat | n < |actions| ensures SafeStep(Run(start, actions[..n], key), actions[n]) {
      FreshRunCleansNothing(start, actions, n, key);
    }
  }

  // ---------------------------------------------------------------- the recovery

  /**
    A stale lock that nobody holds is removed and taken over by any call that starts, whatever the other
    processes are waiting for.
   */
  lemma StaleLockIsRecovered(s: State, p: Pid, call: Call, nested: Call, key: Key)
    requires s.lock.Some? && s.now > s.lock.value.mtime + STALE_LOCK_MS && s.At(p) == Idle
    requires forall q: Pid :: !s.At(q).Holds()
    requires nested.Boot? && !nested.force && (call.Post? ==> call.kind in KNOWN_EVENT_TYPES)
    ensures var t := Run(s, Recovery(p, call, nested), key);
            && CleansSafely(s, Recovery(p, call, nested), key)
            && t.At(p) == Running(Read, call, nested, false) && t.lock == Some(LockFile(s.now, p))
            && t.file == s.file && forall q: Pid | q != p :: t.At(q) == s.At(q)
  {
    var run, cleaning := LooksAndWillClean(s, p, call, nested, key);
    assert forall q: Pid :: !cleaning.At(q).Holds();
    TakesOverLock(s, cleaning, p, call, nested, key);
    run := SafeSnoc(s, run, Step(p), key);
    run := SafeSnoc(s, run, Step(p), key);
    run := SafeSnoc(s, run, Step(p), key);
    RecoveryRun(p, call, nested);
  }

  lemma RecoveryRun(p: Pid, call: Call, nested: Call)
    ensures [] + [Start(p, call, nested)] + [Step(p)] + [Step(p)] + [Step(p)] + [Step(p)] + [Step(p)]
         == Recovery(p, call, nested)
  {
    var looked := [] + [Start(p, call, nested)] + [Step(p)] + [Step(p)];
    assert looked == [Start(p, call, nested), Step(p), Step(p)];
  }

  lemma LooksAndWillClean(s: State, p: Pid, call: Call, nested: Call, key: Key)
    returns (run: seq<Action>, cleaning: State)
    requires s.lock.Some? && s.now > s.lock.value.mtime + STALE_LOCK_MS && s.At(p) == Idle
    requires nested.Boot? && !nested.force && (call.Post? ==> call.kind in KNOWN_EVENT_TYPES)
    ensures run == [] + [Start(p, call, nested)] + [Step(p)] + [Step(p)] && CleansSafely(s, run, key)
    ensures cleaning == Run(s, run, key) == s.With(p, Running(Unlink, call, nested, false))
    ensures forall q: Pid | q != p :: cleaning.At(q) == s.At(q)
  {
    cleaning := SeesStaleLock(s, p, call, nested, key);
    run := SafeSnoc(s, [], Start(p, call, nested), key);
    run := SafeSnoc(s, run, Step(p), key);
    run := SafeSnoc(s, run, Step(p), key);
  }

  /** One more action that is no unsafe cleanup. */
  lemma SafeSnoc(s: State, before: seq<Action>, action: Action, key: Key) returns (more: seq<Action>)
    requires CleansSafely(s, before, key) && SafeStep(Run(s, before, key), action)
    ensures more == before + [action]
    ensures CleansSafely(s, more, key) && Run(s, more, key) == Next(Run(s, before, key), action, key)
  {
    more := before + [action];
    forall n: nat | n < |more| ensures SafeStep(Run(s, more[..n], key), more[n]) {
      if n < |before| {
        assert more[..n] == before[..n];
      } else {
        assert more[..n] == before;
      }
    }
    assert more[..|before|] == before;
  }

  lemma SeesStaleLock(s: State, p: Pid, call: Call, nested: Call, key: Key) returns (cleaning: State)
    requires s.lock.Some? && s.now > s.lock.value.mtime + STALE_LOCK_MS && s.At(p) == Idle
    requires nested.Boot? && !nested.force && (call.Post? ==> call.kind in KNOWN_EVENT_TYPES)
    ensures cleaning == Next(Next(Next(s, Start(p, call, nested), key), Step(p), key), Step(p), key)
    ensures cleaning.At(p) == Running(Unlink, call, nested, false) && cleaning == s.With(p, cleaning.At(p))
    ensures forall q: Pid | q != p :: cleaning.At(q) == s.At(q)
    ensures var t := Next(s, Start(p, call, nested), key);
            t.At(p).phase == Stat && Next(t, Step(p), key).At(p).phase == Age(s.lock.value.mtime)
  {
    var proc := Running(Stat, call, nested, false);
    var s1 := Next(s, Start(p, call, nested), key);
    assert s1 == s.With(p, proc);
    var s2 := Next(s1, Step(p), key);
    assert s2 == s.With(p, proc.(phase := Age(s.lock.value.mtime)));
    cleaning := Next(s2, Step(p), key);
    assert cleaning == s.With(p, proc.(phase := Unlink));
  }

  lemma TakesOverLock(s: State, cleaning: State, p: Pid, call: Call, nested: Call, key: Key)
    requires cleaning == s.With(p, Running(Unlink, call, nested, false))
    ensures var t := Next(cleaning, Step(p), key);
            var u := Next(t, Step(p), key);
            var v := Next(u, Step(p), key);
            && t.At(p).phase == Try(0) && u.At(p).phase == Note
            && v.At(p) == Running(Read, call, nested, false) && v.lock == Some(LockFile(s.now, p)) && v.file == s.file
            && forall q: Pid | q != p :: v.At(q) == s.At(q)
  {
    var proc := Running(Stat, call, nested, false);
    var t := Next(cleaning, Step(p), key);
    assert t == s.With(p, proc.(phase := Try(0))).(lock := None);
    var u := Next(t, Step(p), key);
    assert u == s.With(p, proc.(phase := Note)).(lock := Some(LockFile(s.now, p)), order := u.order);
  }

  function Recovery(p: Pid, call: Call, nested: Call): seq<Action> {
    [Start(p, call, nested), Step(p), Step(p), Step(p), Step(p), Step(p)]
  }

  // ---------------------------------------------------------------- runs that end with two inside

  lemma RunSteps(start: State, run: seq<Action>, key: Key)
    ensures Run(start, run[..0], key) == start && run[..|run|] == run
    ensures forall n: nat | n < |run| :: Run(start, run[..n + 1], key) == Next(Run(start, run[..n], key), run[n], key)
  {
    forall n: nat | n < |run| ensures Run(start, run[..n + 1], key) == Next(Run(start, run[..n], key), run[n], key) {
      assert run[..n + 1][..n] == run[..n];
    }
  }

  lemma {:induction false} PidBound(pids: set<Pid>) returns (bound: Pid)
    ensures forall p <- pids :: p < bound
  {
    if pids == {} {
      bound := 0;
    } else {
      var p :| p in pids;
      var rest := PidBound(pids - {p});
      bound := if p < rest then rest else p + 1;
      forall q <- pids ensures q < bound {
        assert q == p || q in pids - {p};
      }
    }
  }

  /**
    The condition cannot be relaxed: from any state in which one process is about to clean up while another
    (or the same one, waiting for its own lock) is inside, the cleanup and a safe continuation lead to two
    processes inside.
   */
  lemma UnsafeCleanupAdmitsTwo(s: State, p: Pid, q: Pid, call: Call, nested: Call, key: Key)
    returns (more: seq<Action>, x: Pid, y: Pid)
    requires s.At(p).Running? && s.At(p).phase.Unlink? && s.At(q).Holds()
    requires call.Boot? && nested.Boot? && !nested.force
    ensures CleansSafely(Next(s, Step(p), key), more, key)
    ensures var u := Run(Next(s, Step(p), key), more, key); x != y && {x, y} <= u.Inside()
  {
    var t := Next(s, Step(p), key);
    assert t == s.With(p, s.At(p).(phase := Try(0))).(lock := None);
    if p == q {
      var r := PidBound(s.processes.Keys);
      more, x, y := [Start(r, call, nested), Step(r), Step(r)], p, r;
      NewcomerEnters(t, p, r, call, nested, key);
    } else if s.At(p).Holds() {
      more, x, y := [], p, q;
    } else {
      more, x, y := [Step(p)], p, q;
      RunSteps(t, more, key);
    }
  }

  lemma NewcomerEnters(t: State, p: Pid, r: Pid, call: Call, nested: Call, key: Key)
    requires t.lock.None? && t.At(r) == Idle && t.At(p).Holds() && call.Boot? && nested.Boot? && !nested.force
    ensures var more := [Start(r, call, nested), Step(r), Step(r)];
            CleansSafely(t, more, key) && p != r
            && {p, r} <= Run(t, more, key).Inside()
  {
    var more := [Start(r, call, nested), Step(r), Step(r)];
    var proc := Running(Stat, call, nested, false);
    RunSteps(t, more, key);
    var t1 := Next(t, more[0], key);
    assert t1 == t.With(r, proc);
    var t2 := Next(t1, more[1], key);
    assert t2.At(r) == proc.(phase := Try(0)) && t2.lock == None && t2.At(p) == t.At(p);
    var t3 := Next(t2, more[2], key);
    assert t3.At(r) == proc.(phase := Note) && t3.At(p) == t.At(p);
  }

  /**
    It happens: once a lock left by a dead process is stale, two processes that both saw it stale remove
    and take it one after the other and are both inside.
   */
  lemma StaleLockAdmitsTwo(file: Text, call: Call, nested: Call, key: Key)
    requires call.Boot? && nested.Boot? && !nested.force
    ensures var s := Run(StaleStart(file), Race(call, nested), key);
            {1, 2} <= s.Inside()
  {
    var s0, race := StaleStart(file), Race(call, nested);
    var proc := Running(Stat, call, nested, false);
    RunSteps(s0, race, key);
    var s2 := Next(Next(s0, race[0], key), race[1], key);
    assert s2 == s0.(processes := map[1 := proc, 2 := proc]);
    var s4 := Next(Next(s2, race[2], key), race[3], key);
    assert s4 == s0.(processes := map[1 := proc.(phase := Age(0)), 2 := proc.(phase := Age(0))]);
    var s6 := Next(Next(s4, race[4], key), race[5], key);
    assert s6 == s0.(processes := map[1 := proc.(phase := Unlink), 2 := proc.(phase := Unlink)]);
    var s8 := Next(Next(s6, race[6], key), race[7], key);
    assert s8.At(1).phase == Note && s8.At(2) == proc.(phase := Unlink);
    var s10 := Next(Next(s8, race[8], key), race[9], key);
    assert s10.At(1) == s8.At(1) && s10.At(2).phase == Note;
  }

  function StaleStart(file: Text): State {
    State(file, Some(LockFile(0, 0)), STALE_LOCK_MS + 1, map[], [])
  }

  function Race(call: Call, nested: Call): (race: seq<Action>)
    ensures |race| == 10
  {
    [Start(1, call, nested), Start(2, call, nested), Step(1), Step(2), Step(1), Step(2), Step(1), Step(1), Step(2),
     Step(2)]
  }

  // ---------------------------------------------------------------- fresh lock files are not enough

  ghost predicate LockStaysFresh(s: State, actions: seq<Action>, key: Key) {
    forall n: nat | n <= |actions| :: LockIsFresh(Run(s, actions[..n], key))
  }

  /** One more action, after which the lock file is still fresh. */
  lemma FreshSnoc(s: State, before: seq<Action>, action: Action, key: Key) returns (more: seq<Action>)
    requires LockStaysFresh(s, before, key) && LockIsFresh(Next(Run(s, before, key), action, key))
    ensures more == before + [action]
    ensures LockStaysFresh(s, more, key) && Run(s, more, key) == Next(Run(s, before, key), action, key)
  {
    more := before + [action];
    assert more[..|before|] == before == before[..|before|];
    forall n: nat | n <= |more| ensures LockIsFresh(Run(s, more[..n], key)) {
      if n <= |before| {
        assert more[..n] == before[..n];
      } else {
        assert more[..n] == more;
      }
    }
  }

  /** A process that finds no lock file takes it. */
  lemma Enters(s: State, p: Pid, call: Call, nested: Call, key: Key)
    requires s.lock == None && s.At(p) == Idle && call.Boot? && nested.Boot? && !nested.force
    ensures var t := Next(s, Start(p, call, nested), key);
            var u := Next(t, Step(p), key);
            var v := Next(u, Step(p), key);
            && t.lock == u.lock == None && v.lock == Some(LockFile(s.now, p)) && v.now == s.now
            && Next(v, Step(p), key) == v.With(p, Running(Read, call, nested, false))
            && v == State(s.file, v.lock, s.now, s.processes[p := Running(Note, call, nested, false)],
                          s.order + [Finish(call)])
  {
    var proc := Running(Stat, call, nested, false);
    var t := Next(s, Start(p, call, nested), key);
    assert t == s.With(p, proc);
    var u := Next(t, Step(p), key);
    assert u == s.With(p, proc.(phase := Try(0)));
    var v := Next(u, Step(p), key);
    assert v.processes == s.processes[p := proc.(phase := Note)];
  }

  /** A process looks at a lock file. */
  lemma Sees(s: State, p: Pid, call: Call, nested: Call, key: Key)
    requires s.lock.Some? && s.At(p) == Idle && call.Boot? && nested.Boot? && !nested.force
    ensures var t := Next(s, Start(p, call, nested), key);
            t.lock == s.lock && t.now == s.now
            && Next(t, Step(p), key) == s.With(p, Running(Age(s.lock.value.mtime), call, nested, false))
  {
    assert Next(s, Start(p, call, nested), key) == s.With(p, Running(Stat, call, nested, false));
  }

  /** Process 1 has entered, and process 2 has looked at its lock at the last moment of the lock's freshness. */
  function OneSeen(file: Text, call: Call, nested: Call): State {
    State(file, Some(LockFile(0, 1)), STALE_LOCK_MS,
          map[1 := Running(Read, call, nested, false), 2 := Running(Age(0), call, nested, false)], [Finish(call)])
  }

  lemma FirstIsSeen(file: Text, call: Call, nested: Call, key: Key) returns (run: seq<Action>)
    requires call.Boot? && nested.Boot? && !nested.force
    ensures LockStaysFresh(State(file, None, 0, map[], []), run, key)
    ensures Run(State(file, None, 0, map[], []), run, key) == OneSeen(file, call, nested)
  {
    var s0 := State(file, None, 0, map[], []);
    Enters(s0, 1, call, nested, key);
    run := FreshSnoc(s0, [], Start(1, call, nested), key);
    run := FreshSnoc(s0, run, Step(1), key);
    run := FreshSnoc(s0, run, Step(1), key);
    run := FreshSnoc(s0, run, Step(1), key);
    run := FreshSnoc(s0, run, Tick(STALE_LOCK_MS), key);
    Sees(Run(s0, run, key), 2, call, nested, key);
    run := FreshSnoc(s0, run, Start(2, call, nested), key);
    run := FreshSnoc(s0, run, Step(2), key);
  }

  lemma ForcedRead(s: State, p: Pid, call: Call, nested: Call, key: Key) returns (line: Line)
    requires call.Boot? && call.force && s.At(p) == Running(Read, call, nested, false)
    ensures Next(s, Step(p), key) == s.With(p, Running(Look(line), call, nested, false))
  {
    line := LineFor(LastLine(Rows(s.file)), call, key).value;
  }

  lemma WriteAndRelease(s: State, p: Pid, line: Line, call: Call, nested: Call, key: Key)
    returns (t: State, u: State, written: Text)
    requires s.At(p) == Running(Look(line), call, nested, false)
    ensures t == Next(s, Step(p), key) && u == Next(t, Step(p), key)
    ensures t.lock == u.lock == s.lock && t.now == u.now == s.now
    ensures Next(u, Step(p), key) == s.With(p, Idle).(file := written, lock := None)
  {
    t := Next(s, Step(p), key);
    assert t == s.With(p, Running(Write(line, Separator(s.file)), call, nested, false));
    u := Next(t, Step(p), key);
    assert u == s.With(p, Running(Release(Some(line)), call, nested, false)).(file := u.file);
    written := u.file;
  }

  /** Process 1 writes its line and leaves. */
  lemma FirstLeaves(s0: State, before: seq<Action>, file: Text, call: Call, nested: Call, key: Key)
    returns (run: seq<Action>, written: Text)
    requires call.Boot? && call.force && LockStaysFresh(s0, before, key)
    requires Run(s0, before, key) == OneSeen(file, call, nested)
    ensures LockStaysFresh(s0, run, key)
    ensures Run(s0, run, key) == OneSeen(file, call, nested).With(1, Idle).(file := written, lock := None)
  {
    var s := OneSeen(file, call, nested);
    var line := ForcedRead(s, 1, call, nested, key);
    run := FreshSnoc(s0, before, Step(1), key);
    var looking := s.With(1, Running(Look(line), call, nested, false));
    var t, u, text := WriteAndRelease(looking, 1, line, call, nested, key);
    written := text;
    run := FreshSnoc(s0, run, Step(1), key);
    run := FreshSnoc(s0, run, Step(1), key);
    run := FreshSnoc(s0, run, Step(1), key);
    assert looking.With(1, Idle).processes == s.With(1, Idle).processes;
  }

  /** Process 3 takes a lock of its own, and a moment passes. */
  lemma ThirdEnters(
    s0: State, before: seq<Action>, file: Text, written: Text, call: Call, nested: Call, key: Key)
    returns (run: seq<Action>)
    requires call.Boot? && nested.Boot? && !nested.force && LockStaysFresh(s0, before, key)
    requires Run(s0, before, key) == OneSeen(file, call, nested).With(1, Idle).(file := written, lock := None)
    ensures LockStaysFresh(s0, run, key)
    ensures var s := Run(s0, run, key);
            && s.lock == Some(LockFile(STALE_LOCK_MS, 3)) && s.now == STALE_LOCK_MS + 1
            && s.At(2) == Running(Age(0), call, nested, false) && 3 in s.Inside()
  {
    Enters(Run(s0, before, key), 3, call, nested, key);
    run := FreshSnoc(s0, before, Start(3, call, nested), key);
    run := FreshSnoc(s0, run, Step(3), key);
    run := FreshSnoc(s0, run, Step(3), key);
    run := FreshSnoc(s0, run, Tick(1), key);
  }

  /** Process 2 removes the new lock as stale and enters as well. */
  lemma FreshLockIsRemoved(s0: State, before: seq<Action>, call: Call, nested: Call, key: Key)
    returns (run: seq<Action>)
    requires LockStaysFresh(s0, before, key)
    requires var s := Run(s0, before, key);
             && s.lock == Some(LockFile(STALE_LOCK_MS, 3)) && s.now == STALE_LOCK_MS + 1
             && s.At(2) == Running(Age(0), call, nested, false) && 3 in s.Inside()
    ensures LockStaysFresh(s0, run, key) && {2, 3} <= Run(s0, run, key).Inside()
  {
    TakesForStale(Run(s0, before, key), 2, 3, call, nested, key);
    run := FreshSnoc(s0, before, Step(2), key);
    run := FreshSnoc(s0, run, Step(2), key);
    run := FreshSnoc(s0, run, Step(2), key);
  }

  /** A process that has seen an old lock removes whatever lock is there now, and takes its place. */
  lemma TakesForStale(s: State, p: Pid, q: Pid, call: Call, nested: Call, key: Key)
    requires s.At(p) == Running(Age(0), call, nested, false) && s.now == STALE_LOCK_MS + 1 && p != q
    ensures var t := Next(s, Step(p), key);
            var u := Next(t, Step(p), key);
            var v := Next(u, Step(p), key);
            && t.lock == s.lock && t.now == s.now && u.lock == None && v.lock == Some(LockFile(s.now, p))
            && v.now == s.now && v.At(p).Holds() && v.At(q) == s.At(q)
  {
    var t := Next(s, Step(p), key);
    assert t == s.With(p, Running(Unlink, call, nested, false));
    var u := Next(t, Step(p), key);
    assert u == s.With(p, Running(Try(0), call, nested, false)).(lock := None);
  }

  /**
    Fresh lock files alone do not exclude two holders: the age of a lock is taken from the clock after the
    lock has been looked at, and by then the lock file may be another one.
   */
  lemma FreshLocksAdmitTwo(file: Text, call: Call, nested: Call, key: Key) returns (run: seq<Action>)
    requires call.Boot? && call.force && nested.Boot? && !nested.force
    ensures LockStaysFresh(State(file, None, 0, map[], []), run, key)
    ensures {2, 3} <= Run(State(file, None, 0, map[], []), run, key).Inside()
  {
    var s0 := State(file, None, 0, map[], []);
    run := FirstIsSeen(file, call, nested, key);
    var written;
    run, written := FirstLeaves(s0, run, file, call, nested, key);
    run := ThirdEnters(s0, run, file, written, call, nested, key);
    run := FreshLockIsRemoved(s0, run, call, nested, key);
  }
}
