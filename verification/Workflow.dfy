/**
  The indentation-aware workflow sanitizer: the scan for a workflow-level concurrency group, the line
  machine that reports job-level groups duplicating it, and the rewriter that deletes the reported
  blocks from the last one upwards.

  A line is what `parse` makes of it: its indentation and its trimmed text.  Splitting at `\n` and joining
  again are inverse on text without carriage returns, and whole lines are kept or deleted, so a text is
  the sequence of its lines.
 */
module Workflow {
  import opened Options
  import opened Patterns

  datatype Line = Line(indent: nat, text: string)

  predicate IsBlank(l: Line) {
    l.text == ""
  }

  predicate IsJob(l: Line) {
    l.indent == 2 && JobName(l.text).Some?
  }

  predicate IsBlockKey(l: Line) {
    l.indent == 4 && l.text == "concurrency:"
  }

  predicate IsFlowKey(l: Line) {
    l.indent == 4 && "concurrency: {" <= l.text
  }

  predicate IsKey(l: Line) {
    IsBlockKey(l) || IsFlowKey(l)
  }

  /** What the backward search for the key line accepts. */
  predicate LooksLikeKey(l: Line) {
    l.indent == 4 && "concurrency:" <= l.text
  }

  /** A line after which a child block that was open before it is no longer open. */
  predicate Closes(l: Line) {
    IsJob(l) || (l.indent == 4 && l.text != "" && l.text[0] != '#')
  }

  /** A line that names `group` inside a child block. */
  predicate Names(l: Line, group: string) {
    l.indent > 4 && GroupValue(l.text) == Some(group)
  }

  // ---------------------------------------------------------------- the workflow-level group

  datatype ParentScan = Searching(inBlock: bool) | Found(group: Option<string>)

  function ParentStep(scan: ParentScan, l: Line): ParentScan {
    match scan
    case Found(_) => scan
    case Searching(inBlock) =>
      if l.indent == 0 then
        if "concurrency: {" <= l.text then Found(FlowGroup(l.text))
        else Searching(l.text == "concurrency:")
      else if inBlock && GroupValue(l.text).Some? then Found(GroupValue(l.text))
      else scan
  }

  function ParentState(lines: seq<Line>): ParentScan {
    if lines == [] then Searching(false)
    else ParentStep(ParentState(lines[..|lines| - 1]), lines[|lines| - 1])
  }

  function ParentGroup(lines: seq<Line>): Option<string> {
    match ParentState(lines)
    case Found(group) => group
    case Searching(_) => None
  }

  lemma FoundStays(lines: seq<Line>, n: nat)
    requires n <= |lines| && ParentState(lines[..n]).Found?
    ensures ParentState(lines) == ParentState(lines[..n])
    decreases |lines|
  {
    if n == |lines| {
      assert lines[..n] == lines;
    } else {
      assert lines[..|lines| - 1][..n] == lines[..n];
      FoundStays(lines[..|lines| - 1], n);
    }
  }

  method ParentConcurrencyGroup(lines: seq<Line>) returns (group: Option<string>)
    ensures group == ParentGroup(lines)
  {
    var inParentBlock := false;
    var i := 0;
    while i < |lines|
      invariant 0 <= i <= |lines|
      invariant ParentState(lines[..i]) == Searching(inParentBlock)
    {
      var l := lines[i];
      assert lines[..i + 1][..i] == lines[..i];
      if l.indent == 0 {
        BraceMeansFlow(l.text);
        inParentBlock := l.text == "concurrency:" || "concurrency: {" <= l.text;
        if inParentBlock && '{' in l.text {
          FoundStays(lines, i + 1);
          return if GroupValue(l.text).Some? then GroupValue(l.text) else FlowGroup(l.text);
        }
      } else if inParentBlock {
        var g := GroupValue(l.text);
        if g.Some? {
          FoundStays(lines, i + 1);
          return g;
        }
      }
      i := i + 1;
    }
    assert lines[..i] == lines;
    return None;
  }

  lemma BraceMeansFlow(text: string)
    ensures "concurrency: {" <= text ==> '{' in text && !("group:" <= text)
    ensures text == "concurrency:" ==> '{' !in text
  {
    if "concurrency: {" <= text {
      assert text[13] == "concurrency: {"[13];
      assert text[0] == "concurrency: {"[0];
    }
  }

  // ---------------------------------------------------------------- the line machine

  datatype Scan = Scan(job: Option<string>, inChild: bool)

  datatype Offense = Offense(job: string, line: nat, parentGroup: string, childGroup: string)

  function Step(scan: Scan, l: Line, group: string): Scan {
    if IsJob(l) then Scan(JobName(l.text), false)
    else if scan.job.None? then scan
    else if IsBlockKey(l) then scan.(inChild := true)
    else if Closes(l) || Names(l, group) then scan.(inChild := false)
    else scan
  }

  function ScanOf(lines: seq<Line>, group: string): Scan {
    if lines == [] then Scan(None, false)
    else Step(ScanOf(lines[..|lines| - 1], group), lines[|lines| - 1], group)
  }

  /** The line machine reports an offense at line `l`. */
  predicate Reports(scan: Scan, l: Line, group: string) {
    && scan.job.Some?
    && (|| (IsFlowKey(l) && FlowGroup(l.text) == Some(group))
        || (scan.inChild && Names(l, group)))
  }

  /** The 1-based line number the backward search from line `i` ends at. */
  function KeyLineOf(lines: seq<Line>, i: nat): nat
    requires i < |lines|
  {
    KeyLineFrom(lines, i, i)
  }

  function KeyLineFrom(lines: seq<Line>, i: nat, j: nat): nat
    requires j <= i < |lines|
  {
    if LooksLikeKey(lines[j]) then j + 1
    else if j == 0 then i + 1
    else KeyLineFrom(lines, i, j - 1)
  }

  function Reported(lines: seq<Line>, group: string): seq<Offense> {
    if lines == [] then []
    else
      var n := |lines| - 1;
      var scan := ScanOf(lines[..n], group);
      Reported(lines[..n], group)
      + if Reports(scan, lines[n], group)
        then [Offense(scan.job.value, if IsFlowKey(lines[n]) then n + 1 else KeyLineOf(lines, n), group, group)]
        else []
  }

  function Analyze(lines: seq<Line>): seq<Offense> {
    match ParentGroup(lines)
    case None => []
    case Some(group) => Reported(lines, group)
  }

  method ConcurrencyKeyLineOf(lines: seq<Line>, groupLine: nat) returns (key: nat)
    requires groupLine < |lines|
    ensures key == KeyLineOf(lines, groupLine)
  {
    var j: int := groupLine;
    while j >= 0
      invariant -1 <= j <= groupLine
      invariant j >= 0 ==> KeyLineFrom(lines, groupLine, j) == KeyLineOf(lines, groupLine)
      invariant j == -1 ==> KeyLineOf(lines, groupLine) == groupLine + 1
    {
      if LooksLikeKey(lines[j]) {
        return j + 1;
      }
      j := j - 1;
    }
    return groupLine + 1;
  }

  /** One iteration of the line machine, at line `i`: the next state, and the offense it reports. */
  method AnalyzeLine(lines: seq<Line>, i: nat, group: string, currentJob: Option<string>, inChildConcurrency: bool)
    returns (job: Option<string>, inChild: bool, offense: Option<Offense>)
    requires i < |lines| && (inChildConcurrency ==> currentJob.Some?)
    ensures Scan(job, inChild) == Step(Scan(currentJob, inChildConcurrency), lines[i], group)
    ensures inChild ==> job.Some?
    ensures offense.Some? <==> Reports(Scan(currentJob, inChildConcurrency), lines[i], group)
    ensures offense.Some? ==>
              offense.value == Offense(currentJob.value, if IsFlowKey(lines[i]) then i + 1 else KeyLineOf(lines, i),
                                       group, group)
  {
    var l := lines[i];
    job, inChild, offense := currentJob, inChildConcurrency, None;
    if l.indent == 2 && JobName(l.text).Some? {
      return JobName(l.text), false, None;
    }
    if l.indent == 4 && currentJob.Some? {
      if l.text == "concurrency:" || "concurrency: {" <= l.text {
        BraceMeansFlow(l.text);
        KeysAreClosing(l);
        inChild := true;
        if '{' in l.text {
          var g := FlowGroup(l.text);
          if g == Some(group) {
            offense := Some(Offense(currentJob.value, i + 1, group, group));
          }
          inChild := false;
        }
        return;
      }
      if |l.text| > 0 && l.text[0] != '#' {
        inChild := false;
      }
    }
    if inChild && l.indent > 4 {
      var g := GroupValue(l.text);
      if g == Some(group) {
        var key := ConcurrencyKeyLineOf(lines, i);
        offense := Some(Offense(currentJob.value, key, group, group));
        inChild := false;
      }
    }
  }

  method AnalyzeWorkflow(lines: seq<Line>) returns (offenses: seq<Offense>)
    ensures offenses == Analyze(lines)
  {
    var parent := ParentConcurrencyGroup(lines);
    offenses := [];
    if parent.None? {
      return;
    }
    var group := parent.value;
    var currentJob: Option<string> := None;
    var inChildConcurrency := false;
    assert lines[..0] == [];
    for i := 0 to |lines|
      invariant ScanOf(lines[..i], group) == Scan(currentJob, inChildConcurrency)
      invariant inChildConcurrency ==> currentJob.Some?
      invariant offenses == Reported(lines[..i], group)
    {
      ReportedSnoc(lines, i, group);
      KeyLineIgnoresTail(lines, i);
      var offense;
      currentJob, inChildConcurrency, offense := AnalyzeLine(lines, i, group, currentJob, inChildConcurrency);
      if offense.Some? {
        offenses := offenses + [offense.value];
      }
    }
    assert lines[..|lines|] == lines;
  }

  /** What one more line adds to the state and to the offenses. */
  lemma ReportedSnoc(lines: seq<Line>, m: nat, group: string)
    requires m < |lines|
    ensures ScanOf(lines[..m + 1], group) == Step(ScanOf(lines[..m], group), lines[m], group)
    ensures var scan, before := ScanOf(lines[..m], group), Reported(lines[..m], group);
            if Reports(scan, lines[m], group) then
              Reported(lines[..m + 1], group) == before +
                [Offense(scan.job.value, if IsFlowKey(lines[m]) then m + 1 else KeyLineOf(lines[..m + 1], m),
                         group, group)]
            else Reported(lines[..m + 1], group) == before
  {
    assert lines[..m + 1][..m] == lines[..m];
  }

  lemma KeyLineIgnoresTail(lines: seq<Line>, i: nat)
    requires i < |lines|
    ensures KeyLineOf(lines[..i + 1], i) == KeyLineOf(lines, i)
  {
    KeyLineFromIgnoresTail(lines, i, i);
  }

  lemma KeyLineFromIgnoresTail(lines: seq<Line>, i: nat, j: nat)
    requires j <= i < |lines|
    ensures KeyLineFrom(lines[..i + 1], i, j) == KeyLineFrom(lines, i, j)
  {
  }

  lemma KeysAreClosing(l: Line)
    requires IsKey(l)
    ensures Closes(l) && LooksLikeKey(l) && !IsJob(l) && l.text != "" && IsBlockKey(l) != IsFlowKey(l)
  {
    if IsFlowKey(l) {
      assert l.text[0] == "concurrency: {"[0] && l.text[..12] == "concurrency:";
    }
  }

  // ---------------------------------------------------------------- what is reported, without the machine

  /** Line `p` is inside a job: some job line stands above it. */
  ghost predicate InJob(lines: seq<Line>, p: nat)
    requires p <= |lines|
  {
    exists j: nat | j < p :: IsJob(lines[j])
  }

  /**
    The lines outside `cut` keep the block opened at `p` open up to line `i`.  With an empty `cut` this
    speaks of the whole text; otherwise of what is left of it once the lines in `cut` are deleted.
   */
  ghost predicate OpenAt(lines: seq<Line>, cut: set<nat>, p: nat, i: nat, group: string)
    requires p < i <= |lines|
  {
    && p !in cut && IsBlockKey(lines[p]) && InJob(lines, p)
    && forall j: nat | p < j < i :: j in cut || (!Closes(lines[j]) && !Names(lines[j], group))
  }

  /** Among the first `n` lines, line `p` is the key of a child group that duplicates `group`. */
  ghost predicate Duplicates(lines: seq<Line>, cut: set<nat>, p: nat, n: nat, group: string)
    requires p < n <= |lines|
  {
    || (p !in cut && IsFlowKey(lines[p]) && InJob(lines, p) && FlowGroup(lines[p].text) == Some(group))
    || (exists g: nat | p < g < n ::
          g !in cut && OpenAt(lines, cut, p, g, group) && Names(lines[g], group))
  }

  /** The lines outside `cut`. */
  function Drop(lines: seq<Line>, cut: set<nat>): seq<Line> {
    if lines == [] then []
    else
      var n := |lines| - 1;
      Drop(lines[..n], cut) + if n in cut then [] else [lines[n]]
  }

  lemma DropSnoc(lines: seq<Line>, cut: set<nat>, n: nat)
    requires n < |lines|
    ensures Drop(lines[..n + 1], cut) == Drop(lines[..n], cut) + if n in cut then [] else [lines[n]]
    ensures (Drop(lines[..n], cut) + [lines[n]])[..|Drop(lines[..n], cut)|] == Drop(lines[..n], cut)
  {
    assert lines[..n + 1][..n] == lines[..n];
  }

  lemma {:induction false} DropNothing(lines: seq<Line>)
    ensures Drop(lines, {}) == lines
  {
    if lines != [] {
      DropNothing(lines[..|lines| - 1]);
      assert lines == lines[..|lines| - 1] + [lines[|lines| - 1]];
    }
  }

  /** A deletion that spares the job lines, as every deletion below does. */
  ghost predicate SparesJobs(lines: seq<Line>, cut: set<nat>) {
    forall j: nat | j < |lines| && j in cut :: !IsJob(lines[j])
  }

  /** Some block is open at line `n` of the remaining text. */
  ghost predicate SomeOpen(lines: seq<Line>, cut: set<nat>, n: nat, group: string)
    requires n <= |lines|
  {
    exists p: nat | p < n :: OpenAt(lines, cut, p, n, group)
  }

  lemma InJobSnoc(lines: seq<Line>, m: nat)
    requires m < |lines|
    ensures InJob(lines, m + 1) <==> InJob(lines, m) || IsJob(lines[m])
  {
  }

  lemma OpenSnoc(lines: seq<Line>, cut: set<nat>, n: nat, group: string)
    requires 0 < n <= |lines|
    ensures var m, l := n - 1, lines[n - 1];
            var opens := m !in cut && IsBlockKey(l) && InJob(lines, m);
            var stays := SomeOpen(lines, cut, m, group) && (m in cut || (!Closes(l) && !Names(l, group)));
            SomeOpen(lines, cut, n, group) <==> opens || stays
  {
    var m: nat := n - 1;
    assert OpenAt(lines, cut, m, n, group) <==> m !in cut && IsBlockKey(lines[m]) && InJob(lines, m);
    forall p: nat | p < m
      ensures OpenAt(lines, cut, p, n, group)
         <==> OpenAt(lines, cut, p, m, group) && (m in cut || (!Closes(lines[m]) && !Names(lines[m], group)))
    {
    }
  }

  lemma ScanSnoc(lines: seq<Line>, l: Line, group: string)
    ensures ScanOf(lines + [l], group) == Step(ScanOf(lines, group), l, group)
    ensures Reported(lines + [l], group) == []
       <==> Reported(lines, group) == [] && !Reports(ScanOf(lines, group), l, group)
  {
    assert (lines + [l])[..|lines|] == lines;
  }

  /** The state of the machine on the remaining text, read off the original lines. */
  lemma {:induction false} MachineState(lines: seq<Line>, cut: set<nat>, n: nat, group: string)
    requires n <= |lines| && SparesJobs(lines, cut)
    ensures ScanOf(Drop(lines[..n], cut), group).job.Some? <==> InJob(lines, n)
    ensures ScanOf(Drop(lines[..n], cut), group).inChild <==> SomeOpen(lines, cut, n, group)
  {
    if n > 0 {
      var m := n - 1;
      MachineState(lines, cut, m, group);
      DropSnoc(lines, cut, m);
      InJobSnoc(lines, m);
      OpenSnoc(lines, cut, n, group);
      ScanSnoc(Drop(lines[..m], cut), lines[m], group);
      if IsBlockKey(lines[m]) {
        KeysAreClosing(lines[m]);
      }
      if m in cut {
        assert Drop(lines[..n], cut) == Drop(lines[..m], cut);
        assert !IsJob(lines[m]);
      }
      OpenInJob(lines, cut, m, group);
    }
  }

  lemma OpenInJob(lines: seq<Line>, cut: set<nat>, m: nat, group: string)
    requires m <= |lines|
    ensures SomeOpen(lines, cut, m, group) ==> InJob(lines, m)
  {
  }

  /** Some line below `n` of the remaining text is the key of a duplicating group. */
  ghost predicate SomeDuplicate(lines: seq<Line>, cut: set<nat>, n: nat, group: string)
    requires n <= |lines|
  {
    exists p: nat | p < n :: Duplicates(lines, cut, p, n, group)
  }

  /** The machine finds nothing in the remaining text exactly when no remaining key duplicates the group. */
  lemma {:induction false} CleanIffNoDuplicate(lines: seq<Line>, cut: set<nat>, n: nat, group: string)
    requires n <= |lines| && SparesJobs(lines, cut)
    ensures Reported(Drop(lines[..n], cut), group) == [] <==> !SomeDuplicate(lines, cut, n, group)
  {
    if n > 0 {
      var m := n - 1;
      CleanIffNoDuplicate(lines, cut, m, group);
      DropSnoc(lines, cut, m);
      MachineState(lines, cut, m, group);
      ScanSnoc(Drop(lines[..m], cut), lines[m], group);
      DuplicateSnoc(lines, cut, m, group);
      OpenInJob(lines, cut, m, group);
      if m in cut {
        assert Drop(lines[..n], cut) == Drop(lines[..m], cut);
      }
    }
  }

  lemma DuplicateSnoc(lines: seq<Line>, cut: set<nat>, m: nat, group: string)
    requires m < |lines|
    ensures SomeDuplicate(lines, cut, m + 1, group)
       <==> || SomeDuplicate(lines, cut, m, group)
            || (m !in cut && IsFlowKey(lines[m]) && InJob(lines, m) && FlowGroup(lines[m].text) == Some(group))
            || (m !in cut && SomeOpen(lines, cut, m, group) && Names(lines[m], group))
  {
    if SomeDuplicate(lines, cut, m + 1, group) {
      var p: nat :| p < m + 1 && Duplicates(lines, cut, p, m + 1, group);
      DuplicateWasSome(lines, cut, p, m, group);
    }
    if SomeDuplicate(lines, cut, m, group) {
      var p: nat :| p < m && Duplicates(lines, cut, p, m, group);
      DuplicateIsSome(lines, cut, p, m, group);
    }
    if m !in cut && SomeOpen(lines, cut, m, group) && Names(lines[m], group) {
      var p: nat :| p < m && OpenAt(lines, cut, p, m, group);
      DuplicateIsSome(lines, cut, p, m, group);
    }
    if m !in cut && IsFlowKey(lines[m]) && InJob(lines, m) && FlowGroup(lines[m].text) == Some(group) {
      assert Duplicates(lines, cut, m, m + 1, group);
    }
  }

  lemma DuplicateWasSome(lines: seq<Line>, cut: set<nat>, p: nat, m: nat, group: string)
    requires p <= m < |lines| && Duplicates(lines, cut, p, m + 1, group)
    ensures || SomeDuplicate(lines, cut, m, group)
            || (m !in cut && IsFlowKey(lines[m]) && InJob(lines, m) && FlowGroup(lines[m].text) == Some(group))
            || (m !in cut && SomeOpen(lines, cut, m, group) && Names(lines[m], group))
  {
    if p < m {
      DuplicatesSnoc(lines, cut, p, m, group);
    }
  }

  lemma DuplicateIsSome(lines: seq<Line>, cut: set<nat>, p: nat, m: nat, group: string)
    requires p < m < |lines|
    requires || Duplicates(lines, cut, p, m, group)
             || (m !in cut && OpenAt(lines, cut, p, m, group) && Names(lines[m], group))
    ensures SomeDuplicate(lines, cut, m + 1, group)
  {
    DuplicatesSnoc(lines, cut, p, m, group);
    assert Duplicates(lines, cut, p, m + 1, group);
  }

  lemma DuplicatesSnoc(lines: seq<Line>, cut: set<nat>, p: nat, m: nat, group: string)
    requires p < m < |lines|
    ensures Duplicates(lines, cut, p, m + 1, group)
       <==> || Duplicates(lines, cut, p, m, group)
            || (m !in cut && OpenAt(lines, cut, p, m, group) && Names(lines[m], group))
  {
  }

  // ---------------------------------------------------------------- which lines are reported

  /** The backward search from the group line ends at the key that opened the block the group is in. */
  lemma BackTracksToOpener(lines: seq<Line>, p: nat, i: nat, group: string)
    requires p < i < |lines| && OpenAt(lines, {}, p, i, group) && lines[i].indent > 4
    ensures KeyLineOf(lines, i) == p + 1
  {
    KeysAreClosing(lines[p]);
    KeyLineFromOpener(lines, p, i, i, group);
  }

  lemma KeyLineFromOpener(lines: seq<Line>, p: nat, i: nat, j: nat, group: string)
    requires p <= j <= i < |lines| && p < i && OpenAt(lines, {}, p, i, group) && lines[i].indent > 4
    requires LooksLikeKey(lines[p])
    ensures KeyLineFrom(lines, i, j) == p + 1
    decreases j
  {
    if p < j {
      LooksAreClosing(lines[j]);
      KeyLineFromOpener(lines, p, i, j - 1, group);
    }
  }

  lemma LooksAreClosing(l: Line)
    ensures LooksLikeKey(l) ==> Closes(l)
  {
    if LooksLikeKey(l) {
      assert l.text[0] == "concurrency:"[0];
    }
  }

  ghost predicate Mentions(offenses: seq<Offense>, p: nat) {
    exists o <- offenses :: o.line == p + 1
  }

  ghost predicate Ascending(offenses: seq<Offense>) {
    forall i, j | 0 <= i < j < |offenses| :: offenses[i].line < offenses[j].line
  }

  /** The lines mentioned so far are those of keys, and lie above the key of the block that is still open. */
  ghost predicate WellPlaced(lines: seq<Line>, offenses: seq<Offense>, n: nat, group: string)
    requires n <= |lines|
  {
    && Ascending(offenses)
    && (forall o <- offenses :: 1 <= o.line <= n && IsKey(lines[o.line - 1]) && InJob(lines, o.line - 1))
    && (forall p: nat, o <- offenses | p < n && OpenAt(lines, {}, p, n, group) :: o.line < p + 1)
  }

  /** The offenses mention exactly the duplicating keys among the first `n` lines. */
  ghost predicate MentionsDuplicates(lines: seq<Line>, offenses: seq<Offense>, n: nat, group: string)
    requires n <= |lines|
  {
    forall p: nat | p < n :: Mentions(offenses, p) <==> Duplicates(lines, {}, p, n, group)
  }

  lemma MachineReports(lines: seq<Line>, m: nat, group: string)
    requires m < |lines|
    ensures Reports(ScanOf(lines[..m], group), lines[m], group)
       <==> || (IsFlowKey(lines[m]) && InJob(lines, m) && FlowGroup(lines[m].text) == Some(group))
            || (SomeOpen(lines, {}, m, group) && Names(lines[m], group))
  {
    DropNothing(lines[..m]);
    MachineState(lines, {}, m, group);
    OpenInJob(lines, {}, m, group);
  }

  /** The offenses come in line order, and they mention exactly the duplicating keys; the steps close the module. */
  lemma {:induction false} ReportsInOrder(lines: seq<Line>, n: nat, group: string)
    requires n <= |lines|
    ensures WellPlaced(lines, Reported(lines[..n], group), n, group)
    ensures MentionsDuplicates(lines, Reported(lines[..n], group), n, group)
  {
    if n > 0 {
      var m: nat := n - 1;
      ReportsInOrder(lines, m, group);
      var before, after := Reported(lines[..m], group), Reported(lines[..n], group);
      ReportedSnoc(lines, m, group);
      if Reports(ScanOf(lines[..m], group), lines[m], group) {
        LoudLine(lines, before, after[|before|], m, group);
      } else {
        MachineReports(lines, m, group);
        PlaceNothing(lines, before, n, group);
        QuietLine(lines, before, m, group);
      }
    }
  }

  // ---------------------------------------------------------------- deletion

  /** A line at which a deleted block ends. */
  predicate Stops(l: Line) {
    IsBlank(l) || l.indent <= 4
  }

  function RunEnd(lines: seq<Line>, i: nat): (end: nat)
    requires i <= |lines|
    ensures i <= end <= |lines|
    ensures forall j | i <= j < end :: !Stops(lines[j])
    ensures end < |lines| ==> Stops(lines[end])
    decreases |lines| - i
  {
    if i < |lines| && !Stops(lines[i]) then RunEnd(lines, i + 1) else i
  }

  /** The end of the block whose key is line `p`. */
  function BlockEnd(lines: seq<Line>, p: nat): nat
    requires p < |lines|
  {
    RunEnd(lines, p + 1)
  }

  function Cut(lines: seq<Line>, p: nat): seq<Line> {
    if p < |lines| then lines[..p] + lines[BlockEnd(lines, p)..] else lines
  }

  /** The blocks at `starts` deleted one after the other, the last of them first. */
  function CutAll(lines: seq<Line>, starts: seq<nat>): seq<Line> {
    if starts == [] then lines
    else CutAll(Cut(lines, starts[|starts| - 1]), starts[..|starts| - 1])
  }

  ghost predicate InBlock(lines: seq<Line>, starts: seq<nat>, i: nat) {
    exists k: nat | k < |starts| && starts[k] < |lines| :: starts[k] <= i < BlockEnd(lines, starts[k])
  }

  /** The lines the blocks at `starts` cover in the text as it is before any deletion. */
  ghost function Removed(lines: seq<Line>, starts: seq<nat>): set<nat> {
    set i: nat | i < |lines| && InBlock(lines, starts, i)
  }

  /** Keys of blocks, in line order. */
  ghost predicate AreStarts(lines: seq<Line>, starts: seq<nat>) {
    && (forall i, j | 0 <= i < j < |starts| :: starts[i] < starts[j])
    && (forall k | 0 <= k < |starts| :: starts[k] < |lines| && Stops(lines[starts[k]]))
  }

  /** The blocks do not overlap. */
  lemma BlocksAreDisjoint(lines: seq<Line>, starts: seq<nat>, i: nat, j: nat)
    requires AreStarts(lines, starts) && i < j < |starts|
    ensures BlockEnd(lines, starts[i]) <= starts[j]
  {
  }

  /** Deleting the blocks from the last one upwards deletes, all at once, the lines they cover. */
  lemma {:induction false} CutsAreOneDeletion(lines: seq<Line>, starts: seq<nat>)
    requires AreStarts(lines, starts)
    ensures CutAll(lines, starts) == Drop(lines, Removed(lines, starts))
    decreases |starts|
  {
    if starts == [] {
      assert Removed(lines, starts) == {};
      DropNothing(lines);
    } else {
      var init, s := starts[..|starts| - 1], starts[|starts| - 1];
      assert starts == init + [s];
      EarlierBlocksUnchanged(lines, init, s);
      CutsAreOneDeletion(Cut(lines, s), init);
      RemovedSplits(lines, init, s);
      OneCutIsADeletion(lines, Removed(Cut(lines, s), init), Removed(lines, starts), s);
    }
  }

  // ---------------------------------------------------------------- fixWorkflow

  function Starts(offenses: seq<Offense>): seq<nat> {
    seq(|offenses|, k requires 0 <= k < |offenses| => if offenses[k].line == 0 then 0 else offenses[k].line - 1)
  }

  /** A stable insertion sort, later lines first. */
  function SortedByLineDescending(offenses: seq<Offense>): seq<Offense> {
    if offenses == [] then []
    else InsertByLine(offenses[|offenses| - 1], SortedByLineDescending(offenses[..|offenses| - 1]))
  }

  function InsertByLine(o: Offense, sorted: seq<Offense>): seq<Offense> {
    if sorted == [] || o.line > sorted[0].line then [o] + sorted
    else [sorted[0]] + InsertByLine(o, sorted[1..])
  }

  ghost predicate IsReverse(sorted: seq<Offense>, offenses: seq<Offense>) {
    |sorted| == |offenses| && forall k | 0 <= k < |sorted| :: sorted[k] == offenses[|offenses| - 1 - k]
  }

  lemma {:induction false} AscendingSortsToReverse(offenses: seq<Offense>)
    requires Ascending(offenses)
    ensures IsReverse(SortedByLineDescending(offenses), offenses)
  {
    if offenses != [] {
      var init, last := offenses[..|offenses| - 1], offenses[|offenses| - 1];
      AscendingSortsToReverse(init);
      var sorted := SortedByLineDescending(init);
      if sorted != [] {
        assert sorted[0] == offenses[|offenses| - 2];
      }
      assert InsertByLine(last, sorted) == [last] + sorted;
    }
  }

  /** The lines `fixWorkflow` takes out of a text. */
  ghost function RemovedByFix(lines: seq<Line>): set<nat> {
    Removed(lines, Starts(Analyze(lines)))
  }

  ghost function Fix(lines: seq<Line>): seq<Line> {
    Drop(lines, RemovedByFix(lines))
  }

  /** The offenses name keys of the text, in line order. */
  ghost predicate NamesKeys(lines: seq<Line>, offenses: seq<Offense>) {
    && Ascending(offenses)
    && forall k | 0 <= k < |offenses| :: 1 <= offenses[k].line <= |lines| && IsKey(lines[offenses[k].line - 1])
  }

  lemma AnalysisNamesKeys(lines: seq<Line>)
    ensures NamesKeys(lines, Analyze(lines))
  {
    if ParentGroup(lines).Some? {
      var group := ParentGroup(lines).value;
      assert lines[..|lines|] == lines;
      ReportsInOrder(lines, |lines|, group);
      WellPlacedNamesKeys(lines, Reported(lines, group), group);
    }
  }

  lemma WellPlacedNamesKeys(lines: seq<Line>, offenses: seq<Offense>, group: string)
    requires WellPlaced(lines, offenses, |lines|, group)
    ensures NamesKeys(lines, offenses)
  {
    assert forall k | 0 <= k < |offenses| :: offenses[k] in offenses;
  }

  /** Steps over the block, and back from the blank line that ended it. */
  method EndOfBlock(lines: seq<Line>, start: nat) returns (end: nat)
    requires start < |lines|
    ensures end == BlockEnd(lines, start)
  {
    end := start + 1;
    while end < |lines|
      invariant start + 1 <= end <= |lines|
      invariant BlockEnd(lines, start) == RunEnd(lines, end)
    {
      var l := lines[end];
      if IsBlank(l) || l.indent > 4 {
        end := end + 1;
        if IsBlank(l) {
          break;
        }
      } else {
        break;
      }
    }
    if end > start + 1 && IsBlank(lines[end - 1]) {
      end := end - 1;
    }
  }

  /** Splices out the last of the blocks at `starts`. */
  method DeleteBlock(text: seq<Line>, start: nat, ghost starts: seq<nat>) returns (rest: seq<Line>)
    requires starts != [] && start == starts[|starts| - 1] < |text|
    ensures CutAll(rest, starts[..|starts| - 1]) == CutAll(text, starts) && |rest| >= start
  {
    var end := EndOfBlock(text, start);
    rest := text[..start] + text[end..];
    assert rest == Cut(text, start);
  }

  /** The offenses, last line first, are those at `starts`. */
  ghost predicate ListsBlocks(sorted: seq<Offense>, starts: seq<nat>) {
    |sorted| == |starts| && forall k | 0 <= k < |sorted| :: sorted[k].line == starts[|starts| - 1 - k] + 1
  }

  /** Splices out one block per offense; the offenses come last line first. */
  method DeleteBlocks(lines: seq<Line>, sorted: seq<Offense>, ghost starts: seq<nat>) returns (text: seq<Line>)
    requires ListsBlocks(sorted, starts) && (starts != [] ==> starts[|starts| - 1] < |lines|)
    requires forall i, j | 0 <= i < j < |starts| :: starts[i] < starts[j]
    ensures text == CutAll(lines, starts)
  {
    text := lines;
    ghost var left := starts;
    for k := 0 to |sorted|
      invariant |left| == |starts| - k && forall j | 0 <= j < |left| :: left[j] == starts[j]
      invariant CutAll(text, left) == CutAll(lines, starts)
      invariant left != [] ==> left[|left| - 1] < |text|
    {
      ghost var last := left[|left| - 1];
      assert sorted[k].line == last + 1;
      text := DeleteBlock(text, sorted[k].line - 1, left);
      left := left[..|left| - 1];
      assert left != [] ==> starts[|left| - 1] < last;
    }
    assert left == [];
  }

  /** The cuts of a pass, taken from the offenses sorted last line first, amount to `Fix`. */
  lemma SortedListsBlocks(offenses: seq<Offense>)
    requires Ascending(offenses) && forall k | 0 <= k < |offenses| :: offenses[k].line >= 1
    ensures ListsBlocks(SortedByLineDescending(offenses), Starts(offenses))
  {
    AscendingSortsToReverse(offenses);
    ReverseListsBlocks(SortedByLineDescending(offenses), offenses);
  }

  lemma ReverseListsBlocks(sorted: seq<Offense>, offenses: seq<Offense>)
    requires IsReverse(sorted, offenses) && forall k | 0 <= k < |offenses| :: offenses[k].line >= 1
    ensures ListsBlocks(sorted, Starts(offenses))
  {
  }

  method FixWorkflow(lines: seq<Line>) returns (text: seq<Line>, fixed: seq<Offense>)
    ensures fixed == Analyze(lines)
    ensures text == Fix(lines)
  {
    fixed := AnalyzeWorkflow(lines);
    AnalysisNamesKeys(lines);
    ghost var starts := Starts(fixed);
    CutsAreOneDeletion(lines, starts);
    if |fixed| == 0 {
      assert starts == [];
      text := lines;
    } else {
      var sorted := SortedByLineDescending(fixed);
      SortedListsBlocks(fixed);
      text := DeleteBlocks(lines, sorted, starts);
    }
  }

  // ---------------------------------------------------------------- what is kept

  /** A line no pass may delete. */
  predicate Protected(l: Line) {
    Stops(l) && !IsKey(l)
  }

  function OnlyProtected(lines: seq<Line>): seq<Line> {
    if lines == [] then []
    else OnlyProtected(lines[..|lines| - 1]) + if Protected(lines[|lines| - 1]) then [lines[|lines| - 1]] else []
  }

  /** Line `i` is the key at line `p`, or lies in the unbroken run of deeper non-blank lines under it. */
  ghost predicate IsUnder(lines: seq<Line>, p: nat, i: nat) {
    p <= i < |lines| && IsKey(lines[p]) && forall j | p < j <= i :: !IsBlank(lines[j]) && lines[j].indent > 4
  }

  /** The offenses mention exactly the keys that duplicate the workflow-level group. */
  lemma ReportedExactly(lines: seq<Line>, p: nat)
    requires p < |lines| && ParentGroup(lines).Some?
    ensures Mentions(Analyze(lines), p) <==> Duplicates(lines, {}, p, |lines|, ParentGroup(lines).value)
  {
    assert lines[..|lines|] == lines;
    ReportsInOrder(lines, |lines|, ParentGroup(lines).value);
  }

  lemma RemovedStart(lines: seq<Line>, i: nat) returns (k: nat)
    requires i in RemovedByFix(lines)
    ensures k < |Analyze(lines)| && i < |lines| && Starts(Analyze(lines))[k] < |lines|
    ensures var p: nat := Starts(Analyze(lines))[k]; p <= i < BlockEnd(lines, p)
  {
    var starts := Starts(Analyze(lines));
    assert InBlock(lines, starts, i);
    k :| k < |starts| && starts[k] < |lines| && starts[k] <= i < BlockEnd(lines, starts[k]);
  }

  lemma RunIsUnder(lines: seq<Line>, p: nat, i: nat)
    requires p < |lines| && IsKey(lines[p]) && p <= i < BlockEnd(lines, p)
    ensures IsUnder(lines, p, i)
  {
  }

  /** A deleted line is a duplicating key, or lies in the run under one. */
  lemma {:induction false} RemovedLines(lines: seq<Line>, i: nat) returns (p: nat)
    requires i in RemovedByFix(lines)
    ensures IsUnder(lines, p, i) && ParentGroup(lines).Some?
    ensures Duplicates(lines, {}, p, |lines|, ParentGroup(lines).value)
  {
    var k := RemovedStart(lines, i);
    AnalysisNamesKeys(lines);
    var o := Analyze(lines)[k];
    p := o.line - 1;
    RunIsUnder(lines, p, i);
    assert o in Analyze(lines);
    ReportedExactly(lines, p);
  }

  /** Every duplicating key is deleted, and with it its group line when nothing blank or shallower intervenes. */
  lemma DuplicatesAreRemoved(lines: seq<Line>, p: nat, g: nat)
    requires p <= g < |lines| && ParentGroup(lines).Some?
    requires Duplicates(lines, {}, p, |lines|, ParentGroup(lines).value)
    requires forall j | p < j <= g :: !IsBlank(lines[j]) && lines[j].indent > 4
    ensures g in RemovedByFix(lines)
  {
    var offenses := Analyze(lines);
    ReportedExactly(lines, p);
    var o :| o in offenses && o.line == p + 1;
    var k: nat :| k < |offenses| && offenses[k] == o;
    StartCovers(lines, Starts(offenses), k, p, g);
  }

  lemma StartCovers(lines: seq<Line>, starts: seq<nat>, k: nat, p: nat, g: nat)
    requires k < |starts| && starts[k] == p <= g < |lines|
    requires forall j | p < j <= g :: !IsBlank(lines[j]) && lines[j].indent > 4
    ensures g in Removed(lines, starts)
  {
    assert g < BlockEnd(lines, p);
    assert InBlock(lines, starts, g);
  }

  /** Read off the text alone: line `q` is a duplicating key, and line `i` is it or lies in the run under it. */
  ghost predicate DoomedBy(lines: seq<Line>, q: nat, i: nat) {
    && q < |lines| && ParentGroup(lines).Some?
    && Duplicates(lines, {}, q, |lines|, ParentGroup(lines).value) && IsUnder(lines, q, i)
  }

  ghost predicate Doomed(lines: seq<Line>, i: nat) {
    exists q: nat :: DoomedBy(lines, q, i)
  }

  /** The lines a pass deletes are exactly the doomed ones. */
  lemma RemovedIffDoomed(lines: seq<Line>, i: nat)
    ensures i in RemovedByFix(lines) <==> Doomed(lines, i)
  {
    if i in RemovedByFix(lines) {
      var q := RemovedLines(lines, i);
      assert DoomedBy(lines, q, i);
    }
    if Doomed(lines, i) {
      var q: nat :| DoomedBy(lines, q, i);
      DuplicatesAreRemoved(lines, q, i);
    }
  }

  lemma OnlyProtectedSnoc(lines: seq<Line>, l: Line)
    ensures OnlyProtected(lines + [l]) == OnlyProtected(lines) + if Protected(l) then [l] else []
  {
    assert (lines + [l])[..|lines|] == lines;
  }

  lemma {:induction false} DropKeepsProtected(lines: seq<Line>, cut: set<nat>, n: nat)
    requires n <= |lines| && forall i: nat | i < |lines| && i in cut :: !Protected(lines[i])
    ensures OnlyProtected(Drop(lines[..n], cut)) == OnlyProtected(lines[..n])
  {
    if n > 0 {
      var m: nat := n - 1;
      DropKeepsProtected(lines, cut, m);
      DropSnoc(lines, cut, m);
      assert lines[..n] == lines[..m] + [lines[m]];
      OnlyProtectedSnoc(lines[..m], lines[m]);
      if m in cut {
        assert Drop(lines[..n], cut) == Drop(lines[..m], cut);
      } else {
        OnlyProtectedSnoc(Drop(lines[..m], cut), lines[m]);
      }
    }
  }

  lemma RemovedIsUnprotected(lines: seq<Line>, i: nat)
    requires i in RemovedByFix(lines)
    ensures i < |lines| && !Protected(lines[i]) && lines[i].indent >= 4 && !IsJob(lines[i])
  {
    var p := RemovedLines(lines, i);
  }

  lemma RemovedAreUnprotected(lines: seq<Line>)
    ensures forall i <- RemovedByFix(lines) :: i < |lines| && !Protected(lines[i]) && lines[i].indent >= 4
    ensures SparesJobs(lines, RemovedByFix(lines))
  {
    forall i <- RemovedByFix(lines)
      ensures i < |lines| && !Protected(lines[i]) && lines[i].indent >= 4 && !IsJob(lines[i])
    {
      RemovedIsUnprotected(lines, i);
    }
  }

  /** One pass keeps every protected line, in order. */
  lemma FixKeepsProtected(lines: seq<Line>)
    ensures OnlyProtected(Fix(lines)) == OnlyProtected(lines)
  {
    RemovedAreUnprotected(lines);
    DropKeepsProtected(lines, RemovedByFix(lines), |lines|);
    assert lines[..|lines|] == lines;
  }

  // ---------------------------------------------------------------- the workflow-level group under deletion

  /** Line `i` is the one the workflow-level group is read from. */
  predicate Supplies(lines: seq<Line>, i: nat) {
    i < |lines| && ParentState(lines[..i]).Searching? && ParentState(lines[..i + 1]).Found?
  }

  lemma {:induction false} ParentUnderDeletion(lines: seq<Line>, cut: set<nat>, n: nat)
    requires n <= |lines|
    requires forall i: nat | i < |lines| && i in cut :: lines[i].indent > 0 && !Supplies(lines, i)
    ensures ParentState(Drop(lines[..n], cut)) == ParentState(lines[..n])
  {
    if n > 0 {
      var m := n - 1;
      ParentUnderDeletion(lines, cut, m);
      DropSnoc(lines, cut, m);
      assert lines[..n][..m] == lines[..m];
      var kept := Drop(lines[..m], cut);
      assert (kept + [lines[m]])[..|kept|] == kept;
      if m in cut {
        assert Drop(lines[..n], cut) == kept;
        assert !Supplies(lines, m);
      }
    }
  }

  /** The line the workflow-level group is read from is neither a duplicating key nor under one. */
  ghost predicate SupplySurvives(lines: seq<Line>) {
    forall i: nat | Supplies(lines, i) :: !Doomed(lines, i)
  }

  /** A pass leaves the workflow-level group alone unless the line that supplies it is doomed. */
  lemma FixKeepsParent(lines: seq<Line>)
    requires SupplySurvives(lines)
    ensures ParentGroup(Fix(lines)) == ParentGroup(lines)
  {
    RemovedAreUnprotected(lines);
    forall i <- RemovedByFix(lines) ensures !Supplies(lines, i) {
      RemovedIffDoomed(lines, i);
    }
    ParentUnderDeletion(lines, RemovedByFix(lines), |lines|);
    assert lines[..|lines|] == lines;
  }

  /** In particular when that line is indented by less than 4. */
  lemma ShallowSupplySurvives(lines: seq<Line>, i: nat)
    requires Supplies(lines, i) && lines[i].indent < 4
    ensures SupplySurvives(lines)
  {
    forall j: nat | Supplies(lines, j) ensures !Doomed(lines, j) {
      SupplyIsUnique(lines, i, j);
      if Doomed(lines, j) {
        RemovedIffDoomed(lines, j);
        RemovedIsUnprotected(lines, j);
      }
    }
  }

  lemma SupplyIsUnique(lines: seq<Line>, i: nat, j: nat)
    requires Supplies(lines, i) && Supplies(lines, j)
    ensures i == j
  {
    if i < j {
      assert lines[..j][..i + 1] == lines[..i + 1];
      FoundStays(lines[..j], i + 1);
    } else if j < i {
      assert lines[..i][..j + 1] == lines[..j + 1];
      FoundStays(lines[..i], j + 1);
    }
  }

  /** The nearest line of indent 0 above line `n` opens a block of the workflow itself. */
  predicate UnderHead(lines: seq<Line>, n: nat)
    requires n <= |lines|
  {
    if n == 0 then false
    else if lines[n - 1].indent == 0 then lines[n - 1].text == "concurrency:"
    else UnderHead(lines, n - 1)
  }

  /** Line `i` would supply the workflow-level group, if no line above it did. */
  predicate Offers(lines: seq<Line>, i: nat)
    requires i < |lines|
  {
    var l := lines[i];
    if l.indent == 0 then "concurrency: {" <= l.text else UnderHead(lines, i) && GroupValue(l.text).Some?
  }

  function Offered(l: Line): Option<string> {
    if l.indent == 0 then FlowGroup(l.text) else GroupValue(l.text)
  }

  /** The first of the first `n` lines that stays and offers a group. */
  ghost function FirstOffer(lines: seq<Line>, cut: set<nat>, n: nat): (first: Option<nat>)
    requires n <= |lines|
    ensures first.Some? ==> first.value < n && first.value !in cut && Offers(lines, first.value)
    ensures forall j: nat | j < n && j !in cut && Offers(lines, j) :: first.Some? && first.value <= j
  {
    if n == 0 then None
    else
      var before := FirstOffer(lines, cut, n - 1);
      if before.None? && n - 1 !in cut && Offers(lines, n - 1) then Some(n - 1) else before
  }

  lemma ParentSnoc(lines: seq<Line>, l: Line)
    ensures ParentState(lines + [l]) == ParentStep(ParentState(lines), l)
  {
    assert (lines + [l])[..|lines|] == lines;
  }

  ghost function FoundBy(lines: seq<Line>, cut: set<nat>, n: nat): ParentScan
    requires n <= |lines|
  {
    var first := FirstOffer(lines, cut, n);
    if first.Some? then Found(Offered(lines[first.value])) else Searching(UnderHead(lines, n))
  }

  lemma FoundByStep(lines: seq<Line>, cut: set<nat>, m: nat)
    requires m < |lines|
    ensures m in cut && lines[m].indent > 0 ==> FoundBy(lines, cut, m + 1) == FoundBy(lines, cut, m)
    ensures m !in cut ==> FoundBy(lines, cut, m + 1) == ParentStep(FoundBy(lines, cut, m), lines[m])
  {
  }

  /** The scan for the workflow-level group, on any text left by a deletion that spares the lines of indent 0. */
  lemma {:induction false} ParentScanOf(lines: seq<Line>, cut: set<nat>, n: nat)
    requires n <= |lines| && forall i: nat | i < |lines| && i in cut :: lines[i].indent > 0
    ensures ParentState(Drop(lines[..n], cut)) == FoundBy(lines, cut, n)
  {
    if n > 0 {
      var m: nat := n - 1;
      ParentScanOf(lines, cut, m);
      DropSnoc(lines, cut, m);
      FoundByStep(lines, cut, m);
      if m in cut {
        assert Drop(lines[..n], cut) == Drop(lines[..m], cut);
      } else {
        ParentSnoc(Drop(lines[..m], cut), lines[m]);
      }
    }
  }

  /** The first line that is not doomed and offers a group. */
  ghost predicate SuppliesNext(lines: seq<Line>, i: nat) {
    && i < |lines| && Offers(lines, i) && !Doomed(lines, i)
    && forall j: nat | j < i && Offers(lines, j) :: Doomed(lines, j)
  }

  /** After a pass the workflow-level group is what that line offers; without such a line there is none. */
  lemma FixParent(lines: seq<Line>) returns (next: Option<nat>)
    ensures next.Some? ==> SuppliesNext(lines, next.value) && ParentGroup(Fix(lines)) == Offered(lines[next.value])
    ensures next.None? ==> ParentGroup(Fix(lines)) == None && forall i: nat :: !SuppliesNext(lines, i)
  {
    var cut := RemovedByFix(lines);
    RemovedAreUnprotected(lines);
    ParentScanOf(lines, cut, |lines|);
    assert lines[..|lines|] == lines;
    next := FirstOffer(lines, cut, |lines|);
    forall i: nat ensures i in cut <==> Doomed(lines, i) {
      RemovedIffDoomed(lines, i);
    }
  }

  lemma NextSupplyIsUnique(lines: seq<Line>, i: nat, j: nat)
    requires SuppliesNext(lines, i) && SuppliesNext(lines, j)
    ensures i == j
  {
  }

  // ---------------------------------------------------------------- one pass and many

  /** A pass leaves a text in which the machine finds nothing exactly when no staying key duplicates its group. */
  lemma CleanAfterPass(lines: seq<Line>, group: string)
    requires ParentGroup(Fix(lines)) == Some(group)
    ensures Analyze(Fix(lines)) == [] <==> !SomeDuplicate(lines, RemovedByFix(lines), |lines|, group)
  {
    RemovedAreUnprotected(lines);
    CleanIffNoDuplicate(lines, RemovedByFix(lines), |lines|, group);
    assert lines[..|lines|] == lines;
  }

  /**
    The block opened at `p` is not doomed and takes over the naming line `g`: every line between them that
    would close it or name the group itself is doomed.
   */
  ghost predicate TakesOver(lines: seq<Line>, p: nat, g: nat, group: string) {
    && p < g < |lines| && IsBlockKey(lines[p]) && InJob(lines, p) && !Doomed(lines, p)
    && Names(lines[g], group) && !Doomed(lines, g)
    && forall j: nat | p < j < g && (Closes(lines[j]) || Names(lines[j], group)) :: Doomed(lines, j)
  }

  /** The one-line key `p` of a job names `group` and is not doomed. */
  ghost predicate FlowStays(lines: seq<Line>, p: nat, group: string) {
    && p < |lines| && IsFlowKey(lines[p]) && InJob(lines, p) && FlowGroup(lines[p].text) == Some(group)
    && !Doomed(lines, p)
  }

  ghost predicate LeavesDuplicate(lines: seq<Line>, group: string) {
    || (exists p: nat :: FlowStays(lines, p, group))
    || (exists p: nat, g: nat :: TakesOver(lines, p, g, group))
  }

  lemma LeavesSomeDuplicate(lines: seq<Line>, group: string)
    ensures LeavesDuplicate(lines, group) <==> SomeDuplicate(lines, RemovedByFix(lines), |lines|, group)
  {
    var cut, n := RemovedByFix(lines), |lines|;
    forall i: nat ensures i in cut <==> Doomed(lines, i) {
      RemovedIffDoomed(lines, i);
    }
    if p: nat :| FlowStays(lines, p, group) {
      assert Duplicates(lines, cut, p, n, group);
    }
    if p: nat, g: nat :| TakesOver(lines, p, g, group) {
      TakesOverIsOpen(lines, cut, p, g, group);
      assert Duplicates(lines, cut, p, n, group);
    }
    if SomeDuplicate(lines, cut, n, group) {
      var p: nat :| p < n && Duplicates(lines, cut, p, n, group);
      if !FlowStays(lines, p, group) {
        var g: nat :| p < g < n && g !in cut && OpenAt(lines, cut, p, g, group) && Names(lines[g], group);
        TakesOverIsOpen(lines, cut, p, g, group);
      }
    }
  }

  lemma TakesOverIsOpen(lines: seq<Line>, cut: set<nat>, p: nat, g: nat, group: string)
    requires p < g < |lines| && forall i: nat :: i in cut <==> Doomed(lines, i)
    ensures TakesOver(lines, p, g, group) <==> g !in cut && OpenAt(lines, cut, p, g, group) && Names(lines[g], group)
  {
  }

  /**
    Read off the text alone: the next line to supply the workflow-level group names one that a staying key
    duplicates.
   */
  ghost predicate NeedsAnotherPass(lines: seq<Line>) {
    exists i: nat ::
      SuppliesNext(lines, i) && Offered(lines[i]).Some? && LeavesDuplicate(lines, Offered(lines[i]).value)
  }

  /** One pass suffices exactly for the other texts. */
  lemma OnePassSufficesIff(lines: seq<Line>)
    ensures Analyze(Fix(lines)) == [] <==> !NeedsAnotherPass(lines)
  {
    var next := FixParent(lines);
    if next.Some? {
      forall i: nat | SuppliesNext(lines, i) ensures i == next.value {
        NextSupplyIsUnique(lines, i, next.value);
      }
      if Offered(lines[next.value]).Some? {
        CleanAfterPass(lines, Offered(lines[next.value]).value);
        LeavesSomeDuplicate(lines, Offered(lines[next.value]).value);
      }
    }
  }

  /** Where the supplying line stays, one pass suffices exactly when no block takes over a line naming the group. */
  lemma OnePassSufficesIffNoTakeover(lines: seq<Line>)
    requires ParentGroup(lines).Some? && SupplySurvives(lines)
    ensures Analyze(Fix(lines)) == []
       <==> forall p: nat, g: nat :: !TakesOver(lines, p, g, ParentGroup(lines).value)
  {
    var group := ParentGroup(lines).value;
    FixKeepsParent(lines);
    CleanAfterPass(lines, group);
    LeavesSomeDuplicate(lines, group);
    forall p: nat ensures !FlowStays(lines, p, group) {
      if FlowStays(lines, p, group) {
        assert DoomedBy(lines, p, p);
      }
    }
  }

  /** Between any two concurrency keys of jobs stands a closing line that is not itself such a key. */
  ghost predicate KeysAreSeparated(lines: seq<Line>) {
    forall p: nat, q: nat | p < q < |lines| && IsKey(lines[p]) && IsKey(lines[q]) && InJob(lines, p) ::
      exists j: nat | p < j < q :: Closes(lines[j]) && !IsKey(lines[j])
  }

  /** With separated keys one pass leaves nothing to report. */
  lemma SeparatedKeysNeedOnePass(lines: seq<Line>)
    requires SupplySurvives(lines) && KeysAreSeparated(lines)
    ensures Analyze(Fix(lines)) == []
  {
    if ParentGroup(lines).None? {
      FixKeepsParent(lines);
    } else {
      var cut, group := RemovedByFix(lines), ParentGroup(lines).value;
      assert lines[..|lines|] == lines;
      forall p: nat | p < |lines| ensures !Duplicates(lines, cut, p, |lines|, group) {
        if Duplicates(lines, cut, p, |lines|, group) {
          StayingKeyDuplicatesNothing(lines, p);
        }
      }
      FixKeepsParent(lines);
      CleanAfterPass(lines, group);
    }
  }

  lemma StayingKeyDuplicatesNothing(lines: seq<Line>, p: nat)
    requires ParentGroup(lines).Some? && KeysAreSeparated(lines) && p < |lines|
    ensures !Duplicates(lines, RemovedByFix(lines), p, |lines|, ParentGroup(lines).value)
  {
    var cut, group := RemovedByFix(lines), ParentGroup(lines).value;
    if Duplicates(lines, cut, p, |lines|, group) {
      if IsFlowKey(lines[p]) && FlowGroup(lines[p].text) == Some(group) {
        DuplicatesAreRemoved(lines, p, p);
      } else {
        var g: nat :| p < g < |lines| && g !in cut && OpenAt(lines, cut, p, g, group) && Names(lines[g], group);
        forall j: nat | p < j < g ensures j !in cut {
          NothingRemovedInside(lines, p, j, g);
        }
        assert OpenAt(lines, {}, p, g, group);
        DuplicatesAreRemoved(lines, p, p);
      }
    }
  }

  lemma NothingRemovedInside(lines: seq<Line>, p: nat, j: nat, g: nat)
    requires ParentGroup(lines).Some? && KeysAreSeparated(lines) && p < j < g < |lines|
    requires OpenAt(lines, RemovedByFix(lines), p, g, ParentGroup(lines).value)
    ensures j !in RemovedByFix(lines)
  {
    if j in RemovedByFix(lines) {
      var q := RemovedLines(lines, j);
      if q == p {
        DuplicatesAreRemoved(lines, p, p);
      }
      var c: nat :| p < c < q && Closes(lines[c]) && !IsKey(lines[c]);
      ClosingLinesStay(lines, c);
      assert false;
    }
  }

  lemma ClosingLinesStay(lines: seq<Line>, c: nat)
    requires c < |lines| && Closes(lines[c]) && !IsKey(lines[c])
    ensures c !in RemovedByFix(lines)
  {
    if c in RemovedByFix(lines) {
      var r := RemovedLines(lines, c);
    }
  }

  lemma {:induction false} DropShrinks(lines: seq<Line>, cut: set<nat>, n: nat)
    requires n <= |lines|
    ensures |Drop(lines[..n], cut)| <= n
    ensures forall i: nat | i < n && i in cut :: |Drop(lines[..n], cut)| < n
  {
    if n > 0 {
      DropShrinks(lines, cut, n - 1);
      DropSnoc(lines, cut, n - 1);
    }
  }

  lemma OffenseIsRemoved(lines: seq<Line>) returns (i: nat)
    requires Analyze(lines) != []
    ensures i < |lines| && i in RemovedByFix(lines)
  {
    AnalysisNamesKeys(lines);
    var o := Analyze(lines)[0];
    i := o.line - 1;
    assert o in Analyze(lines);
    ReportedExactly(lines, i);
    DuplicatesAreRemoved(lines, i, i);
  }

  /** A pass that finds an offense deletes at least one line. */
  lemma FixShrinks(lines: seq<Line>)
    requires Analyze(lines) != []
    ensures |Fix(lines)| < |lines|
  {
    var i := OffenseIsRemoved(lines);
    DropShrinks(lines, RemovedByFix(lines), |lines|);
    assert lines[..|lines|] == lines;
  }

  /** The text after as many passes as there is something to report. */
  ghost function Sanitized(lines: seq<Line>): seq<Line>
    decreases |lines|
  {
    if Analyze(lines) == [] then lines
    else
      FixShrinks(lines);
      Sanitized(Fix(lines))
  }

  /** Repeated passes end, in a text without offenses that has lost no protected line. */
  lemma {:induction false} SanitizedIsClean(lines: seq<Line>)
    ensures Analyze(Sanitized(lines)) == []
    ensures OnlyProtected(Sanitized(lines)) == OnlyProtected(lines)
    decreases |lines|
  {
    if Analyze(lines) != [] {
      FixShrinks(lines);
      SanitizedIsClean(Fix(lines));
      FixKeepsProtected(lines);
    }
  }

  // ---------------------------------------------------------------- where the hypotheses bite

  lemma SampleGroups()
    ensures GroupValue("group: g") == Some("g") && GroupValue("group: h") == Some("h")
  {
    var g, h := "group: g", "group: h";
    assert g[6..] == " g" && h[6..] == " h";
    assert TrimLeft(" g") == TrimLeft("g") == "g" && TrimLeft(" h") == TrimLeft("h") == "h";
  }

  lemma SampleNoGroups()
    ensures GroupValue("concurrency:") == None && GroupValue("") == None && GroupValue("j:") == None
  {
    assert "concurrency:"[0] != "group:"[0] && "j:"[0] != "group:"[0];
  }

  lemma SampleJobs()
    ensures JobName("j:") == Some("j") && JobName("concurrency:") == Some("concurrency")
  {
    SampleJob("j:", "j");
    SampleJob("concurrency:", "concurrency");
  }

  lemma SampleJob(text: string, name: string)
    requires text == name + ":" && name != "" && forall c <- name :: IsNameChar(c)
    ensures JobName(text) == Some(name)
  {
    assert !IsSpace(':') && TrimRight(text) == text;
    assert forall i | 0 <= i < |name| :: text[i] == name[i] && name[i] in name;
    assert text[..|text| - 1] == name;
  }

  lemma SampleFlows()
    ensures !("concurrency: {" <= "concurrency:") && !("concurrency: {" <= "j:") && !("concurrency: {" <= "")
    ensures !("concurrency: {" <= "group: g") && !("concurrency: {" <= "group: h")
  {
    assert "concurrency: {"[0] != "j:"[0] && "concurrency: {"[0] != "group: g"[0] == "group: h"[0];
  }

  /** A blank line keeps the group line of the deleted key, which the block above then takes over. */
  const LEFTOVER: seq<Line> := [
    Line(0, "concurrency:"),
    Line(2, "group: g"),
    Line(2, "j:"),
    Line(4, "concurrency:"),
    Line(6, "group: h"),
    Line(4, "concurrency:"),
    Line(0, ""),
    Line(6, "group: g")]

  /** The first two lines open the workflow-level block and name its group. */
  lemma ParentInTwo(t: seq<Line>, group: string)
    requires |t| >= 2 && t[0] == Line(0, "concurrency:")
    requires t[1].indent > 0 && GroupValue(t[1].text) == Some(group)
    ensures ParentGroup(t) == Some(group) && Supplies(t, 1)
  {
    SampleFlows();
    ParentStateStep(t, 0);
    ParentStateStep(t, 1);
    assert t[..0] == [];
    FoundStays(t, 2);
  }

  lemma ParentStateStep(lines: seq<Line>, n: nat)
    requires n < |lines|
    ensures ParentState(lines[..n + 1]) == ParentStep(ParentState(lines[..n]), lines[n])
  {
    assert lines[..n + 1][..n] == lines[..n];
  }

  lemma LeftoverParent()
    ensures ParentGroup(LEFTOVER) == Some("g") && Supplies(LEFTOVER, 1)
  {
    SampleGroups();
    ParentInTwo(LEFTOVER, "g");
  }

  lemma LeftoverKeys()
    ensures var t := LEFTOVER; IsJob(t[2]) && IsBlockKey(t[3]) && IsBlockKey(t[5]) && Closes(t[5]) && !IsFlowKey(t[3])
  {
    SampleJobs();
    SampleFlows();
  }

  lemma LeftoverLines()
    ensures var t := LEFTOVER;
            && Names(t[7], "g") && !Names(t[4], "g") && !Closes(t[4]) && !Closes(t[6]) && !Names(t[6], "g")
            && !IsKey(t[4]) && !IsKey(t[6]) && !IsKey(t[7])
  {
    SampleGroups();
    SampleNoGroups();
    SampleFlows();
  }

  lemma LeftoverCut()
    ensures ParentGroup(LEFTOVER) == Some("g")
    ensures var cut := RemovedByFix(LEFTOVER); 5 in cut && 3 !in cut && 7 !in cut
  {
    LeftoverParent();
    LeftoverKeys();
    LeftoverLines();
    var t := LEFTOVER;
    assert OpenAt(t, {}, 5, 7, "g");
    DuplicatesAreRemoved(t, 5, 5);
    if 3 in RemovedByFix(t) {
      var p := RemovedLines(t, 3);
    }
    if 7 in RemovedByFix(t) {
      var p := RemovedLines(t, 7);
    }
  }

  lemma LeftoverDuplicate(t: seq<Line>, cut: set<nat>)
    requires |t| == 8 && 3 !in cut && 5 in cut && 7 !in cut
    requires IsJob(t[2]) && IsBlockKey(t[3]) && Names(t[7], "g") && !Names(t[4], "g") && !Closes(t[4])
    requires !Closes(t[6]) && !Names(t[6], "g")
    ensures SomeDuplicate(t, cut, |t|, "g")
  {
    assert InJob(t, 3);
    assert OpenAt(t, cut, 3, 7, "g");
    NamedUnderOpen(t, cut, 3, 7, "g");
  }

  lemma NamedUnderOpen(lines: seq<Line>, cut: set<nat>, p: nat, g: nat, group: string)
    requires p < g < |lines| && g !in cut && OpenAt(lines, cut, p, g, group) && Names(lines[g], group)
    ensures SomeDuplicate(lines, cut, |lines|, group)
  {
    assert Duplicates(lines, cut, p, |lines|, group);
  }

  /** One pass is not always enough. */
  lemma OnePassMayNotSuffice()
    ensures SupplySurvives(LEFTOVER) && Analyze(Fix(LEFTOVER)) != []
  {
    LeftoverParent();
    LeftoverKeys();
    LeftoverLines();
    LeftoverCut();
    ShallowSupplySurvives(LEFTOVER, 1);
    LeftoverDuplicate(LEFTOVER, RemovedByFix(LEFTOVER));
    FixKeepsParent(LEFTOVER);
    CleanAfterPass(LEFTOVER, "g");
  }

  /** A workflow-level block without a group of its own takes the first one below it, here that of a job. */
  const BORROWED: seq<Line> := [
    Line(0, "concurrency:"),
    Line(2, "j:"),
    Line(4, "concurrency:"),
    Line(6, "group: g")]

  lemma BorrowedLines()
    ensures var t := BORROWED;
            && IsJob(t[1]) && IsBlockKey(t[2]) && Names(t[3], "g")
            && GroupValue(t[0].text) == GroupValue(t[1].text) == GroupValue(t[2].text) == None
  {
    SampleGroups();
    SampleNoGroups();
    SampleJobs();
  }

  lemma BorrowedParent()
    ensures ParentGroup(BORROWED) == Some("g") && ParentGroup(BORROWED[..2]) == None
  {
    BorrowedLines();
    ParentInFour(BORROWED, "g");
  }

  lemma ParentInFour(t: seq<Line>, group: string)
    requires |t| == 4 && t[0] == Line(0, "concurrency:")
    requires t[1].indent > 0 && GroupValue(t[1].text) == None && t[2].indent > 0 && GroupValue(t[2].text) == None
    requires t[3].indent > 0 && GroupValue(t[3].text) == Some(group)
    ensures ParentGroup(t) == Some(group) && ParentGroup(t[..2]) == None
  {
    SampleFlows();
    ParentStateStep(t, 0);
    ParentStateStep(t, 1);
    ParentStateStep(t, 2);
    ParentStateStep(t, 3);
    assert t[..0] == [] && t[..4] == t;
  }

  lemma BorrowedCut()
    requires ParentGroup(BORROWED) == Some("g")
    ensures var cut := RemovedByFix(BORROWED); 0 !in cut && 1 !in cut && 2 in cut && 3 in cut
  {
    BorrowedLines();
    var t := BORROWED;
    assert InJob(t, 2);
    assert OpenAt(t, {}, 2, 3, "g");
    DuplicatesAreRemoved(t, 2, 2);
    DuplicatesAreRemoved(t, 2, 3);
    RemovedAreUnprotected(t);
  }

  lemma DropLastTwo(t: seq<Line>, cut: set<nat>)
    requires |t| == 4 && 0 !in cut && 1 !in cut && 2 in cut && 3 in cut
    ensures Drop(t, cut) == t[..2]
  {
    DropSnoc(t, cut, 0);
    DropSnoc(t, cut, 1);
    DropSnoc(t, cut, 2);
    DropSnoc(t, cut, 3);
    assert t[..4] == t && t[..0] == [];
  }

  /** The hypothesis on the supplying line is needed: a pass can delete it, and the group with it. */
  lemma {:induction false} SupplyMayBeDeleted()
    ensures !SupplySurvives(BORROWED)
    ensures ParentGroup(BORROWED) == Some("g") && ParentGroup(Fix(BORROWED)) == None
  {
    BorrowedParent();
    BorrowedCut();
    DropLastTwo(BORROWED, RemovedByFix(BORROWED));
    if SupplySurvives(BORROWED) {
      FixKeepsParent(BORROWED);
    }
  }

  /** With the supplying line gone the group of another job is read next, and its own key duplicates it. */
  const TWO_GROUPS: seq<Line> := [
    Line(0, "concurrency:"),
    Line(2, "j:"),
    Line(4, "concurrency:"),
    Line(6, "group: g"),
    Line(2, "k:"),
    Line(4, "concurrency:"),
    Line(6, "group: h")]

  /** Two jobs with a block each, under a workflow-level block that has no group of its own. */
  ghost predicate TwoJobs(t: seq<Line>) {
    && |t| == 7 && t[0] == Line(0, "concurrency:") && (forall i: nat | 0 < i < 7 :: t[i].indent > 0)
    && IsJob(t[1]) && IsBlockKey(t[2]) && Names(t[3], "g") && IsJob(t[4]) && IsBlockKey(t[5]) && Names(t[6], "h")
    && (forall i: nat | i < 7 && i != 3 && i != 6 :: GroupValue(t[i].text) == None)
    && (forall i: nat | i < 7 && i != 2 && i != 5 :: !IsKey(t[i]))
  }

  lemma JobLineFacts()
    ensures JobName("k:") == Some("k") && GroupValue("k:") == None && !("concurrency: {" <= "k:")
  {
    SampleJob("k:", "k");
    assert "k:"[0] != "group:"[0] && "k:"[0] != "concurrency: {"[0];
  }

  lemma TwoGroupsAreTwoJobs()
    ensures TwoJobs(TWO_GROUPS)
  {
    TwoGroupsLines();
    TwoGroupsKeys();
    TwoGroupsValues();
  }

  lemma TwoGroupsLines()
    ensures var t := TWO_GROUPS; IsJob(t[1]) && IsJob(t[4]) && Names(t[3], "g") && Names(t[6], "h")
  {
    SampleGroups();
    SampleJobs();
    JobLineFacts();
  }

  lemma TwoGroupsValues()
    ensures forall i: nat | i < 7 && i != 3 && i != 6 :: GroupValue(TWO_GROUPS[i].text) == None
  {
    SampleNoGroups();
    JobLineFacts();
    forall i: nat | i < 7 && i != 3 && i != 6 ensures GroupValue(TWO_GROUPS[i].text) == None {
      assert TWO_GROUPS[i].text in {"concurrency:", "j:", "k:"};
    }
  }

  lemma TwoGroupsKeys()
    ensures forall i: nat | i < 7 && i != 2 && i != 5 :: !IsKey(TWO_GROUPS[i])
  {
    SampleFlows();
    var t := TWO_GROUPS;
    forall i: nat | i < 7 && i != 2 && i != 5 ensures !IsKey(t[i]) {
      assert t[i].indent != 4;
    }
  }

  lemma TwoJobsParent(t: seq<Line>)
    requires TwoJobs(t)
    ensures ParentGroup(t) == Some("g") && Supplies(t, 3)
  {
    OpensParent(t);
    StaysSearching(t, 1);
    StaysSearching(t, 2);
    FindsGroup(t, 3, "g");
  }

  lemma FindsGroup(lines: seq<Line>, n: nat, group: string)
    requires n < |lines| && ParentState(lines[..n]) == Searching(true)
    requires lines[n].indent > 0 && GroupValue(lines[n].text) == Some(group)
    ensures ParentGroup(lines) == Some(group) && Supplies(lines, n)
  {
    ParentStateStep(lines, n);
    FoundStays(lines, n + 1);
  }

  lemma OpensParent(lines: seq<Line>)
    requires lines != [] && lines[0] == Line(0, "concurrency:")
    ensures ParentState(lines[..1]) == Searching(true)
  {
    SampleFlows();
    ParentStateStep(lines, 0);
    assert lines[..0] == [];
  }

  lemma StaysSearching(lines: seq<Line>, n: nat)
    requires n < |lines| && ParentState(lines[..n]) == Searching(true)
    requires lines[n].indent > 0 && GroupValue(lines[n].text) == None
    ensures ParentState(lines[..n + 1]) == Searching(true)
  {
    ParentStateStep(lines, n);
  }

  lemma TwoJobsDoom(t: seq<Line>)
    requires TwoJobs(t) && ParentGroup(t) == Some("g")
    ensures Doomed(t, 3) && !Doomed(t, 5) && !Doomed(t, 6)
  {
    assert InJob(t, 2) && OpenAt(t, {}, 2, 3, "g");
    assert Duplicates(t, {}, 2, 7, "g") && DoomedBy(t, 2, 3);
    assert !IsFlowKey(t[5]) && !Names(t[6], "g") && t[4].indent <= 4;
    forall q: nat, i: nat | i == 5 || i == 6 ensures !DoomedBy(t, q, i) {
      if IsUnder(t, q, i) {
        assert q == 2 || q == 5;
      }
    }
  }

  lemma SecondGroupTakesOver()
    ensures KeysAreSeparated(TWO_GROUPS) && !SupplySurvives(TWO_GROUPS) && Analyze(Fix(TWO_GROUPS)) != []
  {
    TwoGroupsAreTwoJobs();
    TwoJobsParent(TWO_GROUPS);
    TwoJobsDoom(TWO_GROUPS);
    TwoJobsNeedAnotherPass(TWO_GROUPS);
    OnePassSufficesIff(TWO_GROUPS);
    assert Closes(TWO_GROUPS[4]) && !IsKey(TWO_GROUPS[4]);
  }

  lemma TwoJobsNeedAnotherPass(t: seq<Line>)
    requires TwoJobs(t) && Doomed(t, 3) && !Doomed(t, 5) && !Doomed(t, 6)
    ensures NeedsAnotherPass(t)
  {
    SampleFlows();
    assert InJob(t, 5);
    assert TakesOver(t, 5, 6, "h");
    assert UnderHead(t, 1) && UnderHead(t, 2) && UnderHead(t, 3);
    assert UnderHead(t, 4) && UnderHead(t, 5) && UnderHead(t, 6);
    assert SuppliesNext(t, 6) && Offered(t[6]) == Some("h");
  }

  // ---------------------------------------------------------------- the steps of `ReportsInOrder`

  lemma PlaceNothing(lines: seq<Line>, before: seq<Offense>, n: nat, group: string)
    requires 0 < n <= |lines| && WellPlaced(lines, before, n - 1, group)
    ensures WellPlaced(lines, before, n, group)
  {
    forall p: nat, o <- before | p < n && OpenAt(lines, {}, p, n, group) ensures o.line < p + 1 {
      if p < n - 1 {
        OpenLonger(lines, p, n - 1, group);
      }
    }
  }

  lemma PlaceOne(lines: seq<Line>, before: seq<Offense>, o: Offense, n: nat, group: string)
    requires 0 < n <= |lines| && WellPlaced(lines, before, n - 1, group)
    requires 1 <= o.line <= n && IsKey(lines[o.line - 1]) && InJob(lines, o.line - 1)
    requires forall b <- before :: b.line < o.line
    requires Closes(lines[n - 1]) || Names(lines[n - 1], group)
    requires !IsBlockKey(lines[n - 1])
    ensures WellPlaced(lines, before + [o], n, group)
  {
    var after := before + [o];
    assert Ascending(after);
    forall x <- after
      ensures 1 <= x.line <= n && IsKey(lines[x.line - 1]) && InJob(lines, x.line - 1)
    {
      assert x in before || x == o;
    }
    forall p: nat | p < n ensures !OpenAt(lines, {}, p, n, group) {
      NoneOpenAfter(lines, p, n, group);
    }
  }

  lemma NoneOpenAfter(lines: seq<Line>, p: nat, n: nat, group: string)
    requires p < n <= |lines| && !IsBlockKey(lines[n - 1])
    requires Closes(lines[n - 1]) || Names(lines[n - 1], group)
    ensures !OpenAt(lines, {}, p, n, group)
  {
    if p < n - 1 {
      OpenLonger(lines, p, n - 1, group);
    }
  }

  lemma MentionsSnoc(before: seq<Offense>, o: Offense, p: nat)
    ensures Mentions(before + [o], p) <==> Mentions(before, p) || o.line == p + 1
  {
    if Mentions(before, p) {
      var b :| b in before && b.line == p + 1;
      assert b in before + [o];
    }
    assert o in before + [o];
  }

  /** The key of the offense reported at line `n - 1`. */
  lemma ReportedKey(lines: seq<Line>, n: nat, o: Offense, group: string) returns (key: nat)
    requires 0 < n <= |lines| && Reports(ScanOf(lines[..n - 1], group), lines[n - 1], group)
    requires var m: nat := n - 1;
             o.line == if IsFlowKey(lines[m]) then m + 1 else KeyLineOf(lines[..n], m)
    ensures key < n && o.line == key + 1 && IsKey(lines[key]) && InJob(lines, key)
    ensures if IsFlowKey(lines[n - 1]) then key == n - 1 else key < n - 1 && OpenAt(lines, {}, key, n - 1, group)
  {
    var m: nat := n - 1;
    MachineReports(lines, m, group);
    if IsFlowKey(lines[m]) {
      FlowKeysNameNothing(lines[m], group);
      key := m;
    } else {
      key :| key < m && OpenAt(lines, {}, key, m, group);
      BackTracksToOpener(lines, key, m, group);
      KeyLineIgnoresTail(lines, m);
    }
  }

  /** What line `n - 1` adds to the duplicating keys. */
  lemma MentionsLast(lines: seq<Line>, before: seq<Offense>, p: nat, n: nat, group: string)
    requires p < n <= |lines|
    requires forall o <- before :: 1 <= o.line <= n - 1
    requires p < n - 1 ==> (Mentions(before, p) <==> Duplicates(lines, {}, p, n - 1, group))
    ensures p < n - 1 ==> (Duplicates(lines, {}, p, n, group)
                           <==> Mentions(before, p)
                                || (OpenAt(lines, {}, p, n - 1, group) && Names(lines[n - 1], group)))
    ensures p == n - 1 ==> !Mentions(before, p)
                           && (Duplicates(lines, {}, p, n, group)
                               <==> IsFlowKey(lines[p]) && InJob(lines, p) && FlowGroup(lines[p].text) == Some(group))
  {
    if p < n - 1 {
      DuplicatesSnoc(lines, {}, p, n - 1, group);
    }
  }

  lemma OpenLonger(lines: seq<Line>, p: nat, m: nat, group: string)
    requires p < m < |lines|
    ensures OpenAt(lines, {}, p, m + 1, group)
       <==> OpenAt(lines, {}, p, m, group) && !Closes(lines[m]) && !Names(lines[m], group)
  {
  }

  lemma QuietLine(lines: seq<Line>, before: seq<Offense>, m: nat, group: string)
    requires m < |lines| && WellPlaced(lines, before, m, group) && MentionsDuplicates(lines, before, m, group)
    requires !(IsFlowKey(lines[m]) && InJob(lines, m) && FlowGroup(lines[m].text) == Some(group))
    requires !(SomeOpen(lines, {}, m, group) && Names(lines[m], group))
    ensures MentionsDuplicates(lines, before, m + 1, group)
  {
    forall p: nat | p < m + 1 ensures Mentions(before, p) <==> Duplicates(lines, {}, p, m + 1, group) {
      MentionsAtQuiet(lines, before, p, m, group);
    }
  }

  lemma MentionsAtQuiet(lines: seq<Line>, before: seq<Offense>, p: nat, m: nat, group: string)
    requires p <= m < |lines| && (forall b <- before :: 1 <= b.line <= m)
    requires p < m ==> (Mentions(before, p) <==> Duplicates(lines, {}, p, m, group))
    requires !(IsFlowKey(lines[m]) && InJob(lines, m) && FlowGroup(lines[m].text) == Some(group))
    requires !(SomeOpen(lines, {}, m, group) && Names(lines[m], group))
    ensures Mentions(before, p) <==> Duplicates(lines, {}, p, m + 1, group)
  {
    MentionsLast(lines, before, p, m + 1, group);
  }

  lemma FlowKeyLine(lines: seq<Line>, before: seq<Offense>, o: Offense, m: nat, group: string)
    requires m < |lines| && WellPlaced(lines, before, m, group) && MentionsDuplicates(lines, before, m, group)
    requires IsFlowKey(lines[m]) && InJob(lines, m) && FlowGroup(lines[m].text) == Some(group) && o.line == m + 1
    ensures MentionsDuplicates(lines, before + [o], m + 1, group)
  {
    forall p: nat | p < m + 1 ensures Mentions(before + [o], p) <==> Duplicates(lines, {}, p, m + 1, group) {
      MentionsAtFlow(lines, before, o, p, m, group);
    }
  }

  lemma MentionsAtFlow(lines: seq<Line>, before: seq<Offense>, o: Offense, p: nat, m: nat, group: string)
    requires p <= m < |lines| && (forall b <- before :: 1 <= b.line <= m)
    requires p < m ==> (Mentions(before, p) <==> Duplicates(lines, {}, p, m, group))
    requires IsFlowKey(lines[m]) && InJob(lines, m) && FlowGroup(lines[m].text) == Some(group) && o.line == m + 1
    ensures Mentions(before + [o], p) <==> Duplicates(lines, {}, p, m + 1, group)
  {
    MentionsSnoc(before, o, p);
    if p < m {
      DuplicatesSnoc(lines, {}, p, m, group);
      FlowKeysNameNothing(lines[m], group);
    }
  }

  lemma FlowKeysNameNothing(l: Line, group: string)
    requires IsFlowKey(l)
    ensures !Names(l, group)
  {
  }

  lemma GroupLine(lines: seq<Line>, before: seq<Offense>, o: Offense, key: nat, m: nat, group: string)
    requires m < |lines| && WellPlaced(lines, before, m, group) && MentionsDuplicates(lines, before, m, group)
    requires key < m && OpenAt(lines, {}, key, m, group) && Names(lines[m], group) && o.line == key + 1
    ensures MentionsDuplicates(lines, before + [o], m + 1, group)
  {
    forall p: nat | p < m + 1 ensures Mentions(before + [o], p) <==> Duplicates(lines, {}, p, m + 1, group) {
      MentionsAtGroup(lines, before, o, key, p, m, group);
    }
  }

  lemma MentionsAtGroup(
    lines: seq<Line>, before: seq<Offense>, o: Offense, key: nat, p: nat, m: nat, group: string
  )
    requires p <= m < |lines| && (forall b <- before :: 1 <= b.line <= m)
    requires p < m ==> (Mentions(before, p) <==> Duplicates(lines, {}, p, m, group))
    requires key < m && OpenAt(lines, {}, key, m, group) && Names(lines[m], group) && o.line == key + 1
    ensures Mentions(before + [o], p) <==> Duplicates(lines, {}, p, m + 1, group)
  {
    MentionsSnoc(before, o, p);
    if p < m {
      DuplicatesAtGroup(lines, key, p, m, group);
    } else {
      MentionsLast(lines, before, p, m + 1, group);
    }
  }

  /** A group line makes a duplicate of the key its block was opened by, and of no other. */
  lemma DuplicatesAtGroup(lines: seq<Line>, key: nat, p: nat, m: nat, group: string)
    requires key < m < |lines| && p < m && OpenAt(lines, {}, key, m, group) && Names(lines[m], group)
    ensures Duplicates(lines, {}, p, m + 1, group) <==> Duplicates(lines, {}, p, m, group) || p == key
  {
    DuplicatesSnoc(lines, {}, p, m, group);
    OpenIffKey(lines, key, p, m, group);
  }

  lemma OpenIffKey(lines: seq<Line>, key: nat, p: nat, m: nat, group: string)
    requires key < m <= |lines| && p < m && OpenAt(lines, {}, key, m, group)
    ensures OpenAt(lines, {}, p, m, group) <==> p == key
  {
    KeysAreClosing(lines[key]);
    if OpenAt(lines, {}, p, m, group) {
      KeysAreClosing(lines[p]);
    }
  }

  lemma LoudFlowLine(lines: seq<Line>, before: seq<Offense>, o: Offense, m: nat, group: string)
    requires m < |lines| && WellPlaced(lines, before, m, group) && MentionsDuplicates(lines, before, m, group)
    requires IsFlowKey(lines[m]) && InJob(lines, m) && FlowGroup(lines[m].text) == Some(group) && o.line == m + 1
    ensures WellPlaced(lines, before + [o], m + 1, group)
    ensures MentionsDuplicates(lines, before + [o], m + 1, group)
  {
    FlowKeyPlaced(lines, before, o, m, group);
    FlowKeyLine(lines, before, o, m, group);
  }

  lemma LoudGroupLine(lines: seq<Line>, before: seq<Offense>, o: Offense, key: nat, m: nat, group: string)
    requires m < |lines| && WellPlaced(lines, before, m, group) && MentionsDuplicates(lines, before, m, group)
    requires key < m && OpenAt(lines, {}, key, m, group) && Names(lines[m], group) && o.line == key + 1
    requires IsKey(lines[key]) && InJob(lines, key)
    ensures WellPlaced(lines, before + [o], m + 1, group)
    ensures MentionsDuplicates(lines, before + [o], m + 1, group)
  {
    PlaceOne(lines, before, o, m + 1, group);
    GroupLine(lines, before, o, key, m, group);
  }

  lemma LoudLine(lines: seq<Line>, before: seq<Offense>, o: Offense, m: nat, group: string)
    requires m < |lines| && WellPlaced(lines, before, m, group) && MentionsDuplicates(lines, before, m, group)
    requires Reports(ScanOf(lines[..m], group), lines[m], group)
    requires o.line == if IsFlowKey(lines[m]) then m + 1 else KeyLineOf(lines[..m + 1], m)
    ensures WellPlaced(lines, before + [o], m + 1, group)
    ensures MentionsDuplicates(lines, before + [o], m + 1, group)
  {
    MachineReports(lines, m, group);
    var key := ReportedKey(lines, m + 1, o, group);
    if IsFlowKey(lines[m]) {
      LoudFlowLine(lines, before, o, m, group);
    } else {
      LoudGroupLine(lines, before, o, key, m, group);
    }
  }

  lemma FlowKeyPlaced(lines: seq<Line>, before: seq<Offense>, o: Offense, m: nat, group: string)
    requires m < |lines| && WellPlaced(lines, before, m, group)
    requires IsFlowKey(lines[m]) && InJob(lines, m) && o.line == m + 1
    ensures WellPlaced(lines, before + [o], m + 1, group)
  {
    KeysAreClosing(lines[m]);
    PlaceOne(lines, before, o, m + 1, group);
  }

  // ---------------------------------------------------------------- the steps of `CutsAreOneDeletion`

  lemma RunEndAgrees(a: seq<Line>, b: seq<Line>, i: nat, s: nat)
    requires i <= s <= |a| && s <= |b| && a[..s] == b[..s]
    requires s < |a| ==> Stops(a[s])
    requires s < |b| ==> Stops(b[s])
    ensures RunEnd(a, i) == RunEnd(b, i) <= s
  {
    var e := RunEnd(a, i);
    var f := RunEnd(b, i);
    assert e <= s && f <= s;
    assert forall j | 0 <= j < s :: a[..s][j] == b[..s][j];
    assert forall j | 0 <= j < s :: a[j] == b[j];
  }

  lemma {:induction false} DropAgrees(lines: seq<Line>, a: set<nat>, b: set<nat>, n: nat)
    requires n <= |lines| && forall i: nat | i < n :: i in a <==> i in b
    ensures Drop(lines[..n], a) == Drop(lines[..n], b)
  {
    if n > 0 {
      DropAgrees(lines, a, b, n - 1);
      DropSnoc(lines, a, n - 1);
      DropSnoc(lines, b, n - 1);
    }
  }

  lemma {:induction false} DropOfRange(lines: seq<Line>, cut: set<nat>, s: nat, e: nat)
    requires s <= e <= |lines| && forall i: nat | s <= i < e :: i in cut
    ensures Drop(lines[..e], cut) == Drop(lines[..s], cut)
    decreases e
  {
    if s < e {
      DropOfRange(lines, cut, s, e - 1);
      DropSnoc(lines, cut, e - 1);
    }
  }

  lemma {:induction false} DropKeepsTail(lines: seq<Line>, cut: set<nat>, e: nat, n: nat)
    requires e <= n <= |lines| && forall i: nat | e <= i < n :: i !in cut
    ensures Drop(lines[..n], cut) == Drop(lines[..e], cut) + lines[e..n]
    decreases n
  {
    if e < n {
      var m: nat := n - 1;
      DropKeepsTail(lines, cut, e, m);
      DropSnoc(lines, cut, m);
      SliceSnoc(lines, e, m);
      Associate(Drop(lines[..e], cut), lines[e..m], [lines[m]]);
    } else {
      assert lines[e..n] == [];
    }
  }

  lemma SliceSnoc<T>(s: seq<T>, from: nat, n: nat)
    requires from <= n < |s|
    ensures s[from..n + 1] == s[from..n] + [s[n]]
  {
  }

  lemma Associate<T>(x: seq<T>, y: seq<T>, z: seq<T>)
    ensures (x + y) + z == x + (y + z)
  {
  }

  /** Cutting the last block leaves the blocks above it as they were. */
  lemma EarlierBlocksUnchanged(lines: seq<Line>, starts: seq<nat>, s: nat)
    requires AreStarts(lines, starts + [s])
    ensures s < |lines| && AreStarts(Cut(lines, s), starts)
    ensures forall k: nat | k < |starts| ::
              starts[k] < s && BlockEnd(Cut(lines, s), starts[k]) == BlockEnd(lines, starts[k]) <= s
  {
    var all := starts + [s];
    assert all[|starts|] == s;
    var cut := Cut(lines, s);
    assert cut[..s] == lines[..s];
    forall k: nat | k < |starts|
      ensures starts[k] < s && starts[k] < |cut| && Stops(cut[starts[k]])
      ensures BlockEnd(cut, starts[k]) == BlockEnd(lines, starts[k]) <= s
    {
      assert all[k] == starts[k];
      assert lines[..s][starts[k]] == cut[..s][starts[k]];
      RunEndAgrees(lines, cut, starts[k] + 1, s);
    }
    forall i, j | 0 <= i < j < |starts| ensures starts[i] < starts[j] {
      assert all[i] < all[j];
    }
  }

  lemma OneCutIsADeletion(lines: seq<Line>, before: set<nat>, after: set<nat>, s: nat)
    requires s < |lines|
    requires forall i: nat | i < s :: i in before <==> i in after
    requires forall i: nat | s <= i :: i !in before
    requires forall i: nat | s <= i :: i in after <==> i < BlockEnd(lines, s)
    ensures Drop(Cut(lines, s), before) == Drop(lines, after)
  {
    var cut, e := Cut(lines, s), BlockEnd(lines, s);
    assert cut[..s] == lines[..s] && cut[s..|cut|] == lines[e..|lines|] && cut[..|cut|] == cut;
    DropKeepsTail(cut, before, s, |cut|);
    DropAgrees(lines, before, after, s);
    DropOfRange(lines, after, s, e);
    DropKeepsTail(lines, after, e, |lines|);
    assert lines[..|lines|] == lines;
  }

  lemma RemovedSplits(lines: seq<Line>, starts: seq<nat>, s: nat)
    requires AreStarts(lines, starts + [s])
    ensures s < |lines|
    ensures forall i: nat | i < s :: i in Removed(Cut(lines, s), starts) <==> i in Removed(lines, starts + [s])
    ensures forall i: nat | s <= i :: i !in Removed(Cut(lines, s), starts)
    ensures forall i: nat | s <= i :: i in Removed(lines, starts + [s]) <==> i < BlockEnd(lines, s)
  {
    EarlierBlocksUnchanged(lines, starts, s);
    var all, cut := starts + [s], Cut(lines, s);
    forall i: nat ensures InBlock(lines, all, i) <==> InBlock(cut, starts, i) || s <= i < BlockEnd(lines, s) {
      BlockSplits(lines, cut, starts, s, i);
    }
  }

  lemma BlockSplits(lines: seq<Line>, cut: seq<Line>, starts: seq<nat>, s: nat, i: nat)
    requires s < |lines| && s <= |cut|
    requires forall k: nat | k < |starts| ::
               starts[k] < s && BlockEnd(cut, starts[k]) == BlockEnd(lines, starts[k])
    ensures InBlock(lines, starts + [s], i) <==> InBlock(cut, starts, i) || s <= i < BlockEnd(lines, s)
  {
    var all := starts + [s];
    if InBlock(cut, starts, i) {
      var k: nat :| k < |starts| && starts[k] < |cut| && starts[k] <= i < BlockEnd(cut, starts[k]);
      assert all[k] == starts[k];
    }
    assert all[|starts|] == s;
    if InBlock(lines, all, i) {
      var k: nat :| k < |all| && all[k] < |lines| && all[k] <= i < BlockEnd(lines, all[k]);
      assert k < |starts| ==> all[k] == starts[k];
    }
  }
}
