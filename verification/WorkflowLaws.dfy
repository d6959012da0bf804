/**
  Laws of the workflow sanitizer that speak of what is written rather than of what is read: how a group is
  quoted changes nothing, an offense names the job it lies in, and comments and blank lines are passed over.
 */
module WorkflowLaws {
  import opened Options
  import opened Patterns
  import opened Workflow

  // ---------------------------------------------------------------- quotes do not matter

  /** The text is a group line that writes the value as it is, or in quotes. */
  ghost predicate Spells(text: string, v: string) {
    exists pad, core :: Spaces(pad) && Spelled(core, v) && text == "group:" + pad + core
  }

  /** Indentations nothing tells apart: all beyond that of a job's keys, and the odd ones before it. */
  predicate SameLevel(i: nat, j: nat) {
    i == j || (i > 4 && j > 4) || (i in {1, 3} && j in {1, 3})
  }

  /** Lines that are equal, or write the same value on a group line, or the same group in braces. */
  ghost predicate Respelled(a: Line, b: Line) {
    && SameLevel(a.indent, b.indent)
    && (|| a.text == b.text
        || (exists v :: Tight(v) && !InQuotes(v) && Spells(a.text, v) && Spells(b.text, v))
        || ("concurrency: {" <= a.text && "concurrency: {" <= b.text && FlowGroup(a.text) == FlowGroup(b.text)))
  }

  /** What the sanitizer makes of a line, but for the text itself. */
  ghost predicate SameReading(a: Line, b: Line) {
    && SameLevel(a.indent, b.indent) && (a.text == "" <==> b.text == "") && IsBlockKey(a) == IsBlockKey(b)
    && GroupValue(a.text) == GroupValue(b.text) && JobName(a.text) == JobName(b.text)
    && (a.text == "concurrency:" <==> b.text == "concurrency:")
    && ("concurrency:" <= a.text <==> "concurrency:" <= b.text)
    && ("concurrency: {" <= a.text <==> "concurrency: {" <= b.text)
    && ("concurrency: {" <= a.text ==> FlowGroup(a.text) == FlowGroup(b.text))
    && (a.text != "" ==> (a.text[0] == '#' <==> b.text[0] == '#'))
  }

  lemma GroupLinesAreNoJobs(text: string, pad: string, core: string)
    requires text == "group:" + pad + core && Spaces(pad) && Tight(core)
    ensures JobName(text) == None && text[0] == 'g' && !("concurrency:" <= text) && !("concurrency: {" <= text)
  {
    assert text[0] == "group:"[0] && text[5] == "group:"[5];
    assert "concurrency:"[0] != 'g' && "concurrency: {"[0] != 'g';
    assert text[|text| - 1] == core[|core| - 1];
    assert TrimRight(text) == text;
  }

  lemma FlowLinesAreNoJobs(text: string)
    requires "concurrency: {" <= text
    ensures JobName(text) == None && GroupValue(text) == None && "concurrency:" <= text != "concurrency:"
    ensures text[0] == 'c'
  {
    var tail := TrimRightSplits(text);
    assert text[12] == ' ' && text[13] == '{' && text[0] == 'c' by {
      assert text[12] == "concurrency: {"[12] && text[13] == "concurrency: {"[13];
      assert text[0] == "concurrency: {"[0];
    }
    assert !IsSpace('{') && !IsNameChar(' ');
    var t := TrimRight(text);
    assert forall k | |t| <= k < |text| :: text[k] == tail[k - |t|] && tail[k - |t|] in tail;
    assert t[12] == ' ';
    assert "group:"[0] != 'c';
    assert "concurrency:" <= "concurrency: {";
  }

  lemma SpelledLinesReadAlike(s: string, t: string, v: string)
    requires Tight(v) && !InQuotes(v) && Spells(s, v) && Spells(t, v)
    ensures GroupValue(s) == GroupValue(t) == Some(v) && JobName(s) == JobName(t) == None && s[..1] == t[..1] == "g"
    ensures !("concurrency:" <= s) && !("concurrency:" <= t) && !("concurrency: {" <= s) && !("concurrency: {" <= t)
  {
    var pad, core :| Spaces(pad) && Spelled(core, v) && s == "group:" + pad + core;
    var pad', core' :| Spaces(pad') && Spelled(core', v) && t == "group:" + pad' + core';
    assert !IsSpace('"') && !IsSpace('\'');
    SpelledGroupNames(pad, core, v);
    SpelledGroupNames(pad', core', v);
    GroupLinesAreNoJobs(s, pad, core);
    GroupLinesAreNoJobs(t, pad', core');
  }

  lemma RespelledReadsAlike(a: Line, b: Line)
    requires Respelled(a, b)
    ensures SameReading(a, b)
  {
    if a.text != b.text {
      if "concurrency: {" <= a.text && "concurrency: {" <= b.text && FlowGroup(a.text) == FlowGroup(b.text) {
        FlowLinesAreNoJobs(a.text);
        FlowLinesAreNoJobs(b.text);
      } else {
        var v :| Tight(v) && !InQuotes(v) && Spells(a.text, v) && Spells(b.text, v);
        SpelledLinesReadAlike(a.text, b.text, v);
      }
    }
  }

  ghost predicate SameReadings(a: seq<Line>, b: seq<Line>) {
    |a| == |b| && forall i | 0 <= i < |a| :: SameReading(a[i], b[i])
  }

  lemma SameStep(scan: Scan, parent: ParentScan, a: Line, b: Line, group: string)
    requires SameReading(a, b)
    ensures Step(scan, a, group) == Step(scan, b, group) && ParentStep(parent, a) == ParentStep(parent, b)
    ensures Reports(scan, a, group) == Reports(scan, b, group) && IsFlowKey(a) == IsFlowKey(b)
    ensures LooksLikeKey(a) == LooksLikeKey(b) && Stops(a) == Stops(b)
  {
  }

  lemma {:induction false} SameScans(a: seq<Line>, b: seq<Line>, group: string)
    requires SameReadings(a, b)
    ensures ScanOf(a, group) == ScanOf(b, group) && ParentState(a) == ParentState(b)
  {
    if a != [] {
      var n := |a| - 1;
      SameScans(a[..n], b[..n], group);
      SameStep(ScanOf(a[..n], group), ParentState(a[..n]), a[n], b[n], group);
    }
  }

  lemma LooksAlike(a: Line, b: Line)
    requires SameReading(a, b)
    ensures LooksLikeKey(a) == LooksLikeKey(b)
  {
  }

  lemma {:induction false} SameKeyLine(a: seq<Line>, b: seq<Line>, i: nat, j: nat)
    requires SameReadings(a, b) && j <= i < |a|
    ensures KeyLineFrom(a, i, j) == KeyLineFrom(b, i, j)
  {
    LooksAlike(a[j], b[j]);
    if !LooksLikeKey(a[j]) && j > 0 {
      SameKeyLine(a, b, i, j - 1);
    }
  }

  lemma {:induction false} SameReports(a: seq<Line>, b: seq<Line>, group: string)
    requires SameReadings(a, b)
    ensures Reported(a, group) == Reported(b, group)
  {
    if a != [] {
      var n := |a| - 1;
      SameReports(a[..n], b[..n], group);
      SameScans(a[..n], b[..n], group);
      SameStep(ScanOf(a[..n], group), ParentState(a[..n]), a[n], b[n], group);
      SameKeyLine(a, b, n, n);
    }
  }

  lemma {:induction false} SameRunEnd(a: seq<Line>, b: seq<Line>, i: nat)
    requires SameReadings(a, b) && i <= |a|
    ensures RunEnd(a, i) == RunEnd(b, i)
    decreases |a| - i
  {
    if i < |a| {
      assert SameReading(a[i], b[i]);
      if !Stops(a[i]) {
        SameRunEnd(a, b, i + 1);
      }
    }
  }

  lemma AllReadAlike(a: seq<Line>, b: seq<Line>)
    requires |a| == |b| && forall i | 0 <= i < |a| :: Respelled(a[i], b[i])
    ensures SameReadings(a, b)
  {
    forall i | 0 <= i < |a| ensures SameReading(a[i], b[i]) {
      RespelledReadsAlike(a[i], b[i]);
    }
  }

  lemma SameRemoved(a: seq<Line>, b: seq<Line>, starts: seq<nat>)
    requires SameReadings(a, b)
    ensures Removed(a, starts) == Removed(b, starts)
  {
    forall k: nat | k < |starts| && starts[k] < |a| ensures BlockEnd(a, starts[k]) == BlockEnd(b, starts[k]) {
      SameRunEnd(a, b, starts[k] + 1);
    }
    assert forall i: nat :: InBlock(a, starts, i) <==> InBlock(b, starts, i);
  }

  /**
    Writing any group with or without quotes, or with other spaces before it, and indenting any line within a
    job's key more or less, changes neither the offenses nor which lines a pass deletes.
   */
  lemma RespellingChangesNothing(a: seq<Line>, b: seq<Line>)
    requires |a| == |b| && forall i | 0 <= i < |a| :: Respelled(a[i], b[i])
    ensures ParentGroup(a) == ParentGroup(b) && Analyze(a) == Analyze(b) && RemovedByFix(a) == RemovedByFix(b)
  {
    AllReadAlike(a, b);
    SameScans(a, b, "");
    if ParentGroup(a).Some? {
      SameReports(a, b, ParentGroup(a).value);
    }
    SameRemoved(a, b, Starts(Analyze(a)));
  }

  // ---------------------------------------------------------------- the job of an offense

  /** Line `j` is the last job line above line `p`, and it names the job. */
  ghost predicate JobAbove(lines: seq<Line>, p: nat, j: nat, job: string) {
    && j < p <= |lines| && IsJob(lines[j]) && JobName(lines[j].text) == Some(job)
    && forall k | j < k < p :: !IsJob(lines[k])
  }

  lemma {:induction false} ScanJob(lines: seq<Line>, n: nat, group: string) returns (j: nat)
    requires n <= |lines| && ScanOf(lines[..n], group).job.Some?
    ensures JobAbove(lines, n, j, ScanOf(lines[..n], group).job.value)
  {
    var m: nat := n - 1;
    JobAfter(lines, n, group);
    if IsJob(lines[m]) {
      j := m;
    } else {
      j := ScanJob(lines, m, group);
    }
  }

  /** The job of the machine is that of a job line just read, or the one before. */
  lemma JobAfter(lines: seq<Line>, n: nat, group: string)
    requires 0 < n <= |lines|
    ensures ScanOf(lines[..n], group).job
         == if IsJob(lines[n - 1]) then JobName(lines[n - 1].text) else ScanOf(lines[..n - 1], group).job
  {
    assert lines[..n][..n - 1] == lines[..n - 1];
  }

  lemma {:induction false} ReportedInJob(lines: seq<Line>, n: nat, group: string, o: Offense) returns (j: nat)
    requires n <= |lines| && o in Reported(lines[..n], group)
    ensures 0 < o.line <= n && JobAbove(lines, o.line - 1, j, o.job) && o.parentGroup == o.childGroup == group
  {
    var m: nat := n - 1;
    ReportedSnoc(lines, m, group);
    if o in Reported(lines[..m], group) {
      j := ReportedInJob(lines, m, group, o);
    } else {
      j := NewOffenseInJob(lines, n, group, o);
    }
  }

  lemma NewOffenseInJob(lines: seq<Line>, n: nat, group: string, o: Offense) returns (j: nat)
    requires 0 < n <= |lines| && Reports(ScanOf(lines[..n - 1], group), lines[n - 1], group)
    requires var m: nat, scan := n - 1, ScanOf(lines[..n - 1], group);
             o == Offense(scan.job.value, if IsFlowKey(lines[m]) then m + 1 else KeyLineOf(lines[..n], m), group, group)
    ensures 0 < o.line <= n && JobAbove(lines, o.line - 1, j, o.job)
  {
    var key := ReportedKey(lines, n, o, group);
    j := ScanJob(lines, n - 1, group);
    NoJobWhileOpen(lines, key, n, j, group);
  }

  lemma NoJobWhileOpen(lines: seq<Line>, key: nat, n: nat, j: nat, group: string)
    requires key < n <= |lines| && IsKey(lines[key]) && j < n - 1 && IsJob(lines[j])
    requires if IsFlowKey(lines[n - 1]) then key == n - 1 else key < n - 1 && OpenAt(lines, {}, key, n - 1, group)
    ensures j < key
  {
    if j > key {
      assert Closes(lines[j]);
    }
  }

  /** An offense names the group, and the job whose line is the last job line above the key. */
  lemma OffenseNamesItsJob(lines: seq<Line>, o: Offense) returns (j: nat)
    requires o in Analyze(lines)
    ensures 0 < o.line <= |lines| && JobAbove(lines, o.line - 1, j, o.job)
    ensures ParentGroup(lines) == Some(o.parentGroup) && o.childGroup == o.parentGroup
  {
    assert lines[..|lines|] == lines;
    j := ReportedInJob(lines, |lines|, ParentGroup(lines).value, o);
  }

  // ---------------------------------------------------------------- comments and blank lines

  /** Below the top level a comment or a blank line changes no state and reports nothing. */
  lemma CommentsAreSilent(scan: Scan, parent: ParentScan, l: Line, group: string)
    requires l.text == "" || l.text[0] == '#'
    ensures Step(scan, l, group) == scan && !Reports(scan, l, group)
    ensures l.indent > 0 ==> ParentStep(parent, l) == parent
  {
    if l.text != "" {
      assert "group:"[0] != '#' && "concurrency:"[0] != '#' && "concurrency: {"[0] != '#';
      var tail := TrimRightSplits(l.text);
      assert TrimRight(l.text) != "" ==> TrimRight(l.text)[0] == '#';
    }
  }
}
