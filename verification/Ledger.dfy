/**
  The hash-chained ledger file: how it is written (`bootstrap`, `append`), how it is read back
  (`readLastLine`) and how it is checked (`verify`).

  Digests are free terms, so two digests are equal only when they were computed from the same
  inputs; JSON is a lossless codec, so the file is a sequence of tokens in which a token is either
  a newline, the whole JSON text of a line, or a strict prefix of it that a crash left behind.
 */
module Ledger {
  import opened Options

  type Key = nat

  datatype Event = Event(schema: string, id: string, kind: string, ts: string, payload: string)

  datatype Digest = Genesis | Link(prev: Digest, event: Event) | RawDigest(text: string)

  datatype Signature = Mac(key: Key, digest: Digest) | RawSignature(text: string)

  datatype Line = Line(event: Event, prevHash: Digest, hash: Digest, sig: Signature)

  datatype Token = NewLine | Whole(line: Line) | Part(line: Line)

  type Text = seq<Token>

  type Row = seq<Token>

  const EVENT_SCHEMA := "authoritative-ledger-event-v1"

  const BOOTSTRAPPED := "system.ledger.bootstrapped"

  const STALE_LOCK_MS := 600_000

  const KNOWN_EVENT_TYPES: set<string> := {
    "sales.order.created",
    "sales.payment.verified",
    "sales.delivery.completed",
    "sales.refund.issued",
    "sales.order.abandoned",
    "payout.initiated",
    "payout.pending_provider",
    "payout.completed",
    "payout.failed",
    "payout.needs_manual_proof",
    "reconciliation.discrepancy.opened",
    "reconciliation.discrepancy.resolved",
    "system.ledger.bootstrapped",
    "system.ledger.checksum_mismatch"
  }

  // ---------------------------------------------------------------- the text of the file

  /** The text split at its newlines: one more row than there are newlines. */
  function Rows(text: Text): (rows: seq<Row>)
    ensures |rows| > 0
  {
    if text == [] then [[]]
    else
      var rows := Rows(text[..|text| - 1]);
      var last := text[|text| - 1];
      if last == NewLine then rows + [[]]
      else rows[..|rows| - 1] + [rows[|rows| - 1] + [last]]
  }

  function NonBlank(rows: seq<Row>): seq<Row> {
    if rows == [] then []
    else NonBlank(rows[..|rows| - 1]) + if rows[|rows| - 1] == [] then [] else [rows[|rows| - 1]]
  }

  /** The rows `verify` looks at. */
  function Written(text: Text): seq<Row> {
    NonBlank(Rows(text))
  }

  function JoinRows(rows: seq<Row>): Text {
    if rows == [] then []
    else if |rows| == 1 then rows[0]
    else JoinRows(rows[..|rows| - 1]) + [NewLine] + rows[|rows| - 1]
  }

  lemma JoinEmpty(rows: seq<Row>)
    requires rows != []
    ensures JoinRows(rows + [[]]) == JoinRows(rows) + [NewLine]
  {
    assert (rows + [[]])[..|rows|] == rows;
    assert JoinRows(rows) + [NewLine] + [] == JoinRows(rows) + [NewLine];
  }

  lemma JoinLonger(init: seq<Row>, row: Row, last: Token)
    ensures JoinRows(init + [row + [last]]) == JoinRows(init + [row]) + [last]
  {
    assert (init + [row])[..|init|] == init == (init + [row + [last]])[..|init|];
    if init != [] {
      assert JoinRows(init) + [NewLine] + (row + [last]) == JoinRows(init) + [NewLine] + row + [last];
    }
  }

  lemma JoinOneMore(before: seq<Row>, last: Token, after: seq<Row>)
    requires before != []
    requires after == if last == NewLine then before + [[]]
                      else before[..|before| - 1] + [before[|before| - 1] + [last]]
    ensures JoinRows(after) == JoinRows(before) + [last]
  {
    if last == NewLine {
      JoinEmpty(before);
    } else {
      var init, row := before[..|before| - 1], before[|before| - 1];
      assert before == init + [row];
      JoinLonger(init, row, last);
    }
  }

  /** The rows joined again are the text. */
  lemma {:induction false} RowsRejoin(text: Text)
    ensures JoinRows(Rows(text)) == text
  {
    if text != [] {
      var init, last := text[..|text| - 1], text[|text| - 1];
      assert text == init + [last];
      RowsRejoin(init);
      JoinOneMore(Rows(init), last, Rows(text));
    }
  }

  /** No row holds a newline. */
  lemma {:induction false} RowsHoldNoNewLine(text: Text, k: nat)
    requires k < |Rows(text)|
    ensures NewLine !in Rows(text)[k]
  {
    if text != [] {
      var init := text[..|text| - 1];
      if k < |Rows(init)| {
        RowsHoldNoNewLine(init, k);
      }
    }
  }

  /** JSON.parse of one row: only the whole text of one line parses. */
  function Parse(row: Row): Option<Line> {
    if |row| == 1 && row[0].Whole? then Some(row[0].line) else None
  }

  function LastLine(rows: seq<Row>): Option<Line> {
    if rows == [] then None
    else if Parse(rows[|rows| - 1]).Some? then Parse(rows[|rows| - 1])
    else LastLine(rows[..|rows| - 1])
  }

  /** Row `i` parses, and no row after it does. */
  predicate LastToParse(rows: seq<Row>, i: int) {
    0 <= i < |rows| && Parse(rows[i]).Some? && forall j | i < j < |rows| :: Parse(rows[j]).None?
  }

  /** The line read back is that of the last row that parses; there is none when no row does. */
  lemma {:induction false} LastLineIsLast(rows: seq<Row>)
    ensures LastLine(rows).None? ==> forall row <- rows :: Parse(row).None?
    ensures LastLine(rows).Some? ==> exists i | LastToParse(rows, i) :: Parse(rows[i]) == LastLine(rows)
  {
    if rows != [] {
      var n := |rows| - 1;
      if Parse(rows[n]).Some? {
        assert LastToParse(rows, n);
      } else {
        LastLineIsLast(rows[..n]);
        if LastLine(rows).Some? {
          var i :| LastToParse(rows[..n], i) && Parse(rows[..n][i]) == LastLine(rows[..n]);
          assert forall j | i < j < n :: rows[..n][j] == rows[j];
          assert LastToParse(rows, i);
        } else {
          assert forall row <- rows :: row in rows[..n] || row == rows[n];
        }
      }
    }
  }

  function Separator(text: Text): Text {
    if text != [] && text[|text| - 1] != NewLine then [NewLine] else []
  }

  function AppendText(text: Text, line: Line): Text {
    text + Separator(text) + [Whole(line), NewLine]
  }

  function MakeLine(event: Event, prevHash: Digest, key: Key): Line {
    var hash := Link(prevHash, event);
    Line(event, prevHash, hash, Mac(key, hash))
  }

  lemma WrittenAfterToken(text: Text, token: Token)
    ensures token == NewLine ==> Written(text + [token]) == Written(text)
    ensures token != NewLine && Separator(text) == [] ==> Written(text + [token]) == Written(text) + [[token]]
  {
    assert (text + [token])[..|text|] == text;
    var rows := Rows(text);
    var init := rows[..|rows| - 1];
    if token == NewLine {
      assert (rows + [[]])[..|rows|] == rows;
    } else if Separator(text) == [] {
      assert rows[|rows| - 1] == [];
      assert (init + [[token]])[..|init|] == init;
      assert rows[|rows| - 1] + [token] == [token];
      assert Rows(text + [token]) == init + [[token]];
      assert NonBlank(init + [[token]]) == NonBlank(init) + [[token]];
      assert NonBlank(rows) == NonBlank(init);
    }
  }

  lemma TokenAddsOneRow(text: Text, token: Token)
    requires token != NewLine
    ensures Written(text + Separator(text) + [token]) == Written(text) + [[token]]
  {
    StartsARow(text);
    WrittenAfterToken(text + Separator(text), token);
  }

  /** Whatever the file holds, appending a line adds one row of its own and leaves the others alone. */
  lemma AppendAddsOneRow(text: Text, line: Line)
    ensures Written(AppendText(text, line)) == Written(text) + [[Whole(line)]]
  {
    var start := text + Separator(text);
    TokenAddsOneRow(text, Whole(line));
    WrittenAfterToken(start + [Whole(line)], NewLine);
    assert AppendText(text, line) == start + [Whole(line)] + [NewLine];
  }

  lemma StartsARow(text: Text)
    ensures Separator(text + Separator(text)) == []
    ensures Written(text + Separator(text)) == Written(text)
  {
    if Separator(text) == [] {
      assert text + Separator(text) == text;
    } else {
      WrittenAfterToken(text, NewLine);
    }
  }

  lemma LastLineSkipsBlanks(rows: seq<Row>)
    ensures LastLine(rows) == LastLine(NonBlank(rows))
  {
    if rows != [] {
      var init := rows[..|rows| - 1];
      LastLineSkipsBlanks(init);
      if rows[|rows| - 1] != [] {
        assert NonBlank(rows)[..|NonBlank(init)|] == NonBlank(init);
      } else {
        assert NonBlank(rows) == NonBlank(init);
      }
    }
  }

  /** The line just appended is the one read back, whatever else the file holds. */
  lemma ReadsBackWhatItAppends(text: Text, line: Line)
    ensures LastLine(Rows(AppendText(text, line))) == Some(line)
  {
    var after := AppendText(text, line);
    AppendAddsOneRow(text, line);
    LastLineSkipsBlanks(Rows(after));
    var rows := Written(after);
    assert Parse(rows[|rows| - 1]) == Some(line);
  }

  // ---------------------------------------------------------------- verify

  datatype Reason =
    | Fine
    | NotJson
    | WrongFirstType
    | WrongAnchor
    | ChainBroken
    | UnknownType
    | HashMismatch
    | SignatureMismatch

  datatype Verdict = Verdict(valid: bool, lineCount: nat, badLine: Option<nat>, reason: Reason)

  /** What is wrong with a row, given the hash `prevHash` the scan carries into it. */
  function FaultOf(row: Row, first: bool, prevHash: Digest, key: Key): Reason {
    match Parse(row)
    case None => NotJson
    case Some(line) =>
      if first && line.event.kind != BOOTSTRAPPED then WrongFirstType
      else if first && line.prevHash != Genesis then WrongAnchor
      else if !first && line.prevHash != prevHash then ChainBroken
      else if line.event.kind !in KNOWN_EVENT_TYPES then UnknownType
      else if line.hash != Link(line.prevHash, line.event) then HashMismatch
      else if line.sig != Mac(key, line.hash) then SignatureMismatch
      else Fine
  }

  /** What is wrong with row `i` of a file: the hash carried into it is the one stored one row up. */
  function Fault(rows: seq<Row>, i: nat, key: Key): Reason
    requires i < |rows|
  {
    if i == 0 then FaultOf(rows[0], true, Genesis, key)
    else match Parse(rows[i - 1])
      case None => NotJson
      case Some(above) => FaultOf(rows[i], false, above.hash, key)
  }

  ghost predicate Accepted(rows: seq<Row>, key: Key) {
    forall i: nat | i < |rows| :: Fault(rows, i, key) == Fine
  }

  /** The reference reading of line `i`: signed, hashed over its own event and chained to the line above. */
  ghost predicate LinkedAt(lines: seq<Line>, i: nat, key: Key)
    requires i < |lines|
  {
    && lines[i] == MakeLine(lines[i].event, if i == 0 then Genesis else lines[i - 1].hash, key)
    && lines[i].event.kind in KNOWN_EVENT_TYPES
    && (i == 0 ==> lines[i].event.kind == BOOTSTRAPPED)
  }

  ghost predicate Chained(lines: seq<Line>, key: Key) {
    forall i: nat | i < |lines| :: LinkedAt(lines, i, key)
  }

  function AsRows(lines: seq<Line>): (rows: seq<Row>)
    ensures |rows| == |lines| && forall i | 0 <= i < |lines| :: rows[i] == [Whole(lines[i])]
  {
    seq(|lines|, i requires 0 <= i < |lines| => [Whole(lines[i])])
  }

  function Contents(rows: seq<Row>): (lines: seq<Line>)
    requires forall r <- rows :: Parse(r).Some?
    ensures |lines| == |rows| && forall i | 0 <= i < |rows| :: Parse(rows[i]) == Some(lines[i])
  {
    seq(|rows|, i requires 0 <= i < |rows| => assert rows[i] in rows; Parse(rows[i]).value)
  }

  lemma ChainedIsAccepted(lines: seq<Line>, key: Key)
    ensures Chained(lines, key) <==> Accepted(AsRows(lines), key)
  {
    var rows := AsRows(lines);
    forall i: nat | i < |rows|
      ensures Fault(rows, i, key) == Fine <==> LinkedAt(lines, i, key)
    {
      assert Parse(rows[i]) == Some(lines[i]);
      assert i > 0 ==> Parse(rows[i - 1]) == Some(lines[i - 1]);
    }
  }

  lemma AcceptedParses(rows: seq<Row>, key: Key)
    requires Accepted(rows, key)
    ensures forall r <- rows :: Parse(r).Some?
    ensures rows == AsRows(Contents(rows))
    ensures Chained(Contents(rows), key)
  {
    forall i: nat | i < |rows| ensures Parse(rows[i]).Some? {
      assert Fault(rows, i, key) == Fine;
    }
    var lines := Contents(rows);
    forall i | 0 <= i < |rows| ensures rows[i] == AsRows(lines)[i] {
      assert Parse(rows[i]) == Some(lines[i]);
      assert rows[i] == [rows[i][0]];
    }
    assert rows == AsRows(lines);
    ChainedIsAccepted(lines, key);
  }

  // ---------------------------------------------------------------- what an accepted chain commits to

  /** The head hash of a chain fixes every line under it. */
  lemma {:induction false} HeadCommitsToHistory(a: seq<Line>, b: seq<Line>, key: Key)
    requires Chained(a, key) && Chained(b, key)
    requires |a| > 0 && |b| > 0
    requires a[|a| - 1].hash == b[|b| - 1].hash
    ensures a == b
  {
    var m, n := |a| - 1, |b| - 1;
    assert LinkedAt(a, m, key) && LinkedAt(b, n, key);
    assert a == a[..m] + [a[m]] && b == b[..n] + [b[n]];
    HashDepth(a, m, key);
    HashDepth(b, n, key);
    if m > 0 {
      PrefixStaysChained(a, m, key);
      PrefixStaysChained(b, n, key);
      HeadCommitsToHistory(a[..m], b[..n], key);
    }
  }

  lemma PrefixStaysChained(lines: seq<Line>, n: nat, key: Key)
    requires Chained(lines, key) && n <= |lines|
    ensures Chained(lines[..n], key)
  {
    forall i: nat | i < n ensures LinkedAt(lines[..n], i, key) {
      assert LinkedAt(lines, i, key);
    }
  }

  ghost function Depth(digest: Digest): nat {
    match digest
    case Link(prev, _) => 1 + Depth(prev)
    case _ => 0
  }

  lemma {:induction false} HashDepth(lines: seq<Line>, i: nat, key: Key)
    requires Chained(lines, key) && i < |lines|
    ensures Depth(lines[i].hash) == i + 1
  {
    assert LinkedAt(lines, i, key);
    if i > 0 {
      HashDepth(lines, i - 1, key);
    }
  }

  lemma HashesAreDistinct(lines: seq<Line>, i: nat, j: nat, key: Key)
    requires Chained(lines, key) && i < j < |lines|
    ensures lines[i].hash != lines[j].hash
  {
    HashDepth(lines, i, key);
    HashDepth(lines, j, key);
  }

  /** Two files accepted under one key and ending in the same hash are the same line by line. */
  lemma {:induction false} SameHeadSameFile(a: seq<Row>, b: seq<Row>, key: Key)
    requires Accepted(a, key) && Accepted(b, key) && |a| > 0 && |b| > 0
    requires LastLine(a).Some? && LastLine(b).Some? && LastLine(a).value.hash == LastLine(b).value.hash
    ensures a == b
  {
    AcceptedParses(a, key);
    AcceptedParses(b, key);
    LastOfChain(Contents(a));
    LastOfChain(Contents(b));
    HeadCommitsToHistory(Contents(a), Contents(b), key);
  }

  /** The file whose rows are those of `lines` at the positions `picks`, in that order. */
  ghost function Pick(lines: seq<Line>, picks: seq<nat>): (picked: seq<Line>)
    requires forall i | 0 <= i < |picks| :: picks[i] < |lines|
    ensures |picked| == |picks| && forall i | 0 <= i < |picks| :: picked[i] == lines[picks[i]]
  {
    seq(|picks|, i requires 0 <= i < |picks| => lines[picks[i]])
  }

  /**
    Deleting, duplicating and reordering lines are all selections of the lines of an accepted file.
    A selection is accepted exactly when it is a prefix.
   */
  lemma OnlyPrefixesVerify(lines: seq<Line>, picks: seq<nat>, key: Key)
    requires Chained(lines, key)
    requires forall i | 0 <= i < |picks| :: picks[i] < |lines|
    ensures Chained(Pick(lines, picks), key) <==> forall i | 0 <= i < |picks| :: picks[i] == i
  {
    var picked := Pick(lines, picks);
    forall i | 0 <= i < |picks| ensures Depth(picked[i].hash) == picks[i] + 1 {
      HashDepth(lines, picks[i], key);
    }
    if Chained(picked, key) {
      forall i | 0 <= i < |picks| ensures picks[i] == i {
        HashDepth(picked, i, key);
      }
    }
    if forall i | 0 <= i < |picks| :: picks[i] == i {
      assert |picks| > 0 ==> picks[|picks| - 1] < |lines|;
      assert picked == lines[..|picks|];
      PrefixStaysChained(lines, |picks|, key);
    }
  }

  /** A file written with one key is rejected at its first line under any other key. */
  lemma ForeignKeyRejected(lines: seq<Line>, key: Key, other: Key)
    requires Chained(lines, key) && |lines| > 0 && other != key
    ensures Fault(AsRows(lines), 0, other) == SignatureMismatch
  {
    assert LinkedAt(lines, 0, key);
    assert Parse(AsRows(lines)[0]) == Some(lines[0]);
  }

  // ---------------------------------------------------------------- writing calls

  datatype Call =
    | Boot(force: bool, id: string, ts: string, payload: string)
    | Post(kind: string, id: string, ts: string, payload: string)

  function EventOf(call: Call): Event {
    match call
    case Boot(_, id, ts, payload) => Event(EVENT_SCHEMA, id, BOOTSTRAPPED, ts, payload)
    case Post(kind, id, ts, payload) => Event(EVENT_SCHEMA, id, kind, ts, payload)
  }

  /** The line a call writes, once it holds the lock and the last line of the file is `last`. */
  function LineFor(last: Option<Line>, call: Call, key: Key): Option<Line> {
    match call
    case Boot(force, _, _, _) =>
      if last.Some? && !force then None
      else Some(MakeLine(EventOf(call), if last.Some? then last.value.hash else Genesis, key))
    case Post(kind, _, _, _) =>
      if kind !in KNOWN_EVENT_TYPES || last.None? then None
      else Some(MakeLine(EventOf(call), last.value.hash, key))
  }

  function LineWritten(text: Text, call: Call, key: Key): Option<Line> {
    LineFor(LastLine(Rows(text)), call, key)
  }

  function Apply(text: Text, call: Call, key: Key): Text {
    var line := LineWritten(text, call, key);
    if line.Some? then AppendText(text, line.value) else text
  }

  /** The line stores what the call was given: its kind, or that of a bootstrap, its id, time and payload. */
  predicate Carries(line: Line, call: Call) {
    && line.event.schema == "authoritative-ledger-event-v1"
    && line.event.kind == (if call.Post? then call.kind else "system.ledger.bootstrapped")
    && line.event.id == call.id && line.event.ts == call.ts && line.event.payload == call.payload
  }

  /** A bootstrap writes when it is forced or nothing can be read back, an append when it has something to link to. */
  predicate Writes(text: Text, call: Call) {
    var readable := exists row <- Rows(text) :: Parse(row).Some?;
    if call.Boot? then call.force || !readable else call.kind in KNOWN_EVENT_TYPES && readable
  }

  /** What a call writes: whether it does, what the line stores, and that it is signed and linked to the last line. */
  lemma LineIsThatOfCall(text: Text, call: Call, key: Key)
    ensures LineWritten(text, call, key).Some? <==> Writes(text, call)
    ensures Writes(text, call) ==>
              && var line, last := LineWritten(text, call, key).value, LastLine(Rows(text));
              && Carries(line, call) && line.sig == Mac(key, line.hash) && line.hash == Link(line.prevHash, line.event)
              && line.prevHash == if last.Some? then last.value.hash else Genesis
  {
    LastLineIsLast(Rows(text));
    if LastLine(Rows(text)).Some? {
      var i :| LastToParse(Rows(text), i) && Parse(Rows(text)[i]) == LastLine(Rows(text));
      assert Rows(text)[i] in Rows(text);
    }
  }

  predicate CarriesCall(row: Row, call: Call) {
    Parse(row).Some? && Carries(Parse(row).value, call)
  }

  /** The file has one row more, and it stores what the call was given. */
  ghost predicate Stored(before: Text, after: Text, line: Line, call: Call) {
    Written(after) == Written(before) + [[Whole(line)]] && Carries(line, call)
  }

  lemma WritingStores(text: Text, call: Call, key: Key)
    requires Writes(text, call)
    ensures LineWritten(text, call, key).Some?
    ensures Stored(text, Apply(text, call, key), LineWritten(text, call, key).value, call)
  {
    LineIsThatOfCall(text, call, key);
    AppendAddsOneRow(text, LineWritten(text, call, key).value);
  }

  /** How much of a write reaches the file before a crash. */
  datatype Cut = BeforeSeparator | AfterSeparator | InsideLine | BeforeNewLine

  datatype Op = Finish(call: Call) | Crash(call: Call, cut: Cut)

  function ApplyOp(text: Text, op: Op, key: Key): Text {
    match op
    case Finish(call) => Apply(text, call, key)
    case Crash(call, cut) =>
      var line := LineWritten(text, call, key);
      if line.None? then text
      else match cut
        case BeforeSeparator => text
        case AfterSeparator => text + Separator(text)
        case InsideLine => text + Separator(text) + [Part(line.value)]
        case BeforeNewLine => text + Separator(text) + [Whole(line.value)]
  }

  function RunOps(text: Text, ops: seq<Op>, key: Key): Text {
    if ops == [] then text else ApplyOp(RunOps(text, ops[..|ops| - 1], key), ops[|ops| - 1], key)
  }

  /** Whether the operation leaves a torn line. */
  predicate Tears(text: Text, op: Op, key: Key) {
    op.Crash? && op.cut == InsideLine && LineWritten(text, op.call, key).Some?
  }

  /** Whether the operation leaves the whole text of a line. */
  predicate Completes(text: Text, op: Op, key: Key) {
    LineWritten(text, op.call, key).Some? && (op.Crash? ==> op.cut == BeforeNewLine)
  }

  ghost predicate TornAt(ops: seq<Op>, j: nat, key: Key)
    requires j < |ops|
  {
    Tears(RunOps([], ops[..j], key), ops[j], key)
  }

  ghost predicate NeverTorn(ops: seq<Op>, key: Key) {
    forall j: nat | j < |ops| :: !TornAt(ops, j, key)
  }

  lemma PrefixNeverTorn(ops: seq<Op>, n: nat, key: Key)
    requires n <= |ops| && forall j: nat | j < n :: !TornAt(ops, j, key)
    ensures NeverTorn(ops[..n], key)
  {
    forall j: nat | j < n ensures !TornAt(ops[..n], j, key) {
      assert ops[..n][..j] == ops[..j];
      assert !TornAt(ops, j, key);
    }
  }

  function CompletedLines(text: Text, ops: seq<Op>, key: Key): nat {
    if ops == [] then 0
    else
      var init := ops[..|ops| - 1];
      CompletedLines(text, init, key)
      + if Completes(RunOps(text, init, key), ops[|ops| - 1], key) then 1 else 0
  }

  /** The calls whose lines were completed, in the order of their operations. */
  function CompletedCalls(text: Text, ops: seq<Op>, key: Key): seq<Call> {
    if ops == [] then []
    else
      var init, last := ops[..|ops| - 1], ops[|ops| - 1];
      CompletedCalls(text, init, key) + if Completes(RunOps(text, init, key), last, key) then [last.call] else []
  }

  /** What one operation does to the rows `verify` looks at. */
  lemma OpRows(text: Text, op: Op, key: Key)
    ensures var after := Written(ApplyOp(text, op, key));
            var line := LineWritten(text, op.call, key);
            if Tears(text, op, key) then after == Written(text) + [[Part(line.value)]]
            else if Completes(text, op, key) then after == Written(text) + [[Whole(line.value)]]
            else after == Written(text)
  {
    var line := LineWritten(text, op.call, key);
    if line.Some? {
      match op
      case Finish(_) => AppendAddsOneRow(text, line.value);
      case Crash(_, BeforeSeparator) =>
      case Crash(_, AfterSeparator) => StartsARow(text);
      case Crash(_, InsideLine) => TokenAddsOneRow(text, Part(line.value));
      case Crash(_, BeforeNewLine) => TokenAddsOneRow(text, Whole(line.value));
    }
  }

  lemma LastOfChain(lines: seq<Line>)
    ensures LastLine(AsRows(lines)) == if lines == [] then None else Some(lines[|lines| - 1])
  {
    if lines != [] {
      var rows := AsRows(lines);
      assert Parse(rows[|rows| - 1]) == Some(lines[|lines| - 1]);
    }
  }

  /** A line made for a chained file extends the chain. */
  lemma LineExtendsChain(lines: seq<Line>, call: Call, key: Key)
    requires Chained(lines, key)
    requires LineFor(LastLine(AsRows(lines)), call, key).Some?
    ensures Chained(lines + [LineFor(LastLine(AsRows(lines)), call, key).value], key)
  {
    LastOfChain(lines);
    var line := LineFor(LastLine(AsRows(lines)), call, key).value;
    var after := lines + [line];
    forall i: nat | i < |after| ensures LinkedAt(after, i, key) {
      assert i < |lines| ==> LinkedAt(lines, i, key);
    }
  }

  lemma OpExtendsAcceptedFile(text: Text, op: Op, key: Key)
    requires Accepted(Written(text), key) && !Tears(text, op, key)
    ensures Accepted(Written(ApplyOp(text, op, key)), key)
    ensures |Written(ApplyOp(text, op, key))| == |Written(text)| + if Completes(text, op, key) then 1 else 0
  {
    OpRows(text, op, key);
    if Completes(text, op, key) {
      AcceptedParses(Written(text), key);
      var lines := Contents(Written(text));
      LastLineSkipsBlanks(Rows(text));
      LineExtendsChain(lines, op.call, key);
      var line := LineWritten(text, op.call, key).value;
      ChainedIsAccepted(lines + [line], key);
      assert AsRows(lines + [line]) == Written(text) + [[Whole(line)]];
    }
  }

  /** Without a torn line, every reachable file is accepted, with one line per completed write. */
  lemma {:induction false} ReachableFilesVerify(ops: seq<Op>, key: Key)
    requires NeverTorn(ops, key)
    ensures Accepted(Written(RunOps([], ops, key)), key)
    ensures |Written(RunOps([], ops, key))| == CompletedLines([], ops, key)
  {
    if ops != [] {
      var n := |ops| - 1;
      PrefixNeverTorn(ops, n, key);
      ReachableFilesVerify(ops[..n], key);
      assert !TornAt(ops, n, key);
      OpExtendsAcceptedFile(RunOps([], ops[..n], key), ops[n], key);
    }
  }

  /** An operation that tears no line adds a row that stores what its call was given, or none. */
  lemma StepCarriesCall(text: Text, op: Op, key: Key) returns (rows: seq<Row>, calls: seq<Call>)
    requires !Tears(text, op, key)
    ensures calls == if Completes(text, op, key) then [op.call] else []
    ensures Written(ApplyOp(text, op, key)) == Written(text) + rows && CarryCalls(rows, calls)
  {
    OpRows(text, op, key);
    LineIsThatOfCall(text, op.call, key);
    calls := if Completes(text, op, key) then [op.call] else [];
    rows := if Completes(text, op, key) then [[Whole(LineWritten(text, op.call, key).value)]] else [];
  }

  /** Row by row, the rows store what the calls were given. */
  predicate CarryCalls(rows: seq<Row>, calls: seq<Call>) {
    |rows| == |calls| && forall k | 0 <= k < |rows| :: CarriesCall(rows[k], calls[k])
  }

  lemma OneMoreCarries(rows: seq<Row>, calls: seq<Call>, row: seq<Row>, call: seq<Call>)
    requires CarryCalls(rows, calls) && CarryCalls(row, call)
    ensures CarryCalls(rows + row, calls + call)
  {
  }

  /** The rows of a run without a torn line store what the calls it completed were given, in their order. */
  lemma {:induction false} RowsCarryCalls(ops: seq<Op>, key: Key)
    requires NeverTorn(ops, key)
    ensures CarryCalls(Written(RunOps([], ops, key)), CompletedCalls([], ops, key))
    ensures |CompletedCalls([], ops, key)| == CompletedLines([], ops, key)
  {
    if ops != [] {
      var n := |ops| - 1;
      var before := RunOps([], ops[..n], key);
      PrefixNeverTorn(ops, n, key);
      RowsCarryCalls(ops[..n], key);
      var rows, calls := StepCarriesCall(before, ops[n], key) by {
        assert !TornAt(ops, n, key);
      }
      OneMoreCarries(Written(before), CompletedCalls([], ops[..n], key), rows, calls);
    }
  }

  /** The verdict `verify` gives, as a property of the rows. */
  ghost predicate IsVerdict(verdict: Verdict, rows: seq<Row>, key: Key) {
    if verdict.valid then
      Accepted(rows, key) && verdict == Verdict(true, |rows|, None, Fine)
    else
      && verdict.badLine.Some?
      && 1 <= verdict.badLine.value <= |rows|
      && (var bad: nat := verdict.badLine.value - 1;
          && verdict.reason == Fault(rows, bad, key) != Fine
          && verdict.lineCount == (if verdict.reason == NotJson then bad else bad + 1)
          && forall i: nat | i < bad :: Fault(rows, i, key) == Fine)
  }

  lemma VerdictIsUnique(a: Verdict, b: Verdict, rows: seq<Row>, key: Key)
    requires IsVerdict(a, rows, key) && IsVerdict(b, rows, key)
    ensures a == b
  {
    if !a.valid {
      BadLineIsNotAccepted(a, b, rows, key);
    }
    if !b.valid {
      BadLineIsNotAccepted(b, a, rows, key);
    }
  }

  lemma BadLineIsNotAccepted(a: Verdict, b: Verdict, rows: seq<Row>, key: Key)
    requires IsVerdict(a, rows, key) && IsVerdict(b, rows, key) && !a.valid
    ensures !b.valid && b.badLine.value <= a.badLine.value
  {
    var bad: nat := a.badLine.value - 1;
    assert Fault(rows, bad, key) != Fine;
  }

  // ---------------------------------------------------------------- which tampering gives which reason

  /** The first line that differs from an accepted file decides the verdict, when it has a fault of its own. */
  lemma FirstDifferenceIsReported(lines: seq<Line>, other: seq<Line>, i: nat, reason: Reason, key: Key)
    requires Chained(lines, key) && i < |lines| && i < |other| && lines[..i] == other[..i]
    requires reason == FaultOf([Whole(other[i])], i == 0, if i == 0 then Genesis else lines[i - 1].hash, key)
    requires reason != Fine && reason != NotJson
    ensures IsVerdict(Verdict(false, i + 1, Some(i + 1), reason), AsRows(other), key)
  {
    ChainedIsAccepted(lines, key);
    var was, now := AsRows(lines), AsRows(other);
    assert forall k | 0 <= k < i :: lines[..i][k] == other[..i][k];
    assert forall k | 0 <= k < i :: was[k] == now[k];
    forall k: nat | k < i ensures Fault(now, k, key) == Fine {
      assert Fault(was, k, key) == Fine;
    }
  }

  /** An event changed by itself: the hash no longer matches it, unless its type is not allowed there at all. */
  lemma AlteredEventIsReported(lines: seq<Line>, i: nat, event: Event, key: Key)
    requires Chained(lines, key) && i < |lines| && event != lines[i].event
    ensures var reason := if i == 0 && event.kind != "system.ledger.bootstrapped" then WrongFirstType
                          else if event.kind !in KNOWN_EVENT_TYPES then UnknownType
                          else HashMismatch;
            IsVerdict(Verdict(false, i + 1, Some(i + 1), reason), AsRows(lines[i := lines[i].(event := event)]), key)
  {
    assert LinkedAt(lines, i, key);
    var other := lines[i := lines[i].(event := event)];
    FirstDifferenceIsReported(
      lines, other, i, FaultOf([Whole(other[i])], i == 0, if i == 0 then Genesis else lines[i - 1].hash, key), key);
  }

  /** An event changed together with its hash, which needs no key: the signature gives it away, on that line. */
  lemma RehashedEventIsReported(lines: seq<Line>, i: nat, event: Event, key: Key)
    requires Chained(lines, key) && i < |lines| && event != lines[i].event
    requires event.kind in KNOWN_EVENT_TYPES && (i == 0 ==> event.kind == BOOTSTRAPPED)
    ensures var line := lines[i].(event := event, hash := Link(lines[i].prevHash, event));
            IsVerdict(Verdict(false, i + 1, Some(i + 1), SignatureMismatch), AsRows(lines[i := line]), key)
  {
    assert LinkedAt(lines, i, key);
    var line := lines[i].(event := event, hash := Link(lines[i].prevHash, event));
    FirstDifferenceIsReported(lines, lines[i := line], i, SignatureMismatch, key);
  }

  /** A line taken out: the line that moves up no longer links to the one above it, or to the genesis anchor. */
  lemma DeletedLineIsReported(lines: seq<Line>, i: nat, key: Key)
    requires Chained(lines, key) && i + 1 < |lines|
    ensures var reason := if i > 0 then ChainBroken
                          else if lines[1].event.kind != BOOTSTRAPPED then WrongFirstType
                          else WrongAnchor;
            IsVerdict(Verdict(false, i + 1, Some(i + 1), reason), AsRows(lines[..i] + lines[i + 1..]), key)
  {
    assert LinkedAt(lines, i, key) && LinkedAt(lines, i + 1, key);
    var other := lines[..i] + lines[i + 1..];
    assert other[i] == lines[i + 1];
    if i > 0 {
      HashesAreDistinct(lines, i - 1, i, key);
    }
    FirstDifferenceIsReported(
      lines, other, i, FaultOf([Whole(other[i])], i == 0, if i == 0 then Genesis else lines[i - 1].hash, key), key);
  }

  /** The rows of a file only ever grow. */
  lemma {:induction false} RowsGrow(ops: seq<Op>, j: nat, key: Key)
    requires j <= |ops|
    ensures Written(RunOps([], ops[..j], key)) <= Written(RunOps([], ops, key))
    decreases |ops| - j
  {
    if j == |ops| {
      assert ops[..j] == ops;
    } else {
      RowsGrow(ops, j + 1, key);
      assert ops[..j + 1][..j] == ops[..j];
      OpRows(RunOps([], ops[..j], key), ops[j], key);
    }
  }

  lemma TornRowIsTheVerdict(rows: seq<Row>, good: seq<Row>, key: Key)
    requires Accepted(good, key) && good < rows && Parse(rows[|good|]) == None
    ensures IsVerdict(Verdict(false, |good|, Some(|good| + 1), NotJson), rows, key)
  {
    forall i: nat | i < |good| ensures Fault(rows, i, key) == Fine {
      assert Fault(good, i, key) == Fine;
    }
    if |good| > 0 {
      assert Fault(good, |good| - 1, key) == Fine;
      assert Parse(good[|good| - 1]).Some?;
    }
  }

  /**
    A torn line is the line `verify` reports, and no later call, crash or further tear changes that
    verdict: the file never verifies again.
   */
  lemma {:induction false} TornLineIsReportedForever(ops: seq<Op>, torn: nat, key: Key)
    requires torn < |ops| && TornAt(ops, torn, key)
    requires forall j: nat | j < torn :: !TornAt(ops, j, key)
    ensures var before := CompletedLines([], ops[..torn], key);
            IsVerdict(Verdict(false, before, Some(before + 1), NotJson), Written(RunOps([], ops, key)), key)
  {
    PrefixNeverTorn(ops, torn, key);
    ReachableFilesVerify(ops[..torn], key);
    var text := RunOps([], ops[..torn], key);
    OpRows(text, ops[torn], key);
    assert ops[..torn + 1][..torn] == ops[..torn];
    RowsGrow(ops, torn + 1, key);
    TornRowIsTheVerdict(Written(RunOps([], ops, key)), Written(text), key);
  }

  /** Exactly the runs that left no torn line verify. */
  lemma VerifiesIffNeverTorn(ops: seq<Op>, key: Key)
    ensures Accepted(Written(RunOps([], ops, key)), key) <==> NeverTorn(ops, key)
  {
    if NeverTorn(ops, key) {
      ReachableFilesVerify(ops, key);
    } else {
      var some: nat :| some < |ops| && TornAt(ops, some, key);
      var torn := FirstTear(ops, some, key);
      TornLineIsReportedForever(ops, torn, key);
      var bad := CompletedLines([], ops[..torn], key);
      assert Fault(Written(RunOps([], ops, key)), bad, key) != Fine;
    }
  }

  lemma FirstTear(ops: seq<Op>, some: nat, key: Key) returns (torn: nat)
    requires some < |ops| && TornAt(ops, some, key)
    ensures torn <= some && TornAt(ops, torn, key)
    ensures forall j: nat | j < torn :: !TornAt(ops, j, key)
  {
    if j: nat :| j < some && TornAt(ops, j, key) {
      torn := FirstTear(ops, j, key);
    } else {
      torn := some;
    }
  }

  // ---------------------------------------------------------------- the object

  datatype Outcome = Done(line: Line) | InvalidType | LockTimeout

  const LOCK_ATTEMPTS := 10

  /** Whether a call made at `now` finds the lock file free, or old enough to be removed first. */
  predicate Obtainable(lock: Option<nat>, now: nat) {
    lock.None? || now > lock.value + STALE_LOCK_MS
  }

  /** A lock file is in the way for ten minutes, the last of them included. */
  lemma LocksAgeTenMinutes(made: nat, now: nat)
    ensures Obtainable(None, now) && (Obtainable(Some(made), now) <==> now > made + 10 * 60 * 1000)
  {
  }

  class AuthoritativeLedger {
    const key: Key
    var file: Text
    /** The modification time of the lock file, when there is one. */
    var lock: Option<nat>

    constructor (key: Key)
      ensures this.key == key && file == [] && lock == None
    {
      this.key := key;
      file := [];
      lock := None;
    }

    method AcquireLock(now: nat) returns (acquired: bool)
      modifies this`lock
      ensures acquired == Obtainable(old(lock), now)
      ensures lock == if acquired then Some(now) else old(lock)
    {
      if lock.Some? && now > lock.value + STALE_LOCK_MS {
        lock := None;
      }
      acquired := false;
      var attempt := 0;
      while attempt < LOCK_ATTEMPTS && !acquired
        invariant 0 <= attempt <= LOCK_ATTEMPTS
        invariant acquired ==> Obtainable(old(lock), now) && lock == Some(now)
        invariant !acquired ==> lock == if Obtainable(old(lock), now) then None else old(lock)
        invariant attempt > 0 && !acquired ==> lock.Some?
        decreases LOCK_ATTEMPTS - attempt
      {
        if lock.None? {
          lock := Some(now);
          acquired := true;
        }
        attempt := attempt + 1;
      }
    }

    method ReadLastLine() returns (last: Option<Line>)
      ensures last == LastLine(Rows(file))
    {
      var rows := Rows(file);
      var i := |rows|;
      assert rows[..i] == rows;
      while i > 0
        invariant 0 <= i <= |rows|
        invariant LastLine(rows) == LastLine(rows[..i])
      {
        i := i - 1;
        assert rows[..i + 1][..i] == rows[..i];
        var parsed := Parse(rows[i]);
        if parsed.Some? {
          return parsed;
        }
      }
      return None;
    }

    method AppendLine(line: Line)
      modifies this`file
      ensures file == AppendText(old(file), line)
    {
      file := file + Separator(file) + [Whole(line), NewLine];
    }

    method Bootstrap(call: Call, now: nat) returns (outcome: Outcome)
      requires call.Boot?
      modifies this
      ensures !Obtainable(old(lock), now) ==> outcome == LockTimeout && file == old(file) && lock == old(lock)
      ensures Obtainable(old(lock), now) ==> lock == None && file == Apply(old(file), call, key)
      ensures Obtainable(old(lock), now) ==>
                outcome == Done(if LineWritten(old(file), call, key).Some? then LineWritten(old(file), call, key).value
                                else LastLine(Rows(old(file))).value)
      ensures Obtainable(old(lock), now) ==>
                if Writes(old(file), call) then Stored(old(file), file, outcome.line, call)
                else file == old(file) && LastLine(Rows(file)) == Some(outcome.line)
    {
      LineIsThatOfCall(file, call, key);
      if Writes(file, call) {
        WritingStores(file, call, key);
      }
      var acquired := AcquireLock(now);
      if !acquired {
        return LockTimeout;
      }
      var last := ReadLastLine();
      if last.Some? && !call.force {
        outcome := Done(last.value);
      } else {
        var line := MakeLine(EventOf(call), if last.Some? then last.value.hash else Genesis, key);
        AppendLine(line);
        outcome := Done(line);
      }
      lock := None;
    }

    /**
      The lock is not reentrant: on a file with no readable line the nested `Bootstrap`, made at time
      `nestedNow`, finds the lock its own caller holds.  It times out and the call leaves the file as it
      was, unless the caller was suspended for so long that its lock has become stale.
     */
    method Append(call: Call, nested: Call, now: nat, nestedNow: nat) returns (outcome: Outcome)
      requires call.Post? && nested.Boot? && !nested.force
      modifies this
      ensures call.kind !in KNOWN_EVENT_TYPES ==>
                outcome == InvalidType && file == old(file) && lock == old(lock)
      ensures call.kind in KNOWN_EVENT_TYPES && !Obtainable(old(lock), now) ==>
                outcome == LockTimeout && file == old(file) && lock == old(lock)
      ensures call.kind in KNOWN_EVENT_TYPES && Obtainable(old(lock), now) ==>
                && lock == None
                && (var start := if LastLine(Rows(old(file))).None? && nestedNow > now + STALE_LOCK_MS
                                 then Apply(old(file), nested, key) else old(file);
                    && file == Apply(start, call, key)
                    && outcome == (if LineWritten(start, call, key).None? then LockTimeout
                                   else Done(LineWritten(start, call, key).value))
                    && outcome.Done? == Writes(start, call)
                    && (outcome.Done? ==> Stored(start, file, outcome.line, call)))
    {
      if call.kind !in KNOWN_EVENT_TYPES {
        return InvalidType;
      }
      var acquired := AcquireLock(now);
      if !acquired {
        return LockTimeout;
      }
      var last := ReadLastLine();
      ghost var start := if last.None? && nestedNow > now + STALE_LOCK_MS then Apply(file, nested, key) else file;
      if last.None? {
        var inner := Bootstrap(nested, nestedNow);
        if inner.Done? {
          last := Some(inner.line);
          ReadsBackWhatItAppends(old(file), inner.line);
        }
      }
      if last.None? {
        outcome := LockTimeout;
      } else {
        var line := MakeLine(EventOf(call), last.value.hash, key);
        AppendLine(line);
        outcome := Done(line);
      }
      lock := None;
      LineIsThatOfCall(start, call, key);
      if outcome.Done? {
        WritingStores(start, call, key);
      }
    }

    method Verify() returns (verdict: Verdict)
      ensures IsVerdict(verdict, Written(file), key)
    {
      var rows := Written(file);
      var prevHash := Genesis;
      var i := 0;
      while i < |rows|
        invariant 0 <= i <= |rows|
        invariant i > 0 ==> Parse(rows[i - 1]).Some? && prevHash == Parse(rows[i - 1]).value.hash
        invariant forall j: nat | j < i :: Fault(rows, j, key) == Fine
      {
        var fault := FaultOf(rows[i], i == 0, prevHash, key);
        assert fault == Fault(rows, i, key);
        if fault != Fine {
          return Verdict(false, if fault == NotJson then i else i + 1, Some(i + 1), fault);
        }
        prevHash := Parse(rows[i]).value.hash;
        i := i + 1;
      }
      return Verdict(true, |rows|, None, Fine);
    }
  }
}
