/**
  The buffered parser of a server-sent event stream.  JSON decoding is a parameter that answers `None`
  for text it cannot decode and for `null`, which the caller drops alike.
 */
module Sse {
  import opened Options

  type Decoder<J> = string -> Option<J>

  // ---------------------------------------------------------------- strings

  predicate IsSpace(c: char) {
    || '\t' <= c <= '\r' || '\U{001C}' <= c <= ' ' || '\U{2000}' <= c <= '\U{200A}'
    || c in "\U{0085}\U{00A0}\U{1680}\U{2028}\U{2029}\U{202F}\U{205F}\U{3000}"
  }

  /** The spaces one by one. */
  lemma SpacesAre(c: char)
    ensures IsSpace(c)
       <==> || c in "\t\n\U{000B}\U{000C}\r\U{001C}\U{001D}\U{001E}\U{001F} \U{0085}\U{00A0}\U{1680}"
            || c in "\U{2000}\U{2001}\U{2002}\U{2003}\U{2004}\U{2005}\U{2006}"
            || c in "\U{2007}\U{2008}\U{2009}\U{200A}\U{2028}\U{2029}\U{202F}\U{205F}\U{3000}"
  {
  }

  function Strip(s: string): string {
    StripRight(StripLeft(s))
  }

  function StripLeft(s: string): string {
    if s != [] && IsSpace(s[0]) then StripLeft(s[1..]) else s
  }

  function StripRight(s: string): string {
    if s != [] && IsSpace(s[|s| - 1]) then StripRight(s[..|s| - 1]) else s
  }

  /** `s.split("\n")` */
  function Lines(s: string): (lines: seq<string>)
    ensures |lines| > 0
  {
    if s == [] then [[]]
    else
      var rest := Lines(s[1..]);
      if s[0] == '\n' then [[]] + rest else [[s[0]] + rest[0]] + rest[1..]
  }

  function JoinLines(lines: seq<string>): string {
    if lines == [] then []
    else if |lines| == 1 then lines[0]
    else lines[0] + "\n" + JoinLines(lines[1..])
  }

  function Concat(parts: seq<string>): string {
    if parts == [] then [] else Concat(parts[..|parts| - 1]) + parts[|parts| - 1]
  }

  /** Where the first blank line starts: the position of the first two newlines in a row. */
  function FirstBlank(s: string): (at: Option<nat>)
    ensures at.Some? ==> at.value + 2 <= |s| && s[at.value] == s[at.value + 1] == '\n'
  {
    if |s| < 2 then None
    else if s[0] == '\n' && s[1] == '\n' then Some(0)
    else match FirstBlank(s[1..])
      case None => None
      case Some(i) => Some(i + 1)
  }

  /** The pieces of the text that a blank line has finished, cutting each time at the first one. */
  function Complete(s: string): seq<string>
    decreases |s|
  {
    if FirstBlank(s).None? then []
    else
      var i := FirstBlank(s).value;
      [s[..i]] + Complete(s[i + 2..])
  }

  /** The text after the last of them. */
  function Rest(s: string): string
    decreases |s|
  {
    if FirstBlank(s).None? then s else Rest(s[FirstBlank(s).value + 2..])
  }

  function Pieces(s: string): seq<string> {
    Complete(s) + [Rest(s)]
  }

  // ---------------------------------------------------------------- one event

  function DataLines(lines: seq<string>): seq<string> {
    if lines == [] then []
    else
      var last := lines[|lines| - 1];
      DataLines(lines[..|lines| - 1]) + if "data:" <= last then [Strip(last[5..])] else []
  }

  function ParseEvent<J>(piece: string, decode: Decoder<J>): Option<J> {
    var data := Strip(JoinLines(DataLines(Lines(piece))));
    if DataLines(Lines(piece)) == [] || data == "" || data == "[DONE]" then None else decode(data)
  }

  // ---------------------------------------------------------------- what the data lines say

  predicate Tight(s: string) {
    s != "" && !IsSpace(s[0]) && !IsSpace(s[|s| - 1])
  }

  ghost predicate Spaces(s: string) {
    forall c <- s :: IsSpace(c)
  }

  lemma {:induction false} StripOf(pad: string, core: string, tail: string)
    requires Spaces(pad) && Spaces(tail) && Tight(core)
    ensures Strip(pad + core + tail) == core
    decreases |pad| + |tail|
  {
    if pad != [] {
      StripOf(pad[1..], core, tail);
      assert (pad + core + tail)[1..] == pad[1..] + core + tail;
    } else if tail != [] {
      var n := |tail| - 1;
      StripOf(pad, core, tail[..n]);
      assert (core + tail)[..|core + tail| - 1] == core + tail[..n];
      assert pad + core + tail == core + tail && pad + core + tail[..n] == core + tail[..n];
      assert StripLeft(core + tail) == core + tail && StripLeft(core + tail[..n]) == core + tail[..n];
    } else {
      assert pad + core + tail == core;
    }
  }

  lemma {:induction false} StripOfSpaces(s: string)
    requires Spaces(s)
    ensures Strip(s) == "" && StripLeft(s) == ""
  {
    if s != [] {
      StripOfSpaces(s[1..]);
    }
  }

  /** Joining lines and splitting them again gives the lines back. */
  lemma {:induction false} LinesOfJoined(lines: seq<string>)
    requires lines != [] && forall line <- lines :: '\n' !in line
    ensures Lines(JoinLines(lines)) == lines
  {
    LinesOfFirst(lines[0]);
    if |lines| > 1 {
      LinesOfJoined(lines[1..]);
      LinesOfMore(lines[0], JoinLines(lines[1..]));
      assert lines == [lines[0]] + lines[1..];
    }
  }

  lemma {:induction false} LinesOfFirst(line: string)
    requires '\n' !in line
    ensures Lines(line) == [line]
  {
    if line != [] {
      LinesOfFirst(line[1..]);
      assert line[0] in line && line == [line[0]] + line[1..];
      assert [line[1..]][1..] == [];
    }
  }

  lemma {:induction false} LinesOfMore(line: string, rest: string)
    requires '\n' !in line
    ensures Lines(line + "\n" + rest) == [line] + Lines(rest)
  {
    if line == [] {
      assert (line + "\n" + rest)[1..] == rest;
    } else {
      LinesOfMore(line[1..], rest);
      assert line[0] in line && line == [line[0]] + line[1..];
      assert (line + "\n" + rest)[1..] == line[1..] + "\n" + rest;
      assert ([line[1..]] + Lines(rest))[1..] == Lines(rest);
    }
  }

  /** Line by line: `data:`, spaces and a value, which may be empty, or a line of another kind. */
  ghost predicate Carries(line: string, value: Option<string>) {
    if value.None? then !("data:" <= line)
    else
      && (value.value == "" || Tight(value.value))
      && exists pad, tail :: Spaces(pad) && Spaces(tail) && line == "data:" + (pad + value.value + tail)
  }

  function Present(values: seq<Option<string>>): seq<string> {
    if values == [] then []
    else Present(values[..|values| - 1]) + match values[|values| - 1] case None => [] case Some(v) => [v]
  }

  lemma {:induction false} DataLinesAreValues(lines: seq<string>, values: seq<Option<string>>)
    requires |lines| == |values| && forall i | 0 <= i < |lines| :: Carries(lines[i], values[i])
    ensures DataLines(lines) == Present(values)
  {
    if lines != [] {
      var n := |lines| - 1;
      DataLinesAreValues(lines[..n], values[..n]);
      if values[n].Some? {
        var pad, tail :| Spaces(pad) && Spaces(tail) && lines[n] == "data:" + (pad + values[n].value + tail);
        assert lines[n][5..] == pad + values[n].value + tail;
        if values[n].value == "" {
          StripOfSpaces(pad + tail);
          assert pad + "" + tail == pad + tail;
        } else {
          StripOf(pad, values[n].value, tail);
        }
      }
    }
  }

  lemma {:induction false} JoinedIsTight(values: seq<string>)
    requires values != [] && forall v <- values :: Tight(v)
    ensures Tight(JoinLines(values)) && JoinLines(values)[0] == values[0][0]
  {
    assert values[0] in values;
    if |values| > 1 {
      forall v <- values[1..] ensures Tight(v) {
        assert v in values;
      }
      JoinedIsTight(values[1..]);
    }
  }

  /**
    The values of the data lines are decoded together, in their order, with a newline between any two; only
    spaces at the ends of the whole are taken off, and of values that are not empty there are none.
   */
  lemma EventDecodesValues<J>(lines: seq<string>, values: seq<Option<string>>, decode: Decoder<J>)
    requires lines != [] && (forall line <- lines :: '\n' !in line) && |lines| == |values|
    requires forall i | 0 <= i < |lines| :: Carries(lines[i], values[i])
    ensures var joined := JoinLines(Present(values));
            var data := Strip(joined);
            && ((forall v <- Present(values) :: Tight(v)) ==> data == joined)
            && ParseEvent(JoinLines(lines), decode)
               == (if Present(values) == [] || data == "" || data == "[DONE]" then None else decode(data))
  {
    LinesOfJoined(lines);
    DataLinesAreValues(lines, values);
    if Present(values) != [] && forall v <- Present(values) :: Tight(v) {
      JoinedIsTight(Present(values));
      var data := JoinLines(Present(values));
      StripOf("", data, "");
      assert "" + data + "" == data;
    }
  }

  method ParseSseChunk<J>(piece: string, decode: Decoder<J>) returns (event: Option<J>)
    ensures event == ParseEvent(piece, decode)
  {
    var lines := Lines(piece);
    var dataLines: seq<string> := [];
    var i := 0;
    while i < |lines|
      invariant 0 <= i <= |lines|
      invariant dataLines == DataLines(lines[..i])
    {
      assert lines[..i + 1][..i] == lines[..i];
      if "data:" <= lines[i] {
        dataLines := dataLines + [Strip(lines[i][5..])];
      }
      i := i + 1;
    }
    assert lines[..i] == lines;
    if |dataLines| == 0 {
      return None;
    }
    var data := Strip(JoinLines(dataLines));
    if |data| == 0 || data == "[DONE]" {
      return None;
    }
    return decode(data);
  }

  function Events<J>(pieces: seq<string>, decode: Decoder<J>): seq<J> {
    if pieces == [] then []
    else
      var event := ParseEvent(pieces[|pieces| - 1], decode);
      Events(pieces[..|pieces| - 1], decode) + if event.Some? then [event.value] else []
  }

  // ---------------------------------------------------------------- how the text is cut

  /** An independent reading of the cut: joined again it is the text, and every break is the first possible. */
  ghost predicate IsCut(pieces: seq<string>, s: string) {
    && |pieces| > 0
    && JoinPieces(pieces) == s
    && (forall k | 0 <= k < |pieces| :: FirstBlank(pieces[k]) == None)
    && (forall k | 0 <= k < |pieces| - 1 :: pieces[k] == "" || pieces[k][|pieces[k]| - 1] != '\n')
  }

  ghost function JoinPieces(pieces: seq<string>): string {
    if pieces == [] then []
    else if |pieces| == 1 then pieces[0]
    else pieces[0] + "\n\n" + JoinPieces(pieces[1..])
  }

  lemma {:induction false} FirstBlankIsFirst(s: string, i: nat)
    requires FirstBlank(s) == Some(i)
    ensures FirstBlank(s[..i]) == None && (i > 0 ==> s[i - 1] != '\n')
  {
    if i > 0 {
      FirstBlankIsFirst(s[1..], i - 1);
      assert s[..i][1..] == s[1..][..i - 1];
    }
  }

  lemma {:induction false} FirstBlankAfter(p: string, rest: string)
    requires FirstBlank(p) == None && (p == "" || p[|p| - 1] != '\n')
    ensures FirstBlank(p + "\n\n" + rest) == Some(|p|)
  {
    var s := p + "\n\n" + rest;
    if p != "" {
      FirstBlankAfter(p[1..], rest);
      assert s[1..] == p[1..] + "\n\n" + rest;
    }
  }

  /** The pieces are the one and only such reading. */
  lemma {:induction false} PiecesAreTheCut(pieces: seq<string>, s: string)
    ensures IsCut(pieces, s) <==> pieces == Pieces(s)
    decreases |s|
  {
    PiecesAreACut(s);
    if IsCut(pieces, s) {
      CutIsUnique(pieces, s);
    }
  }

  lemma {:induction false} PiecesAreACut(s: string)
    ensures IsCut(Pieces(s), s)
    decreases |s|
  {
    if FirstBlank(s).Some? {
      var i := FirstBlank(s).value;
      FirstBlankIsFirst(s, i);
      PiecesAreACut(s[i + 2..]);
      var rest := Pieces(s[i + 2..]);
      assert Pieces(s) == [s[..i]] + rest;
      assert Pieces(s)[1..] == rest;
      assert s == s[..i] + "\n\n" + s[i + 2..];
    }
  }

  lemma {:induction false} CutIsUnique(pieces: seq<string>, s: string)
    requires IsCut(pieces, s)
    ensures pieces == Pieces(s)
    decreases |pieces|
  {
    if |pieces| > 1 {
      var rest := pieces[1..];
      forall k | 0 <= k < |rest| - 1 ensures rest[k] == "" || rest[k][|rest[k]| - 1] != '\n' {
        assert rest[k] == pieces[k + 1];
      }
      CutIsUnique(rest, JoinPieces(rest));
      FirstBlankAfter(pieces[0], JoinPieces(rest));
      assert s == pieces[0] + "\n\n" + JoinPieces(rest);
      assert s[..|pieces[0]|] == pieces[0] && s[|pieces[0]| + 2..] == JoinPieces(rest);
      assert pieces == [pieces[0]] + rest;
      assert Pieces(s) == [pieces[0]] + Pieces(JoinPieces(rest));
    } else {
      assert pieces == [s];
    }
  }

  lemma {:induction false} FirstBlankStays(a: string, b: string)
    requires FirstBlank(a).Some?
    ensures FirstBlank(a + b) == FirstBlank(a)
  {
    if !(a[0] == '\n' && a[1] == '\n') {
      FirstBlankStays(a[1..], b);
      assert (a + b)[1..] == a[1..] + b;
    }
  }

  /** Text that arrives later changes only what follows the last blank line. */
  lemma {:induction false} LaterTextExtendsRest(a: string, b: string)
    ensures Complete(a + b) == Complete(a) + Complete(Rest(a) + b) && Rest(a + b) == Rest(Rest(a) + b)
    decreases |a|
  {
    if FirstBlank(a).Some? {
      var i := FirstBlank(a).value;
      var head, tail := a[..i], a[i + 2..];
      LaterTextKeepsFirst(a, b);
      LaterTextExtendsRest(tail, b);
      Associate([head], Complete(tail), Complete(Rest(tail) + b));
    }
  }

  /** The first finished piece is the same when more text arrives. */
  lemma LaterTextKeepsFirst(a: string, b: string)
    requires FirstBlank(a).Some?
    ensures var i := FirstBlank(a).value;
            Complete(a + b) == [a[..i]] + Complete(a[i + 2..] + b) && Rest(a + b) == Rest(a[i + 2..] + b)
  {
    var i := FirstBlank(a).value;
    FirstBlankStays(a, b);
    assert (a + b)[..i] == a[..i] && (a + b)[i + 2..] == a[i + 2..] + b;
  }

  lemma Associate<T>(x: seq<T>, y: seq<T>, z: seq<T>)
    ensures (x + y) + z == x + (y + z)
  {
  }

  lemma {:induction false} LinesKeepSpace(s: string)
    requires forall c <- s :: IsSpace(c)
    ensures forall line <- Lines(s) :: forall c <- line :: IsSpace(c)
  {
    if s != [] {
      LinesKeepSpace(s[1..]);
      var rest := Lines(s[1..]);
      assert rest[0] in rest;
      forall line <- Lines(s), c <- line ensures IsSpace(c) {
        assert line == [] || line == [s[0]] + rest[0] || line in rest;
      }
    }
  }

  lemma {:induction false} NoDataLines(lines: seq<string>)
    requires forall line <- lines :: forall c <- line :: IsSpace(c)
    ensures DataLines(lines) == []
  {
    if lines != [] {
      var last := lines[|lines| - 1];
      assert last in lines;
      assert "data:"[0] == 'd' && !IsSpace('d');
      assert last != [] ==> last[0] in last;
      forall line <- lines[..|lines| - 1], c <- line ensures IsSpace(c) {
        assert line in lines;
      }
      NoDataLines(lines[..|lines| - 1]);
    }
  }

  lemma {:induction false} StrippedToNothing(s: string)
    requires Strip(s) == ""
    ensures forall c <- s :: IsSpace(c)
  {
    LeftRest(s);
    RightRest(StripLeft(s));
  }

  lemma {:induction false} LeftRest(s: string)
    ensures forall c <- s :: IsSpace(c) || c in StripLeft(s)
  {
    if s != [] && IsSpace(s[0]) {
      LeftRest(s[1..]);
      assert s == [s[0]] + s[1..];
    }
  }

  lemma {:induction false} RightRest(s: string)
    ensures forall c <- s :: IsSpace(c) || c in StripRight(s)
  {
    if s != [] && IsSpace(s[|s| - 1]) {
      RightRest(s[..|s| - 1]);
      assert s == s[..|s| - 1] + [s[|s| - 1]];
    }
  }

  /** A piece of white space holds no event, so skipping it at the end loses nothing. */
  lemma BlankPieceHasNoEvent<J>(s: string, decode: Decoder<J>)
    requires Strip(s) == ""
    ensures ParseEvent(s, decode) == None
  {
    StrippedToNothing(s);
    LinesKeepSpace(s);
    NoDataLines(Lines(s));
  }

  // ---------------------------------------------------------------- the stream

  lemma EventsSnoc<J>(pieces: seq<string>, piece: string, decode: Decoder<J>)
    ensures Events(pieces + [piece], decode)
         == Events(pieces, decode) + if ParseEvent(piece, decode).Some? then [ParseEvent(piece, decode).value] else []
  {
    assert (pieces + [piece])[..|pieces|] == pieces;
  }

  /** Parses one finished piece and keeps its event, if it has one. */
  method TakePiece<J>(piece: string, decode: Decoder<J>, events: seq<J>, ghost done: seq<string>) returns (more: seq<J>)
    requires events == Events(done, decode)
    ensures more == Events(done + [piece], decode)
  {
    var event := ParseSseChunk(piece, decode);
    EventsSnoc(done, piece, decode);
    more := if event.Some? then events + [event.value] else events;
  }

  /** `buffer.split("\n\n", 1)` */
  method SplitOnce(buffer: string) returns (piece: string, rest: string)
    requires FirstBlank(buffer).Some?
    ensures Complete(buffer) == [piece] + Complete(rest) && Rest(buffer) == Rest(rest) && |rest| < |buffer|
  {
    var at := FirstBlank(buffer).value;
    piece, rest := buffer[..at], buffer[at + 2..];
  }

  lemma MoveOnePiece(taken: seq<string>, piece: string, left: seq<string>)
    ensures taken + ([piece] + left) == taken + [piece] + left
  {
  }

  /** Takes the finished events off the front of the buffer. */
  method DrainBuffer<J>(text: string, decode: Decoder<J>, events: seq<J>, ghost done: seq<string>)
    returns (buffer: string, more: seq<J>)
    requires events == Events(done, decode)
    ensures more == Events(done + Complete(text), decode) && buffer == Rest(text)
  {
    buffer, more := text, events;
    ghost var taken, left := done, Complete(text);
    ghost var all := taken + left;
    while FirstBlank(buffer).Some?
      invariant all == taken + left
      invariant left == Complete(buffer) && Rest(text) == Rest(buffer)
      invariant more == Events(taken, decode)
      decreases |buffer|
    {
      var piece, rest := SplitOnce(buffer);
      more := TakePiece(piece, decode, more, taken);
      MoveOnePiece(taken, piece, Complete(rest));
      taken, left := taken + [piece], Complete(rest);
      buffer := rest;
    }
    assert taken + left == taken;
  }

  lemma BlankPieceAddsNothing<J>(done: seq<string>, piece: string, decode: Decoder<J>)
    requires Strip(piece) == ""
    ensures Events(done + [piece], decode) == Events(done, decode)
  {
    EventsSnoc(done, piece, decode);
    BlankPieceHasNoEvent(piece, decode);
  }

  /** However the text is cut into chunks, the events are those of the pieces of the whole text. */
  method ParseChunks<J>(chunks: seq<string>, decode: Decoder<J>) returns (events: seq<J>)
    ensures events == Events(Pieces(Concat(chunks)), decode)
  {
    events := [];
    var buffer := "";
    ghost var seen := "";
    var k := 0;
    while k < |chunks|
      invariant 0 <= k <= |chunks|
      invariant seen == Concat(chunks[..k])
      invariant buffer == Rest(seen) && events == Events(Complete(seen), decode)
    {
      assert chunks[..k + 1][..k] == chunks[..k];
      LaterTextExtendsRest(seen, chunks[k]);
      buffer, events := DrainBuffer(buffer + chunks[k], decode, events, Complete(seen));
      seen := seen + chunks[k];
      k := k + 1;
    }
    assert chunks[..k] == chunks;
    if |Strip(buffer)| > 0 {
      events := TakePiece(buffer, decode, events, Complete(seen));
    } else {
      BlankPieceAddsNothing(Complete(seen), buffer, decode);
    }
  }

  predicate EndsLine(c: char) {
    c in "\n\r\U{000B}\U{000C}\U{001C}\U{001D}\U{001E}\U{0085}\U{2028}\U{2029}"
  }

  /** The length of the first line with its line end; `\r\n` counts as one line end. */
  function FirstLineLength(s: string): (n: nat)
    requires s != []
    ensures 0 < n <= |s|
  {
    if EndsLine(s[0]) then
      if s[0] == '\r' && |s| > 1 && s[1] == '\n' then 2 else 1
    else if |s| == 1 then 1
    else 1 + FirstLineLength(s[1..])
  }

  /** The first line holds one line end at most, as its last characters, and leaves none of it behind. */
  lemma {:induction false} FirstLineEndsOnce(s: string)
    requires s != []
    ensures var n := FirstLineLength(s);
            && (forall i | 0 <= i < n - 1 :: EndsLine(s[i]) ==> i == n - 2 && s[i] == '\r' && s[n - 1] == '\n')
            && (n < |s| ==> EndsLine(s[n - 1]) && !(s[n - 1] == '\r' && s[n] == '\n'))
  {
    if !EndsLine(s[0]) && |s| > 1 {
      FirstLineEndsOnce(s[1..]);
    }
  }

  /** `raw.splitlines(keepends=True)` */
  function LinesWithEnds(s: string): seq<string> {
    if s == [] then [] else [s[..FirstLineLength(s)]] + LinesWithEnds(s[FirstLineLength(s)..])
  }

  lemma {:induction false} ConcatCons(part: string, parts: seq<string>)
    ensures Concat([part] + parts) == part + Concat(parts)
    decreases |parts|
  {
    if parts == [] {
      assert ([part] + parts)[..0] == [];
    } else {
      ConcatCons(part, parts[..|parts| - 1]);
      assert ([part] + parts)[..|parts|] == [part] + parts[..|parts| - 1];
    }
  }

  /** Splitting into lines loses no character. */
  lemma {:induction false} LinesRebuildText(s: string)
    ensures Concat(LinesWithEnds(s)) == s
    decreases |s|
  {
    if s != [] {
      var n := FirstLineLength(s);
      LinesRebuildText(s[n..]);
      ConcatCons(s[..n], LinesWithEnds(s[n..]));
    }
  }

  method ParseSseStreamRaw<J>(raw: string, decode: Decoder<J>) returns (events: seq<J>)
    ensures events == Events(Pieces(raw), decode)
  {
    LinesRebuildText(raw);
    events := ParseChunks(LinesWithEnds(raw), decode);
  }
}
