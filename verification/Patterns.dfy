/**
  The patterns the workflow sanitizer matches lines against, and what they read: a group's value, with or
  without quotes, on a line of its own or in braces, and the name of a job.
 */
module Patterns {
  import opened Options

  predicate IsSpace(c: char) {
    || '\t' <= c <= '\r' || '\U{2000}' <= c <= '\U{200A}'
    || c in " \U{00A0}\U{1680}\U{2028}\U{2029}\U{202F}\U{205F}\U{3000}\U{FEFF}"
  }

  /** The spaces one by one. */
  lemma SpacesAre(c: char)
    ensures IsSpace(c)
       <==> || c in "\t\n\U{000B}\U{000C}\r \U{00A0}\U{1680}\U{2000}\U{2001}\U{2002}\U{2003}\U{2004}\U{2005}\U{2006}"
            || c in "\U{2007}\U{2008}\U{2009}\U{200A}\U{2028}\U{2029}\U{202F}\U{205F}\U{3000}\U{FEFF}"
  {
  }

  function TrimLeft(s: string): string {
    if s != [] && IsSpace(s[0]) then TrimLeft(s[1..]) else s
  }

  function TrimRight(s: string): string {
    if s != [] && IsSpace(s[|s| - 1]) then TrimRight(s[..|s| - 1]) else s
  }

  function Trim(s: string): string {
    TrimRight(TrimLeft(s))
  }

  predicate IsQuote(c: char) {
    c == '"' || c == '\''
  }

  /** `group: value`, with one pair of equal quotes around the value taken off. */
  function GroupValue(text: string): Option<string> {
    if !("group:" <= text) then None
    else
      var v := Trim(text[6..]);
      if v == "" then None
      else if IsQuote(v[0]) && v[|v| - 1] == v[0] then
        Some(if |v| == 1 then "" else v[1..|v| - 1])
      else Some(v)
  }

  function UpToDelimiter(s: string): string {
    if s == [] || s[0] == ',' || s[0] == '}' then [] else [s[0]] + UpToDelimiter(s[1..])
  }

  function StripQuotes(s: string): string {
    var t := if s != [] && IsQuote(s[0]) then s[1..] else s;
    if t != [] && IsQuote(t[|t| - 1]) then t[..|t| - 1] else t
  }

  /** The group inside a one-line `{ group: value }`. */
  function FlowGroup(text: string): Option<string> {
    if text == [] then None
    else if "group:" <= text && UpToDelimiter(text[6..]) != [] then
      Some(StripQuotes(Trim(UpToDelimiter(text[6..]))))
    else FlowGroup(text[1..])
  }

  predicate IsNameChar(c: char) {
    'a' <= c <= 'z' || 'A' <= c <= 'Z' || '0' <= c <= '9' || c == '_'
  }

  lemma NameCharsAre(c: char)
    ensures IsNameChar(c)
       <==> || c in "abcdefghijklmnopqrstuvwxyz"
            || c in "ABCDEFGHIJKLMNOPQRSTUVWXYZ"
            || c in "0123456789_"
  {
  }

  function JobName(text: string): Option<string> {
    var t := TrimRight(text);
    if |t| >= 2 && t[|t| - 1] == ':' && IsNameChar(t[0])
       && forall i | 0 <= i < |t| - 1 :: IsNameChar(t[i]) || t[i] == '-'
    then Some(t[..|t| - 1])
    else None
  }

  // ---------------------------------------------------------------- what the patterns read

  ghost predicate Spaces(s: string) {
    forall c <- s :: IsSpace(c)
  }

  /** Not empty, and no space at either end. */
  predicate Tight(s: string) {
    s != "" && !IsSpace(s[0]) && !IsSpace(s[|s| - 1])
  }

  predicate InQuotes(s: string)
    requires s != ""
  {
    IsQuote(s[0]) && s[|s| - 1] == s[0]
  }

  lemma {:induction false} TrimLeftSplits(s: string) returns (pad: string)
    ensures s == pad + TrimLeft(s) && Spaces(pad) && (TrimLeft(s) != "" ==> !IsSpace(TrimLeft(s)[0]))
  {
    if s != [] && IsSpace(s[0]) {
      var rest := TrimLeftSplits(s[1..]);
      pad := [s[0]] + rest;
    } else {
      pad := [];
    }
  }

  lemma {:induction false} TrimRightSplits(s: string) returns (tail: string)
    ensures s == TrimRight(s) + tail && Spaces(tail)
    ensures TrimRight(s) != "" ==> !IsSpace(TrimRight(s)[|TrimRight(s)| - 1])
  {
    if s != [] && IsSpace(s[|s| - 1]) {
      var rest := TrimRightSplits(s[..|s| - 1]);
      tail := rest + [s[|s| - 1]];
    } else {
      tail := [];
    }
  }

  /** Trimming takes spaces off both ends, and only those. */
  lemma TrimSplits(s: string) returns (pad: string, tail: string)
    ensures s == pad + Trim(s) + tail && Spaces(pad) && Spaces(tail) && (Trim(s) == "" || Tight(Trim(s)))
  {
    pad := TrimLeftSplits(s);
    tail := TrimRightSplits(TrimLeft(s));
  }

  lemma {:induction false} TrimLeftOf(pad: string, rest: string)
    requires Spaces(pad) && (rest == "" || !IsSpace(rest[0]))
    ensures TrimLeft(pad + rest) == rest
  {
    if pad == [] {
      assert pad + rest == rest;
    } else {
      TrimLeftOf(pad[1..], rest);
      assert (pad + rest)[1..] == pad[1..] + rest;
    }
  }

  lemma {:induction false} TrimRightOf(rest: string, tail: string)
    requires Spaces(tail) && (rest == "" || !IsSpace(rest[|rest| - 1]))
    ensures TrimRight(rest + tail) == rest
  {
    if tail == [] {
      assert rest + tail == rest;
    } else {
      var n := |tail| - 1;
      TrimRightOf(rest, tail[..n]);
      assert (rest + tail)[..|rest + tail| - 1] == rest + tail[..n];
    }
  }

  lemma TrimOf(pad: string, core: string, tail: string)
    requires Spaces(pad) && Spaces(tail) && Tight(core)
    ensures Trim(pad + core + tail) == core
  {
    assert pad + core + tail == pad + (core + tail);
    TrimLeftOf(pad, core + tail);
    TrimRightOf(core, tail);
  }

  /** What a written value stands for: itself, or what one pair of equal quotes around it encloses. */
  predicate StandsFor(core: string, v: string) {
    || core == "\"" + v + "\""
    || core == "'" + v + "'"
    || (v == "" && core in {"\"", "'"})
    || (core == v != "" && !InQuotes(core))
  }

  /** The text is a group line whose written value is `core`. */
  ghost predicate WritesGroup(text: string, pad: string, core: string, tail: string) {
    text == "group:" + pad + core + tail && Spaces(pad) && Spaces(tail) && Tight(core)
  }

  lemma UnquoteStandsFor(core: string, v: string)
    requires core != ""
    ensures StandsFor(core, v)
       <==> v == if !InQuotes(core) then core else if |core| == 1 then "" else core[1..|core| - 1]
  {
    if |core| == 1 {
      assert core == [core[0]];
    } else if InQuotes(core) {
      var inner := core[1..|core| - 1];
      assert core == [core[0]] + inner + [core[0]];
      assert core == (if core[0] == '"' then "\"" + inner + "\"" else "'" + inner + "'");
    }
    assert ("\"" + v + "\"")[1..|v| + 1] == v && ("'" + v + "'")[1..|v| + 1] == v;
  }

  /** A text names a value exactly when it is a group line whose written value stands for it. */
  lemma GroupValueIff(text: string, v: string)
    ensures GroupValue(text) == Some(v)
       <==> exists pad, core, tail :: WritesGroup(text, pad, core, tail) && StandsFor(core, v)
  {
    if GroupValue(text) == Some(v) {
      var pad, tail := TrimSplits(text[6..]);
      var core := Trim(text[6..]);
      UnquoteStandsFor(core, v);
      assert text == "group:" + text[6..];
      assert WritesGroup(text, pad, core, tail);
    }
    if pad, core, tail :| WritesGroup(text, pad, core, tail) && StandsFor(core, v) {
      assert text[6..] == pad + core + tail;
      TrimOf(pad, core, tail);
      UnquoteStandsFor(core, v);
    }
  }

  /** A value with or without quotes around it. */
  predicate Spelled(core: string, v: string) {
    core == v || core == "\"" + v + "\"" || core == "'" + v + "'"
  }

  /** Whatever the padding, a value can be written as it is, unless quotes enclose it, or in either quotes. */
  lemma SpelledGroupNames(pad: string, core: string, v: string)
    requires Spaces(pad) && Spelled(core, v) && (core == v ==> Tight(v) && !InQuotes(v))
    ensures GroupValue("group:" + pad + core) == Some(v)
  {
    assert Tight(core);
    assert WritesGroup("group:" + pad + core, pad, core, "");
    assert StandsFor(core, v);
    GroupValueIff("group:" + pad + core, v);
  }

  // ---------------------------------------------------------------- groups in braces

  /** At `i` the text says `group:`, and something other than a delimiter follows. */
  predicate GroupAt(text: string, i: nat) {
    i + 6 < |text| && text[i..i + 6] == "group:" && text[i + 6] != ',' && text[i + 6] != '}'
  }

  lemma {:induction false} UpToDelimiterOf(body: string, rest: string)
    requires ',' !in body && '}' !in body && (rest == "" || rest[0] == ',' || rest[0] == '}')
    ensures UpToDelimiter(body + rest) == body
  {
    if body == [] {
      assert body + rest == rest;
    } else {
      UpToDelimiterOf(body[1..], rest);
      assert (body + rest)[1..] == body[1..] + rest;
    }
  }

  /** The first place that says `group:` decides, by what stands there up to the next delimiter. */
  lemma {:induction false} FlowGroupReadsFirst(text: string, i: nat)
    requires GroupAt(text, i) && forall j: nat | j < i :: !GroupAt(text, j)
    ensures FlowGroup(text) == Some(StripQuotes(Trim(UpToDelimiter(text[i + 6..]))))
  {
    if i == 0 {
      assert "group:" <= text;
    } else {
      assert !GroupAt(text, 0);
      assert "group:" <= text ==> text[0..6] == "group:";
      forall j: nat | j < i - 1 ensures !GroupAt(text[1..], j) {
        assert !GroupAt(text, j + 1);
        assert text[1..][j..j + 6] == text[j + 1..j + 7] || j + 7 > |text|;
      }
      assert text[1..][i - 1..i + 5] == text[i..i + 6];
      FlowGroupReadsFirst(text[1..], i - 1);
      assert text[1..][i + 5..] == text[i + 6..];
    }
  }

  /** Without such a place there is no group. */
  lemma {:induction false} FlowGroupNeedsPlace(text: string)
    ensures FlowGroup(text) == None <==> forall i: nat :: !GroupAt(text, i)
  {
    if text != [] {
      FlowGroupNeedsPlace(text[1..]);
      assert GroupAt(text, 0) <==> "group:" <= text && UpToDelimiter(text[6..]) != [];
      if i: nat :| GroupAt(text[1..], i) {
        assert text[i + 1..i + 7] == text[1..][i..i + 6];
        assert GroupAt(text, i + 1);
      }
      if i: nat :| GroupAt(text, i) {
        if i > 0 {
          assert text[1..][i - 1..i + 5] == text[i..i + 6];
          assert GroupAt(text[1..], i - 1);
        }
      }
    }
  }

  /** The first `group:` followed by something before the next delimiter is read up to there and trimmed. */
  lemma FlowGroupReadsBody(text: string, i: nat, body: string, after: string)
    requires GroupAt(text, i) && forall j: nat | j < i :: !GroupAt(text, j)
    requires text[i + 6..] == body + after && (after == "" || after[0] == ',' || after[0] == '}')
    requires ',' !in body && '}' !in body
    ensures FlowGroup(text) == Some(StripQuotes(Trim(body)))
  {
    FlowGroupReadsFirst(text, i);
    UpToDelimiterOf(body, after);
  }

  lemma StripSpelled(core: string, v: string)
    requires Spelled(core, v) && v != "" && !IsQuote(v[0]) && !IsQuote(v[|v| - 1])
    ensures StripQuotes(core) == v
  {
    assert core != v ==> core[1..] == v + [core[0]] && (v + [core[0]])[..|v|] == v;
  }

  /** A value without quotes at its ends and without delimiters can be written as it is or in either quotes. */
  lemma SpelledFlowNames(
    text: string, i: nat, pad: string, core: string, tail: string, after: string, v: string)
    requires GroupAt(text, i) && forall j: nat | j < i :: !GroupAt(text, j)
    requires text[i + 6..] == (pad + core + tail) + after && (after == "" || after[0] == ',' || after[0] == '}')
    requires Spaces(pad) && Spaces(tail) && Spelled(core, v)
    requires Tight(v) && !IsQuote(v[0]) && !IsQuote(v[|v| - 1]) && ',' !in v && '}' !in v
    ensures FlowGroup(text) == Some(v)
  {
    NoDelimiters(pad, core, tail, v);
    FlowGroupReadsBody(text, i, pad + core + tail, after);
    TrimOf(pad, core, tail);
    StripSpelled(core, v);
  }

  lemma NoDelimiters(pad: string, core: string, tail: string, v: string)
    requires Spaces(pad) && Spaces(tail) && Spelled(core, v) && Tight(v) && ',' !in v && '}' !in v
    ensures ',' !in pad + core + tail && '}' !in pad + core + tail && Tight(core)
  {
    assert !IsSpace(',') && !IsSpace('}') && !IsSpace('"') && !IsSpace('\'');
    assert ',' !in pad && ',' !in tail && '}' !in pad && '}' !in tail;
    assert ',' !in core && '}' !in core;
  }

  // ---------------------------------------------------------------- job lines

  predicate IsJobName(name: string) {
    name != "" && IsNameChar(name[0]) && forall c <- name :: IsNameChar(c) || c == '-'
  }

  /** A job line is a name, a colon and nothing else but spaces. */
  lemma JobNameIff(text: string, name: string)
    ensures JobName(text) == Some(name)
       <==> IsJobName(name) && exists tail :: Spaces(tail) && text == name + ":" + tail
  {
    var tail := TrimRightSplits(text);
    if JobName(text) == Some(name) {
      assert TrimRight(text) == name + ":";
      assert Spaces(tail) && text == name + ":" + tail;
    }
    if IsJobName(name) && exists tail :: Spaces(tail) && text == name + ":" + tail {
      var rest :| Spaces(rest) && text == name + ":" + rest;
      assert !IsSpace(':');
      TrimRightOf(name + ":", rest);
      var t := name + ":";
      assert t[..|t| - 1] == name;
      assert forall i | 0 <= i < |name| :: t[i] == name[i] && name[i] in name;
    }
  }
}
