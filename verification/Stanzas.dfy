/** Control stanzas (packaging/repo/publish.py, parse_stanzas and format_stanza): what is printed
    is read back as it was. */
module Stanzas {
  import Common

  type Stanza = seq<(string, string)>  // fields in order, each key once

  // -- Python's text functions ---------------------------------------------------------------------

  // What str.strip removes and \s matches.
  predicate IsSpace(c: char) {
    || '\t' <= c <= '\r' || '\U{1C}' <= c <= ' ' || c == '\U{85}' || c == '\U{A0}' || c == '\U{1680}'
    || '\U{2000}' <= c <= '\U{200A}' || c == '\U{2028}' || c == '\U{2029}' || c == '\U{202F}' || c == '\U{205F}' || c == '\U{3000}'
  }

  // Where str.splitlines ends a line.
  predicate IsBreak(c: char) {
    '\n' <= c <= '\r' || '\U{1C}' <= c <= '\U{1E}' || c == '\U{85}' || c == '\U{2028}' || c == '\U{2029}'
  }

  function LStrip(s: string): string {
    if s != "" && IsSpace(s[0]) then LStrip(s[1..]) else s
  }

  function RStrip(s: string): string {
    if s != "" && IsSpace(s[|s| - 1]) then RStrip(s[..|s| - 1]) else s
  }

  function Strip(s: string): string {
    RStrip(LStrip(s))
  }

  function FirstBreak(s: string, i: nat): (r: nat)
    requires i <= |s|
    ensures i <= r <= |s|
    decreases |s| - i
  {
    if i == |s| || IsBreak(s[i]) then i else FirstBreak(s, i + 1)
  }

  // \r\n ends a line once
  function SplitLines(s: string): seq<string>
    decreases |s|
  {
    var i := FirstBreak(s, 0);
    if s == "" then []
    else if i == |s| then [s]
    else [s[..i]] + SplitLines(s[i + (if s[i] == '\r' && i + 1 < |s| && s[i + 1] == '\n' then 2 else 1)..])
  }

  function RunEnd(s: string, i: nat): (r: nat)
    requires i <= |s|
    ensures i <= r <= |s| && (forall k :: i <= k < r ==> IsSpace(s[k])) && (r < |s| ==> !IsSpace(s[r]))
    decreases |s| - i
  {
    if i < |s| && IsSpace(s[i]) then RunEnd(s, i + 1) else i
  }

  // One past the last \n in s[low..high], or `low` if there is none.
  function PastNewline(s: string, low: nat, high: nat): (r: nat)
    requires low <= high <= |s|
    ensures low <= r <= high && (r > low ==> s[r - 1] == '\n') && (forall k :: r <= k < high ==> s[k] != '\n')
  {
    if high == low then low else if s[high - 1] == '\n' then high else PastNewline(s, low, high - 1)
  }

  // The first match of \n\s*\n from i on, as its two ends; |s| twice if there is none.
  function Separator(s: string, i: nat): (r: (nat, nat))
    requires i <= |s|
    ensures i <= r.0 <= r.1 <= |s| && (r.0 < |s| ==> r.0 < r.1)
    decreases |s| - i
  {
    if i == |s| then (i, i)
    else
      var past := PastNewline(s, i + 1, RunEnd(s, i + 1));
      if s[i] == '\n' && past > i + 1 then (i, past) else Separator(s, i + 1)
  }

  // re.split
  function Blocks(s: string): seq<string>
    decreases |s|
  {
    var m := Separator(s, 0);
    if m.0 == |s| then [s] else [s[..m.0]] + Blocks(s[m.1..])
  }

  // -- parsing -----------------------------------------------------------------------------------------

  function PutField(fields: Stanza, key: string, value: string): Stanza {
    if fields == [] then [(key, value)]
    else if fields[0].0 == key then [(key, value)] + fields[1..]
    else [fields[0]] + PutField(fields[1..], key, value)
  }

  function Get(fields: Stanza, key: string): string {
    if fields == [] then "" else if fields[0].0 == key then fields[0].1 else Get(fields[1..], key)
  }

  function Colon(line: string, i: nat): (r: nat)
    requires i <= |line|
    ensures i <= r <= |line|
    decreases |line| - i
  {
    if i == |line| || line[i] == ':' then i else Colon(line, i + 1)
  }

  predicate Continues(line: string) {
    line != "" && (line[0] == ' ' || line[0] == '\t')
  }

  function ParseLine(fields: Stanza, key: string, line: string): (Stanza, string) {
    var colon := Colon(line, 0);
    if Continues(line) && key != "" then (PutField(fields, key, Get(fields, key) + "\n" + line), key)
    else if colon < |line| then (PutField(fields, line[..colon], Strip(line[colon + 1..])), line[..colon])
    else (fields, key)
  }

  function ParseLines(fields: Stanza, key: string, lines: seq<string>): Stanza
    decreases lines
  {
    if lines == [] then fields
    else
      var next := ParseLine(fields, key, lines[0]);
      ParseLines(next.0, next.1, lines[1..])
  }

  function ParseBlocks(blocks: seq<string>): seq<Stanza> {
    if blocks == [] then []
    else
      var fields := ParseLines([], "", SplitLines(blocks[0]));
      (if fields == [] then [] else [fields]) + ParseBlocks(blocks[1..])
  }

  function Parse(text: string): seq<Stanza> {
    ParseBlocks(Blocks(Strip(text)))
  }

  lemma {:induction false} ParseBlocksSnoc(blocks: seq<string>, block: string)
    ensures var fields := ParseLines([], "", SplitLines(block));
            ParseBlocks(blocks + [block]) == ParseBlocks(blocks) + (if fields == [] then [] else [fields])
  {
    if blocks == [] {
      assert [] + [block] == [block] && [block][1..] == [];
    } else {
      assert (blocks + [block])[1..] == blocks[1..] + [block];
      ParseBlocksSnoc(blocks[1..], block);
    }
  }

  // The parser's loops.
  method ParseStanzas(text: string) returns (stanzas: seq<Stanza>)
    ensures stanzas == Parse(text)
  {
    stanzas := [];
    var blocks := Blocks(Strip(text));
    for i := 0 to |blocks|
      invariant stanzas == ParseBlocks(blocks[..i])
    {
      var fields: Stanza, key := [], "";
      var lines := SplitLines(blocks[i]);
      for j := 0 to |lines|
        invariant ParseLines(fields, key, lines[j..]) == ParseLines([], "", lines)
      {
        var line := lines[j];
        Common.DropDrop(lines, j, 1);
        if Continues(line) && key != "" {
          fields := PutField(fields, key, Get(fields, key) + "\n" + line);
        } else {
          var colon := Colon(line, 0);
          if colon < |line| {
            key := line[..colon];
            fields := PutField(fields, key, Strip(line[colon + 1..]));
          }
        }
      }
      Common.TakeStep(blocks, i);
      ParseBlocksSnoc(blocks[..i], blocks[i]);
      if fields != [] {
        stanzas := stanzas + [fields];
      }
    }
    Common.TakeAll(blocks);
  }

  // -- printing -------------------------------------------------------------------------------------------

  function FormatStanza(s: Stanza): string {
    if s == [] then "" else FormatStanza(s[..|s| - 1]) + s[|s| - 1].0 + ": " + s[|s| - 1].1 + "\n"
  }

  // All of them, an empty line between each two.
  function Print(stanzas: seq<Stanza>): string {
    if stanzas == [] then ""
    else if |stanzas| == 1 then FormatStanza(stanzas[0])
    else FormatStanza(stanzas[0]) + "\n" + Print(stanzas[1..])
  }

  // -- well-formed stanzas ---------------------------------------------------------------------------------

  predicate OneLine(s: string) {
    forall i :: 0 <= i < |s| ==> !IsBreak(s[i])
  }

  predicate GoodKey(key: string) {
    key != "" && OneLine(key) && !IsSpace(key[0]) && ':' !in key
  }

  predicate Trimmed(s: string) {
    s != "" ==> !IsSpace(s[0]) && !IsSpace(s[|s| - 1])
  }

  function FirstNewline(s: string, i: nat): (r: nat)
    requires i <= |s|
    ensures i <= r <= |s| && (r < |s| ==> s[r] == '\n') && (forall k :: i <= k < r ==> s[k] != '\n')
    decreases |s| - i
  {
    if i == |s| || s[i] == '\n' then i else FirstNewline(s, i + 1)
  }

  function ValueLines(value: string): (r: seq<string>)
    ensures r != []
    decreases |value|
  {
    var i := FirstNewline(value, 0);
    if i == |value| then [value] else [value[..i]] + ValueLines(value[i + 1..])
  }

  // A line that continues a value: it starts with a blank and ends with something else.
  predicate GoodContinuation(line: string) {
    Continues(line) && OneLine(line) && !IsSpace(line[|line| - 1])
  }

  predicate GoodValue(value: string) {
    var lines := ValueLines(value);
    && Trimmed(lines[0]) && OneLine(lines[0])
    && forall i :: 1 <= i < |lines| ==> GoodContinuation(lines[i])
  }

  predicate WellFormed(s: Stanza) {
    && s != []
    && (forall i :: 0 <= i < |s| ==> GoodKey(s[i].0) && GoodValue(s[i].1))
    && forall i, j :: 0 <= i < j < |s| ==> s[i].0 != s[j].0
  }

  predicate AllWellFormed(stanzas: seq<Stanza>) {
    stanzas == [] || (WellFormed(stanzas[0]) && AllWellFormed(stanzas[1..]))
  }

  // -- the lines of a stanza -----------------------------------------------------------------------------

  function Join(lines: seq<string>): string
    requires lines != []
  {
    if |lines| == 1 then lines[0] else lines[0] + "\n" + Join(lines[1..])
  }

  lemma {:induction false} JoinConcat(a: seq<string>, b: seq<string>)
    requires a != [] && b != []
    ensures Join(a + b) == Join(a) + "\n" + Join(b)
  {
    if |a| == 1 {
      assert (a + b)[1..] == b;
    } else {
      assert (a + b)[1..] == a[1..] + b;
      JoinConcat(a[1..], b);
    }
  }

  lemma {:induction false} JoinValueLines(value: string)
    ensures Join(ValueLines(value)) == value
    decreases |value|
  {
    var i := FirstNewline(value, 0);
    if i < |value| {
      var rest := ValueLines(value[i + 1..]);
      JoinValueLines(value[i + 1..]);
      assert ([value[..i]] + rest)[1..] == rest;
      assert value == value[..i] + "\n" + value[i + 1..];
    }
  }

  // The lines a field is printed on. A text loses its last blank to strip, so its last line is
  // only "Key:" when the value is empty: `cut`.
  function FieldLines(key: string, value: string, cut: bool): seq<string> {
    var lines := ValueLines(value);
    [key + (if cut && value == "" then ":" else ": " + lines[0])] + lines[1..]
  }

  function StanzaLines(s: Stanza, cut: bool): (r: seq<string>)
    ensures s != [] ==> r != []
  {
    if s == [] then [] else StanzaLines(s[..|s| - 1], false) + FieldLines(s[|s| - 1].0, s[|s| - 1].1, cut)
  }

  function Body(s: Stanza, cut: bool): string
    requires s != []
  {
    Join(StanzaLines(s, cut))
  }

  predicate GoodLine(line: string) {
    OneLine(line) && line != "" && exists i :: 0 <= i < |line| && !IsSpace(line[i])
  }

  predicate GoodLines(lines: seq<string>) {
    && lines != [] && lines[0] != "" && !IsSpace(lines[0][0])
    && forall i :: 0 <= i < |lines| ==> GoodLine(lines[i])
  }

  lemma FieldLinesGood(key: string, value: string, cut: bool)
    requires GoodKey(key) && GoodValue(value)
    ensures GoodLines(FieldLines(key, value, cut))
  {
    var lines := FieldLines(key, value, cut);
    assert lines[0][0] == key[0];
    forall i | 0 <= i < |lines| ensures GoodLine(lines[i]) {
      if i > 0 {
        assert lines[i] == ValueLines(value)[i];
        assert !IsSpace(lines[i][|lines[i]| - 1]);
      }
    }
  }

  lemma {:induction false} StanzaLinesGood(s: Stanza, cut: bool)
    requires s != [] && forall i :: 0 <= i < |s| ==> GoodKey(s[i].0) && GoodValue(s[i].1)
    ensures GoodLines(StanzaLines(s, cut))
  {
    var n := |s| - 1;
    FieldLinesGood(s[n].0, s[n].1, cut);
    if n > 0 {
      StanzaLinesGood(s[..n], false);
    }
  }

  // A field's lines, joined, are the field as printed, or without its last blank.
  lemma FieldPrinted(key: string, value: string, cut: bool)
    ensures var text := Join(FieldLines(key, value, cut));
            if cut && value == "" then text + " " == key + ": " else text == key + ": " + value
  {
    var lines := ValueLines(value);
    JoinValueLines(value);
    var printed := FieldLines(key, value, cut);
    if |lines| > 1 {
      assert printed[1..] == lines[1..];
      assert value == lines[0] + "\n" + Join(lines[1..]);
      assert value != "";
    }
  }

  lemma Concat(before: string, key: string, value: string, text: string, end: string)
    requires key + ": " + value + "\n" == text + end
    ensures before + key + ": " + value + "\n" == before + text + end
  {
    assert before + key + ": " + value + "\n" == before + (key + ": " + value + "\n");
    assert before + text + end == before + (text + end);
  }

  // The end of the last field's text that strip removes, with the newline after it.
  function End(value: string, cut: bool): string {
    if cut && value == "" then " \n" else "\n"
  }

  lemma LastField(s: Stanza, cut: bool)
    requires |s| > 1
    ensures var n := |s| - 1;
            Body(s, cut) == Body(s[..n], false) + "\n" + Join(FieldLines(s[n].0, s[n].1, cut))
  {
    var n := |s| - 1;
    JoinConcat(StanzaLines(s[..n], false), FieldLines(s[n].0, s[n].1, cut));
  }

  lemma OnlyField(s: Stanza, cut: bool)
    requires |s| == 1
    ensures Body(s, cut) == Join(FieldLines(s[0].0, s[0].1, cut)) && s[..0] == []
  {
    assert StanzaLines(s, cut) == FieldLines(s[0].0, s[0].1, cut);
  }

  lemma FieldText(key: string, value: string, cut: bool)
    ensures key + ": " + value + "\n" == Join(FieldLines(key, value, cut)) + End(value, cut)
  {
    FieldPrinted(key, value, cut);
  }

  lemma FormatSnoc(s: Stanza, text: string, end: string)
    requires s != []
    requires s[|s| - 1].0 + ": " + s[|s| - 1].1 + "\n" == text + end
    ensures FormatStanza(s) == FormatStanza(s[..|s| - 1]) + text + end
  {
    Concat(FormatStanza(s[..|s| - 1]), s[|s| - 1].0, s[|s| - 1].1, text, end);
  }

  lemma {:induction false} StanzaPrinted(s: Stanza, cut: bool)
    requires s != []
    ensures FormatStanza(s) == Body(s, cut) + End(s[|s| - 1].1, cut)
  {
    var n := |s| - 1;
    var end := End(s[n].1, cut);
    var text := Join(FieldLines(s[n].0, s[n].1, cut));
    FieldText(s[n].0, s[n].1, cut);
    FormatSnoc(s, text, end);
    if n > 0 {
      StanzaPrinted(s[..n], false);
      LastField(s, cut);
    } else {
      OnlyField(s, cut);
    }
  }

  // -- reading a stanza's lines -----------------------------------------------------------------------------

  lemma {:induction false} PutFieldLast(done: Stanza, key: string, before: string, value: string)
    requires forall i :: 0 <= i < |done| ==> done[i].0 != key
    ensures PutField(done, key, value) == done + [(key, value)]
    ensures PutField(done + [(key, before)], key, value) == done + [(key, value)]
    ensures Get(done + [(key, before)], key) == before
  {
    if done != [] {
      PutFieldLast(done[1..], key, before, value);
      assert (done + [(key, before)])[1..] == done[1..] + [(key, before)];
      assert done == [done[0]] + done[1..];
    } else {
      assert [] + [(key, before)] == [(key, before)];
      assert [(key, before)][1..] == [];
    }
  }

  lemma {:induction false} ColonAfterKey(line: string, key: string, i: nat)
    requires i <= |key| < |line| && line[..|key|] == key && line[|key|] == ':' && ':' !in key
    ensures Colon(line, i) == |key|
    decreases |key| - i
  {
    if i < |key| {
      assert line[i] == line[..|key|][i] == key[i];
      assert key[i] in key;
      ColonAfterKey(line, key, i + 1);
    }
  }

  lemma RStripTrimmed(s: string)
    requires s == "" || !IsSpace(s[|s| - 1])
    ensures RStrip(s) == s
  {
  }

  lemma StripTrimmed(s: string)
    requires Trimmed(s)
    ensures Strip(s) == s && Strip(" " + s) == s
  {
    assert (" " + s)[1..] == s;
    assert LStrip(" " + s) == LStrip(s) == s;
    RStripTrimmed(s);
  }

  lemma KeyLine(done: Stanza, key: string, known: string, value: string, cut: bool)
    requires GoodKey(key) && GoodValue(value)
    requires forall i :: 0 <= i < |done| ==> done[i].0 != key
    ensures ParseLine(done, known, FieldLines(key, value, cut)[0]) == (done + [(key, ValueLines(value)[0])], key)
  {
    var line, first := FieldLines(key, value, cut)[0], ValueLines(value)[0];
    assert line[0] == key[0] && !Continues(line);
    assert line[..|key|] == key && line[|key|] == ':';
    ColonAfterKey(line, key, 0);
    PutFieldLast(done, key, "", first);
    if cut && value == "" {
      assert line[|key| + 1..] == "";
      assert first == "";
      StripTrimmed("");
    } else {
      assert line[|key| + 1..] == " " + first;
      StripTrimmed(first);
    }
  }

  lemma {:induction false} ContinuationLines(done: Stanza, key: string, first: string, more: seq<string>, rest: seq<string>)
    requires key != "" && forall i :: 0 <= i < |done| ==> done[i].0 != key
    requires forall i :: 0 <= i < |more| ==> Continues(more[i])
    ensures ParseLines(done + [(key, first)], key, more + rest) == ParseLines(done + [(key, Join([first] + more))], key, rest)
    decreases more
  {
    if more == [] {
      assert more + rest == rest && [first] + more == [first];
    } else {
      var next := first + "\n" + more[0];
      assert (more + rest)[0] == more[0] && (more + rest)[1..] == more[1..] + rest;
      PutFieldLast(done, key, first, next);
      ContinuationLines(done, key, next, more[1..], rest);
      JoinHead(first, more);
    }
  }

  lemma Prepend(first: string, line: string, rest: string)
    ensures (first + "\n" + line) + "\n" + rest == first + "\n" + (line + "\n" + rest)
  {
  }

  lemma JoinHead(first: string, more: seq<string>)
    requires more != []
    ensures Join([first + "\n" + more[0]] + more[1..]) == Join([first] + more)
  {
    var head := first + "\n" + more[0];
    assert ([first] + more)[0] == first && ([first] + more)[1..] == more;
    assert Join([first] + more) == first + "\n" + Join(more);
    if |more| == 1 {
      assert [head] + more[1..] == [head];
    } else {
      assert ([head] + more[1..])[0] == head && ([head] + more[1..])[1..] == more[1..];
      Prepend(first, more[0], Join(more[1..]));
    }
  }

  lemma FieldParsed(done: Stanza, known: string, key: string, value: string, cut: bool, rest: seq<string>)
    requires GoodKey(key) && GoodValue(value)
    requires forall i :: 0 <= i < |done| ==> done[i].0 != key
    ensures ParseLines(done, known, FieldLines(key, value, cut) + rest) == ParseLines(done + [(key, value)], key, rest)
  {
    var lines := ValueLines(value);
    var all := FieldLines(key, value, cut) + rest;
    KeyLine(done, key, known, value, cut);
    assert all[0] == FieldLines(key, value, cut)[0] && all[1..] == lines[1..] + rest;
    ContinuationLines(done, key, lines[0], lines[1..], rest);
    assert [lines[0]] + lines[1..] == lines;
    JoinValueLines(value);
  }

  // The key the parser last saw after a stanza's fields.
  function LastKey(s: Stanza): string {
    if s == [] then "" else s[|s| - 1].0
  }

  lemma {:induction false} StanzaParsed(s: Stanza, cut: bool, rest: seq<string>)
    requires forall i :: 0 <= i < |s| ==> GoodKey(s[i].0) && GoodValue(s[i].1)
    requires forall i, j :: 0 <= i < j < |s| ==> s[i].0 != s[j].0
    ensures ParseLines([], "", StanzaLines(s, cut) + rest) == ParseLines(s, LastKey(s), rest)
  {
    if s == [] {
      assert [] + rest == rest;
    } else {
      var n := |s| - 1;
      var last := FieldLines(s[n].0, s[n].1, cut);
      assert StanzaLines(s, cut) + rest == StanzaLines(s[..n], false) + (last + rest);
      StanzaParsed(s[..n], false, last + rest);
      FieldParsed(s[..n], LastKey(s[..n]), s[n].0, s[n].1, cut, rest);
      assert s[..n] + [(s[n].0, s[n].1)] == s;
    }
  }

  // -- splitting --------------------------------------------------------------------------------------------

  lemma {:induction false} FirstBreakAt(s: string, at: nat, i: nat)
    requires i <= at <= |s| && (forall k :: i <= k < at ==> !IsBreak(s[k])) && (at < |s| ==> IsBreak(s[at]))
    ensures FirstBreak(s, i) == at
    decreases at - i
  {
    if i < at { FirstBreakAt(s, at, i + 1); }
  }

  lemma OnlyLine(line: string)
    requires GoodLine(line)
    ensures SplitLines(line) == [line]
  {
    FirstBreakAt(line, |line|, 0);
  }

  lemma FirstLine(line: string, rest: string)
    requires GoodLine(line)
    ensures SplitLines(line + "\n" + rest) == [line] + SplitLines(rest)
  {
    var s := line + "\n" + rest;
    FirstBreakAt(s, |line|, 0);
    assert s[|line|] == '\n';
    assert s[..|line|] == line;
    assert s[|line| + 1..] == rest;
  }

  lemma {:induction false} LinesOfJoin(lines: seq<string>)
    requires lines != [] && forall i :: 0 <= i < |lines| ==> GoodLine(lines[i])
    ensures SplitLines(Join(lines)) == lines && Join(lines) != ""
  {
    if |lines| > 1 {
      LinesOfJoin(lines[1..]);
      FirstLine(lines[0], Join(lines[1..]));
      assert lines == [lines[0]] + lines[1..];
    } else {
      OnlyLine(lines[0]);
      assert lines == [lines[0]];
    }
  }

  // Something other than blanks comes before the next line ends.
  ghost predicate Solid(s: string, i: nat) {
    exists k :: i <= k < |s| && !IsSpace(s[k]) && forall j :: i <= j < k ==> s[j] != '\n'
  }

  // No blank line.
  ghost predicate Dense(s: string) {
    forall i :: 0 <= i < |s| && s[i] == '\n' ==> Solid(s, i + 1)
  }

  lemma {:induction false} JoinDense(lines: seq<string>)
    requires lines != [] && forall i :: 0 <= i < |lines| ==> GoodLine(lines[i])
    ensures Dense(Join(lines)) && Solid(Join(lines), 0)
  {
    var s := Join(lines);
    var n := |lines[0]|;
    var at :| 0 <= at < n && !IsSpace(lines[0][at]);
    assert s[..n] == lines[0];
    assert s[at] == lines[0][at];
    forall j | 0 <= j < n ensures s[j] != '\n' {
      assert s[j] == lines[0][j];
    }
    if |lines| > 1 {
      JoinDense(lines[1..]);
      var rest := Join(lines[1..]);
      assert s[n + 1..] == rest;
      forall i | 0 <= i < |s| && s[i] == '\n' ensures Solid(s, i + 1) {
        assert i >= n;
        assert i > n ==> rest[i - n - 1] == s[i];
        assert Solid(rest, i - n);
        var k :| i - n <= k < |rest| && !IsSpace(rest[k]) && forall j :: i - n <= j < k ==> rest[j] != '\n';
        assert s[k + n + 1] == rest[k];
        forall j | i + 1 <= j < k + n + 1 ensures s[j] != '\n' {
          assert s[j] == rest[j - n - 1];
        }
      }
    }
  }

  lemma NoneHere(s: string, i: nat)
    requires i < |s| && Solid(s, i + 1)
    ensures PastNewline(s, i + 1, RunEnd(s, i + 1)) == i + 1
  {
    var k :| i + 1 <= k < |s| && !IsSpace(s[k]) && forall j :: i + 1 <= j < k ==> s[j] != '\n';
    assert RunEnd(s, i + 1) <= k;
  }

  ghost predicate GoesOn(s: string, i: nat)
    requires i < |s|
  {
    s[i] == '\n' ==> Solid(s, i + 1)
  }

  lemma SeparatorStep(s: string, i: nat)
    requires i < |s| && GoesOn(s, i)
    ensures Separator(s, i) == Separator(s, i + 1)
  {
    if s[i] == '\n' { NoneHere(s, i); }
  }

  // There is no separator before `at` where every line that ends goes on with something.
  lemma {:induction false} NoSeparator(s: string, at: nat, i: nat)
    requires i <= at <= |s| && forall k :: i <= k < at ==> GoesOn(s, k)
    ensures Separator(s, i) == Separator(s, at)
    decreases at - i
  {
    if i < at {
      NoSeparator(s, at - 1, i);
      SeparatorStep(s, at - 1);
    }
  }

  lemma OneBlock(s: string)
    requires Dense(s)
    ensures Blocks(s) == [s]
  {
    NoSeparator(s, |s|, 0);
  }

  lemma GoesOnLonger(s: string, t: string, k: nat)
    requires Dense(s) && k < |s| && s <= t
    ensures GoesOn(t, k)
  {
    if t[k] == '\n' {
      assert s[k] == t[k];
      var m :| k + 1 <= m < |s| && !IsSpace(s[m]) && forall j :: k + 1 <= j < m ==> s[j] != '\n';
      assert t[m] == s[m];
    }
  }

  lemma FirstBlock(s: string, rest: string)
    requires Dense(s) && rest != "" && !IsSpace(rest[0])
    ensures Blocks(s + "\n\n" + rest) == [s] + Blocks(rest)
  {
    var t, n := s + "\n\n" + rest, |s|;
    forall k | 0 <= k < n ensures GoesOn(t, k) {
      GoesOnLonger(s, t, k);
    }
    NoSeparator(t, n, 0);
    assert t[n] == '\n' && t[n + 1] == '\n' && t[n + 2] == rest[0];
    assert RunEnd(t, n + 1) == n + 2;
    assert t[n + 2..] == rest && t[..n] == s;
  }

  // -- the round trip -----------------------------------------------------------------------------------------

  // What strip leaves of the printed stanzas.
  function Text(stanzas: seq<Stanza>): string
    requires stanzas != [] && AllWellFormed(stanzas)
  {
    if |stanzas| == 1 then Body(stanzas[0], true)
    else Body(stanzas[0], false) + "\n\n" + Text(stanzas[1..])
  }

  predicate Blank(s: string) {
    forall i :: 0 <= i < |s| ==> IsSpace(s[i])
  }

  lemma {:induction false} RStripBlank(s: string, blank: string)
    requires s != "" && !IsSpace(s[|s| - 1]) && Blank(blank)
    ensures RStrip(s + blank) == s
    decreases |blank|
  {
    var n := |blank|;
    if n == 0 {
      assert s + blank == s;
    } else {
      assert (s + blank)[..|s + blank| - 1] == s + blank[..n - 1];
      RStripBlank(s, blank[..n - 1]);
    }
  }

  lemma {:induction false} JoinEnds(lines: seq<string>)
    requires GoodLines(lines)
    ensures Join(lines) != "" && Join(lines)[0] == lines[0][0]
    ensures var last := lines[|lines| - 1]; Join(lines)[|Join(lines)| - 1] == last[|last| - 1]
  {
    var n := |lines| - 1;
    if n > 0 {
      assert lines == lines[..n] + [lines[n]];
      JoinConcat(lines[..n], [lines[n]]);
      JoinEnds(lines[..n]);
    }
  }

  lemma BodyEnds(s: Stanza, cut: bool)
    requires WellFormed(s)
    ensures Body(s, cut) != "" && !IsSpace(Body(s, cut)[0])
    ensures cut ==> !IsSpace(Body(s, cut)[|Body(s, cut)| - 1])
  {
    StanzaLinesGood(s, cut);
    JoinEnds(StanzaLines(s, cut));
    var n := |s| - 1;
    var value := s[n].1;
    var last := FieldLines(s[n].0, value, cut);
    assert StanzaLines(s, cut)[|StanzaLines(s, cut)| - 1] == last[|last| - 1];
    if |last| == 1 {
      assert value == ValueLines(value)[0] by { JoinValueLines(value); }
    } else {
      assert last[|last| - 1] == ValueLines(value)[|last| - 1];
    }
  }

  lemma Between(body: string, text: string, blank: string)
    ensures (body + "\n") + "\n" + (text + blank) == (body + "\n\n" + text) + blank
  {
    assert (body + "\n") + "\n" == body + "\n\n";
  }

  lemma {:induction false} Printed(stanzas: seq<Stanza>) returns (blank: string)
    requires stanzas != [] && AllWellFormed(stanzas)
    ensures Blank(blank) && Print(stanzas) == Text(stanzas) + blank
    ensures var t := Text(stanzas); t != "" && !IsSpace(t[0]) && !IsSpace(t[|t| - 1])
  {
    var s := stanzas[0];
    var cut := |stanzas| == 1;
    StanzaPrinted(s, cut);
    BodyEnds(s, cut);
    if cut {
      blank := End(s[|s| - 1].1, true);
    } else {
      blank := Printed(stanzas[1..]);
      Between(Body(s, false), Text(stanzas[1..]), blank);
    }
  }

  lemma BodyParsed(s: Stanza, cut: bool)
    requires WellFormed(s)
    ensures Dense(Body(s, cut)) && ParseLines([], "", SplitLines(Body(s, cut))) == s
  {
    var lines := StanzaLines(s, cut);
    StanzaLinesGood(s, cut);
    JoinDense(lines);
    LinesOfJoin(lines);
    StanzaParsed(s, cut, []);
    assert lines + [] == lines;
  }

  lemma FirstParsed(block: string, s: Stanza, rest: seq<string>)
    requires ParseLines([], "", SplitLines(block)) == s != []
    ensures ParseBlocks([block] + rest) == [s] + ParseBlocks(rest)
    ensures ParseBlocks([block]) == [s]
  {
    assert ([block] + rest)[1..] == rest && [block][1..] == [];
  }

  lemma {:induction false} TextParsed(stanzas: seq<Stanza>)
    requires stanzas != [] && AllWellFormed(stanzas)
    ensures ParseBlocks(Blocks(Text(stanzas))) == stanzas
  {
    var s := stanzas[0];
    var cut := |stanzas| == 1;
    BodyParsed(s, cut);
    if cut {
      OneBlock(Body(s, true));
      FirstParsed(Body(s, true), s, []);
      assert stanzas == [s];
    } else {
      var blank := Printed(stanzas[1..]);
      var text := Text(stanzas[1..]);
      FirstBlock(Body(s, false), text);
      TextParsed(stanzas[1..]);
      FirstParsed(Body(s, false), s, Blocks(text));
      assert stanzas == [s] + stanzas[1..];
    }
  }

  // What is printed is read back: every stanza, field by field, values of several lines and
  // empty ones included.
  lemma ParsePrint(stanzas: seq<Stanza>)
    requires AllWellFormed(stanzas)
    ensures Parse(Print(stanzas)) == stanzas
  {
    if stanzas == [] {
      assert Separator("", 0) == (0, 0);
      assert [""][1..] == [];
      assert Parse("") == ParseBlocks([""]) == [];
    } else {
      var blank := Printed(stanzas);
      var t := Text(stanzas);
      assert (t + blank)[0] == t[0];
      assert LStrip(t + blank) == t + blank;
      RStripBlank(t, blank);
      TextParsed(stanzas);
    }
  }
}
