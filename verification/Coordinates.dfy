/** Reading and printing of right ascension and declination (web/src/lib/mount.svelte.ts). */
module Coordinates {
  import opened Common

  // Round trips both ways: print, then read, to the nearest second; read, then print, the same
  // text. Whatever else is typed gives a value inside the sky's bounds, or none.

  const MINUS := '\U{2212}'
  const DEGREE := '\U{B0}'
  const PRIME := '\U{2032}'
  const DOUBLE_PRIME := '\U{2033}'

  // -- text ------------------------------------------------------------------------------------

  // What trim removes and \s matches.
  predicate IsSpace(c: char) {
    || '\t' <= c <= '\r' || c == ' ' || c == '\U{A0}' || c == '\U{1680}' || '\U{2000}' <= c <= '\U{200A}'
    || c == '\U{2028}' || c == '\U{2029}' || c == '\U{202F}' || c == '\U{205F}' || c == '\U{3000}' || c == '\U{FEFF}'
  }

  function TrimStart(s: string): string {
    if s != "" && IsSpace(s[0]) then TrimStart(s[1..]) else s
  }

  function TrimEnd(s: string): string {
    if s != "" && IsSpace(s[|s| - 1]) then TrimEnd(s[..|s| - 1]) else s
  }

  function Trim(s: string): string {
    TrimEnd(TrimStart(s))
  }

  function PlainMinus(c: char): char {
    if c == MINUS then '-' else c
  }

  predicate IsUnit(c: char) {
    c in {'h', 'H', 'd', 'D', 'm', 'M', 's', 'S', DEGREE, '\'', PRIME, '"', DOUBLE_PRIME, ':'}
  }

  function UnitToSpace(c: char): char {
    if IsUnit(c) then ' ' else c
  }

  function Replace(s: string, f: char -> char): (r: string)
    ensures |r| == |s| && forall i :: 0 <= i < |s| ==> r[i] == f(s[i])
  {
    seq(|s|, i requires 0 <= i < |s| => f(s[i]))
  }

  function WordEnd(s: string, i: nat): (r: nat)
    requires i <= |s|
    ensures i <= r <= |s| && (forall k :: i <= k < r ==> !IsSpace(s[k])) && (r < |s| ==> IsSpace(s[r]))
    decreases |s| - i
  {
    if i == |s| || IsSpace(s[i]) then i else WordEnd(s, i + 1)
  }

  // What trim, split at /\s+/ and leaving out "" give: the words between blanks.
  function Words(s: string): seq<string>
    decreases |s|
  {
    if s == "" then []
    else if IsSpace(s[0]) then Words(s[1..])
    else [s[..WordEnd(s, 0)]] + Words(s[WordEnd(s, 0)..])
  }

  // -- numbers ------------------------------------------------------------------------------------

  predicate IsDigit(c: char) {
    '0' <= c <= '9'
  }

  predicate AllDigits(s: string) {
    forall i :: 0 <= i < |s| ==> IsDigit(s[i])
  }

  function DigitsEnd(s: string, i: nat): (r: nat)
    requires i <= |s|
    ensures i <= r <= |s| && (forall k :: i <= k < r ==> IsDigit(s[k])) && (r < |s| ==> !IsDigit(s[r]))
    decreases |s| - i
  {
    if i == |s| || !IsDigit(s[i]) then i else DigitsEnd(s, i + 1)
  }

  function Value(s: string): nat
    requires AllDigits(s)
  {
    if s == "" then 0 else 10 * Value(s[..|s| - 1]) + (s[|s| - 1] as int - '0' as int)
  }

  // Digits, perhaps a point or comma behind some of them, and the number it is.
  function NumberOf(s: string): Option<real> {
    var i := DigitsEnd(s, 0);
    if i == 0 then None
    else if i == |s| then Some(Value(s) as real)
    else if (s[i] == '.' || s[i] == ',') && AllDigits(s[i + 1..]) then
      Some(Value(s[..i]) as real + Value(s[i + 1..]) as real / Power10(|s| - i - 1) as real)
    else None
  }

  // -- parsing -------------------------------------------------------------------------------------

  function Unsigned(words: seq<string>): Option<real> {
    if |words| == 0 || |words| > 3 then None
    else
      var whole := NumberOf(words[0]);
      var minutes := if |words| > 1 then NumberOf(words[1]) else Some(0.0);
      var seconds := if |words| > 2 then NumberOf(words[2]) else Some(0.0);
      if whole.None? || minutes.None? || seconds.None? || minutes.value >= 60.0 || seconds.value >= 60.0 then None
      else Some(whole.value + minutes.value / 60.0 + seconds.value / 3600.0)
  }

  function ParseSexagesimal(text: string): Option<real> {
    var s := Replace(Trim(text), PlainMinus);
    var signed := s != "" && (s[0] == '-' || s[0] == '+');
    var rest := if signed then s[1..] else s;
    var found := Unsigned(Words(Replace(rest, UnitToSpace)));
    if found.None? then None else if signed && s[0] == '-' then Some(-found.value) else found
  }

  // A sign is the first character that is not a space.
  predicate StartsWithSign(text: string) {
    var s := TrimStart(text);
    s != "" && (s[0] == '-' || s[0] == '+' || s[0] == MINUS)
  }

  function ParseRa(text: string): Option<real> {
    if StartsWithSign(text) then None
    else
      var hours := ParseSexagesimal(text);
      if hours.Some? && hours.value < 24.0 then hours else None
  }

  function ParseDec(text: string): Option<real> {
    var degrees := ParseSexagesimal(text);
    if degrees.Some? && Abs(degrees.value) <= 90.0 then degrees else None
  }

  // -- printing ----------------------------------------------------------------------------------------

  function Digits(n: nat): (r: string)
    ensures r != "" && AllDigits(r)
  {
    var digit := ('0' as int + n % 10) as char;
    if n < 10 then [digit] else Digits(n / 10) + [digit]
  }

  // With a zero before a single digit.
  function Pad2(n: nat): (r: string)
    ensures r != "" && AllDigits(r)
  {
    if |Digits(n)| < 2 then "0" + Digits(n) else Digits(n)
  }

  // Math.round
  function RoundUp(x: real): int {
    (x + 0.5).Floor
  }

  // JavaScript's %, whose result has the sign of x
  function Remainder(x: real, y: real): real
    requires y > 0.0
  {
    if x >= 0.0 then x - y * (x / y).Floor as real else -(-x - y * (-x / y).Floor as real)
  }

  function Clock(total: nat, first: string, second: string, third: string): string {
    Pad2(total / 3600) + first + " " + Pad2(total / 60 % 60) + second + " " + Pad2(total % 60) + third
  }

  // Within one turn, to the second.
  function Turn(hours: real): int {
    RoundUp(Remainder(Remainder(hours, 24.0) + 24.0, 24.0) * 3600.0) % 86400
  }

  function FormatRa(hours: real): string {
    Clock(Turn(hours), "h", "m", "s")
  }

  function Arcseconds(degrees: real): (r: nat) {
    var total := RoundUp(Abs(degrees) * 3600.0);
    assert total >= 0;
    total
  }

  function FormatDec(degrees: real): string {
    var total := Arcseconds(degrees);
    [if degrees < 0.0 && total > 0 then MINUS else '+'] + Clock(total, [DEGREE], [PRIME], [DOUBLE_PRIME])
  }

  // -- numbers, printed and read ---------------------------------------------------------------------------

  lemma {:induction false} DigitsRead(n: nat)
    ensures Value(Digits(n)) == n
  {
    var digit := ('0' as int + n % 10) as char;
    if n < 10 {
      assert Digits(n) == [digit] && [digit][..0] == "";
      assert Value([digit]) == 10 * Value("") + n % 10;
    } else {
      DigitsRead(n / 10);
      assert Digits(n)[..|Digits(n)| - 1] == Digits(n / 10);
    }
  }

  lemma {:induction false} LeadingZero(s: string)
    requires AllDigits(s)
    ensures AllDigits("0" + s) && Value("0" + s) == Value(s)
  {
    if s == "" {
      assert "0" + s == "0" && "0"[..0] == "";
      assert Value("0") == 10 * Value("") + 0;
    } else {
      LeadingZero(s[..|s| - 1]);
      assert ("0" + s)[..|s|] == "0" + s[..|s| - 1];
    }
  }

  lemma {:induction false} DigitsEndAll(s: string, i: nat)
    requires AllDigits(s) && i <= |s|
    ensures DigitsEnd(s, i) == |s|
    decreases |s| - i
  {
    if i < |s| { DigitsEndAll(s, i + 1); }
  }

  lemma Pad2Read(n: nat)
    ensures NumberOf(Pad2(n)) == Some(n as real)
  {
    DigitsRead(n);
    LeadingZero(Digits(n));
    DigitsEndAll(Pad2(n), 0);
  }

  // Two digits for what is below 100, and as many as it has for more.
  lemma Pad2Digits(n: nat)
    ensures n < 100 ==> Pad2(n) == [('0' as int + n / 10) as char, ('0' as int + n % 10) as char]
    ensures n >= 100 ==> |Pad2(n)| >= 3 && Value(Pad2(n)) == n
  {
    DigitsRead(n);
    if n >= 100 {
      assert Digits(n) == Digits(n / 10) + [('0' as int + n % 10) as char];
      assert Digits(n / 10) == Digits(n / 10 / 10) + [('0' as int + n / 10 % 10) as char];
    } else if n >= 10 {
      assert Digits(n / 10) == [('0' as int + n / 10 % 10) as char];
    }
  }

  // -- words ----------------------------------------------------------------------------------------------

  predicate Blank(s: string) {
    forall i :: 0 <= i < |s| ==> IsSpace(s[i])
  }

  lemma {:induction false} SkipBlank(blank: string, rest: string)
    requires Blank(blank)
    ensures Words(blank + rest) == Words(rest)
    decreases |blank|
  {
    if blank == "" {
      assert blank + rest == rest;
    } else {
      assert (blank + rest)[1..] == blank[1..] + rest;
      SkipBlank(blank[1..], rest);
    }
  }

  lemma {:induction false} WordEndAt(s: string, at: nat, i: nat)
    requires i <= at <= |s| && (forall k :: i <= k < at ==> !IsSpace(s[k])) && (at < |s| ==> IsSpace(s[at]))
    ensures WordEnd(s, i) == at
    decreases at - i
  {
    if i < at { WordEndAt(s, at, i + 1); }
  }

  lemma FirstWord(word: string, blank: string, rest: string)
    requires word != "" && AllDigits(word) && blank != "" && Blank(blank)
    ensures Words(word + blank + rest) == [word] + Words(rest)
  {
    var s := word + blank + rest;
    WordEndAt(s, |word|, 0);
    assert s[..|word|] == word && s[|word|..] == blank + rest;
    SkipBlank(blank, rest);
  }

  // -- the printed clock, read --------------------------------------------------------------------------------

  lemma UnitsAndDigits(s: string, c: char)
    requires AllDigits(s) && IsUnit(c)
    ensures Replace(s, UnitToSpace) == s && Replace([c], UnitToSpace) == " " && Replace(" ", UnitToSpace) == " "
  {
  }

  lemma ClockWords(a: string, b: string, c: string, first: char, second: char, third: char)
    requires a != "" && b != "" && c != "" && AllDigits(a) && AllDigits(b) && AllDigits(c)
    requires IsUnit(first) && IsUnit(second) && IsUnit(third)
    ensures Words(Replace(a + [first] + " " + b + [second] + " " + c + [third], UnitToSpace)) == [a, b, c]
  {
    UnitsAndDigits(a, first);
    UnitsAndDigits(b, second);
    UnitsAndDigits(c, third);
    var text := a + [first] + " " + b + [second] + " " + c + [third];
    var plain := (a + "  ") + ((b + "  ") + (c + " " + ""));
    assert Replace(text, UnitToSpace) == plain;
    FirstWord(a, "  ", (b + "  ") + (c + " " + ""));
    FirstWord(b, "  ", c + " " + "");
    FirstWord(c, " ", "");
  }

  lemma ClockValue(total: nat, h: nat, m: nat, s: nat)
    requires h == total / 3600 && m == total / 60 % 60 && s == total % 60
    ensures m < 60 && s < 60 && h as real + m as real / 60.0 + s as real / 3600.0 == total as real / 3600.0
  {
    assert total == 3600 * (total / 3600) + 60 * (total / 60 % 60) + total % 60;
  }

  lemma ThreeNumbers(a: string, b: string, c: string, whole: nat, minutes: nat, seconds: nat)
    requires NumberOf(a) == Some(whole as real) && NumberOf(b) == Some(minutes as real) && NumberOf(c) == Some(seconds as real)
    requires minutes < 60 && seconds < 60
    ensures Unsigned([a, b, c]) == Some(whole as real + minutes as real / 60.0 + seconds as real / 3600.0)
  {
  }

  // What is read of hours, minutes and seconds printed with any of the units.
  lemma ClockRead(total: nat, first: char, second: char, third: char, clock: string, value: real)
    requires IsUnit(first) && IsUnit(second) && IsUnit(third)
    requires clock == Clock(total, [first], [second], [third]) && value == total as real / 3600.0
    ensures Unsigned(Words(Replace(clock, UnitToSpace))) == Some(value)
  {
    var h, m, s := total / 3600, total / 60 % 60, total % 60;
    ClockValue(total, h, m, s);
    ClockReadAs(h, m, s, Pad2(h), Pad2(m), Pad2(s), first, second, third, clock, value);
  }

  lemma ClockReadAs(h: nat, m: nat, s: nat, a: string, b: string, c: string, first: char, second: char, third: char, clock: string, value: real)
    requires IsUnit(first) && IsUnit(second) && IsUnit(third) && m < 60 && s < 60
    requires value == h as real + m as real / 60.0 + s as real / 3600.0
    requires a == Pad2(h) && b == Pad2(m) && c == Pad2(s)
    requires clock == a + [first] + " " + b + [second] + " " + c + [third]
    ensures Unsigned(Words(Replace(clock, UnitToSpace))) == Some(value)
  {
    ClockWords(a, b, c, first, second, third);
    Pad2Read(h);
    Pad2Read(m);
    Pad2Read(s);
    ThreeNumbers(a, b, c, h, m, s);
  }

  lemma ClockPlain(a: string, b: string, c: string, first: char, second: char, third: char)
    requires AllDigits(a) && AllDigits(b) && AllDigits(c)
    requires MINUS !in {first, second, third}
    ensures var text := a + [first] + " " + b + [second] + " " + c + [third]; Replace(text, PlainMinus) == text
  {
    var text := a + [first] + " " + b + [second] + " " + c + [third];
    forall i | 0 <= i < |text| ensures text[i] != MINUS {
    }
  }

  lemma ClockEnds(total: nat, first: char, second: char, third: char)
    ensures var s := Clock(total, [first], [second], [third]); s != "" && IsDigit(s[0]) && s[|s| - 1] == third
  {
    var head := Pad2(total / 3600);
    assert Clock(total, [first], [second], [third])[0] == head[0];
  }

  lemma NothingToTrim(s: string)
    requires s != "" && !IsSpace(s[0]) && !IsSpace(s[|s| - 1])
    ensures Trim(s) == s && TrimStart(s) == s
  {
  }

  // -- right ascension --------------------------------------------------------------------------------------------

  // Hours from 0 to 24, as they are on the sky.
  function Sky(hours: real): real {
    hours - 24.0 * (hours / 24.0).Floor as real
  }

  lemma ScaleUp(a: real, b: real, s: real)
    requires s > 0.0
    ensures a >= b ==> a * s >= b * s
  {
  }

  lemma RemainderIs(x: real, y: real, r: real, k: int)
    requires y > 0.0 && x == y * k as real + r && 0.0 <= r < y
    ensures (x / y).Floor == k
  {
    var z := r / y;
    assert z * y == r;
    ScaleUp(z, 1.0, y);
    ScaleUp(0.0, z, y);
    assert x / y == k as real + z;
  }

  lemma OnTheSky(hours: real)
    ensures Remainder(Remainder(hours, 24.0) + 24.0, 24.0) == Sky(hours) && 0.0 <= Sky(hours) < 24.0
  {
    var k := (hours / 24.0).Floor;
    var r := hours - 24.0 * k as real;
    assert hours / 24.0 - 1.0 < k as real <= hours / 24.0;
    assert 0.0 <= r < 24.0;
    if hours >= 0.0 {
      assert Remainder(hours, 24.0) == r;
      RemainderIs(r + 24.0, 24.0, r, 1);
    } else {
      var j := (-hours / 24.0).Floor;
      var q := -hours - 24.0 * j as real;
      assert 0.0 <= q < 24.0;
      assert Remainder(hours, 24.0) == -q;
      if q == 0.0 {
        RemainderIs(hours, 24.0, 0.0, -j);
        RemainderIs(24.0, 24.0, 0.0, 1);
      } else {
        RemainderIs(hours, 24.0, 24.0 - q, -j - 1);
        RemainderIs(24.0 - q, 24.0, 24.0 - q, 0);
      }
    }
  }

  lemma TurnIs(hours: real)
    ensures Turn(hours) == RoundUp(Sky(hours) * 3600.0) % 86400
    ensures 0 <= RoundUp(Sky(hours) * 3600.0) <= 86400 && 0 <= Turn(hours) < 86400
  {
    OnTheSky(hours);
  }

  // The hours on the sky to the nearest second, 24 h as 0.
  function ToTheSecond(hours: real): real {
    (RoundUp(Sky(hours) * 3600.0) % 86400) as real / 3600.0
  }

  // A text that starts with a digit is read as it is.
  lemma UnsignedText(text: string, value: real)
    requires text != "" && IsDigit(text[0]) && !IsSpace(text[|text| - 1]) && Replace(text, PlainMinus) == text
    requires Unsigned(Words(Replace(text, UnitToSpace))) == Some(value)
    ensures !StartsWithSign(text) && ParseSexagesimal(text) == Some(value)
  {
    NothingToTrim(text);
  }

  lemma ClockParsed(total: nat, text: string, hours: real)
    requires text == Clock(total, "h", "m", "s") && hours == total as real / 3600.0
    ensures !StartsWithSign(text) && ParseSexagesimal(text) == Some(hours)
  {
    ClockEnds(total, 'h', 'm', 's');
    ClockPlain(Pad2(total / 3600), Pad2(total / 60 % 60), Pad2(total % 60), 'h', 'm', 's');
    ClockRead(total, 'h', 'm', 's', text, hours);
    UnsignedText(text, hours);
  }

  lemma RaParsed(total: nat, text: string, hours: real)
    requires total < 86400 && text == Clock(total, "h", "m", "s") && hours == total as real / 3600.0
    ensures ParseRa(text) == Some(hours)
  {
    ClockParsed(total, text, hours);
  }

  lemma TurnToTheSecond(hours: real)
    ensures 0 <= Turn(hours) < 86400 && ToTheSecond(hours) == Turn(hours) as real / 3600.0
  {
    TurnIs(hours);
  }

  // The hours printed are read back as the hours on the sky to the nearest second, 24 h as 0.
  lemma RaRoundTrip(hours: real)
    ensures ParseRa(FormatRa(hours)) == Some(ToTheSecond(hours))
  {
    TurnToTheSecond(hours);
    RaParsed(Turn(hours), FormatRa(hours), ToTheSecond(hours));
  }

  // That is at most half a second away, on the sky, where 24 h is 0.
  lemma RaWithinHalfASecond(hours: real)
    ensures || Abs(ToTheSecond(hours) - Sky(hours)) <= 0.5 / 3600.0
            || Abs(ToTheSecond(hours) + 24.0 - Sky(hours)) <= 0.5 / 3600.0
  {
    TurnIs(hours);
  }

  // Printing what was read gives the same text.
  lemma RaPrintedAgain(hours: real)
    ensures FormatRa(ToTheSecond(hours)) == FormatRa(hours)
  {
    TurnToTheSecond(hours);
    TurnOfSeconds(Turn(hours), ToTheSecond(hours));
  }

  lemma TurnOfSeconds(total: int, hours: real)
    requires 0 <= total < 86400 && hours == total as real / 3600.0
    ensures Turn(hours) == total
  {
    RemainderIs(hours, 24.0, hours, 0);
    OnTheSky(hours);
    assert Sky(hours) * 3600.0 == total as real;
  }

  // -- declination ------------------------------------------------------------------------------------------------

  function Signed(degrees: real): real {
    var value := Arcseconds(degrees) as real / 3600.0;
    if degrees < 0.0 then -value else value
  }

  lemma SignTaken(sign: char, clock: string, text: string, s: string)
    requires sign == '+' || sign == MINUS
    requires clock != "" && !IsSpace(clock[|clock| - 1]) && Replace(clock, PlainMinus) == clock
    requires text == [sign] + clock && s == Replace(Trim(text), PlainMinus)
    ensures s != "" && s[0] == PlainMinus(sign) && s[1..] == clock
  {
    assert text[|text| - 1] == clock[|clock| - 1];
    NothingToTrim(text);
    assert Replace(text, PlainMinus)[1..] == clock;
  }

  lemma SignedBy(text: string, s: string, clock: string, value: real, signed: real)
    requires s == Replace(Trim(text), PlainMinus) && s != "" && (s[0] == '-' || s[0] == '+') && s[1..] == clock
    requires Unsigned(Words(Replace(clock, UnitToSpace))) == Some(value)
    requires signed == if s[0] == '-' then -value else value
    ensures ParseSexagesimal(text) == Some(signed)
  {
    var found := Unsigned(Words(Replace(s[1..], UnitToSpace)));
    assert found == Some(value);
    assert ParseSexagesimal(text) == if s[0] == '-' then Some(-found.value) else found;
  }

  // A sign, then a text that is read without one.
  lemma SignedText(sign: char, clock: string, text: string, value: real, signed: real)
    requires text == [sign] + clock && signed == if sign == MINUS then -value else value
    requires sign == '+' || sign == MINUS
    requires clock != "" && !IsSpace(clock[|clock| - 1]) && Replace(clock, PlainMinus) == clock
    requires Unsigned(Words(Replace(clock, UnitToSpace))) == Some(value)
    ensures ParseSexagesimal(text) == Some(signed)
  {
    var s := Replace(Trim(text), PlainMinus);
    SignTaken(sign, clock, text, s);
    SignedBy(text, s, clock, value, signed);
  }

  lemma SignedParsed(total: nat, sign: char, clock: string, text: string, value: real, signed: real)
    requires sign == '+' || sign == MINUS
    requires clock == Clock(total, [DEGREE], [PRIME], [DOUBLE_PRIME]) && text == [sign] + clock
    requires value == total as real / 3600.0 && signed == if sign == MINUS then -value else value
    ensures ParseSexagesimal(text) == Some(signed)
  {
    ClockEnds(total, DEGREE, PRIME, DOUBLE_PRIME);
    ClockPlain(Pad2(total / 3600), Pad2(total / 60 % 60), Pad2(total % 60), DEGREE, PRIME, DOUBLE_PRIME);
    ClockRead(total, DEGREE, PRIME, DOUBLE_PRIME, clock, value);
    SignedText(sign, clock, text, value, signed);
  }

  lemma DecRead(degrees: real)
    ensures ParseSexagesimal(FormatDec(degrees)) == Some(Signed(degrees))
  {
    var total := Arcseconds(degrees);
    var sign := if degrees < 0.0 && total > 0 then MINUS else '+';
    SignedParsed(total, sign, Clock(total, [DEGREE], [PRIME], [DOUBLE_PRIME]), FormatDec(degrees), total as real / 3600.0, Signed(degrees));
  }

  // The degrees printed are read back with their sign, to the nearest arcsecond; beyond 90
  // degrees after rounding they are not read.
  lemma DecRoundTrip(degrees: real)
    ensures ParseDec(FormatDec(degrees)) == if Arcseconds(degrees) <= 324000 then Some(Signed(degrees)) else None
    ensures Abs(degrees) <= 90.0 ==> Arcseconds(degrees) <= 324000
    ensures Abs(Signed(degrees) - degrees) <= 0.5 / 3600.0
  {
    DecRead(degrees);
  }

  lemma DecPrintedAgain(degrees: real)
    requires Abs(degrees) <= 90.0
    ensures ParseDec(FormatDec(degrees)).Some?
    ensures FormatDec(ParseDec(FormatDec(degrees)).value) == FormatDec(degrees)
  {
    DecRoundTrip(degrees);
    var read := Signed(degrees);
    assert Abs(read) * 3600.0 == Arcseconds(degrees) as real;
    assert Arcseconds(read) == Arcseconds(degrees);
  }

  // -- what people type -------------------------------------------------------------------------------------

  // Digits, and perhaps a point or comma and more digits.
  datatype Number = Number(whole: string, point: Option<char>, fraction: string)

  predicate Proper(n: Number) {
    && n.whole != "" && AllDigits(n.whole) && AllDigits(n.fraction)
    && if n.point.Some? then n.point.value == '.' || n.point.value == ',' else n.fraction == ""
  }

  function Written(n: Number): string {
    n.whole + (if n.point.Some? then [n.point.value] else "") + n.fraction
  }

  // All the digits as one number, moved by as many places as are behind the point.
  function Amount(n: Number): real
    requires Proper(n)
  {
    Value(n.whole + n.fraction) as real / Power10(|n.fraction|) as real
  }

  lemma {:induction false} ValueConcat(a: string, b: string)
    requires AllDigits(a) && AllDigits(b)
    ensures AllDigits(a + b) && Value(a + b) == Value(a) * Power10(|b|) + Value(b)
  {
    if b == "" {
      assert a + b == a;
    } else {
      var n := |b| - 1;
      ValueConcat(a, b[..n]);
      assert (a + b)[..|a + b| - 1] == a + b[..n];
      TenTimes(Value(a), Power10(n), Value(b[..n]));
    }
  }

  lemma TenTimes(a: int, p: int, b: int)
    ensures 10 * (a * p + b) == a * (10 * p) + 10 * b
  {
  }

  lemma Apart(a: nat, p: nat, b: nat)
    requires p > 0
    ensures a as real + b as real / p as real == (a * p + b) as real / p as real
  {
    assert (a * p + b) as real == a as real * p as real + b as real;
  }

  lemma NumberRead(n: Number)
    requires Proper(n)
    ensures NumberOf(Written(n)) == Some(Amount(n))
  {
    var s := Written(n);
    ValueConcat(n.whole, n.fraction);
    if n.point == None {
      assert s == n.whole && n.whole + n.fraction == n.whole;
      DigitsEndAll(s, 0);
    } else {
      WholeEnds(s, |n.whole|, 0);
      assert s[..|n.whole|] == n.whole && s[|n.whole| + 1..] == n.fraction;
      Apart(Value(n.whole), Power10(|n.fraction|), Value(n.fraction));
    }
  }

  lemma {:induction false} WholeEnds(s: string, at: nat, i: nat)
    requires i <= at < |s| && (forall k :: i <= k < at ==> IsDigit(s[k])) && !IsDigit(s[at])
    ensures DigitsEnd(s, i) == at
    decreases at - i
  {
    if i < at { WholeEnds(s, at, i + 1); }
  }

  // Nothing else is a number.
  lemma OnlyNumbers(s: string) returns (n: Number)
    requires NumberOf(s).Some?
    ensures Proper(n) && s == Written(n)
  {
    var i := DigitsEnd(s, 0);
    n := if i == |s| then Number(s, None, "") else Number(s[..i], Some(s[i]), s[i + 1..]);
    if i < |s| {
      SplitAt(s, i);
      assert s[..i] + [s[i]] + s[i + 1..] == s;
    }
  }

  // Units and spaces.
  predicate Gap(s: string) {
    forall i :: 0 <= i < |s| ==> IsSpace(s[i]) || IsUnit(s[i])
  }

  // Numbers with a gap behind each, which only the last can do without.
  predicate Gaps(numbers: seq<Number>, gaps: seq<string>) {
    && |gaps| == |numbers|
    && (forall i :: 0 <= i < |numbers| ==> Proper(numbers[i]))
    && forall i :: 0 <= i < |gaps| ==> Gap(gaps[i]) && (i < |gaps| - 1 ==> gaps[i] != "")
  }

  function Typed(numbers: seq<Number>, gaps: seq<string>): string
    requires |gaps| == |numbers|
  {
    if numbers == [] then "" else Written(numbers[0]) + gaps[0] + Typed(numbers[1..], gaps[1..])
  }

  function AllWritten(numbers: seq<Number>): seq<string> {
    if numbers == [] then [] else [Written(numbers[0])] + AllWritten(numbers[1..])
  }

  lemma ReplaceConcat(a: string, b: string, f: char -> char)
    ensures Replace(a + b, f) == Replace(a, f) + Replace(b, f)
  {
  }

  // A number's text has no unit, no space and no minus.
  lemma WrittenPlain(n: Number)
    requires Proper(n)
    ensures Written(n) != "" && forall i :: 0 <= i < |Written(n)| ==> !IsSpace(Written(n)[i]) && !IsUnit(Written(n)[i]) && Written(n)[i] != MINUS
    ensures Replace(Written(n), UnitToSpace) == Written(n)
  {
    forall i | 0 <= i < |Written(n)| ensures IsDigit(Written(n)[i]) || Written(n)[i] == '.' || Written(n)[i] == ',' {
    }
  }

  lemma WordBefore(word: string, blank: string, rest: string)
    requires word != "" && (forall i :: 0 <= i < |word| ==> !IsSpace(word[i])) && Blank(blank)
    requires blank != "" || rest == ""
    ensures Words(word + blank + rest) == [word] + Words(rest)
  {
    var s := word + blank + rest;
    WordEndAt(s, |word|, 0);
    assert s[..|word|] == word && s[|word|..] == blank + rest;
    SkipBlank(blank, rest);
  }

  lemma {:induction false} TypedWords(numbers: seq<Number>, gaps: seq<string>)
    requires Gaps(numbers, gaps)
    ensures Words(Replace(Typed(numbers, gaps), UnitToSpace)) == AllWritten(numbers)
  {
    if numbers != [] {
      var word, gap, rest := Written(numbers[0]), gaps[0], Typed(numbers[1..], gaps[1..]);
      TypedWords(numbers[1..], gaps[1..]);
      WrittenPlain(numbers[0]);
      ReplaceConcat(word + gap, rest, UnitToSpace);
      ReplaceConcat(word, gap, UnitToSpace);
      assert gap == "" ==> numbers[1..] == [];
      WordBefore(word, Replace(gap, UnitToSpace), Replace(rest, UnitToSpace));
    }
  }

  lemma {:induction false} TypedPlain(numbers: seq<Number>, gaps: seq<string>)
    requires Gaps(numbers, gaps)
    ensures forall i :: 0 <= i < |Typed(numbers, gaps)| ==> Typed(numbers, gaps)[i] !in {MINUS, '-', '+'}
  {
    if numbers != [] {
      TypedPlain(numbers[1..], gaps[1..]);
      WrittenSigns(numbers[0]);
    }
  }

  lemma WrittenSigns(n: Number)
    requires Proper(n)
    ensures forall i :: 0 <= i < |Written(n)| ==> Written(n)[i] !in {MINUS, '-', '+'}
  {
    forall i | 0 <= i < |Written(n)| ensures IsDigit(Written(n)[i]) || Written(n)[i] == '.' || Written(n)[i] == ',' {
    }
  }

  function Amounts(numbers: seq<Number>): seq<real>
    requires forall i :: 0 <= i < |numbers| ==> Proper(numbers[i])
  {
    seq(|numbers|, i requires 0 <= i < |numbers| => Amount(numbers[i]))
  }

  lemma WrittenEach(numbers: seq<Number>)
    ensures |AllWritten(numbers)| == |numbers| && forall i :: 0 <= i < |numbers| ==> AllWritten(numbers)[i] == Written(numbers[i])
  {
  }

  lemma TypedBehind(numbers: seq<Number>, gaps: seq<string>, lead: string)
    requires Gaps(numbers, gaps) && Gap(lead)
    ensures Words(Replace(lead + Typed(numbers, gaps), UnitToSpace)) == AllWritten(numbers)
  {
    ReplaceConcat(lead, Typed(numbers, gaps), UnitToSpace);
    SkipBlank(Replace(lead, UnitToSpace), Replace(Typed(numbers, gaps), UnitToSpace));
    TypedWords(numbers, gaps);
  }

  ghost predicate ReadAs(words: seq<string>, amounts: seq<real>) {
    |words| == |amounts| && forall i :: 0 <= i < |words| ==> NumberOf(words[i]) == Some(amounts[i])
  }

  // The first, a sixtieth of the second and a sixtieth of that of the third; the second and the
  // third below 60.
  function Total(amounts: seq<real>): Option<real> {
    if !(1 <= |amounts| <= 3) || exists i :: 1 <= i < |amounts| && amounts[i] >= 60.0 then None
    else Some(amounts[0] + (if |amounts| > 1 then amounts[1] / 60.0 else 0.0) + (if |amounts| > 2 then amounts[2] / 3600.0 else 0.0))
  }

  lemma TotalRead(words: seq<string>, amounts: seq<real>)
    requires ReadAs(words, amounts)
    ensures Unsigned(words) == Total(amounts)
  {
  }

  lemma AllRead(numbers: seq<Number>)
    requires forall i :: 0 <= i < |numbers| ==> Proper(numbers[i])
    ensures ReadAs(AllWritten(numbers), Amounts(numbers))
  {
    WrittenEach(numbers);
    forall i | 0 <= i < |numbers| ensures NumberOf(AllWritten(numbers)[i]) == Some(Amount(numbers[i])) {
      NumberRead(numbers[i]);
    }
  }

  lemma TypedUnsigned(numbers: seq<Number>, gaps: seq<string>, lead: string)
    requires Gaps(numbers, gaps) && Gap(lead)
    ensures Unsigned(Words(Replace(lead + Typed(numbers, gaps), UnitToSpace))) == Total(Amounts(numbers))
  {
    TypedBehind(numbers, gaps, lead);
    AllRead(numbers);
    TotalRead(AllWritten(numbers), Amounts(numbers));
  }

  lemma {:induction false} TrimBlank(before: string, core: string, after: string)
    requires Blank(before) && Blank(after) && core != "" && !IsSpace(core[0]) && !IsSpace(core[|core| - 1])
    ensures Trim(before + core + after) == core
    decreases |before| + |after|
  {
    TrimStartBlank(before, core + after);
    assert before + core + after == before + (core + after);
    TrimEndBlank(core, after);
  }

  lemma {:induction false} TrimStartBlank(before: string, rest: string)
    requires Blank(before) && rest != "" && !IsSpace(rest[0])
    ensures TrimStart(before + rest) == rest
    decreases |before|
  {
    if before == "" {
      assert before + rest == rest;
    } else {
      ConcatTail(before, rest);
      TrimStartBlank(before[1..], rest);
    }
  }

  lemma {:induction false} TrimEndBlank(core: string, after: string)
    requires Blank(after) && core != "" && !IsSpace(core[|core| - 1])
    ensures TrimEnd(core + after) == core
    decreases |after|
  {
    if after == "" {
      assert core + after == core;
    } else {
      assert (core + after)[..|core + after| - 1] == core + after[..|after| - 1];
      TrimEndBlank(core, after[..|after| - 1]);
    }
  }

  predicate IsSign(sign: string) {
    sign in {"", "-", "+", [MINUS]}
  }

  // What is left once the minus is plain and the sign is off.
  ghost predicate SignTakenOff(sign: string, body: string, s: string) {
    && s != "" && (s[0] == '-' || s[0] == '+' <==> sign != "") && (s[0] == '-' <==> sign == "-" || sign == [MINUS])
    && (if sign != "" then s[1..] else s) == body
  }

  function WithSign(sign: string, found: Option<real>): Option<real> {
    if found == None then None else Some(if sign == "-" || sign == [MINUS] then -found.value else found.value)
  }

  // Whatever numbers are typed, with any units and spaces around them and a sign in front, are
  // read as their sum in sixtieths with that sign, or not at all.
  lemma TypedRead(text: string, before: string, core: string, after: string, sign: string, lead: string, numbers: seq<Number>, gaps: seq<string>)
    requires Gaps(numbers, gaps) && Gap(lead) && IsSign(sign) && core == sign + (lead + Typed(numbers, gaps))
    requires Blank(before) && Blank(after) && core != "" && !IsSpace(core[0]) && !IsSpace(core[|core| - 1])
    requires text == before + core + after
    ensures ParseSexagesimal(text) == WithSign(sign, Total(Amounts(numbers)))
  {
    var body := lead + Typed(numbers, gaps);
    TrimBlank(before, core, after);
    BodyPlain(lead, numbers, gaps, body);
    SignOff(sign, body, core);
    TypedUnsigned(numbers, gaps, lead);
    ReadOf(text, sign, body, Replace(core, PlainMinus), Total(Amounts(numbers)));
  }

  lemma BodyPlain(lead: string, numbers: seq<Number>, gaps: seq<string>, body: string)
    requires Gaps(numbers, gaps) && Gap(lead) && body == lead + Typed(numbers, gaps)
    ensures forall i :: 0 <= i < |body| ==> body[i] !in {MINUS, '-', '+'}
  {
    TypedPlain(numbers, gaps);
  }

  lemma SignOff(sign: string, body: string, core: string)
    requires IsSign(sign) && core == sign + body && core != "" && forall i :: 0 <= i < |body| ==> body[i] !in {MINUS, '-', '+'}
    ensures SignTakenOff(sign, body, Replace(core, PlainMinus))
  {
    ReplaceConcat(sign, body, PlainMinus);
    assert Replace(body, PlainMinus) == body;
  }

  lemma ReadOf(text: string, sign: string, body: string, s: string, found: Option<real>)
    requires s == Replace(Trim(text), PlainMinus) && SignTakenOff(sign, body, s)
    requires Unsigned(Words(Replace(body, UnitToSpace))) == found
    ensures ParseSexagesimal(text) == WithSign(sign, found)
  {
    var signed := s != "" && (s[0] == '-' || s[0] == '+');
    assert signed == (sign != "");
    assert (if signed then s[1..] else s) == body;
    assert ParseSexagesimal(text) == if found.None? then None else if signed && s[0] == '-' then Some(-found.value) else found;
  }

  // -- what is read of anything ------------------------------------------------------------------------------------

  lemma UnsignedPositive(words: seq<string>)
    ensures Unsigned(words).Some? ==> Unsigned(words).value >= 0.0
  {
    forall w ensures NumberOf(w).Some? ==> NumberOf(w).value >= 0.0 {
      NumberPositive(w);
    }
  }

  lemma NumberPositive(s: string)
    ensures NumberOf(s).Some? ==> NumberOf(s).value >= 0.0
  {
    var i := DigitsEnd(s, 0);
    if 0 < i < |s| && (s[i] == '.' || s[i] == ',') && AllDigits(s[i + 1..]) {
      assert Value(s[i + 1..]) as real / Power10(|s| - i - 1) as real >= 0.0;
    }
  }

  lemma {:induction false} TrimEndStart(s: string)
    ensures s != "" && !IsSpace(s[0]) ==> TrimEnd(s) != "" && TrimEnd(s)[0] == s[0]
    decreases |s|
  {
    if |s| > 1 && IsSpace(s[|s| - 1]) {
      TrimEndStart(s[..|s| - 1]);
    }
  }

  lemma {:induction false} TrimStartEnds(s: string)
    ensures TrimStart(s) == "" || !IsSpace(TrimStart(s)[0])
  {
    if s != "" && IsSpace(s[0]) { TrimStartEnds(s[1..]); }
  }

  // A right ascension read is from 0 h to below 24 h, and a declination from -90 to 90 degrees.
  lemma ReadInRange(text: string)
    ensures ParseRa(text).Some? ==> 0.0 <= ParseRa(text).value < 24.0
    ensures ParseDec(text).Some? ==> -90.0 <= ParseDec(text).value <= 90.0
  {
    TrimStartEnds(text);
    TrimEndStart(TrimStart(text));
    if !StartsWithSign(text) {
      var s := Replace(Trim(text), PlainMinus);
      if s != "" && TrimStart(text) != "" {
        assert s[0] == PlainMinus(TrimStart(text)[0]);
      }
      UnsignedPositive(Words(Replace(s, UnitToSpace)));
    }
  }
}
