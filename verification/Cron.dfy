/**
 Cron expressions of five fields and the search for the next run.

 A field is `*` or a comma-separated list of numbers and steps.  All five fields must hold at a
 minute: a day restricted both by day of month and by day of week has to satisfy both.
 */
module Cron {
  import opened Calendar
  import opened Modulo
  import opened Text
  import opened Wrappers

  // ---------- Words ----------

  /** White space as the pattern \s and trim see it. */
  predicate IsSpace(c: char) {
    '\t' <= c <= '\r' || c == ' ' || c == '\U{00A0}' || c == '\U{1680}' || '\U{2000}' <= c <= '\U{200A}'
    || c == '\U{2028}' || c == '\U{2029}' || c == '\U{202F}' || c == '\U{205F}' || c == '\U{3000}' || c == '\U{FEFF}'
  }

  /** The length of the run of other characters at the start. */
  function WordLength(s: string): (n: nat)
    ensures n <= |s|
    ensures forall k :: 0 <= k < n ==> !IsSpace(s[k])
    ensures n < |s| ==> IsSpace(s[n])
  {
    if s == [] || IsSpace(s[0]) then 0 else 1 + WordLength(s[1..])
  }

  /** The maximal runs of other characters. */
  function Words(s: string): seq<string> {
    if s == [] then []
    else if IsSpace(s[0]) then Words(s[1..])
    else [s[..WordLength(s)]] + Words(s[WordLength(s)..])
  }

  predicate IsWord(w: string) {
    w != [] && forall k :: 0 <= k < |w| ==> !IsSpace(w[k])
  }

  lemma {:induction false} WordsOfPair(w: string, rest: string)
    requires IsWord(w) && (rest == [] || IsSpace(rest[0]))
    ensures Words(w + rest) == [w] + Words(rest)
  {
    WordLengthOf(w, rest);
    assert (w + rest)[..|w|] == w && (w + rest)[|w|..] == rest;
  }

  lemma {:induction false} WordLengthOf(w: string, rest: string)
    requires forall k :: 0 <= k < |w| ==> !IsSpace(w[k])
    requires rest == [] || IsSpace(rest[0])
    ensures WordLength(w + rest) == |w|
  {
    if w == [] {
      assert w + rest == rest;
    } else {
      assert (w + rest)[1..] == w[1..] + rest;
      WordLengthOf(w[1..], rest);
    }
  }

  /** Five words joined by single spaces. */
  function Joined(a: string, b: string, c: string, d: string, e: string): string {
    a + (" " + (b + (" " + (c + (" " + (d + (" " + e)))))))
  }

  lemma WordsOfSpaced(w: string, rest: string)
    requires IsWord(w) && (rest == [] || IsSpace(rest[0]))
    ensures Words(" " + (w + rest)) == [w] + Words(rest)
  {
    WordsOfPair(w, rest);
    assert (" " + (w + rest))[1..] == w + rest;
  }

  lemma LastWord(w: string)
    requires IsWord(w)
    ensures Words(" " + w) == [w]
  {
    assert w + "" == w && Words("") == [];
    WordsOfSpaced(w, "");
  }

  lemma WordsOfJoined(a: string, b: string, c: string, d: string, e: string)
    requires IsWord(a) && IsWord(b) && IsWord(c) && IsWord(d) && IsWord(e)
    ensures Words(Joined(a, b, c, d, e)) == [a, b, c, d, e]
  {
    var last := " " + (d + (" " + e));
    LastTwoWords(d, e);
    WordsOfSpaced(c, last);
    var three := " " + (c + last);
    WordsOfSpaced(b, three);
    WordsOfPair(a, " " + (b + three));
  }

  lemma LastTwoWords(d: string, e: string)
    requires IsWord(d) && IsWord(e)
    ensures Words(" " + (d + (" " + e))) == [d, e]
  {
    LastWord(e);
    WordsOfSpaced(d, " " + e);
  }

  // ---------- Numbers ----------

  predicate IsDigit(c: char) {
    '0' <= c <= '9'
  }

  predicate AllDigits(s: string) {
    forall k :: 0 <= k < |s| ==> IsDigit(s[k])
  }

  function DigitValue(c: char): nat
    requires IsDigit(c)
  {
    (c as int) - ('0' as int)
  }

  function DecimalValue(s: string): nat
    requires AllDigits(s)
  {
    if s == [] then 0 else DecimalValue(s[..|s| - 1]) * 10 + DigitValue(s[|s| - 1])
  }

  function DigitRun(s: string): (n: nat)
    ensures n <= |s| && AllDigits(s[..n])
  {
    if s == [] || !IsDigit(s[0]) then 0
    else
      var n := DigitRun(s[1..]);
      assert s[..n + 1] == [s[0]] + s[1..][..n];
      n + 1
  }

  /** An optional sign and a run of digits; whatever follows is ignored. */
  function ParseInt(s: string): Option<int> {
    var negative := s != [] && s[0] == '-';
    var digits := if s != [] && (s[0] == '-' || s[0] == '+') then s[1..] else s;
    var n := DigitRun(digits);
    if n == 0 then None
    else
      var value: int := DecimalValue(digits[..n]);
      Some(if negative then -value else value)
  }

  // ---------- What a field means ----------

  datatype Piece = Step(amount: nat) | Number(value: int) | Malformed

  function ReadPiece(s: string): Piece {
    if |s| > 2 && s[..2] == "*/" && AllDigits(s[2..]) then Step(DecimalValue(s[2..]))
    else
      var n := ParseInt(s);
      if n.Some? then Number(n.value) else Malformed
  }

  predicate PieceValid(p: Piece, min: int, max: int) {
    match p
    case Step(amount) => 1 <= amount <= max - min + 1
    case Number(value) => min <= value <= max
    case Malformed => false
  }

  predicate PieceAllows(p: Piece, min: int, max: int, v: int) {
    match p
    case Step(amount) => amount >= 1 && min <= v <= max && (v - min) % amount == 0
    case Number(value) => v == value
    case Malformed => false
  }

  /** A step is valid if it leads from the least value at most one behind the greatest; minutes take 1 to 60. */
  lemma StepValidIff(digits: string, min: int, max: int)
    requires digits != "" && AllDigits(digits)
    ensures PieceValid(ReadPiece("*/" + digits), min, max) <==>
            1 <= DecimalValue(digits) && min + DecimalValue(digits) <= max + 1
  {
    assert ("*/" + digits)[..2] == "*/" && ("*/" + digits)[2..] == digits;
  }

  lemma DigitRunOf(digits: string, rest: string)
    requires AllDigits(digits) && (rest == "" || !IsDigit(rest[0]))
    ensures DigitRun(digits + rest) == |digits|
  {
    if digits == "" {
      assert digits + rest == rest;
    } else {
      assert (digits + rest)[1..] == digits[1..] + rest;
      DigitRunOf(digits[1..], rest);
    }
  }

  lemma UnsignedRead(digits: string, rest: string)
    requires digits != "" && AllDigits(digits) && (rest == "" || !IsDigit(rest[0]))
    ensures ReadPiece(digits + rest) == Number(DecimalValue(digits))
  {
    var text := digits + rest;
    DigitRunOf(digits, rest);
    assert text[..|digits|] == digits && text[0] == digits[0];
    if |text| > 2 { assert text[..2][0] == text[0]; }
  }

  lemma SignedRead(sign: char, digits: string, rest: string)
    requires digits != "" && AllDigits(digits) && (rest == "" || !IsDigit(rest[0])) && sign in "+-"
    ensures var value: int := DecimalValue(digits);
            ReadPiece([sign] + (digits + rest)) == Number(if sign == '-' then -value else value)
  {
    var text := [sign] + (digits + rest);
    DigitRunOf(digits, rest);
    assert text[1..] == digits + rest && (digits + rest)[..|digits|] == digits;
    if |text| > 2 { assert text[..2][0] == sign; }
  }

  /** A number may carry a sign and anything that does not start with a digit behind it. */
  lemma NumberRead(digits: string, rest: string)
    requires digits != "" && AllDigits(digits) && (rest == "" || !IsDigit(rest[0]))
    ensures var value: int := DecimalValue(digits);
            && ReadPiece(digits + rest) == Number(value)
            && ReadPiece("+" + (digits + rest)) == Number(value)
            && ReadPiece("-" + (digits + rest)) == Number(-value)
  {
    UnsignedRead(digits, rest);
    SignedRead('+', digits, rest);
    SignedRead('-', digits, rest);
  }

  /** Minus is valid in front of zero only. */
  lemma NegativeValidIff(digits: string, rest: string, min: nat, max: nat)
    requires digits != "" && AllDigits(digits) && (rest == "" || !IsDigit(rest[0]))
    ensures PieceValid(ReadPiece("-" + (digits + rest)), min, max) <==> min == 0 && DecimalValue(digits) == 0
  {
    NumberRead(digits, rest);
  }

  function Pieces(field: string): seq<string> {
    Split(field, ',')
  }

  predicate FieldValid(field: string, min: int, max: int) {
    field == "*" || forall i :: 0 <= i < |Pieces(field)| ==> PieceValid(ReadPiece(Pieces(field)[i]), min, max)
  }

  predicate SomePieceAllows(pieces: seq<string>, n: nat, min: int, max: int, v: int)
    requires n <= |pieces|
  {
    exists i :: 0 <= i < n && PieceAllows(ReadPiece(pieces[i]), min, max, v)
  }

  predicate FieldAllows(field: string, min: int, max: int, v: int) {
    field == "*" || SomePieceAllows(Pieces(field), |Pieces(field)|, min, max, v)
  }

  predicate CronValid(expr: string) {
    var w := Words(expr);
    && |w| == 5
    && FieldValid(w[0], 0, 59) && FieldValid(w[1], 0, 23) && FieldValid(w[2], 1, 31)
    && FieldValid(w[3], 1, 12) && FieldValid(w[4], 0, 6)
  }

  /** All five fields hold at the minute. */
  predicate CronMatches(expr: string, minute: nat) {
    var w, date := Words(expr), DateOf(DayOf(minute));
    && |w| == 5
    && FieldAllows(w[0], 0, 59, MinuteOfHour(minute)) && FieldAllows(w[1], 0, 23, HourOf(minute))
    && FieldAllows(w[2], 1, 31, date.day) && FieldAllows(w[3], 1, 12, date.month)
    && FieldAllows(w[4], 0, 6, Weekday(DayOf(minute)))
  }

  // ---------- Parsing ----------

  datatype Field = Any | Only(values: set<int>)

  predicate Admits(f: Field, v: int) {
    f.Any? || v in f.values
  }

  datatype CronError = InvalidCron | NoNextRun

  predicate OnGrid(value: int, min: int, amount: nat) {
    amount >= 1 && value >= min && (value - min) % amount == 0
  }

  /** The step values below a grid point, that point and the values below the next grid point. */
  lemma NextGridPoint(min: int, max: int, amount: nat, value: int, v: int)
    requires OnGrid(value, min, amount) && value <= max
    ensures OnGrid(value + amount, min, amount)
    ensures PieceAllows(Step(amount), min, max, v) && v < value + amount
            <==> (PieceAllows(Step(amount), min, max, v) && v < value) || v == value
  {
    NextMultiple(value - min, amount);
    assert value + amount - min == (value - min) + amount;
    if value < v < value + amount {
      OffsetFromMultiple(value - min, v - value, amount);
      assert v - min == (value - min) + (v - value);
    }
  }

  /** Every amount-th value from min on. */
  method AddSteps(values: set<int>, min: int, max: int, amount: nat) returns (all: set<int>)
    requires amount >= 1
    ensures forall v :: v in all <==> v in values || PieceAllows(Step(amount), min, max, v)
  {
    all := values;
    var value := min;
    while value <= max
      invariant OnGrid(value, min, amount)
      invariant forall v :: v in all <==> v in values || (PieceAllows(Step(amount), min, max, v) && v < value)
      decreases max - value
    {
      forall v
        ensures PieceAllows(Step(amount), min, max, v) && v < value + amount
                <==> (PieceAllows(Step(amount), min, max, v) && v < value) || v == value
      {
        NextGridPoint(min, max, amount, value, v);
      }
      NextGridPoint(min, max, amount, value, value);
      all := all + {value};
      value := value + amount;
    }
  }

  method ParseSet(field: string, min: int, max: int) returns (r: Result<Field, CronError>)
    ensures r == Err(InvalidCron) || r.Ok?
    ensures r.Ok? <==> FieldValid(field, min, max)
    ensures r.Ok? ==> forall v :: Admits(r.value, v) <==> FieldAllows(field, min, max, v)
  {
    if field == "*" { return Ok(Any); }
    var pieces := Pieces(field);
    var values: set<int> := {};
    for i := 0 to |pieces|
      invariant forall j :: 0 <= j < i ==> PieceValid(ReadPiece(pieces[j]), min, max)
      invariant forall v :: v in values <==> SomePieceAllows(pieces, i, min, max, v)
    {
      var piece, was := ReadPiece(pieces[i]), values;
      if !PieceValid(piece, min, max) { return Err(InvalidCron); }
      match piece {
        case Step(amount) => values := AddSteps(values, min, max, amount);
        case Number(value) => values := values + {value};
        case Malformed =>
      }
      forall v ensures v in values <==> SomePieceAllows(pieces, i + 1, min, max, v) {
        assert v in was <==> SomePieceAllows(pieces, i, min, max, v);
        assert v in values <==> v in was || PieceAllows(piece, min, max, v);
      }
    }
    return Ok(Only(values));
  }

  /** The five parsed fields of an expression. */
  datatype Fields = Fields(minutes: Field, hours: Field, doms: Field, months: Field, dows: Field)

  predicate FieldsAdmit(f: Fields, minute: nat) {
    var date := DateOf(DayOf(minute));
    && Admits(f.months, date.month) && Admits(f.doms, date.day) && Admits(f.dows, Weekday(DayOf(minute)))
    && Admits(f.hours, HourOf(minute)) && Admits(f.minutes, MinuteOfHour(minute))
  }

  method ParseCron(expr: string) returns (r: Result<Fields, CronError>)
    ensures r == Err(InvalidCron) || r.Ok?
    ensures r.Ok? <==> CronValid(expr)
    ensures r.Ok? ==> forall minute: nat :: FieldsAdmit(r.value, minute) <==> CronMatches(expr, minute)
  {
    var parts := Words(expr);
    if |parts| != 5 { return Err(InvalidCron); }
    var minutes := ParseSet(parts[0], 0, 59);
    if minutes.Err? { return Err(InvalidCron); }
    var hours := ParseSet(parts[1], 0, 23);
    if hours.Err? { return Err(InvalidCron); }
    var doms := ParseSet(parts[2], 1, 31);
    if doms.Err? { return Err(InvalidCron); }
    var months := ParseSet(parts[3], 1, 12);
    if months.Err? { return Err(InvalidCron); }
    var dows := ParseSet(parts[4], 0, 6);
    if dows.Err? { return Err(InvalidCron); }
    return Ok(Fields(minutes.value, hours.value, doms.value, months.value, dows.value));
  }

  // ---------- The next run ----------

  /** The search covers 366 days. */
  const HORIZON := 366 * 24 * 60

  /** The least matching minute after another one, within the horizon. */
  ghost predicate IsNext(expr: string, after: nat, minute: nat) {
    && after < minute <= after + HORIZON
    && CronMatches(expr, minute)
    && forall u: nat :: after < u < minute ==> !CronMatches(expr, u)
  }

  ghost predicate NoMatchAhead(expr: string, after: nat) {
    forall u: nat :: after < u <= after + HORIZON ==> !CronMatches(expr, u)
  }

  /** Each field in turn; true when one of them skips the minute. */
  method Skips(f: Fields, minute: nat) returns (skip: bool)
    ensures skip <==> !FieldsAdmit(f, minute)
  {
    var date := DateOf(DayOf(minute));
    if !Admits(f.months, date.month) { return true; }
    if !Admits(f.doms, date.day) { return true; }
    if !Admits(f.dows, Weekday(DayOf(minute))) { return true; }
    if !Admits(f.hours, HourOf(minute)) { return true; }
    return !Admits(f.minutes, MinuteOfHour(minute));
  }

  /** Nothing is admitted strictly between two minutes. */
  ghost predicate NoneBetween(f: Fields, after: nat, before: nat) {
    forall u: nat :: after < u < before ==> !FieldsAdmit(f, u)
  }

  /** The first admitted minute after another one. */
  method Search(f: Fields, after: nat) returns (r: Option<nat>)
    ensures r.Some? ==> after < r.value <= after + HORIZON && FieldsAdmit(f, r.value)
    ensures NoneBetween(f, after, if r.Some? then r.value else after + HORIZON + 1)
  {
    for i := 1 to HORIZON + 1
      invariant forall u: nat :: after < u < after + i ==> !FieldsAdmit(f, u)
    {
      var skip := Skips(f, after + i);
      if !skip {
        return Some(after + i);
      }
    }
    return None;
  }

  lemma SearchMeansNext(expr: string, f: Fields, after: nat, r: Option<nat>)
    requires forall minute: nat :: FieldsAdmit(f, minute) <==> CronMatches(expr, minute)
    requires r.Some? ==> after < r.value <= after + HORIZON && FieldsAdmit(f, r.value)
    requires NoneBetween(f, after, if r.Some? then r.value else after + HORIZON + 1)
    ensures r.None? <==> NoMatchAhead(expr, after)
    ensures r.Some? ==> IsNext(expr, after, r.value)
  {
    forall u: nat | after < u < (if r.Some? then r.value else after + HORIZON + 1) ensures !CronMatches(expr, u) {
      assert !FieldsAdmit(f, u);
    }
  }

  /** From the minute after the one of from; dates without seconds are held as their minute. */
  method GetNextCronRun(expr: string, from: nat) returns (r: Result<nat, CronError>)
    ensures r == Err(InvalidCron) <==> !CronValid(expr)
    ensures r == Err(NoNextRun) <==> CronValid(expr) && NoMatchAhead(expr, MinuteOf(from))
    ensures r.Ok? ==> r.value == StartOf(MinuteOf(r.value)) && IsNext(expr, MinuteOf(from), MinuteOf(r.value))
  {
    var parsed := ParseCron(expr);
    if parsed.Err? { return Err(InvalidCron); }
    var found := Search(parsed.value, MinuteOf(from));
    SearchMeansNext(expr, parsed.value, MinuteOf(from), found);
    if found.Some? {
      return Ok(StartOf(found.value));
    }
    return Err(NoNextRun);
  }

  lemma NextIsUnique(expr: string, after: nat, a: nat, b: nat)
    requires IsNext(expr, after, a) && IsNext(expr, after, b)
    ensures a == b
  {
  }

  // ---------- Fields without a comma ----------

  lemma DigitRunOfDigits(s: string)
    requires AllDigits(s)
    ensures DigitRun(s) == |s|
  {
  }

  lemma NumberPiece(s: string)
    requires s != [] && AllDigits(s)
    ensures ReadPiece(s) == Number(DecimalValue(s))
  {
    DigitRunOfDigits(s);
    assert s[0] != '-' && s[0] != '+' && s[0] != '*';
    assert s[..|s|] == s;
    assert |s| > 2 ==> s[..2][0] != "*/"[0];
  }

  lemma StepPiece(s: string)
    requires s != [] && AllDigits(s)
    ensures ReadPiece("*/" + s) == Step(DecimalValue(s))
  {
    assert ("*/" + s)[..2] == "*/" && ("*/" + s)[2..] == s;
  }

  /** A single piece decides its field. */
  lemma SinglePiece(field: string, min: int, max: int)
    requires ',' !in field && field != "*"
    ensures FieldValid(field, min, max) <==> PieceValid(ReadPiece(field), min, max)
    ensures forall v :: FieldAllows(field, min, max, v) <==> PieceAllows(ReadPiece(field), min, max, v)
  {
    SplitOneLine(field, ',');
    assert Pieces(field)[0] == field;
    forall v ensures FieldAllows(field, min, max, v) <==> PieceAllows(ReadPiece(field), min, max, v) {
      if PieceAllows(ReadPiece(field), min, max, v) { assert PieceAllows(ReadPiece(Pieces(field)[0]), min, max, v); }
    }
  }
}
