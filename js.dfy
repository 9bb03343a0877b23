/** JavaScript values and the built-in string and number operations that the
    work-order code relies on: truthiness and `||`, `String(v)`,
    `Number.prototype.toString`, `parseInt`, `parseFloat`, `padStart`,
    `split`/`join` and `toFixed(2)`. Numbers are exact (integers and reals);
    IEEE-754 rounding is not modelled. */
module Js {

  datatype Option<+T> = None | Some(value: T) {
    function GetOr(default: T): T {
      match this
      case Some(v) => v
      case None => default
    }
  }

  datatype Result<+T, +E> = Success(value: T) | Failure(error: E)

  /** A field value of a work-order record. `Null` stands for both `null` and
      `undefined`; `Number` holds the integral numbers the records carry
      (counts and ids); `List` is an array of strings (the image URLs). */
  datatype Value =
    | Null
    | Str(s: string)
    | Number(n: int)
    | List(items: seq<string>)

  /** A JavaScript object keyed by field name, as read from and written to the store. */
  type Record = map<string, Value>

  /** Reading a property: a missing key reads as `undefined`. */
  function Get(r: Record, key: string): Value {
    if key in r then r[key] else Null
  }

  predicate Truthy(v: Value) {
    match v
    case Null => false
    case Str(s) => s != ""
    case Number(n) => n != 0
    case List(_) => true
  }

  /** `v || otherwise` */
  function Or(v: Value, otherwise: Value): Value {
    if Truthy(v) then v else otherwise
  }

  /** `String(v)`, also what a template literal and React print. */
  function ToString(v: Value): string {
    match v
    case Null => "null"
    case Str(s) => s
    case Number(n) => IntString(n)
    case List(items) => Join(items, ',')
  }

  // ---------------------------------------------------------------------
  // Decimal digits

  predicate IsDigit(c: char) { '0' <= c <= '9' }

  predicate AllDigits(s: string) {
    forall i :: 0 <= i < |s| ==> IsDigit(s[i])
  }

  function DigitChar(d: nat): char
    requires d < 10
  {
    (48 + d) as char
  }

  function DigitValue(c: char): nat
    requires IsDigit(c)
  {
    c as int - 48
  }

  function Pow10(k: nat): (p: nat)
    ensures p >= 1
  {
    if k == 0 then 1 else 10 * Pow10(k - 1)
  }

  /** The number a run of decimal digits denotes (leading zeros allowed). */
  function DigitsValue(s: string): nat
    requires AllDigits(s)
  {
    if s == [] then 0 else 10 * DigitsValue(s[..|s| - 1]) + DigitValue(s[|s| - 1])
  }

  /** `n.toString()` for a non-negative integer: the shortest digit string
      that denotes `n`. */
  function NatString(n: nat): (s: string)
    ensures 1 <= |s| && AllDigits(s)
    ensures DigitsValue(s) == n
    ensures n > 0 ==> s[0] != '0'
  {
    if n < 10 then
      [DigitChar(n)]
    else
      var s := NatString(n / 10) + [DigitChar(n % 10)];
      assert s[..|s| - 1] == NatString(n / 10);
      s
  }

  /** `n.toString()` for any integer. */
  function IntString(n: int): string {
    if n < 0 then "-" + NatString(-n) else NatString(n)
  }

  lemma {:induction false} NatStringShort(n: nat, k: nat)
    requires 1 <= k && n < Pow10(k)
    ensures |NatString(n)| <= k
  {
    if n >= 10 {
      assert Pow10(k) == 10 * Pow10(k - 1);
      assert Pow10(0) == 1;
      assert k - 1 != 0;
      NatStringShort(n / 10, k - 1);
    }
  }

  lemma {:induction false} DigitsValueAppend(a: string, b: string)
    requires AllDigits(a) && AllDigits(b)
    ensures AllDigits(a + b)
    ensures DigitsValue(a + b) == DigitsValue(a) * Pow10(|b|) + DigitsValue(b)
    decreases |b|
  {
    if b == [] {
      assert a + b == a;
    } else {
      var b' := b[..|b| - 1];
      var d := DigitValue(b[|b| - 1]);
      DigitsValueAppend(a, b');
      assert (a + b)[..|a + b| - 1] == a + b';
      assert DigitsValue(a + b) == 10 * DigitsValue(a + b') + d;
      assert DigitsValue(b) == 10 * DigitsValue(b') + d;
      assert Pow10(|b|) == 10 * Pow10(|b'|);
      ShiftDigit(DigitsValue(a), Pow10(|b'|), DigitsValue(b'), d);
    }
  }

  lemma ShiftDigit(a: nat, p: nat, b: nat, d: nat)
    ensures 10 * (a * p + b) + d == a * (10 * p) + (10 * b + d)
  {
  }

  /** `k` copies of `c`. */
  function Repeat(c: char, k: nat): (s: string)
    ensures |s| == k
    ensures forall i :: 0 <= i < k ==> s[i] == c
  {
    seq(k, _ => c)
  }

  /** Leading zeros do not change the value of a digit run. */
  lemma {:induction false} LeadingZerosValue(k: nat, s: string)
    requires AllDigits(s)
    ensures AllDigits(Repeat('0', k) + s)
    ensures DigitsValue(Repeat('0', k) + s) == DigitsValue(s)
  {
    ZerosValue(k);
    DigitsValueAppend(Repeat('0', k), s);
  }

  lemma {:induction false} ZerosValue(k: nat)
    ensures AllDigits(Repeat('0', k)) && DigitsValue(Repeat('0', k)) == 0
  {
    if k > 0 {
      ZerosValue(k - 1);
      assert Repeat('0', k)[..k - 1] == Repeat('0', k - 1);
    }
  }

  /** `s.padStart(width, c)`: `s` preceded by as many `c` as make it `width`
      long; a longer `s` is returned whole. */
  function PadStart(s: string, width: nat, c: char): (r: string)
    ensures |r| == if |s| >= width then |s| else width
    ensures r[|r| - |s|..] == s
    ensures forall i :: 0 <= i < |r| - |s| ==> r[i] == c
  {
    if |s| >= width then s else Repeat(c, width - |s|) + s
  }

  // ---------------------------------------------------------------------
  // split and join

  /** `s.split(c)` for a one-character separator. */
  function Split(s: string, c: char): (parts: seq<string>)
    ensures |parts| >= 1
    ensures forall i :: 0 <= i < |parts| ==> c !in parts[i]
    ensures parts[0] <= s
    ensures |parts[0]| < |s| ==> s[|parts[0]|] == c
    decreases |s|
  {
    if s == [] then
      [""]
    else
      var rest := Split(s[1..], c);
      if s[0] == c then [""] + rest
      else [[s[0]] + rest[0]] + rest[1..]
  }

  /** `parts.join(c)` */
  function Join(parts: seq<string>, c: char): string
    decreases |parts|
  {
    if |parts| == 0 then ""
    else if |parts| == 1 then parts[0]
    else parts[0] + [c] + Join(parts[1..], c)
  }

  /** Splitting and joining again with the same separator gives back the string. */
  lemma {:induction false} SplitJoin(s: string, c: char)
    ensures Join(Split(s, c), c) == s
    decreases |s|
  {
    if s != [] {
      var rest := Split(s[1..], c);
      SplitJoin(s[1..], c);
      if s[0] == c {
        assert Join([""] + rest, c) == "" + [c] + Join(rest, c);
      } else {
        JoinPrefixFirst([s[0]], rest, c);
      }
      assert [s[0]] + s[1..] == s;
    }
  }

  /** Prefixing the first part prefixes the joined text. */
  lemma JoinPrefixFirst(x: string, parts: seq<string>, c: char)
    requires parts != []
    ensures Join([x + parts[0]] + parts[1..], c) == x + Join(parts, c)
  {
    var first := [x + parts[0]] + parts[1..];
    assert first[1..] == parts[1..];
  }

  /** The text before the first separator is exactly the part that precedes it. */
  lemma {:induction false} SplitFirst(p: string, c: char, q: string)
    requires c !in p
    ensures Split(p + [c] + q, c)[0] == p
    decreases |p|
  {
    var s := p + [c] + q;
    if p == [] {
      assert s[0] == c && s[1..] == q;
    } else {
      assert s[0] == p[0] && s[1..] == p[1..] + [c] + q;
      SplitFirst(p[1..], c, q);
      assert [p[0]] + p[1..] == p;
    }
  }

  lemma {:induction false} JoinSnoc(parts: seq<string>, x: string, c: char)
    requires parts != []
    ensures Join(parts + [x], c) == Join(parts, c) + [c] + x
    decreases |parts|
  {
    if |parts| > 1 {
      assert (parts + [x])[1..] == parts[1..] + [x];
      JoinSnoc(parts[1..], x, c);
    }
  }

  lemma {:induction false} JoinAppend(a: seq<string>, b: seq<string>, c: char)
    requires a != [] && b != []
    ensures Join(a + b, c) == Join(a, c) + [c] + Join(b, c)
    decreases |a|
  {
    if |a| == 1 {
      assert a + b == [a[0]] + b;
      assert (a + b)[1..] == b;
    } else {
      assert (a + b)[1..] == a[1..] + b;
      JoinAppend(a[1..], b, c);
    }
  }

  // ---------------------------------------------------------------------
  // parseInt and parseFloat

  /** The characters JavaScript strips as leading white space. */
  predicate IsSpace(c: char) {
    c == ' ' || c == '\t' || c == '\n' || c == '\r' || c == '\U{B}' || c == '\U{C}'
    || c == '\U{A0}' || c == '\U{1680}' || ('\U{2000}' <= c <= '\U{200A}')
    || c == '\U{2028}' || c == '\U{2029}' || c == '\U{202F}' || c == '\U{205F}'
    || c == '\U{3000}' || c == '\U{FEFF}'
  }

  function TrimStart(s: string): string
    decreases |s|
  {
    if s != [] && IsSpace(s[0]) then TrimStart(s[1..]) else s
  }

  /** The longest run of decimal digits at the start of `s`. */
  function LeadingDigits(s: string): (d: string)
    ensures AllDigits(d) && d <= s
    ensures |d| < |s| ==> !IsDigit(s[|d|])
    decreases |s|
  {
    if s != [] && IsDigit(s[0]) then [s[0]] + LeadingDigits(s[1..]) else []
  }

  /** `s` without a leading `+` or `-`, and whether that sign was `-`. */
  function Unsigned(t: string): (bool, string) {
    if t != [] && (t[0] == '-' || t[0] == '+') then (t[0] == '-', t[1..]) else (false, t)
  }

  datatype ParsedInt = NaN | Int(value: int)

  /** `parseInt(s)` in base 10: leading white space, an optional sign, then the
      longest digit run; no digits gives NaN. */
  function ParseInt(s: string): ParsedInt {
    var (negative, u) := Unsigned(TrimStart(s));
    var d := LeadingDigits(u);
    var v: int := DigitsValue(d);
    if d == [] then NaN else Int(if negative then -v else v)
  }

  /** `parseFloat(s)` for plain decimal notation (digits, optional fraction),
      NaN as `None`; the number is exact. */
  function ParseFloat(s: string): Option<real> {
    var (negative, u) := Unsigned(TrimStart(s));
    match ParseDecimal(u)
    case None => None
    case Some(m) => Some(if negative then -m else m)
  }

  /** The unsigned part of `parseFloat`: a digit run, then optionally `.` and a
      second digit run; at least one digit in all. */
  function ParseDecimal(u: string): Option<real> {
    var whole := LeadingDigits(u);
    var rest := u[|whole|..];
    var fraction := if rest != [] && rest[0] == '.' then LeadingDigits(rest[1..]) else [];
    if whole == [] && fraction == [] then None
    else Some(DecimalValue(whole, fraction))
  }

  /** The number `whole.fraction` denotes. */
  function DecimalValue(whole: string, fraction: string): real
    requires AllDigits(whole) && AllDigits(fraction)
  {
    DigitsValue(whole) as real + Tenths(DigitsValue(fraction) as real, |fraction|)
  }

  /** `x / 10^k` */
  function Tenths(x: real, k: nat): real {
    if k == 0 then x else Tenths(x, k - 1) / 10.0
  }

  /** The fraction's digits count tenths, hundredths, …: `d` after the point
      adds `d / 10^|d|`. */
  lemma DecimalValueOf(whole: string, fraction: string)
    requires AllDigits(whole) && AllDigits(fraction)
    ensures DecimalValue(whole, fraction) == DigitsValue(whole) as real + DigitsValue(fraction) as real / (Pow10(|fraction|) as real)
  {
    TenthsIsDivision(DigitsValue(fraction) as real, |fraction|);
  }

  /** Shifting `k` decimal places divides by `10^k`. */
  lemma {:induction false} TenthsIsDivision(x: real, k: nat)
    ensures Tenths(x, k) == x / (Pow10(k) as real)
  {
    if k > 0 {
      TenthsIsDivision(x, k - 1);
      var p := Pow10(k - 1) as real;
      assert Pow10(k) as real == 10.0 * p;
      assert (x / p) / 10.0 == x / (10.0 * p);
    }
  }

  lemma {:induction false} LeadingDigitsOfRun(d: string, rest: string)
    requires AllDigits(d)
    requires rest == [] || !IsDigit(rest[0])
    ensures LeadingDigits(d + rest) == d
    decreases |d|
  {
    if d == [] {
      assert d + rest == rest;
    } else {
      assert (d + rest)[1..] == d[1..] + rest;
      LeadingDigitsOfRun(d[1..], rest);
      assert [d[0]] + d[1..] == d;
    }
  }

  /** A digit run followed by a non-digit parses to the run's value. */
  lemma ParseIntOfRun(d: string, rest: string)
    requires AllDigits(d) && d != []
    requires rest == [] || !IsDigit(rest[0])
    ensures ParseInt(d + rest) == Int(DigitsValue(d))
  {
    assert (d + rest)[0] == d[0];
    assert TrimStart(d + rest) == d + rest;
    LeadingDigitsOfRun(d, rest);
  }

  // ---------------------------------------------------------------------
  // toFixed(2)

  /** The number of hundredths `x.toFixed(2)` shows for `x >= 0`: the nearest
      one, the larger on a tie. */
  function Hundredths(x: real): nat
    requires x >= 0.0
  {
    (x * 100.0 + 0.5).Floor
  }

  /** `x.toFixed(2)` for `x >= 0`: the whole part, a point, and two digits of
      hundredths, together denoting `x` rounded to the nearest hundredth. */
  function FixedNonNegative(x: real): (r: string)
    requires x >= 0.0
    ensures |r| >= 4 && r[|r| - 3] == '.'
    ensures AllDigits(r[..|r| - 3]) && AllDigits(r[|r| - 2..])
    ensures 100 * DigitsValue(r[..|r| - 3]) + DigitsValue(r[|r| - 2..]) == Hundredths(x)
    ensures r[..|r| - 3] == NatString(Hundredths(x) / 100)
  {
    var n := Hundredths(x);
    var whole := NatString(n / 100);
    var cents := [DigitChar(n % 100 / 10), DigitChar(n % 10)];
    CentsValue(n);
    var r := whole + "." + cents;
    assert r[..|r| - 3] == whole && r[|r| - 2..] == cents;
    r
  }

  lemma CentsValue(n: nat)
    ensures var cents := [DigitChar(n % 100 / 10), DigitChar(n % 10)];
      AllDigits(cents) && DigitsValue(cents) == n % 100
  {
    var cents := [DigitChar(n % 100 / 10), DigitChar(n % 10)];
    assert cents[..1] == [cents[0]] && [cents[0]][..0] == [];
    assert DigitsValue([cents[0]]) == n % 100 / 10;
    assert DigitsValue(cents) == 10 * (n % 100 / 10) + n % 10;
  }

  /** `x.toFixed(2)` on an exact number: a negative number is shown as `-`
      followed by its magnitude. */
  function ToFixed2(x: real): (r: string)
    ensures x < 0.0 ==> r == "-" + FixedNonNegative(-x)
    ensures x >= 0.0 ==> r == FixedNonNegative(x)
  {
    if x < 0.0 then "-" + FixedNonNegative(-x) else FixedNonNegative(x)
  }

  // ---------------------------------------------------------------------
  // Dates

  /** `s.split('T')[0]`: the day part of an ISO timestamp. */
  function DatePart(timestamp: string): (day: string)
    ensures day <= timestamp && 'T' !in day
    ensures 'T' !in timestamp ==> day == timestamp
  {
    var parts := Split(timestamp, 'T');
    assert |parts[0]| < |timestamp| ==> timestamp[|parts[0]|] == 'T';
    parts[0]
  }

  /** The day part of `day + "T" + time` is `day`. */
  lemma DatePartOf(day: string, time: string)
    requires 'T' !in day
    ensures DatePart(day + "T" + time) == day
  {
    var s := day + "T" + time;
    assert s[|day|] == 'T';
    assert forall j :: 0 <= j < |day| ==> s[j] == day[j];
  }
}
