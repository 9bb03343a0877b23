/** The work-order number allocator (`generateParteNumber`) and
    `formatParteNumber`. The store query and the clock are inputs: the
    allocator is a function of what the query for the latest number of the
    year returned and of the current year. */
module ParteUtils {
  import opened Js

  /** What the query "latest-created `numero_parte` ending in `/YY`, limit 1"
      returned: the store's error, or its `data` (null, or the `numero_parte`
      values of the rows, at most one). */
  datatype LatestQuery = QueryError(message: string) | QueryData(data: Option<seq<Value>>)

  datatype AllocationError =
    | QueryFailed(message: string)  // the store error, rethrown
    | NotAString                    // `numero_parte.split` on a value that is not a string

  /** `new Date().getFullYear().toString().slice(-2)` for the given year. */
  function YearSuffix(year: int): (y: string)
    ensures |y| <= 2
  {
    var s := IntString(year);
    if |s| >= 2 then s[|s| - 2..] else s
  }

  /** `n + 1` on the result of `parseInt`: NaN stays NaN. */
  function Increment(n: ParsedInt): ParsedInt {
    match n
    case NaN => NaN
    case Int(i) => Int(i + 1)
  }

  /** `n.toString()` on the result of `parseInt`. */
  function NumberText(n: ParsedInt): string {
    match n
    case NaN => "NaN"
    case Int(i) => IntString(i)
  }

  predicate EndsWith(s: string, t: string) {
    |s| >= |t| && s[|s| - |t|..] == t
  }

  /** `${n.toString().padStart(5, '0')}/${suffix}`: at least five characters
      of number, then the separator and the suffix. */
  function FormatNumber(n: ParsedInt, suffix: string): (r: string)
    ensures |r| >= 6 + |suffix| && EndsWith(r, "/" + suffix)
  {
    var p := PadStart(NumberText(n), 5, '0');
    var r := p + ("/" + suffix);
    assert r[|p|..] == "/" + suffix;
    r
  }

  /** generateParteNumber: a query error is rethrown; no usable previous number
      starts the year at 1; otherwise the digits before the first `/` of the
      latest number are parsed and incremented. */
  function GenerateParteNumber(query: LatestQuery, year: int): (r: Result<string, AllocationError>)
    ensures query.QueryError? ==> r == Failure(QueryFailed(query.message))
    ensures r.Success? ==> EndsWith(r.value, "/" + YearSuffix(year))
  {
    var suffix := YearSuffix(year);
    match query
    case QueryError(message) => Failure(QueryFailed(message))
    case QueryData(data) =>
      if data.Some? && |data.value| > 0 && Truthy(data.value[0]) then
        match data.value[0]
        case Str(s) => Success(FormatNumber(Increment(ParseInt(Split(s, '/')[0])), suffix))
        case _ => Failure(NotAString)
      else
        Success(FormatNumber(Int(1), suffix))
  }

  /** formatParteNumber: an absent or empty number shows as '', anything else
      is shown unchanged. */
  function FormatParteNumber(numeroParte: Value): (r: Value)
    ensures !Truthy(numeroParte) ==> r == Str("")
    ensures Truthy(numeroParte) ==> r == numeroParte
  {
    if !Truthy(numeroParte) then Str("") else numeroParte
  }

  // ---------------------------------------------------------------------
  // Properties

  /** Every number the allocator hands out is shown as it is, and showing a
      shown number again changes nothing. */
  lemma AllocatedShownUnchanged(query: LatestQuery, year: int, v: Value)
    ensures GenerateParteNumber(query, year).Success? ==>
      var numero := GenerateParteNumber(query, year).value;
      FormatParteNumber(Str(numero)) == Str(numero)
    ensures FormatParteNumber(FormatParteNumber(v)) == FormatParteNumber(v)
  {
  }

  /** With no previous number for the year (no row, null data, or an empty
      `numero_parte`), the first number of the year is 00001. */
  lemma FirstNumberOfYear(data: Option<seq<Value>>, year: int)
    requires data.None? || |data.value| == 0 || !Truthy(data.value[0])
    ensures GenerateParteNumber(QueryData(data), year) == Success("00001/" + YearSuffix(year))
  {
    FormatFirst(YearSuffix(year));
  }

  lemma FormatFirst(y: string)
    ensures FormatNumber(Int(1), y) == "00001/" + y
  {
    assert NatString(1) == "1";
    assert Repeat('0', 4) + "1" == "00001";
    assert "00001" + ("/" + y) == "00001/" + y;
  }

  /** A non-empty latest number is read through the part before its first `/`. */
  lemma ReadsFirstPart(rows: seq<Value>, s: string, year: int)
    requires |rows| > 0 && rows[0] == Str(s) && Split(s, '/')[0] != []
    ensures GenerateParteNumber(QueryData(Some(rows)), year)
      == Success(FormatNumber(Increment(ParseInt(Split(s, '/')[0])), YearSuffix(year)))
  {
  }

  /** When the part before the first `/` of the latest number is a digit run
      denoting `n`, the allocated number is `n + 1`. Only that single row is
      consulted, not the largest number of the year. */
  lemma NextAfterLatest(rows: seq<Value>, s: string, n: nat, year: int)
    requires |rows| > 0 && rows[0] == Str(s)
    requires AllDigits(Split(s, '/')[0]) && Split(s, '/')[0] != []
    requires DigitsValue(Split(s, '/')[0]) == n
    ensures GenerateParteNumber(QueryData(Some(rows)), year)
      == Success(FormatNumber(Int(n + 1), YearSuffix(year)))
  {
    var p := Split(s, '/')[0];
    ReadsFirstPart(rows, s, year);
    ParseOfDigits(p);
    IncrementParsed(p, n, YearSuffix(year));
  }

  lemma IncrementParsed(p: string, n: nat, suffix: string)
    requires ParseInt(p) == Int(n)
    ensures FormatNumber(Increment(ParseInt(p)), suffix) == FormatNumber(Int(n + 1), suffix)
  {
  }

  lemma ParseOfDigits(p: string)
    requires AllDigits(p) && p != []
    ensures ParseInt(p) == Int(DigitsValue(p))
  {
    ParseIntOfRun(p, []);
    assert p + [] == p;
  }

  /** Left-padding with zeros keeps the value of the digits. */
  lemma PaddedValue(n: nat)
    ensures var p := PadStart(NatString(n), 5, '0'); AllDigits(p) && DigitsValue(p) == n
  {
    var digits := NatString(n);
    var p := PadStart(digits, 5, '0');
    var zeros := |p| - |digits|;
    assert p == Repeat('0', zeros) + digits;
    LeadingZerosValue(zeros, digits);
  }

  /** A digit run followed by `/` is the first part of the split at `/`. */
  lemma SplitAfterDigits(p: string, suffix: string)
    requires AllDigits(p)
    ensures Split(p + ("/" + suffix), '/')[0] == p
  {
    assert '/' !in p by {
      assert AllDigits(p);
    }
    SplitFirst(p, '/', suffix);
    assert p + ['/'] + suffix == p + ("/" + suffix);
  }

  /** The number part of an allocated identifier is the decimal of `n`,
      left-padded with '0' to five characters and never truncated; splitting
      the identifier at its first `/` gives back that number part, which
      parses to `n`, and the year suffix. */
  lemma NumberRoundTrip(n: nat, suffix: string)
    ensures var out := FormatNumber(Int(n), suffix);
      var p := Split(out, '/')[0];
      && out == p + ("/" + suffix)
      && AllDigits(p) && DigitsValue(p) == n
      && |p| == (if |NatString(n)| >= 5 then |NatString(n)| else 5)
      && p[|p| - |NatString(n)|..] == NatString(n)
  {
    var p := PadStart(NatString(n), 5, '0');
    assert FormatNumber(Int(n), suffix) == p + ("/" + suffix);
    assert AllDigits(p) && DigitsValue(p) == n by {
      PaddedValue(n);
    }
    assert Split(p + ("/" + suffix), '/')[0] == p by {
      SplitAfterDigits(p, suffix);
    }
  }

  /** Feeding an allocated identifier back as the latest number of the year
      yields the next one: successive allocations count 1, 2, 3, ... */
  lemma ReallocationIncrements(n: nat, year: int)
    ensures GenerateParteNumber(QueryData(Some([Str(FormatNumber(Int(n), YearSuffix(year)))])), year)
      == Success(FormatNumber(Int(n + 1), YearSuffix(year)))
  {
    var out := FormatNumber(Int(n), YearSuffix(year));
    NumberRoundTrip(n, YearSuffix(year));
    NextAfterLatest([Str(out)], out, n, year);
  }

  /** For a year of at least two digits the suffix is its last two digits. */
  lemma YearSuffixDigits(year: int)
    requires year >= 10
    ensures |YearSuffix(year)| == 2 && AllDigits(YearSuffix(year))
    ensures DigitsValue(YearSuffix(year)) == year % 100
  {
    var tens, units := DigitChar(year / 10 % 10), DigitChar(year % 10);
    LastTwoDigits(year);
    var y := [tens, units];
    assert y[..1] == [tens] && [tens][..0] == [];
    assert DigitsValue([tens]) == year / 10 % 10;
    assert DigitsValue(y) == 10 * DigitsValue([tens]) + DigitValue(units);
  }

  lemma LastTwoDigits(year: int)
    requires year >= 10
    ensures YearSuffix(year) == [DigitChar(year / 10 % 10), DigitChar(year % 10)]
  {
    var n: nat := year;
    var before := NatString(n / 10);
    var s := NatString(n);
    NatStringSnoc(n);
    LastDigit(n / 10);
    assert IntString(year) == s;
    assert s[|s| - 2..] == [before[|before| - 1], DigitChar(n % 10)];
  }

  /** The decimal of a number of two or more digits ends with its last digit. */
  lemma NatStringSnoc(n: nat)
    requires n >= 10
    ensures NatString(n) == NatString(n / 10) + [DigitChar(n % 10)]
  {
  }

  lemma LastDigit(m: nat)
    ensures NatString(m)[|NatString(m)| - 1] == DigitChar(m % 10)
  {
    if m >= 10 {
      NatStringSnoc(m);
    }
  }

  /** Five digits, the separator and two digits: `^\d{5}/\d{2}$`. */
  predicate WellFormedIdentifier(out: string) {
    |out| == 8 && AllDigits(out[..5]) && out[5] == '/' && AllDigits(out[6..])
  }

  lemma JoinedIdentifier(p: string, y: string)
    requires |p| == 5 && AllDigits(p) && |y| == 2 && AllDigits(y)
    ensures WellFormedIdentifier(p + ("/" + y))
  {
    var out := p + ("/" + y);
    assert out[..5] == p && out[6..] == y;
  }

  /** Numbers below 100000 in a year of at least two digits give identifiers of
      the form `^\d{5}/\d{2}$`. */
  lemma IdentifierShape(n: nat, year: int)
    requires n < 100000 && year >= 10
    ensures WellFormedIdentifier(FormatNumber(Int(n), YearSuffix(year)))
  {
    var y := YearSuffix(year);
    YearSuffixDigits(year);
    assert Pow10(5) == 100000 by {
      assert Pow10(1) == 10 && Pow10(2) == 100 && Pow10(3) == 1000 && Pow10(4) == 10000;
    }
    NatStringShort(n, 5);
    PaddedValue(n);
    var p := PadStart(NatString(n), 5, '0');
    JoinedIdentifier(p, y);
  }

  /** A latest number whose part before `/` starts with a character that is
      neither white space, a sign nor a digit parses to NaN, and the allocator
      then produces the text `00NaN/YY`. */
  lemma NonNumericLatest(rows: seq<Value>, s: string, year: int)
    requires |rows| > 0 && rows[0] == Str(s)
    requires var p := Split(s, '/')[0];
      p != [] && !IsDigit(p[0]) && !IsSpace(p[0]) && p[0] != '-' && p[0] != '+'
    ensures GenerateParteNumber(QueryData(Some(rows)), year) == Success("00NaN/" + YearSuffix(year))
  {
    var p := Split(s, '/')[0];
    ReadsFirstPart(rows, s, year);
    NoLeadingDigit(p);
    FormatNaN(YearSuffix(year));
  }

  lemma NoLeadingDigit(p: string)
    requires p != [] && !IsDigit(p[0]) && !IsSpace(p[0]) && p[0] != '-' && p[0] != '+'
    ensures ParseInt(p) == NaN
  {
    assert TrimStart(p) == p;
  }

  lemma FormatNaN(y: string)
    ensures FormatNumber(NaN, y) == "00NaN/" + y
  {
    assert Repeat('0', 2) + "NaN" == "00NaN";
    assert "00NaN" + ("/" + y) == "00NaN/" + y;
  }

  // ---------------------------------------------------------------------
  // Which row the query returns

  /** A stored work order as far as the query sees it. */
  datatype StoredParte = StoredParte(numeroParte: Value, createdAt: int)

  predicate InYear(p: StoredParte, suffix: string) {
    p.numeroParte.Str? && |p.numeroParte.s| > |suffix|
    && p.numeroParte.s[|p.numeroParte.s| - |suffix| - 1..] == "/" + suffix
  }

  /** `rows` is a correct answer of the query: empty when no number of the year
      exists, otherwise the number of one row of the year created last. */
  predicate AnswersLatestQuery(table: seq<StoredParte>, suffix: string, rows: seq<Value>) {
    if forall i :: 0 <= i < |table| ==> !InYear(table[i], suffix) then rows == []
    else
      exists i :: 0 <= i < |table| && InYear(table[i], suffix) && rows == [table[i].numeroParte]
        && (forall j :: 0 <= j < |table| && InYear(table[j], suffix) ==> table[j].createdAt <= table[i].createdAt)
  }

  /** The example table: 00005/24 created before 00002/24. */
  function ExampleTable(): seq<StoredParte> {
    [StoredParte(Str("00005/24"), 1), StoredParte(Str("00002/24"), 2)]
  }

  lemma ExampleLatestAnswer()
    ensures AnswersLatestQuery(ExampleTable(), "24", [Str("00002/24")])
  {
    var table := ExampleTable();
    assert "00002/24"[5..] == "/24";
    assert InYear(table[1], "24");
    assert forall j :: 0 <= j < |table| && InYear(table[j], "24") ==> table[j].createdAt <= table[1].createdAt;
  }

  lemma Suffix2024()
    ensures YearSuffix(2024) == "24"
  {
    assert NatString(202) == NatString(20) + ['2'];
    assert NatString(20) == NatString(2) + ['0'];
    assert NatString(2024) == "2024";
  }

  lemma AllocationAfter00002()
    ensures GenerateParteNumber(QueryData(Some([Str("00002/24")])), 2024)
      == Success(FormatNumber(Int(3), YearSuffix(2024)))
  {
    var stored := "00002" + ("/" + "24");
    assert stored == "00002/24";
    SplitAfterDigits("00002", "24");
    PaddedValue(2);
    assert NatString(2) == "2";
    assert PadStart("2", 5, '0') == "00002";
    NextAfterLatest([Str(stored)], stored, 2, 2024);
  }

  lemma Format00003()
    ensures FormatNumber(Int(3), "24") == "00003/24"
  {
    assert NatString(3) == "3";
    assert Repeat('0', 4) + "3" == "00003";
    assert "00003" + ("/" + "24") == "00003/24";
  }

  /** The allocator follows the latest-created number, not the largest: with
      00005/24 created before 00002/24, a correct answer of the query is
      00002/24 and the allocator hands out 00003/24, below a number that
      already exists. */
  lemma LatestNotLargest()
    ensures exists rows ::
      (AnswersLatestQuery(ExampleTable(), "24", rows)
       && GenerateParteNumber(QueryData(Some(rows)), 2024) == Success("00003/24"))
  {
    ExampleLatestAnswer();
    Suffix2024();
    AllocationAfter00002();
    Format00003();
    assert GenerateParteNumber(QueryData(Some([Str("00002/24")])), 2024) == Success("00003/24");
  }
}
