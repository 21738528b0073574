/** The names of intermediate files: temp/mr-<map task>-<reduce task>, printed by the worker and taken
    apart again by the coordinator. */
module MrFileNames {
  import opened Linearizability

  const MAX_INT := 0x7fff_ffff_ffff_ffff

  function Digit(d: nat): char
    requires d < 10
  {
    (d + '0' as int) as char
  }

  predicate IsDigit(c: char) {
    '0' <= c <= '9'
  }

  function DigitValue(c: char): nat
    requires IsDigit(c)
  {
    c as int - '0' as int
  }

  /** %d of a number that is not negative. */
  function Decimal(n: nat): string {
    if n < 10 then [Digit(n)] else Decimal(n / 10) + [Digit(n % 10)]
  }

  predicate AllDigits(s: string) {
    forall i {:trigger s[i]} :: 0 <= i < |s| ==> IsDigit(s[i])
  }

  function DecimalValue(s: string): nat
    requires AllDigits(s)
  {
    if s == [] then 0 else 10 * DecimalValue(s[..|s| - 1]) + DigitValue(s[|s| - 1])
  }

  /** strconv.Atoi: an optional sign, at least one digit, and a value that fits an int. */
  function Atoi(s: string): Option<int> {
    var digits := if s != [] && (s[0] == '+' || s[0] == '-') then s[1..] else s;
    if digits == [] || !AllDigits(digits) then None
    else
      var v: int := DecimalValue(digits);
      if s[0] == '-' then (if v <= MAX_INT + 1 then Some(-v) else None)
      else if v <= MAX_INT then Some(v) else None
  }

  /** strings.Split at one character. */
  function Split(s: string, sep: char): (parts: seq<string>)
    ensures parts != []
  {
    if s == [] then [[]]
    else
      var rest := Split(s[1..], sep);
      if s[0] == sep then [[]] + rest else [[s[0]] + rest[0]] + rest[1..]
  }

  function FileName(mapTask: nat, reduceTask: nat): string {
    "temp/mr-" + Decimal(mapTask) + "-" + Decimal(reduceTask)
  }

  /** extractReduceTaskNum; None where it ends the process. */
  function ExtractReduceTaskNum(filename: string): Option<int> {
    var parts := Split(filename, '-');
    if |parts| != 3 then None else Atoi(parts[2])
  }

  lemma {:induction false} DecimalRoundTrip(n: nat)
    ensures Decimal(n) != [] && AllDigits(Decimal(n)) && DecimalValue(Decimal(n)) == n
  {
    if n >= 10 {
      DecimalRoundTrip(n / 10);
      var s := Decimal(n);
      assert s[..|s| - 1] == Decimal(n / 10);
    }
  }

  lemma AtoiInvertsDecimal(n: nat)
    ensures Atoi(Decimal(n)) == if n <= MAX_INT then Some(n) else None
  {
    DecimalRoundTrip(n);
    assert IsDigit(Decimal(n)[0]);
  }

  lemma {:induction false} SplitPlain(s: string, sep: char)
    requires sep !in s
    ensures Split(s, sep) == [s]
  {
    if s != [] {
      SplitPlain(s[1..], sep);
      assert s == [s[0]] + s[1..];
    }
  }

  lemma {:induction false} SplitAt(a: string, b: string, sep: char)
    requires sep !in a
    ensures Split(a + [sep] + b, sep) == [a] + Split(b, sep)
  {
    var s := a + [sep] + b;
    if a == [] {
      assert s[1..] == b;
    } else {
      SplitAt(a[1..], b, sep);
      assert s[1..] == a[1..] + [sep] + b;
      assert a == [a[0]] + a[1..];
    }
  }

  /** The name has exactly three parts between hyphens, the last being `c`. */
  ghost predicate ThreeParts(name: string, a: string, b: string, c: string) {
    name == a + ['-'] + b + ['-'] + c && '-' !in a && '-' !in b && '-' !in c
  }

  lemma SplitThreeParts(name: string, a: string, b: string, c: string)
    requires ThreeParts(name, a, b, c)
    ensures Split(name, '-') == [a, b, c]
  {
    assert name == a + ['-'] + (b + ['-'] + c);
    SplitAt(a, b + ['-'] + c, '-');
    SplitAt(b, c, '-');
    SplitPlain(c, '-');
  }

  lemma NoHyphen(n: nat)
    ensures '-' !in Decimal(n)
  {
    DecimalRoundTrip(n);
    assert !IsDigit('-');
  }

  lemma PartsOfName(mapTask: nat, reduceTask: nat)
    ensures Split(FileName(mapTask, reduceTask), '-') == ["temp/mr", Decimal(mapTask), Decimal(reduceTask)]
  {
    NoHyphen(mapTask);
    NoHyphen(reduceTask);
    assert "temp/mr-" == "temp/mr" + ['-'];
    SplitThreeParts(FileName(mapTask, reduceTask), "temp/mr", Decimal(mapTask), Decimal(reduceTask));
  }

  /** The coordinator reads back exactly the reduce task the worker printed, unless the number does not
      fit an int; then it ends the process. */
  lemma ExtractInvertsFileName(mapTask: nat, reduceTask: nat)
    ensures ExtractReduceTaskNum(FileName(mapTask, reduceTask)) ==
      if reduceTask <= MAX_INT then Some(reduceTask) else None
  {
    PartsOfName(mapTask, reduceTask);
    AtoiInvertsDecimal(reduceTask);
  }

  /** Different tasks write to different files. */
  lemma NamesAreDifferent(m: nat, r: nat, m': nat, r': nat)
    requires FileName(m, r) == FileName(m', r')
    ensures m == m' && r == r'
  {
    PartsOfName(m, r);
    PartsOfName(m', r');
    var parts := Split(FileName(m, r), '-');
    assert parts[1] == Decimal(m) == Decimal(m') && parts[2] == Decimal(r) == Decimal(r');
    DecimalRoundTrip(m);
    DecimalRoundTrip(m');
    DecimalRoundTrip(r);
    DecimalRoundTrip(r');
  }

  // ---------- what the parser takes, exactly ----------

  function Joined(parts: seq<string>, sep: char): string
    requires parts != []
  {
    if |parts| == 1 then parts[0] else parts[0] + [sep] + Joined(parts[1..], sep)
  }

  /** Splitting is undone by joining, and no part has the separator in it. */
  lemma {:induction false} SplitIsUndone(s: string, sep: char)
    ensures Joined(Split(s, sep), sep) == s
    ensures forall i {:trigger Split(s, sep)[i]} :: 0 <= i < |Split(s, sep)| ==> sep !in Split(s, sep)[i]
  {
    if s != [] {
      var rest := Split(s[1..], sep);
      SplitIsUndone(s[1..], sep);
      assert s == [s[0]] + s[1..];
      if s[0] == sep {
        assert ([[]] + rest)[1..] == rest;
      } else {
        assert ([[s[0]] + rest[0]] + rest[1..])[1..] == rest[1..];
      }
    }
  }

  lemma JoinThree(a: string, b: string, c: string, sep: char)
    ensures Joined([a, b, c], sep) == a + [sep] + b + [sep] + c
  {
    var two: seq<string> := [b, c];
    assert [a, b, c][1..] == two && two[1..] == [c];
    assert Joined(two, sep) == b + [sep] + c;
  }

  /** The parser gives a number if and only if the name has exactly three parts and the last is a number;
      otherwise it ends the process. */
  lemma ExtractIsExact(name: string, n: int)
    ensures ExtractReduceTaskNum(name) == Some(n) <==>
      exists a, b, c :: ThreeParts(name, a, b, c) && Atoi(c) == Some(n)
  {
    if ExtractReduceTaskNum(name) == Some(n) {
      var parts := Split(name, '-');
      SplitIsUndone(name, '-');
      assert parts == [parts[0], parts[1], parts[2]];
      JoinThree(parts[0], parts[1], parts[2], '-');
      assert ThreeParts(name, parts[0], parts[1], parts[2]);
    }
    if a, b, c :| ThreeParts(name, a, b, c) && Atoi(c) == Some(n) {
      SplitThreeParts(name, a, b, c);
    }
  }

  function Zeros(k: nat): string {
    seq(k, _ => '0')
  }

  lemma DecimalSnoc(v: nat, d: nat)
    requires v > 0 && d < 10
    ensures Decimal(10 * v + d) == Decimal(v) + [Digit(d)]
  {
    assert (10 * v + d) / 10 == v && (10 * v + d) % 10 == d;
  }

  lemma OneMoreZero(k: nat)
    ensures Zeros(k) + Decimal(0) == Zeros(k + 1)
  {
    assert Decimal(0) == ['0'];
  }

  lemma OneMoreDigit(front: string, k: nat, v: nat, d: nat) returns (k': nat)
    requires front == Zeros(k) + Decimal(v) && d < 10
    ensures front + [Digit(d)] == Zeros(k') + Decimal(10 * v + d)
  {
    if v == 0 {
      k' := k + 1;
      OneMoreZero(k);
      assert Decimal(d) == [Digit(d)];
    } else {
      k' := k;
      DecimalSnoc(v, d);
      assert Zeros(k) + Decimal(v) + [Digit(d)] == Zeros(k) + (Decimal(v) + [Digit(d)]);
    }
  }

  /** A number in digits, with any number of zeros in front. */
  lemma {:induction false} DigitsAreDecimal(s: string) returns (k: nat)
    requires s != [] && AllDigits(s)
    ensures s == Zeros(k) + Decimal(DecimalValue(s))
  {
    var n := |s| - 1;
    var front, d := s[..n], DigitValue(s[n]);
    assert s == front + [Digit(d)];
    if front == [] {
      k := 0;
      assert DecimalValue(front) == 0;
    } else {
      k := DigitsAreDecimal(front);
      k := OneMoreDigit(front, k, DecimalValue(front), d);
    }
  }

  lemma {:induction false} ValueOfConcat(a: string, b: string)
    requires AllDigits(a) && AllDigits(b) && AllDigits(a + b) && DecimalValue(a) == 0
    ensures DecimalValue(a + b) == DecimalValue(b)
    decreases |b|
  {
    if b == [] {
      assert a + b == a;
    } else {
      var n := |b| - 1;
      assert (a + b)[..|a| + n] == a + b[..n];
      ValueOfConcat(a, b[..n]);
    }
  }

  lemma {:induction false} ZerosAreZero(k: nat)
    ensures AllDigits(Zeros(k)) && DecimalValue(Zeros(k)) == 0
  {
    if k > 0 {
      ZerosAreZero(k - 1);
      assert Zeros(k)[..k - 1] == Zeros(k - 1);
    }
  }

  /** The string is the number: a sign that fits it or none, zeros, and its decimal digits. */
  ghost predicate Writes(s: string, n: int, sign: string, k: nat) {
    && s == sign + Zeros(k) + Decimal(if n < 0 then -n else n)
    && (sign == "" || sign == "+" || sign == "-") && (sign == "-" ==> n <= 0) && (sign != "-" ==> n >= 0)
  }

  lemma PaddedValue(k: nat, m: nat, digits: string)
    requires digits == Zeros(k) + Decimal(m)
    ensures digits != [] && AllDigits(digits) && DecimalValue(digits) == m
  {
    ZerosAreZero(k);
    DecimalRoundTrip(m);
    ValueOfConcat(Zeros(k), Decimal(m));
  }

  lemma SignedIsRead(s: string, sign: string, digits: string)
    requires s == sign + digits && digits != [] && AllDigits(digits) && (sign == "" || sign == "+" || sign == "-")
    ensures var v: int := DecimalValue(digits);
      Atoi(s) == if sign == "-" then (if v <= MAX_INT + 1 then Some(-v) else None)
                 else if v <= MAX_INT then Some(v) else None
  {
    assert IsDigit(digits[0]);
    if sign == "" {
      assert s == digits;
    } else {
      assert s[0] == sign[0] && s[1..] == digits;
    }
  }

  lemma WrittenIsRead(s: string, n: int, sign: string, k: nat)
    requires Writes(s, n, sign, k) && -MAX_INT - 1 <= n <= MAX_INT
    ensures Atoi(s) == Some(n)
  {
    var m: nat := if n < 0 then -n else n;
    var digits := Zeros(k) + Decimal(m);
    PaddedValue(k, m, digits);
    assert s == sign + digits;
    SignedIsRead(s, sign, digits);
  }

  /** What stands before the digits. */
  function Sign(s: string): string {
    if s != [] && (s[0] == '+' || s[0] == '-') then [s[0]] else ""
  }

  lemma ReadHasDigits(s: string, n: int) returns (digits: string)
    requires Atoi(s) == Some(n)
    ensures s == Sign(s) + digits && digits != [] && AllDigits(digits)
    ensures DecimalValue(digits) == (if n < 0 then -n else n) && -MAX_INT - 1 <= n <= MAX_INT
    ensures (Sign(s) == "-" ==> n <= 0) && (Sign(s) != "-" ==> n >= 0)
  {
    digits := if Sign(s) != "" then s[1..] else s;
  }

  lemma Regroup(sign: string, zeros: string, digits: string)
    ensures sign + (zeros + digits) == sign + zeros + digits
  {}

  lemma ReadIsWritten(s: string, n: int) returns (sign: string, k: nat)
    requires Atoi(s) == Some(n)
    ensures Writes(s, n, sign, k) && -MAX_INT - 1 <= n <= MAX_INT
  {
    sign := Sign(s);
    var digits := ReadHasDigits(s, n);
    k := DigitsAreDecimal(digits);
    Regroup(sign, Zeros(k), Decimal(DecimalValue(digits)));
  }

  /** Atoi takes exactly the ways to write a number that fits an int, and gives that number. */
  lemma AtoiIsExact(s: string, n: int)
    ensures Atoi(s) == Some(n) <==> -MAX_INT - 1 <= n <= MAX_INT && exists sign, k :: Writes(s, n, sign, k)
  {
    if Atoi(s) == Some(n) {
      var sign, k := ReadIsWritten(s, n);
    }
    if -MAX_INT - 1 <= n <= MAX_INT {
      if sign, k :| Writes(s, n, sign, k) { WrittenIsRead(s, n, sign, k); }
    }
  }
}
