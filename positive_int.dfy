/**
  The validator headr applies to its `-n` and `-c` option values
  (`parse_positive_int` in solutions/headr/src/lib.rs): a decimal string is
  accepted when Rust's `str::parse::<usize>` accepts it and the number is
  not zero; otherwise the error message is the input string itself.
 */
module PositiveInt {
  import opened Results

  /** Largest value of Rust's `usize` on a 64-bit target. */
  const USIZE_MAX: nat := 0xFFFF_FFFF_FFFF_FFFF

  predicate IsDigit(c: char) {
    '0' <= c <= '9'
  }

  predicate AllDigits(s: string) {
    forall i :: 0 <= i < |s| ==> IsDigit(s[i])
  }

  function DigitValue(c: char): (d: nat)
    requires IsDigit(c)
    ensures d < 10
  {
    c as int - '0' as int
  }

  function DigitChar(d: nat): (c: char)
    requires d < 10
    ensures IsDigit(c) && DigitValue(c) == d
  {
    ('0' as int + d) as char
  }

  /** The number a string of decimal digits denotes, most significant digit first. */
  function Value(s: string): nat
    requires AllDigits(s)
  {
    if |s| == 0 then 0 else Value(s[..|s| - 1]) * 10 + DigitValue(s[|s| - 1])
  }

  /** The canonical decimal rendering of `n` (no sign, no leading zeros), as Rust's `to_string` prints it. */
  function Decimal(n: nat): (s: string)
    ensures |s| > 0 && AllDigits(s)
    ensures s[0] != '0' || n == 0
  {
    if n < 10 then [DigitChar(n)] else Decimal(n / 10) + [DigitChar(n % 10)]
  }

  /** A run of `k` zero digits. */
  function Zeros(k: nat): (s: string)
    ensures |s| == k && AllDigits(s)
    ensures forall i :: 0 <= i < k ==> s[i] == '0'
  {
    if k == 0 then [] else ['0'] + Zeros(k - 1)
  }

  /**
    Rust's `str::parse::<usize>`: an optional leading `+`, then at least one
    decimal digit and nothing else; a value above `USIZE_MAX` is an overflow
    error. `None` stands for every kind of `ParseIntError`.
   */
  function ParseUsize(s: string): (r: Option<nat>)
    ensures r.Some? ==> r.value <= USIZE_MAX
  {
    var digits := if |s| > 0 && s[0] == '+' then s[1..] else s;
    if |digits| == 0 || !AllDigits(digits) || Value(digits) > USIZE_MAX then None
    else Some(Value(digits))
  }

  /** `parse_positive_int`: the parsed number when it is above zero, otherwise the input as the error. */
  function ParsePositiveInt(val: string): (r: Result<nat, string>)
    ensures r.Ok? ==> 0 < r.value <= USIZE_MAX
    ensures r.Err? ==> r.error == val
  {
    match ParseUsize(val)
    case Some(num) => if num > 0 then Ok(num) else Err(val)
    case None => Err(val)
  }

  /**
    The strings that denote the positive `usize` value `n`: its decimal
    rendering, possibly after leading zeros, possibly after one `+`.
   */
  ghost predicate Denotes(s: string, n: nat) {
    0 < n <= USIZE_MAX &&
    exists k: nat :: s == Zeros(k) + Decimal(n) || s == "+" + Zeros(k) + Decimal(n)
  }

  lemma {:induction false} ValueOfZeros(k: nat)
    ensures Value(Zeros(k)) == 0
  {
    if k > 0 {
      assert Zeros(k)[..k - 1] == Zeros(k - 1);
      ValueOfZeros(k - 1);
    }
  }

  /** Leading zeros do not change the value of a digit string. */
  lemma {:induction false} ValueIgnoresLeadingZeros(k: nat, d: string)
    requires AllDigits(d)
    ensures AllDigits(Zeros(k) + d) && Value(Zeros(k) + d) == Value(d)
    decreases |d|
  {
    var z := Zeros(k) + d;
    assert AllDigits(z) by {
      forall i | 0 <= i < |z| ensures IsDigit(z[i]) {
        if i < k { assert z[i] == Zeros(k)[i]; } else { assert z[i] == d[i - k]; }
      }
    }
    if |d| == 0 {
      assert z == Zeros(k);
      ValueOfZeros(k);
    } else {
      var d' := d[..|d| - 1];
      assert z[..|z| - 1] == Zeros(k) + d';
      assert z[|z| - 1] == d[|d| - 1];
      ValueIgnoresLeadingZeros(k, d');
    }
  }

  /** The rendering of `n` denotes `n`. */
  lemma {:induction false} ValueOfDecimal(n: nat)
    ensures Value(Decimal(n)) == n
  {
    if n >= 10 {
      var s := Decimal(n);
      assert s[..|s| - 1] == Decimal(n / 10);
      ValueOfDecimal(n / 10);
    }
  }

  /** A digit string without a leading zero is positive. */
  lemma {:induction false} ValuePositive(d: string)
    requires |d| > 0 && AllDigits(d) && d[0] != '0'
    ensures Value(d) > 0
    decreases |d|
  {
    if |d| > 1 {
      ValuePositive(d[..|d| - 1]);
    }
  }

  /** A digit string without a leading zero is the rendering of its own value. */
  lemma {:induction false} DecimalOfValue(d: string)
    requires |d| > 0 && AllDigits(d) && d[0] != '0'
    ensures Decimal(Value(d)) == d
    decreases |d|
  {
    if |d| > 1 {
      var d' := d[..|d| - 1];
      var c := d[|d| - 1];
      ValuePositive(d');
      DecimalOfValue(d');
      var v := Value(d);
      assert v == Value(d') * 10 + DigitValue(c);
      assert v / 10 == Value(d') && v % 10 == DigitValue(c);
      assert DigitChar(DigitValue(c)) == c;
      assert d == d' + [c];
    }
  }

  /** Every digit string of positive value is some leading zeros followed by the rendering of that value. */
  lemma {:induction false} SplitLeadingZeros(d: string) returns (k: nat)
    requires AllDigits(d) && Value(d) > 0
    ensures k < |d| && d == Zeros(k) + Decimal(Value(d))
    decreases |d|
  {
    if |d| > 0 && d[0] == '0' {
      var rest := d[1..];
      assert d == Zeros(1) + rest;
      ValueIgnoresLeadingZeros(1, rest);
      var j := SplitLeadingZeros(rest);
      k := j + 1;
      assert d == ['0'] + (Zeros(j) + Decimal(Value(rest)));
    } else {
      k := 0;
      DecimalOfValue(d);
      assert Zeros(0) + d == d;
    }
  }

  /** What `parse_positive_int` accepts denotes the number it returns. */
  lemma {:induction false} AcceptedDenotes(s: string, n: nat)
    requires ParsePositiveInt(s) == Ok(n)
    ensures Denotes(s, n)
  {
    var digits := if |s| > 0 && s[0] == '+' then s[1..] else s;
    assert ParseUsize(s) == Some(n);
    assert AllDigits(digits) && Value(digits) == n;
    var k := SplitLeadingZeros(digits);
    if |s| > 0 && s[0] == '+' {
      assert s == "+" + digits;
    } else {
      assert s == digits;
    }
  }

  /** Leading zeros followed by the rendering of a positive `usize` parse to that number without a sign. */
  lemma {:induction false} ZerosDecimalParses(k: nat, n: nat)
    requires 0 < n <= USIZE_MAX
    ensures var d := Zeros(k) + Decimal(n);
      |d| > 0 && d[0] != '+' && ParseUsize(d) == Some(n)
  {
    var d := Zeros(k) + Decimal(n);
    ValueIgnoresLeadingZeros(k, Decimal(n));
    ValueOfDecimal(n);
    assert IsDigit(d[0]);
  }

  /** One leading `+` before an unsigned digit string does not change how it parses. */
  lemma PlusIgnored(d: string)
    requires |d| > 0 && d[0] != '+'
    ensures ParseUsize("+" + d) == ParseUsize(d)
  {
    assert ("+" + d)[1..] == d;
  }

  /** Every string that denotes a positive `usize` parses to that number. */
  lemma {:induction false} DenotedAccepted(s: string, n: nat, k: nat)
    requires 0 < n <= USIZE_MAX
    requires s == Zeros(k) + Decimal(n) || s == "+" + Zeros(k) + Decimal(n)
    ensures ParsePositiveInt(s) == Ok(n)
  {
    var d := Zeros(k) + Decimal(n);
    ZerosDecimalParses(k, n);
    if s != d {
      assert s == "+" + d;
      PlusIgnored(d);
    }
    assert ParseUsize(s) == Some(n);
  }

  /** `parse_positive_int` accepts exactly the strings that denote a positive `usize`, and returns that number. */
  lemma ParsePositiveIntAccepts(s: string, n: nat)
    ensures ParsePositiveInt(s) == Ok(n) <==> Denotes(s, n)
  {
    if ParsePositiveInt(s) == Ok(n) { AcceptedDenotes(s, n); }
    if Denotes(s, n) {
      var k: nat :| s == Zeros(k) + Decimal(n) || s == "+" + Zeros(k) + Decimal(n);
      DenotedAccepted(s, n, k);
    }
  }

  /** `parse_positive_int` fails, with the input itself as the message, exactly on the strings that denote no positive `usize`. */
  lemma ParsePositiveIntRejects(s: string)
    ensures ParsePositiveInt(s) == Err(s) <==> forall n: nat :: !Denotes(s, n)
  {
    match ParsePositiveInt(s)
    case Ok(m) =>
      ParsePositiveIntAccepts(s, m);
    case Err(_) =>
      forall n: nat ensures !Denotes(s, n) {
        ParsePositiveIntAccepts(s, n);
      }
  }

  /** Rendering a positive `usize` and parsing it back gives the same number. */
  lemma ParsePositiveIntRoundTrip(n: nat)
    requires 0 < n <= USIZE_MAX
    ensures ParsePositiveInt(Decimal(n)) == Ok(n)
  {
    assert Decimal(n) == Zeros(0) + Decimal(n);
    ParsePositiveIntAccepts(Decimal(n), n);
  }

  /** One past `USIZE_MAX` overflows and is rejected. */
  lemma ParsePositiveIntOverflow()
    ensures ParsePositiveInt(Decimal(USIZE_MAX + 1)) == Err(Decimal(USIZE_MAX + 1))
  {
    ValueOfDecimal(USIZE_MAX + 1);
  }

  /** The cases of the repository's unit test `test_parse_positive_int`. */
  lemma ParsePositiveIntExamples()
    ensures ParsePositiveInt("3") == Ok(3)
    ensures ParsePositiveInt("foo") == Err("foo")
    ensures ParsePositiveInt("0") == Err("0")
  {
    assert Value("3") == 3 by { assert "3"[..0] == ""; }
    assert !IsDigit('f');
    assert Value("0") == 0 by { assert "0"[..0] == ""; }
  }
}
