/**
 The string keys of the transaction index (state/txindex/kv/kv.go): decimal numbers, fields joined by
 slashes, prefixes, and reading a value back from a key.
 */
module TxKeys {
  import opened Wrappers

  const MIN_INT64 := -0x8000_0000_0000_0000
  const MAX_INT64 := 0x7FFF_FFFF_FFFF_FFFF

  predicate IsInt64(n: int) {
    MIN_INT64 <= n <= MAX_INT64
  }

  function Wrap64(n: int): int {
    (n - MIN_INT64) % 0x1_0000_0000_0000_0000 + MIN_INT64
  }

  // Decimal numbers

  function Digit(d: nat): char
    requires d < 10
  {
    ('0' as int + d) as char
  }

  predicate IsDigit(c: char) {
    '0' <= c <= '9'
  }

  function Digits(n: nat): string {
    if n < 10 then [Digit(n)] else Digits(n / 10) + [Digit(n % 10)]
  }

  /** %d and %v of an integer. */
  function Decimal(n: int): string {
    if n < 0 then "-" + Digits(-n) else Digits(n)
  }

  function Value(digits: string): nat
    requires forall c | c in digits :: IsDigit(c)
  {
    if digits == "" then 0
    else
      assert IsDigit(digits[|digits| - 1]);
      Value(digits[..|digits| - 1]) * 10 + (digits[|digits| - 1] as int - '0' as int)
  }

  /** strconv.ParseInt(s, 10, 64) */
  function ParseInt(s: string): Option<int> {
    var digits := if s != "" && (s[0] == '-' || s[0] == '+') then s[1..] else s;
    if digits == "" || exists c | c in digits :: !IsDigit(c) then None
    else
      var n: int := Value(digits);
      var n := if s[0] == '-' then -n else n;
      if IsInt64(n) then Some(n) else None
  }

  lemma {:induction false} DigitsRead(n: nat)
    ensures Digits(n) != "" && (forall c | c in Digits(n) :: IsDigit(c)) && Value(Digits(n)) == n
  {
    if n >= 10 {
      DigitsRead(n / 10);
      assert Digits(n)[..|Digits(n)| - 1] == Digits(n / 10);
    }
  }

  /** A printed 64-bit number is read back. */
  lemma ParseDecimal(n: int)
    requires IsInt64(n)
    ensures ParseInt(Decimal(n)) == Some(n)
  {
    hide Digits, Value;
    if n < 0 {
      DigitsRead(-n);
      assert Decimal(n)[1..] == Digits(-n);
    } else {
      DigitsRead(n);
      assert Digits(n)[0] in Digits(n);
    }
  }

  // What a number looks like

  function Zeros(k: nat): (s: string)
    ensures |s| == k && forall c | c in s :: c == '0'
  {
    seq(k, _ => '0')
  }

  function Magnitude(n: int): nat {
    if n < 0 then -n else n
  }

  /** An optional sign, zeros, and the digits of the magnitude; a minus for no positive number, and no
      other sign for a negative one. */
  ghost predicate Numeral(s: string, n: int) {
    exists k: nat :: NumeralWith(s, n, k)
  }

  predicate NumeralWith(s: string, n: int, k: nat) {
    || (n >= 0 && (s == Zeros(k) + Digits(n) || s == "+" + (Zeros(k) + Digits(n))))
    || (n <= 0 && s == "-" + (Zeros(k) + Digits(-n)))
  }

  /** Printed numbers start with a zero only if they are zero. */
  lemma {:induction false} DigitsCanonical(n: nat)
    ensures Digits(n) != "" && (n > 0 ==> Digits(n)[0] != '0') && Digits(0) == "0"
  {
    if n >= 10 {
      DigitsCanonical(n / 10);
    }
  }

  lemma ValueSnoc(init: string, c: char)
    requires (forall x | x in init :: IsDigit(x)) && IsDigit(c)
    ensures forall x | x in init + [c] :: IsDigit(x)
    ensures var d := c as int - '0' as int;
            0 <= d < 10 && Digit(d) == c && Value(init + [c]) == 10 * Value(init) + d && Value("") == 0
  {
    assert (init + [c])[..|init|] == init;
  }

  lemma DigitsSnoc(v: nat, d: nat)
    requires d < 10
    ensures Digits(d) == [Digit(d)] && (v > 0 ==> Digits(10 * v + d) == Digits(v) + [Digit(d)])
  {
  }

  lemma ZerosMore(k: nat)
    ensures Zeros(k) + "0" == Zeros(k + 1) == "0" + Zeros(k) && Zeros(0) == "" && Digits(0) == "0"
  {
  }

  /** Any string of digits is zeros and the digits of its value. */
  lemma {:induction false} DigitsOfValue(digits: string) returns (k: nat)
    requires digits != "" && forall c | c in digits :: IsDigit(c)
    ensures digits == Zeros(k) + Digits(Value(digits))
  {
    hide Value, Digits, Zeros;
    var n := |digits| - 1;
    var init, c := digits[..n], digits[n];
    assert digits == init + [c];
    ValueSnoc(init, c);
    var d := c as int - '0' as int;
    k := 0;
    ZerosMore(0);
    if init == "" {
      DigitsSnoc(0, d);
    } else {
      k := DigitsOfValue(init);
      var v := Value(init);
      DigitsSnoc(v, d);
      if v == 0 {
        ZerosMore(k);
        k := k + 1;
      } else {
        assert Zeros(k) + Digits(v) + [c] == Zeros(k) + (Digits(v) + [c]);
      }
    }
  }

  lemma {:induction false} ValueOfDigits(k: nat, n: nat)
    ensures var s := Zeros(k) + Digits(n);
            s != "" && (forall c | c in s :: IsDigit(c)) && Value(s) == n
  {
    hide Value, Digits, Zeros;
    DigitsRead(n);
    if k > 0 {
      ValueOfDigits(k - 1, n);
      ZerosMore(k - 1);
      LeadingZero(Zeros(k - 1) + Digits(n));
      assert Zeros(k) + Digits(n) == "0" + (Zeros(k - 1) + Digits(n));
    } else {
      ZerosMore(0);
      assert Zeros(0) + Digits(n) == Digits(n);
    }
  }

  lemma {:induction false} LeadingZero(s: string)
    requires forall c | c in s :: IsDigit(c)
    ensures (forall c | c in "0" + s :: IsDigit(c)) && Value("0" + s) == Value(s)
  {
    if s != "" {
      var n := |s| - 1;
      LeadingZero(s[..n]);
      assert ("0" + s)[..|"0" + s| - 1] == "0" + s[..n];
    }
  }

  lemma ParsedIsNumeral(s: string)
    requires ParseInt(s).Some?
    ensures IsInt64(ParseInt(s).value) && Numeral(s, ParseInt(s).value)
  {
    hide Value, Digits;
    var signed := s[0] == '-' || s[0] == '+';
    var digits := if signed then s[1..] else s;
    var k := DigitsOfValue(digits);
    assert signed ==> s == [s[0]] + digits;
    assert NumeralWith(s, ParseInt(s).value, k);
  }

  lemma NumeralParses(s: string, n: int, k: nat)
    requires IsInt64(n) && NumeralWith(s, n, k)
    ensures ParseInt(s) == Some(n)
  {
    hide Value, Digits;
    ValueOfDigits(k, Magnitude(n));
    var digits := Zeros(k) + Digits(Magnitude(n));
    assert digits[0] in digits;
    assert ("+" + digits)[1..] == digits && ("-" + digits)[1..] == digits;
  }

  /** A string parses to a number if and only if it is a numeral of that 64-bit number. */
  lemma ParseExactly(s: string, n: int)
    ensures ParseInt(s) == Some(n) <==> IsInt64(n) && Numeral(s, n)
  {
    hide ParseInt, NumeralWith;
    if ParseInt(s) == Some(n) {
      ParsedIsNumeral(s);
    }
    if IsInt64(n) && Numeral(s, n) {
      var k: nat :| NumeralWith(s, n, k);
      NumeralParses(s, n, k);
    }
  }

  /** Nothing parses that is empty, or has anything but digits behind its first character, or starts with
      anything but a digit or a sign. */
  lemma NotANumber(s: string, i: nat)
    requires s == "" || (i < |s| && !IsDigit(s[i]) && (i == 0 ==> s[0] != '+' && s[0] != '-'))
    ensures ParseInt(s) == None
  {
    if s != "" && i > 0 {
      assert s[1..][i - 1] == s[i] && s[i] in s && s[i] in s[1..];
    }
  }

  lemma DecimalInjective(m: int, n: int)
    requires IsInt64(m) && IsInt64(n) && Decimal(m) == Decimal(n)
    ensures m == n
  {
    ParseDecimal(m);
    ParseDecimal(n);
  }

  // Fields

  predicate NoSlash(s: string) {
    '/' !in s
  }

  /** A field, a slash, and what follows. */
  function Join(field: string, rest: string): string {
    field + "/" + rest
  }

  /** strings.Count of the separator. */
  function Slashes(s: string): nat {
    if s == "" then 0 else (if s[0] == '/' then 1 else 0) + Slashes(s[1..])
  }

  /** Up to the first slash. */
  function Head(s: string): string {
    if s == "" || s[0] == '/' then "" else [s[0]] + Head(s[1..])
  }

  /** From behind the first slash. */
  function Rest(s: string): string {
    if s == "" then "" else if s[0] == '/' then s[1..] else Rest(s[1..])
  }

  /** isTagKey */
  predicate IsTagKey(key: string) {
    Slashes(key) == 3
  }

  /** extractValueFromKey, of a key with a slash. */
  function ValueOf(key: string): string {
    Head(Rest(key))
  }

  lemma DecimalNoSlash(n: int)
    ensures NoSlash(Decimal(n))
  {
    DigitsRead(if n < 0 then -n else n);
  }

  /** Field by field, a prefix is an equal field and a prefix of the rest. */
  lemma JoinPrefix(a: string, x: string, b: string, y: string)
    requires NoSlash(a) && NoSlash(b)
    ensures Join(a, x) <= Join(b, y) <==> a == b && x <= y
  {
    var s, t := Join(a, x), Join(b, y);
    assert a == b && x <= y ==> s <= t;
    if s <= t {
      assert s[|a|] == '/' && t[|b|] == '/';
      assert a == s[..|a|] && b == t[..|b|];
      assert x == s[|a| + 1..] && y == t[|b| + 1..];
    }
  }

  lemma JoinEqual(a: string, x: string, b: string, y: string)
    requires NoSlash(a) && NoSlash(b)
    ensures Join(a, x) == Join(b, y) <==> a == b && x == y
  {
    JoinPrefix(a, x, b, y);
    JoinPrefix(b, y, a, x);
  }

  lemma {:induction false} JoinSplit(a: string, x: string)
    requires NoSlash(a)
    ensures Head(Join(a, x)) == a && Rest(Join(a, x)) == x && Slashes(Join(a, x)) == 1 + Slashes(x)
  {
    if a == "" {
      assert Join(a, x)[1..] == x;
    } else {
      JoinSplit(a[1..], x);
      assert Join(a, x)[1..] == Join(a[1..], x);
    }
  }

  lemma {:induction false} SlashesNone(s: string)
    requires NoSlash(s)
    ensures Slashes(s) == 0
  {
    if s != "" {
      SlashesNone(s[1..]);
    }
  }
}
