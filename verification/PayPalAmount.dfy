/** Amounts as PayPal writes them: two decimals, printed from minor units and parsed back. */
module PayPalAmount {
  import opened Collections
  import opened Numerals

  const MAX_SAFE: nat := 9007199254740991

  // ----- Doubles -----

  /** Doubles hold integers exactly up to 2^53 and keep their order beyond. */
  ghost predicate Rounding(round: nat -> nat) {
    && (forall n: nat | n <= MAX_SAFE + 1 :: round(n) == n)
    && (forall m: nat, n: nat | m <= n :: round(m) <= round(n))
  }

  /** A quotient below 2^47 is off by at most 1/128, and not at all when it is an integer. */
  predicate RoundedQuotient(x: real, q: real) {
    x - 1.0 / 128.0 <= q <= x + 1.0 / 128.0 && (x == x.Floor as real ==> q == x)
  }

  lemma FloorFrom(q: real, n: int)
    requires n as real <= q < (n + 1) as real
    ensures q.Floor == n
  {
  }

  /** So the truncated double quotient is the integer quotient: 0.99 is further from the next integer than 1/128. */
  lemma TruncationIsExact(amount: nat, q: real)
    requires amount <= MAX_SAFE && RoundedQuotient(amount as real / 100.0, q)
    ensures q.Floor == amount / 100
  {
    var (n, m) := (amount / 100, amount % 100);
    var x := amount as real / 100.0;
    assert amount == 100 * n + m;
    assert x == n as real + m as real / 100.0;
    if m == 0 {
      FloorFrom(x, n);
    } else {
      assert 0.01 <= m as real / 100.0 <= 0.99;
      FloorFrom(q, n);
    }
  }

  // ----- Printing and parsing -----

  function PadStart(s: string): string {
    if |s| == 0 then "00" else if |s| == 1 then "0" + s else s
  }

  /** None for an amount that is negative. */
  function FormatMinorUnits(amount: int): Option<string> {
    if amount < 0 then None else Some(Digits(amount / 100) + "." + PadStart(Digits(amount % 100)))
  }

  /** Digits, a point and two digits. */
  predicate IsAmount(s: string) {
    |s| >= 4 && s[|s| - 3] == '.' && AllDigits(s[..|s| - 3]) && AllDigits(s[|s| - 2..])
  }

  /** One digit or more, a point, and exactly two digits. */
  lemma IsAmountExactly(s: string)
    ensures IsAmount(s) <==> exists major: string, c: char, d: char ::
                               major != "" && AllDigits(major) && IsDigit(c) && IsDigit(d) && s == major + ['.', c, d]
  {
    if IsAmount(s) {
      var (major, c, d) := (s[..|s| - 3], s[|s| - 2], s[|s| - 1]);
      assert s[|s| - 2..] == [c, d] && c in [c, d] && d in [c, d];
      assert s == major + ['.', c, d];
    }
    if major: string, c: char, d: char :| major != "" && AllDigits(major) && IsDigit(c) && IsDigit(d) && s == major + ['.', c, d] {
      assert s[..|s| - 3] == major && s[|s| - 2..] == [c, d];
    }
  }

  lemma {:induction false} PowersMultiply(m: nat, n: nat)
    ensures PowerOfTwo(m + n) == PowerOfTwo(m) * PowerOfTwo(n)
  {
    if n > 0 {
      PowersMultiply(m, n - 1);
    }
  }

  /** The largest safe integer is one less than two to the power of 53. */
  lemma SafeExactly()
    ensures MAX_SAFE == PowerOfTwo(53) - 1
  {
    SmallPowers();
    PowersMultiply(10, 10);
    assert PowerOfTwo(20) == 1048576;
    PowersMultiply(20, 20);
    assert PowerOfTwo(40) == 1099511627776;
    PowersMultiply(40, 10);
    PowersMultiply(50, 3);
  }

  lemma SmallPowers()
    ensures PowerOfTwo(3) == 8 && PowerOfTwo(10) == 1024
  {
    assert PowerOfTwo(2) == 4;
    assert PowerOfTwo(5) == 32 by {
      assert PowerOfTwo(4) == 4 * PowerOfTwo(2);
    }
    PowersMultiply(5, 5);
  }

  function Major(s: string): string
    requires IsAmount(s)
  {
    s[..|s| - 3]
  }

  function Minor(s: string): string
    requires IsAmount(s)
  {
    s[|s| - 2..]
  }

  /** Every conversion and operation rounds; the result must be a safe integer. */
  function ParsePayPalAmount(round: nat -> nat, s: string): Option<nat> {
    if !IsAmount(s) then None
    else
      var amount := round(round(round(Value(Major(s))) * 100) + round(Value(Minor(s))));
      if amount <= MAX_SAFE then Some(amount) else None
  }

  function StripZeros(s: string): string {
    if |s| > 1 && s[0] == '0' then StripZeros(s[1..]) else s
  }

  lemma {:induction false} ValueBound(s: string)
    requires AllDigits(s) && |s| == 2
    ensures Value(s) == 10 * (s[0] as int - '0' as int) + (s[1] as int - '0' as int) <= 99
    ensures s[0] in s && s[1] in s
  {
    assert s[..1] == [s[0]] && [s[0]][..0] == [];
    assert IsDigit(s[0]) && IsDigit(s[1]);
    assert Value([s[0]]) == s[0] as int - '0' as int;
  }

  /** A string is accepted exactly if it is an amount in range, and then no rounding shows. */
  lemma ParseExactly(round: nat -> nat, s: string)
    requires Rounding(round)
    ensures ParsePayPalAmount(round, s)
            == if IsAmount(s) && 100 * Value(Major(s)) + Value(Minor(s)) <= MAX_SAFE
               then Some(100 * Value(Major(s)) + Value(Minor(s))) else None
  {
    if IsAmount(s) {
      var (major, minor) := (Value(Major(s)), Value(Minor(s)));
      ValueBound(Minor(s));
      assert round(minor) == minor;
      if 100 * major + minor <= MAX_SAFE {
        assert round(major) == major && round(100 * major) == 100 * major;
      } else {
        var limit := MAX_SAFE + 1;
        assert round(limit) == limit;
        if major <= limit {
          assert round(major) == major;
          if 100 * major <= limit {
            assert round(100 * major) == 100 * major;
            assert round(limit) <= round(100 * major + minor);
          } else {
            assert round(limit) <= round(100 * major);
            assert round(limit) <= round(round(100 * major) + minor);
          }
        } else {
          assert round(limit) <= round(major);
          assert round(limit) <= round(round(major) * 100);
          assert round(limit) <= round(round(round(major) * 100) + minor);
        }
      }
    }
  }

  lemma DigitsTwo(m: nat)
    requires m < 100
    ensures var s := PadStart(Digits(m)); AllDigits(s) && |s| == 2 && Value(s) == m
  {
    var s := PadStart(Digits(m));
    if m < 10 {
      assert s[..1] == "0" && "0"[..0] == "";
      assert Value("0") == 0;
      assert forall c | c in s :: IsDigit(c);
    } else {
      assert |Digits(m / 10)| == 1;
      ValueOfDigits(m);
    }
  }

  lemma SplitAtPoint(major: string, minor: string)
    requires AllDigits(major) && AllDigits(minor) && |major| > 0 && |minor| == 2
    ensures var s := major + "." + minor; IsAmount(s) && Major(s) == major && Minor(s) == minor
  {
  }

  /** Every amount a double holds exactly survives printing and parsing. */
  lemma ParseOfFormat(round: nat -> nat, amount: nat)
    requires Rounding(round) && amount <= MAX_SAFE
    ensures FormatMinorUnits(amount).Some?
    ensures ParsePayPalAmount(round, FormatMinorUnits(amount).value) == Some(amount)
  {
    DigitsTwo(amount % 100);
    ValueOfDigits(amount / 100);
    SplitAtPoint(Digits(amount / 100), PadStart(Digits(amount % 100)));
    ParseExactly(round, FormatMinorUnits(amount).value);
  }

  lemma {:induction false} StripZerosLast(s: string, c: char)
    requires s != ""
    ensures StripZeros(s + [c]) == if StripZeros(s) == "0" then [c] else StripZeros(s) + [c]
  {
    if |s| > 1 && s[0] == '0' {
      assert (s + [c])[1..] == s[1..] + [c];
      StripZerosLast(s[1..], c);
    } else if s == "0" {
      assert (s + [c])[1..] == [c];
    }
  }

  lemma {:induction false} DigitsOfValue(s: string)
    requires s != "" && AllDigits(s)
    ensures Digits(Value(s)) == StripZeros(s)
  {
    var last := |s| - 1;
    var (t, c) := (s[..last], s[last]);
    assert c in s && IsDigit(c) && s == t + [c];
    if t != "" {
      assert AllDigits(t);
      DigitsOfValue(t);
      StripZerosLast(t, c);
      if Value(t) == 0 {
        assert StripZeros(t) == "0";
      } else {
        assert StripZeros(t) != "0" by { assert Digits(Value(t))[0] != '0'; }
        assert Value(s) / 10 == Value(t) && Value(s) % 10 == c as int - '0' as int;
      }
    } else {
      assert Value(s) == c as int - '0' as int;
    }
  }

  /** Printing a parsed amount gives the string back, less the redundant zeros in front. */
  lemma FormatOfParse(round: nat -> nat, s: string)
    requires Rounding(round) && ParsePayPalAmount(round, s).Some?
    ensures IsAmount(s)
    ensures FormatMinorUnits(ParsePayPalAmount(round, s).value) == Some(StripZeros(Major(s)) + "." + Minor(s))
  {
    ParseExactly(round, s);
    var (major, minor) := (Value(Major(s)), Value(Minor(s)));
    ValueBound(Minor(s));
    DigitsOfValue(Major(s));
    PadGivesBack(Minor(s));
    assert (100 * major + minor) / 100 == major && (100 * major + minor) % 100 == minor;
  }

  lemma PadGivesBack(s: string)
    requires AllDigits(s) && |s| == 2
    ensures PadStart(Digits(Value(s))) == s
  {
    ValueBound(s);
    DigitsOfValue(s);
    assert s == [s[0]] + [s[1]] && s[1..] == [s[1]];
  }
}
