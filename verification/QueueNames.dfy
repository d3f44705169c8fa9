/** File names of the recorder's SD card queue: zero-padded, so that they sort like their numbers
    (firmware/esp32-recorder/src/storage/SdQueue.cpp). */
module QueueNames {
  import opened Strings

  const MIN_DIGITS := 12
  const NUMBER_LIMIT := 1000000000000

  function Pow10(w: nat): nat {
    if w == 0 then 1 else 10 * Pow10(w - 1)
  }

  function Digit(d: nat): char
    requires d < 10
  {
    '0' + d as char
  }

  /** The last w decimal digits of n. */
  function Digits(n: nat, w: nat): string {
    if w == 0 then "" else Digits(n / 10, w - 1) + [Digit(n % 10)]
  }

  function DigitCount(n: nat): nat {
    if n < 10 then 1 else DigitCount(n / 10) + 1
  }

  function Max(a: nat, b: nat): nat {
    if a >= b then a else b
  }

  /** snprintf "Q%012llu". */
  function Stem(n: nat): string {
    "Q" + Digits(n, Max(MIN_DIGITS, DigitCount(n)))
  }

  function WavName(n: nat): string {
    Stem(n) + ".wav"
  }

  function PartialName(n: nat): string {
    WavName(n) + ".partial"
  }

  predicate EndsWith(s: string, suffix: string) {
    |suffix| <= |s| && s[|s| - |suffix|..] == suffix
  }

  lemma EndsWithMeaning(s: string, suffix: string)
    ensures EndsWith(s, suffix) <==> exists front :: s == front + suffix
  {
    if EndsWith(s, suffix) {
      assert s == s[..|s| - |suffix|] + suffix;
    }
    if front :| s == front + suffix {
      assert s[|s| - |suffix|..] == suffix;
    }
  }

  /** What a reader makes of decimal digits. */
  ghost function Number(digits: string): int {
    if digits == "" then 0 else 10 * Number(digits[..|digits| - 1]) + (digits[|digits| - 1] as int - '0' as int)
  }

  lemma {:induction false} DigitsReadBack(n: nat, w: nat)
    requires n < Pow10(w)
    ensures |Digits(n, w)| == w && Number(Digits(n, w)) == n
    ensures forall c :: c in Digits(n, w) ==> '0' <= c <= '9'
  {
    if w > 0 {
      DigitsReadBack(n / 10, w - 1);
      assert Digits(n, w)[..w - 1] == Digits(n / 10, w - 1);
    }
  }

  lemma {:induction false} DigitsSuffice(n: nat)
    ensures n < Pow10(DigitCount(n))
  {
    if n >= 10 {
      DigitsSuffice(n / 10);
    }
  }

  lemma {:induction false} Pow10Grows(v: nat, w: nat)
    requires v <= w
    ensures Pow10(v) <= Pow10(w)
    decreases w
  {
    if v < w {
      Pow10Grows(v, w - 1);
    }
  }

  /** A name is "Q", the number in decimal with at least twelve digits, and ".wav". */
  lemma NameReadsBack(n: nat)
    ensures exists digits: string ::
              && WavName(n) == "Q" + digits + ".wav" && PartialName(n) == "Q" + digits + ".wav.partial"
              && |digits| >= 12 && (n < NUMBER_LIMIT ==> |digits| == 12)
              && Number(digits) == n && forall c :: c in digits ==> '0' <= c <= '9'
  {
    var w := Max(MIN_DIGITS, DigitCount(n));
    DigitsSuffice(n);
    Pow10Grows(DigitCount(n), w);
    DigitsReadBack(n, w);
    var digits := Digits(n, w);
    assert PartialName(n) == "Q" + digits + ".wav.partial" by {
      assert ("Q" + digits + ".wav") + ".partial" == "Q" + digits + (".wav" + ".partial");
    }
    if n < NUMBER_LIMIT {
      Pow10Of12();
      DigitCountBound(n, MIN_DIGITS);
    }
  }

  lemma {:induction false} DigitsOrder(m: nat, n: nat, w: nat, s: string, t: string)
    requires m < n < Pow10(w)
    ensures Less(Digits(m, w) + s, Digits(n, w) + t)
  {
    if w > 0 {
      var p, q := Digits(m / 10, w - 1), Digits(n / 10, w - 1);
      var x, y := [Digit(m % 10)] + s, [Digit(n % 10)] + t;
      assert Digits(m, w) + s == p + x && Digits(n, w) + t == q + y;
      if m / 10 < n / 10 {
        DigitsOrder(m / 10, n / 10, w - 1, x, y);
      } else {
        LessAfterPrefix(p, x, y);
      }
    }
  }

  lemma {:induction false} DigitCountBound(n: nat, w: nat)
    requires n < Pow10(w) && w > 0
    ensures DigitCount(n) <= w
  {
    if n >= 10 {
      DigitCountBound(n / 10, w - 1);
    }
  }

  lemma Pow10Of12()
    ensures Pow10(MIN_DIGITS) == NUMBER_LIMIT
  {
    assert Pow10(4) == 10000;
    assert Pow10(8) == 10000 * Pow10(4);
    assert Pow10(12) == 10000 * Pow10(8);
  }

  /** Below 10^12, names compare as strings exactly as their numbers do. */
  lemma NamesSortLikeNumbers(m: nat, n: nat)
    requires m < NUMBER_LIMIT && n < NUMBER_LIMIT
    ensures Less(WavName(m), WavName(n)) <==> m < n
    ensures WavName(m) == WavName(n) <==> m == n
  {
    Pow10Of12();
    DigitCountBound(m, MIN_DIGITS);
    DigitCountBound(n, MIN_DIGITS);
    var x, y := Digits(m, MIN_DIGITS) + ".wav", Digits(n, MIN_DIGITS) + ".wav";
    assert WavName(m) == "Q" + x && WavName(n) == "Q" + y;
    LessAfterPrefix("Q", x, y);
    LessIsTotal(WavName(m), WavName(n));
    if m < n {
      DigitsOrder(m, n, MIN_DIGITS, ".wav", ".wav");
    } else if n < m {
      DigitsOrder(n, m, MIN_DIGITS, ".wav", ".wav");
      LessAfterPrefix("Q", y, x);
    }
  }

  /** At 10^12 the names gain a digit and the order breaks. */
  lemma NamesBreakAtTheLimit()
    ensures Less(WavName(NUMBER_LIMIT), WavName(NUMBER_LIMIT - 1))
  {
    Pow10Of12();
    DigitCountBound(NUMBER_LIMIT - 1, MIN_DIGITS);
    var big := Digits(NUMBER_LIMIT, 13);
    assert DigitCount(NUMBER_LIMIT) == 13 by {
      assert DigitCount(1000000) == 7;
      assert DigitCount(NUMBER_LIMIT / 1000) == 10;
    }
    Pow10Of11();
    FirstDigit(NUMBER_LIMIT, 12, 1, 0);
    FirstDigit(NUMBER_LIMIT - 1, 11, 9, 99999999999);
    var x, y := Digits(NUMBER_LIMIT, 13) + ".wav", Digits(NUMBER_LIMIT - 1, 12) + ".wav";
    assert WavName(NUMBER_LIMIT) == "Q" + x && WavName(NUMBER_LIMIT - 1) == "Q" + y;
    assert x[0] == '1' && y[0] == '9';
    LessAfterPrefix("Q", x, y);
  }

  lemma Pow10Of11()
    ensures Pow10(11) == 100000000000
  {
    Pow10Of12();
    assert Pow10(12) == 10 * Pow10(11);
  }

  /** With w more digits to come, the first digit is the multiple of 10^w. */
  lemma {:induction false} FirstDigit(n: nat, w: nat, d: nat, r: nat)
    requires n == d * Pow10(w) + r && r < Pow10(w) && d < 10
    ensures |Digits(n, w + 1)| == w + 1
    ensures Digits(n, w + 1)[0] == Digit(d)
  {
    assert Digits(n, w + 1) == Digits(n / 10, w) + [Digit(n % 10)];
    if w > 0 {
      TenTimes(n, d, Pow10(w - 1), r);
      FirstDigit(n / 10, w - 1, d, r / 10);
    }
  }

  lemma TenTimes(n: nat, d: nat, p: nat, r: nat)
    requires n == d * (10 * p) + r
    ensures n / 10 == d * p + r / 10
  {
    var q := d * p;
    assert d * (10 * p) == 10 * q;
  }

  lemma EndsWithLast(s: string, suffix: string)
    requires suffix != ""
    ensures EndsWith(s, suffix) ==> s != "" && s[|s| - 1] == suffix[|suffix| - 1]
  {
    if EndsWith(s, suffix) {
      assert s[|s| - |suffix|..][|suffix| - 1] == s[|s| - 1];
    }
  }

  /** Final and partial names never collide, and only final ones end in ".wav". */
  lemma NamesAreApart(m: nat, n: nat)
    ensures EndsWith(WavName(n), ".wav") && !EndsWith(WavName(n), ".partial")
    ensures EndsWith(PartialName(n), ".partial") && !EndsWith(PartialName(n), ".wav")
    ensures WavName(m) != PartialName(n)
    ensures PartialName(m) == PartialName(n) ==> WavName(m) == WavName(n)
  {
    var p, q := PartialName(n), WavName(n);
    assert p[|p| - 8..] == ".partial" && q[|q| - 4..] == ".wav";
    EndsWithLast(p, ".wav");
    EndsWithLast(q, ".partial");
    EndsWithLast(WavName(m), ".wav");
    assert WavName(m)[|WavName(m)| - 4..] == ".wav";
    if PartialName(m) == p {
      assert PartialName(m)[..|p| - 8] == WavName(m) && p[..|p| - 8] == q;
    }
  }
}
