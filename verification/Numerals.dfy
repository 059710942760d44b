/**
 What dstrtol reads from numbers as people write them: leading blanks, a sign, the prefix of a base,
 and digits whose letters may be small or capital.
 */
module Numerals {
  import opened Common
  import opened Text

  const SMALL: string := "0123456789abcdef"
  const CAPITAL: string := "0123456789ABCDEF"

  /** The character stands for digit `d`. */
  predicate StandsFor(c: char, d: int) {
    0 <= d < 16 && (c == SMALL[d] || c == CAPITAL[d])
  }

  predicate IsDigit(c: char, b: int) {
    exists d :: 0 <= d < b && StandsFor(c, d)
  }

  lemma DigitStands(d: nat)
    requires d < 16
    ensures DigitOf(SMALL[d]) == d && DigitOf(CAPITAL[d]) == d
  {
  }

  /** The digits of a base are the first characters of the two lists and no others. */
  lemma DigitsExactly(c: char, b: nat)
    requires 0 < b <= 16
    ensures DigitOf(c) < b <==> IsDigit(c, b)
    ensures DigitOf(c) < b ==> StandsFor(c, DigitOf(c))
  {
    var v := DigitOf(c);
    if v < 16 {
      ListedAt(c);
    }
    if d :| 0 <= d < b && StandsFor(c, d) { DigitStands(d); }
  }

  lemma ListedAt(c: char)
    requires DigitOf(c) < 16
    ensures 0 <= DigitOf(c) && StandsFor(c, DigitOf(c))
  {
  }

  // ---- Numbers and their digits ----

  /** The number with the digits `ds`, the most significant first. */
  function Value(ds: seq<nat>, b: nat): nat {
    if ds == [] then 0 else Value(ds[..|ds| - 1], b) * b + ds[|ds| - 1]
  }

  /** The digits of `n`, without a zero in front. */
  function DigitsIn(n: nat, b: nat): (ds: seq<nat>)
    requires b >= 2
    ensures ds != [] ==> ds[0] != 0
    ensures forall i :: 0 <= i < |ds| ==> ds[i] < b
  {
    if n == 0 then [] else DigitsIn(n / b, b) + [n % b]
  }

  lemma {:induction false} DigitsHaveValue(n: nat, b: nat)
    requires b >= 2
    ensures Value(DigitsIn(n, b), b) == n
  {
    if n > 0 {
      var q, d := QuotientAndRest(n, b);
      DigitsHaveValue(q, b);
      OneMoreDigit(DigitsIn(q, b), q, d, n, b);
    }
  }

  lemma {:induction false} OneMoreDigit(ds: seq<nat>, q: nat, d: nat, n: nat, b: nat)
    requires Value(ds, b) == q && q * b + d == n
    ensures Value(ds + [d], b) == n
  {
    assert (ds + [d])[..|ds|] == ds;
  }

  lemma QuotientAndRest(n: nat, b: nat) returns (q: nat, d: nat)
    requires b >= 2 && n > 0
    ensures q == n / b && d == n % b && q < n && q * b + d == n
  {
    q, d := n / b, n % b;
  }

  /** The characters of `w` stand for the digits `ds`. */
  ghost predicate Spells(w: seq<char>, ds: seq<nat>, b: int) {
    |w| == |ds| && forall i :: 0 <= i < |w| ==> ds[i] < b && StandsFor(w[i], ds[i])
  }

  lemma {:induction false} PositionalGrows(s: seq<char>, i: nat, j: nat, b: nat)
    requires i <= j < |s|
    ensures Positional(s, i, j + 1, b) == Positional(s, i, j, b) * b + DigitOf(s[j])
    decreases j - i
  {
    if i < j {
      PositionalGrows(s, i + 1, j, b);
      Distributed(DigitOf(s[i]), Power(b, j - i - 1), Positional(s, i + 1, j, b), b);
    }
  }

  lemma Distributed(d: int, p: int, rest: int, b: int)
    ensures (d * p + rest) * b == d * (b * p) + rest * b
  {
    assert (d * p) * b == d * (p * b);
  }

  /** What the characters of `w` are worth in their places is the value of the digits they stand for. */
  lemma {:induction false} PositionalIsValue(s: seq<char>, i: nat, w: seq<char>, ds: seq<nat>, b: nat)
    requires i + |w| <= |s| && s[i..i + |w|] == w && Spells(w, ds, b) && 0 < b <= 16
    ensures Positional(s, i, i + |w|, b) == Value(ds, b)
    decreases |w|
  {
    if w != [] {
      var k := |w| - 1;
      assert s[i..i + k] == w[..k] && s[i + k] == w[k];
      PositionalIsValue(s, i, w[..k], ds[..k], b);
      PositionalGrows(s, i, i + k, b);
      DigitStands(ds[k]);
    }
  }

  /** The loop over the digits reads all of them, up to the first character that is none. */
  lemma {:induction false} NumberReads(s: seq<char>, i: nat, e: nat, w: seq<char>, ds: seq<nat>, b: nat)
    requires Ends(s, i, e) && i + |w| <= e && s[i..i + |w|] == w && Spells(w, ds, b) && 0 < b <= 16
    requires !IsDigit(s[i + |w|], b)
    ensures Number(s, i, e, b, 0) == (Wrap(Value(ds, b)), i + |w|)
  {
    NumberStops(s, i, e, w, ds, b);
    PositionalIsValue(s, i, w, ds, b);
    NumberFrom(s, i, e, b, |w|, Value(ds, b));
  }

  lemma NumberStops(s: seq<char>, i: nat, e: nat, w: seq<char>, ds: seq<nat>, b: nat)
    requires Ends(s, i, e) && i + |w| <= e && s[i..i + |w|] == w && Spells(w, ds, b) && 0 < b <= 16
    requires !IsDigit(s[i + |w|], b)
    ensures Number(s, i, e, b, 0).1 == i + |w|
  {
    NumberIs(s, i, e, b, 0);
    var j := Number(s, i, e, b, 0).1;
    DigitsExactly(s[i + |w|], b);
    if j < i + |w| { DigitInside(s, i, w, ds, b, j); }
  }

  lemma NumberFrom(s: seq<char>, i: nat, e: nat, b: nat, k: nat, v: int)
    requires Ends(s, i, e) && 0 < b <= 16 && Number(s, i, e, b, 0).1 == i + k && i + k <= |s|
    requires Positional(s, i, i + k, b) == v
    ensures Number(s, i, e, b, 0) == (Wrap(v), i + k)
  {
    NumberIs(s, i, e, b, 0);
    assert 0 * Power(b, k) == 0;
  }

  lemma DigitInside(s: seq<char>, i: nat, w: seq<char>, ds: seq<nat>, b: nat, j: nat)
    requires i + |w| <= |s| && s[i..i + |w|] == w && Spells(w, ds, b) && 0 < b <= 16 && i <= j < i + |w|
    ensures DigitOf(s[j]) < b
  {
    assert s[j] == w[j - i] && StandsFor(s[j], ds[j - i]);
    DigitStands(ds[j - i]);
  }

  // ---- What stands before the digits ----

  predicate AllBlank(blanks: seq<char>) {
    forall i :: 0 <= i < |blanks| ==> blanks[i] == ' ' || blanks[i] == '\t' || blanks[i] == '\n'
  }

  /** A call with `base` and a number that begins with `prefix` is read in base `b`. */
  predicate Announces(base: int, prefix: seq<char>, b: int) {
    || (prefix == [] && 0 < base == b <= 16)
    || (base == 0 && b == 16 && (prefix == "0x" || prefix == "0X"))
    || (base == 0 && b == 8 && prefix == "0")
    || (base == 0 && b == 10 && prefix == [])
  }

  /**
   Where the parts of a number stand: blanks up to `first`, a sign if it is negative, a prefix up to
   `from`, digits of base `b` up to `stop`.
   */
  datatype Numeral = Numeral(first: nat, negative: bool, from: nat, stop: nat, b: nat)

  function Unsigned(x: Numeral): nat { x.first + if x.negative then 1 else 0 }

  /**
   The numeral with the digits `ds` stands at `start` and ends there: the next character is no digit.
   Without a prefix there is a digit, in base zero one that is not taken for a prefix.
   */
  ghost predicate StandsAt(s: seq<char>, start: nat, e: nat, base: int, x: Numeral, ds: seq<nat>) {
    && Ends(s, start, e) && start <= x.first && Unsigned(x) <= x.from <= x.stop <= e
    && AllBlank(s[start..x.first]) && (x.negative ==> s[x.first] == '-')
    && Announces(base, s[Unsigned(x)..x.from], x.b)
    && Spells(s[x.from..x.stop], ds, x.b) && !IsDigit(s[x.stop], x.b)
    && (x.from == Unsigned(x) ==> ds != [] && (base == 0 ==> ds[0] != 0))
    && (ds == [] && x.b == 8 ==> s[x.stop] != 'x' && s[x.stop] != 'X')
  }

  lemma {:induction false} BlanksSkipped(s: seq<char>, start: nat, e: nat, first: nat)
    requires Ends(s, start, e) && start <= first <= e && AllBlank(s[start..first])
    requires s[first] !in {' ', '\t', '\n'}
    ensures SkipBlanks(s, start, e) == first
    decreases first - start
  {
    if start < first {
      assert s[start] == s[start..first][0] && s[start + 1..first] == s[start..first][1..];
      BlanksSkipped(s, start + 1, e, first);
    }
  }

  /** Behind the sign begins the prefix or the first digit. */
  lemma {:induction false} PrefixRead(s: seq<char>, start: nat, e: nat, base: int, x: Numeral, ds: seq<nat>)
    requires StandsAt(s, start, e, base, x, ds)
    ensures s[Unsigned(x)] !in {' ', '\t', '\n', '-', NUL}
    ensures BaseAt(s, Unsigned(x), e, base) == (x.b, x.from)
  {
    var prefix, digits := s[Unsigned(x)..x.from], s[x.from..x.stop];
    if prefix != [] {
      assert s[Unsigned(x)] == prefix[0] == '0';
      if x.b == 16 {
        assert s[Unsigned(x) + 1] == prefix[1];
      } else if ds != [] {
        assert s[x.from] == digits[0] && StandsFor(digits[0], ds[0]);
      }
    } else {
      assert s[x.from] == digits[0] && StandsFor(digits[0], ds[0]);
    }
  }

  /** The value with its sign. */
  function Meaning(x: Numeral, ds: seq<nat>): int {
    var v: int := Value(ds, x.b);
    if x.negative then -v else v
  }

  lemma {:induction false} DigitsReadAt(s: seq<char>, start: nat, e: nat, base: int, x: Numeral, ds: seq<nat>)
    requires StandsAt(s, start, e, base, x, ds)
    ensures Ends(s, x.from, e) && 0 < x.b <= 16
    ensures Number(s, x.from, e, x.b, 0) == (Wrap(Value(ds, x.b)), x.stop)
  {
    NumberReads(s, x.from, e, s[x.from..x.stop], ds, x.b);
  }

  /** What is read of the parts of a numeral with the unsigned value `v`. */
  ghost predicate InParts(s: seq<char>, start: nat, e: nat, base: int, x: Numeral, v: int) {
    && Ends(s, start, e) && SkipBlanks(s, start, e) == x.first && s[x.first] != NUL
    && (s[x.first] == '-' <==> x.negative) && Unsigned(x) <= e && BaseAt(s, Unsigned(x), e, base) == (x.b, x.from)
    && Ends(s, x.from, e) && 0 < x.b <= 16 && Number(s, x.from, e, x.b, 0) == (Wrap(v), x.stop)
  }

  /** What is read, by what is read of the parts. */
  lemma {:induction false} Assembled(s: seq<char>, start: nat, e: nat, base: int, x: Numeral, v: int)
    requires InParts(s, start, e, base, x, v)
    ensures Strtol(s, start, e, base) == (Wrap(if x.negative then -v else v), x.stop)
  {
    WrapNegated(v);
  }

  /**
   dstrtol reads a numeral as the int that its value wraps to, negated behind a sign, and reports the
   position behind it: in every base up to sixteen, and, called with base zero, in the base its prefix
   announces.
   */
  lemma {:induction false} ReadsNumeral(s: seq<char>, start: nat, e: nat, base: int, x: Numeral, ds: seq<nat>)
    requires StandsAt(s, start, e, base, x, ds)
    ensures Strtol(s, start, e, base) == (Wrap(Meaning(x, ds)), x.stop)
  {
    PartsRead(s, start, e, base, x, ds);
    Assembled(s, start, e, base, x, Value(ds, x.b));
  }

  lemma {:induction false} PartsRead(s: seq<char>, start: nat, e: nat, base: int, x: Numeral, ds: seq<nat>)
    requires StandsAt(s, start, e, base, x, ds)
    ensures InParts(s, start, e, base, x, Value(ds, x.b))
  {
    FrontRead(s, start, e, base, x, ds);
    DigitsReadAt(s, start, e, base, x, ds);
  }

  lemma {:induction false} FrontRead(s: seq<char>, start: nat, e: nat, base: int, x: Numeral, ds: seq<nat>)
    requires StandsAt(s, start, e, base, x, ds)
    ensures SkipBlanks(s, start, e) == x.first && s[x.first] != NUL && (s[x.first] == '-' <==> x.negative)
    ensures BaseAt(s, Unsigned(x), e, base) == (x.b, x.from)
  {
    PrefixRead(s, start, e, base, x, ds);
    BlanksSkipped(s, start, e, x.first);
  }

  lemma WrapNegated(v: int)
    ensures Wrap(-Wrap(v)) == Wrap(-v)
  {
    WrapTimes(v, -1);
  }

  /** Any int written in any base from 2 to 16 is read back, whatever the case of its letters. */
  lemma {:induction false} WrittenAndRead(n: int, s: seq<char>, start: nat, e: nat, base: int, x: Numeral)
    requires IsInt(n) && x.negative == (n < 0) && 2 <= x.b
    requires StandsAt(s, start, e, base, x, DigitsIn(if n < 0 then -n else n, x.b))
    ensures Strtol(s, start, e, base) == (n, x.stop)
  {
    var m := if n < 0 then -n else n;
    DigitsHaveValue(m, x.b);
    ReadsNumeral(s, start, e, base, x, DigitsIn(m, x.b));
  }

  // ---- What ditoa prints ----

  lemma {:induction false} PrintsDigits(n: nat, j: nat)
    requires j >= 1 && n < Pow10(j)
    ensures var text := Digits(n, Pow10(j)).text;
            && |text| == j && (forall i :: 0 <= i < j ==> '0' <= text[i] <= '9')
            && (n >= Pow10(j - 1) ==> text[0] != '0')
    decreases j
  {
    var q := Pow10(j - 1);
    assert Pow10(j) / 10 == q;
    var d := LeadingDigit(n, q);
    var text, rest := Digits(n, Pow10(j)).text, Digits(n % q, q).text;
    assert text == if j > 1 then [DigitChar(d)] + rest else [DigitChar(d)];
    if j > 1 { PrintsDigits(n % q, j - 1); }
  }

  lemma LeadingDigit(n: nat, q: nat) returns (d: nat)
    requires q >= 1 && n < 10 * q
    ensures d == n / q < 10 && n % q < q && (n >= q ==> d > 0)
    ensures '0' <= DigitChar(d) <= '9' && (d > 0 ==> DigitChar(d) != '0')
  {
    d := n / q;
    FirstDigit(n, q, 0);
    assert n == d * q + n % q;
  }

  /** Below 10^9 ditoa prints decimal digits only, and no zero in front. */
  lemma PrintsNoZeroInFront(n: int, rounds: nat)
    requires 0 < n < 10_0000_0000 && rounds >= 9
    ensures var text := DitoaText(n, rounds).text;
            1 <= |text| <= 9 && text[0] != '0' && forall i :: 0 <= i < |text| ==> '0' <= text[i] <= '9'
  {
    var i := FindsPower(n, 0, rounds);
    PrintsDigits(n, i);
    assert DitoaText(n, rounds) == Digits(n, Pow10(i));
  }

  /** What the characters are worth when they count the radices that dividing `k` by ten goes through. */
  function Worth(text: seq<char>, k: nat): int {
    if text == [] then 0 else (text[0] as int - '0' as int) * (k / 10) + Worth(text[1..], k / 10)
  }

  /** Printed with a power `k` that begins with a one, a number below it gets one character for each further digit. */
  lemma {:induction false} PrintsWorth(n: nat, k: nat, m: nat)
    requires m >= 1 && Pow10(m) <= k < 2 * Pow10(m) && n < k
    ensures var w := Digits(n, k); w.completed && |w.text| == m && Worth(w.text, k) == n
    decreases m
  {
    var q := k / 10;
    assert Pow10(m) == 10 * Pow10(m - 1) && Pow10(m - 1) <= q < 2 * Pow10(m - 1);
    var d := Quotient(n, k, q);
    if m > 1 {
      PrintsWorth(n % q, q, m - 1);
      FirstWorth(d, Digits(n % q, q).text, k);
    } else {
      assert q == 1 && n % q == 0;
      FirstWorth(d, [], k);
    }
  }

  lemma Quotient(n: nat, k: nat, q: nat) returns (d: nat)
    requires q >= 1 && q == k / 10 && n < k
    ensures d == n / q < 20 && n % q < q && n == d * q + n % q
  {
    d := n / q;
    assert n == d * q + n % q;
    if d >= 20 { ProductAtLeast(d, 20, q); }
  }

  lemma ProductAtLeast(d: nat, least: nat, q: nat)
    requires d >= least
    ensures d * q >= least * q
  {
    assert (d - least) * q >= 0;
  }

  lemma FirstWorth(d: nat, rest: seq<char>, k: nat)
    requires d < 20
    ensures Worth([DigitChar(d)] + rest, k) == d * (k / 10) + Worth(rest, k / 10)
  {
    assert ([DigitChar(d)] + rest)[1..] == rest;
  }

  lemma {:induction false} SearchFinds(n: int, j: nat, top: nat, rounds: nat)
    requires j <= top <= j + rounds && Wrapped(top) > n && forall i :: j <= i < top ==> Wrapped(i) <= n
    ensures SearchPower(n, Wrapped(j), rounds) == Some(Wrapped(top))
    decreases rounds
  {
    if j < top { SearchFinds(n, j + 1, top, rounds - 1); }
  }

  /** What a power beyond the ints wraps to, the first that is above `n`. */
  function PowerFor(n: int): nat {
    if n < 14_1006_5408 then 14_1006_5408 else 18_7491_9424
  }

  lemma PowerIsFound(n: int, rounds: nat)
    requires 10_0000_0000 <= n < 18_7491_9424 && rounds >= 16
    ensures SearchPower(n, 1, rounds) == Some(PowerFor(n))
  {
    var top := if n < 14_1006_5408 then 10 else 16;
    forall i | 0 <= i < top
      ensures Wrapped(i) <= n
    {
      SmallPower(i, top);
    }
    LargePower(top);
    SearchFinds(n, 0, top, rounds);
  }

  lemma {:induction false} SmallPower(i: nat, top: nat)
    requires i < top && (top == 10 || top == 16)
    ensures Wrapped(i) <= if top == 10 then 10_0000_0000 else 14_1006_5408
  {
    WrappedIs(i);
    SmallEntry(i, top);
  }

  lemma SmallEntry(i: nat, top: nat)
    requires i < top && (top == 10 || top == 16)
    ensures |WRAPPED| == 33 && WRAPPED[i] <= if top == 10 then 10_0000_0000 else 14_1006_5408
  {
  }

  lemma {:induction false} LargePower(j: nat)
    requires j == 10 || j == 16
    ensures Wrapped(j) == if j == 10 then 14_1006_5408 else 18_7491_9424
  {
    WrappedIs(j);
  }

  /**
   From 10^9 on, as long as the search ends, ditoa prints nine characters that count not the powers of
   ten but what dividing the wrapped power by ten goes through.
   */
  lemma PrintsLarge(n: int, rounds: nat)
    requires 10_0000_0000 <= n < 18_7491_9424 && rounds >= 16
    ensures var w := DitoaText(n, rounds);
            w.completed && |w.text| == 9 && Worth(w.text, PowerFor(n)) == n
  {
    PowerIsFound(n, rounds);
    assert Pow10(9) == 10_0000_0000;
    PrintsWorth(n, PowerFor(n), 9);
  }

  /** Of a negative number it prints the sign alone, which reads as zero. */
  lemma NegativeLosesDigits(n: int, rounds: nat, tail: seq<char>, base: int)
    requires n < 0 && 0 <= base <= 16
    ensures var w := DitoaText(n, rounds);
            w.completed && w.text == "-" && Strtol(w.text + [NUL] + tail, 0, 1, base) == (0, 1)
  {
    assert DigitOf(NUL) == 1000;
  }

  // ---- When there is nothing to read ----

  /** Where no number begins, zero is read and the position is that behind the blanks. */
  lemma {:induction false} ReadsNothing(s: seq<char>, start: nat, e: nat, base: int, first: nat)
    requires Ends(s, start, e) && start <= first <= e && AllBlank(s[start..first])
    requires s[first] !in {' ', '\t', '\n'}
    requires s[first] == NUL || base < 0 || base > 16
             || (s[first] != '-' && !IsDigit(s[first], if base == 0 then 10 else base))
    ensures Strtol(s, start, e, base) == (0, first)
  {
    BlanksSkipped(s, start, e, first);
    if 0 <= base <= 16 && s[first] != NUL {
      DigitsExactly(s[first], if base == 0 then 10 else base);
      assert StandsFor('0', 0);
    }
  }
}
