/**
 ditoa and dstrtol of os/misc.c, over 32-bit integers that wrap round. A string is what precedes the
 first zero character of a buffer.
 */
module Text {
  import opened Common

  // ---- ditoa ----

  /** The search for a power of ten above `n` from `k` on, if it ends within `rounds` multiplications. */
  function SearchPower(n: int, k: int, rounds: nat): Option<int>
    decreases rounds
  {
    if k > n then Some(k)
    else if rounds == 0 then None
    else SearchPower(n, Wrap(k * 10), rounds - 1)
  }

  function DigitChar(d: int): char { ((48 + d) % 256) as char }

  /** What has been written, and whether ditoa got to its end. */
  datatype Written = Written(text: seq<char>, completed: bool)

  /** The digits of `n` when the power found is `k`, up to a division by zero if there is one. */
  function Digits(n: nat, k: nat): Written
    decreases k
  {
    var q := k / 10;
    if q == 0 then Written([], false)
    else if q == 1 then Written([DigitChar(n / q)], true)
    else var rest := Digits(n % q, q); Written([DigitChar(n / q)] + rest.text, rest.completed)
  }

  /** After a sign nothing is written; a search for the power that does not end within `rounds` writes nothing. */
  function DitoaText(n: int, rounds: nat): Written {
    if n < 0 then Written(['-'], true)
    else if n == 0 then Written(['0'], true)
    else match SearchPower(n, 1, rounds)
      case None => Written([], false)
      case Some(k) => if k < 0 then Written([], false) else Digits(n, k)
  }

  method Ditoa(n: int, buf: array<char>, rounds: nat) returns (completed: bool)
    requires IsInt(n) && |DitoaText(n, rounds).text| < buf.Length
    modifies buf
    ensures var w := DitoaText(n, rounds);
            && completed == w.completed
            && buf[..|w.text|] == w.text
            && (completed ==> buf[|w.text|] == NUL)
            && buf[|w.text| + 1..] == old(buf[|w.text| + 1..])
  {
    ghost var w := DitoaText(n, rounds);
    var at := 0;
    if n < 0 {
      buf[at] := '-';
      at := 1;
    } else if n == 0 {
      buf[at] := '0';
      at := 1;
    } else {
      var k, round := 1, 0;
      while k <= n && round < rounds
        invariant round <= rounds && IsInt(k)
        invariant SearchPower(n, 1, rounds) == SearchPower(n, k, rounds - round)
        decreases rounds - round
      {
        k := Wrap(k * 10);
        round := round + 1;
      }
      if k <= n { return false; }
      completed, at := WriteDigits(n, k, buf);
      if !completed { return; }
    }
    buf[at] := NUL;
    completed := true;
  }

  /** The loop of ditoa that divides the power down to one. */
  method WriteDigits(n: nat, power: nat, buf: array<char>) returns (completed: bool, at: nat)
    requires power > 0 && |Digits(n, power).text| < buf.Length
    modifies buf
    ensures var w := Digits(n, power);
            completed == w.completed && at == |w.text| && buf[..at] == w.text && buf[at..] == old(buf[at..])
  {
    ghost var w := Digits(n, power);
    var left: nat, k: nat, more := n, power, true;
    at := 0;
    while more
      invariant k > 0 && at <= |w.text|
      invariant StillToWrite(w, buf[..at], left, k, more)
      invariant buf[at..] == old(buf[at..])
      decreases more, k
    {
      ghost var before := buf[..at];
      if k / 10 == 0 {
        return false, at;
      }
      var c;
      c, left := NextDigit(w, before, left, k);
      k := k / 10;
      more := k > 1;
      buf[at] := c;
      at := at + 1;
      assert buf[..at] == before + [c];
    }
    completed := true;
  }

  /** `w` is what has been written so far followed by the digits of `left` below the power `k`. */
  ghost predicate StillToWrite(w: Written, sofar: seq<char>, left: nat, k: nat, more: bool) {
    w == if more then Written(sofar + Digits(left, k).text, Digits(left, k).completed) else Written(sofar, true)
  }

  /** The division of one round. */
  method NextDigit(ghost w: Written, ghost sofar: seq<char>, left: nat, k: nat) returns (c: char, remainder: nat)
    requires StillToWrite(w, sofar, left, k, true) && k / 10 > 0
    ensures |sofar| < |w.text| && StillToWrite(w, sofar + [c], remainder, k / 10, k / 10 > 1)
    ensures c == DigitChar(left / (k / 10)) && remainder == left % (k / 10)
  {
    c, remainder := DigitChar(left / (k / 10)), left % (k / 10);
  }

  // ---- dstrtol ----

  /** A zero character ends the string at `e`. */
  predicate Ends(s: seq<char>, i: int, e: int) {
    0 <= i <= e < |s| && s[e] == NUL
  }

  predicate IsBlank(c: char) { c == ' ' || c == '\t' || c == '\n' }

  /** The digit a character stands for, or one too large for any base. */
  function DigitOf(c: char): int {
    if '0' <= c <= '9' then c as int - '0' as int
    else if 'a' <= c <= 'z' then c as int + 10 - 'a' as int
    else if 'A' <= c <= 'Z' then c as int + 10 - 'A' as int
    else 1000
  }

  function SkipBlanks(s: seq<char>, i: nat, e: nat): (r: nat)
    requires Ends(s, i, e)
    ensures i <= r <= e
    decreases e - i
  {
    if IsBlank(s[i]) then SkipBlanks(s, i + 1, e) else i
  }

  /** The int value after one more digit. */
  function Append(v: int, base: int, d: int): int {
    Wrap(Wrap(v * base) + d)
  }

  /** The number read from position `i` on behind the value `v`, and the position of the first character not read. */
  function Number(s: seq<char>, i: nat, e: nat, base: int, v: int): (r: (int, nat))
    requires Ends(s, i, e) && 0 < base <= 16
    ensures i <= r.1 <= e
    decreases e - i
  {
    var d := DigitOf(s[i]);
    if d < base then Number(s, i + 1, e, base, Append(v, base, d)) else (v, i)
  }

  /** The base and the position behind its prefix. */
  function BaseAt(s: seq<char>, i: nat, e: nat, base: int): (r: (int, nat))
    requires Ends(s, i, e)
    ensures i <= r.1 <= e
  {
    if base != 0 then (base, i)
    else if s[i] != '0' then (10, i)
    else if s[i + 1] == 'x' || s[i + 1] == 'X' then (16, i + 2)
    else (8, i + 1)
  }

  /** The value dstrtol returns and the position it reports. */
  function Strtol(s: seq<char>, start: nat, e: nat, base: int): (int, nat)
    requires Ends(s, start, e)
  {
    var first := SkipBlanks(s, start, e);
    if s[first] == NUL then (0, first) else Signed(s, first, e, base)
  }

  /** What is read behind the leading blanks: sign, prefix of the base, digits. */
  function Signed(s: seq<char>, first: nat, e: nat, base: int): (int, nat)
    requires Ends(s, first, e) && s[first] != NUL
  {
    var negative := s[first] == '-';
    var (b, i) := BaseAt(s, if negative then first + 1 else first, e, base);
    if b <= 0 || b > 16 then (0, first)
    else
      var (v, at) := Number(s, i, e, b, 0);
      (if negative then Wrap(-v) else v, at)
  }

  method Dstrtol(s: seq<char>, start: nat, ghost e: nat, base: int) returns (v: int, newpos: nat)
    requires Ends(s, start, e)
    ensures (v, newpos) == Strtol(s, start, e, base)
  {
    var c := SkipSpace(s, start, e);
    v, newpos := 0, c;
    if s[c] == NUL { return; }
    v, newpos := ReadSigned(s, c, e, base);
  }

  /** The part of dstrtol behind the leading blanks. */
  method ReadSigned(s: seq<char>, first: nat, ghost e: nat, base: int) returns (v: int, newpos: nat)
    requires Ends(s, first, e) && s[first] != NUL
    ensures (v, newpos) == Signed(s, first, e, base)
  {
    var c := first;
    v, newpos := 0, c;
    var sign := 1;
    if s[c] == '-' {
      sign := -1;
      c := c + 1;
    }
    var b;
    b, c := ReadBase(s, c, e, base);
    if b <= 0 || b > 16 { return; }
    v, newpos := ReadNumber(s, c, e, b);
    if sign < 0 { v := Wrap(-v); }
  }

  /** The loop of dstrtol over leading blanks. */
  method SkipSpace(s: seq<char>, start: nat, ghost e: nat) returns (c: nat)
    requires Ends(s, start, e)
    ensures c == SkipBlanks(s, start, e)
  {
    c := start;
    while s[c] == ' ' || s[c] == '\t' || s[c] == '\n'
      invariant start <= c <= e && SkipBlanks(s, start, e) == SkipBlanks(s, c, e)
      decreases e - c
    {
      c := c + 1;
    }
  }

  /** The part of dstrtol that finds the base. */
  method ReadBase(s: seq<char>, from: nat, ghost e: nat, base: int) returns (b: int, c: nat)
    requires Ends(s, from, e)
    ensures (b, c) == BaseAt(s, from, e, base)
  {
    b, c := base, from;
    if b == 0 {
      if s[c] == '0' {
        c := c + 1;
        if s[c] == 'x' || s[c] == 'X' {
          b := 16;
          c := c + 1;
        } else {
          b := 8;
        }
      } else {
        b := 10;
      }
    }
  }

  /** The loop of dstrtol over the digits. */
  method ReadNumber(s: seq<char>, from: nat, ghost e: nat, base: int) returns (v: int, c: nat)
    requires Ends(s, from, e) && 0 < base <= 16
    ensures (v, c) == Number(s, from, e, base, 0)
  {
    v, c := 0, from;
    var curdigit := DigitOf(s[c]);
    while curdigit < base
      invariant from <= c <= e && curdigit == DigitOf(s[c])
      invariant Number(s, from, e, base, 0) == Number(s, c, e, base, v)
      decreases e - c
    {
      v := Append(v, base, curdigit);
      c := c + 1;
      curdigit := DigitOf(s[c]);
    }
  }

  // ---- What is read, in any base ----

  function Power(b: nat, k: nat): nat {
    if k == 0 then 1 else b * Power(b, k - 1)
  }

  /** The positional value of the digits from `i` up to `j`. */
  function Positional(s: seq<char>, i: nat, j: nat, b: nat): int
    requires i <= j <= |s|
    decreases j - i
  {
    if i == j then 0 else DigitOf(s[i]) * Power(b, j - i - 1) + Positional(s, i + 1, j, b)
  }

  lemma WrapTwice(x: int, y: int)
    ensures Wrap(Wrap(x) + y) == Wrap(x + y)
  {
  }

  /** Multiples of 2^32 make no difference. */
  lemma WrapPlus(x: int, c: int)
    ensures Wrap(x + 0x1_0000_0000 * c) == Wrap(x)
  {
  }

  lemma WrapTimes(x: int, b: int)
    ensures Wrap(Wrap(x) * b) == Wrap(x * b)
  {
    var c := (x + 0x8000_0000) / 0x1_0000_0000;
    assert Wrap(x) == x - 0x1_0000_0000 * c;
    assert Wrap(x) * b == x * b + 0x1_0000_0000 * (-c * b);
    WrapPlus(x * b, -c * b);
  }

  lemma AppendWraps(x: int, b: int, d: int)
    ensures Append(Wrap(x), b, d) == Wrap(x * b + d)
  {
    WrapTimes(x, b);
    WrapTwice(x * b, d);
  }

  lemma Shifted(x: int, b: nat, k: nat, d: int)
    ensures (x * b + d) * Power(b, k) == x * Power(b, k + 1) + d * Power(b, k)
  {
    var p := Power(b, k);
    assert x * (b * p) == (x * b) * p;
  }

  /**
   What is read behind `x` in base `b`: all characters up to the first that is no digit of the base,
   and the int that x * b^k plus their positional value wraps to, where k is their number.
   */
  lemma {:induction false} NumberIs(s: seq<char>, i: nat, e: nat, b: nat, x: int)
    requires Ends(s, i, e) && 0 < b <= 16
    ensures var (v, j) := Number(s, i, e, b, Wrap(x));
            && (forall h :: i <= h < j ==> DigitOf(s[h]) < b) && DigitOf(s[j]) >= b
            && v == Wrap(x * Power(b, j - i) + Positional(s, i, j, b))
    decreases e - i
  {
    var d := DigitOf(s[i]);
    if d < b {
      AppendWraps(x, b, d);
      NumberIs(s, i + 1, e, b, x * b + d);
      var j := Number(s, i, e, b, Wrap(x)).1;
      Shifted(x, b, j - (i + 1), d);
    }
  }

  // ---- Printing and reading back ----

  function Pow10(j: nat): (r: nat)
    ensures r >= 1
  {
    if j == 0 then 1 else 10 * Pow10(j - 1)
  }

  lemma NextPower(j: nat)
    requires j < 9
    ensures Wrap(Pow10(j) * 10) == Pow10(j + 1)
  {
    PowersGrow(j + 1, 9);
    assert Pow10(9) == 10_0000_0000;
  }

  lemma TopPower()
    ensures Pow10(9) == 10_0000_0000
  {
  }

  /** One round of the search, below a power that is not above `n`. */
  lemma SearchGoesOn(n: int, j: nat, rounds: nat)
    requires j < 9 && Pow10(j) <= n && rounds > 0
    ensures SearchPower(n, Pow10(j), rounds) == SearchPower(n, Pow10(j + 1), rounds - 1)
  {
    NextPower(j);
  }

  lemma {:induction false} FindsPower(n: int, j: nat, rounds: nat) returns (i: nat)
    requires 0 < n < 10_0000_0000 && j <= 9 && rounds >= 9 - j
    ensures SearchPower(n, Pow10(j), rounds) == Some(Pow10(i)) && 1 <= i <= 9 && n < Pow10(i)
    ensures j <= i && (j < i ==> Pow10(i - 1) <= n)
    decreases 9 - j
  {
    if j == 9 { TopPower(); }
    if Pow10(j) > n {
      i := j;
    } else {
      SearchGoesOn(n, j, rounds);
      i := FindsPower(n, j + 1, rounds - 1);
    }
  }

  lemma {:induction false} PowersGrow(i: nat, j: nat)
    ensures i <= j ==> Pow10(i) <= Pow10(j)
    decreases j
  {
    if i < j { PowersGrow(i, j - 1); }
  }

  lemma Scaled(x: nat, q: nat)
    requires q >= 1
    ensures x * q >= x
  {
    assert x * q == x * (q - 1) + x;
  }

  lemma FirstDigit(n: nat, q: nat, v: nat)
    requires q >= 1 && n < 10 * q
    ensures 0 <= n / q < 10 && 0 <= n % q < q
    ensures (v * 10 + n / q) * q + n % q == v * (10 * q) + n
    ensures v * 10 + n / q <= v * (10 * q) + n
  {
    var d := n / q;
    assert n == d * q + n % q;
    assert d >= 10 ==> d * q >= 10 * q;
    assert (v * 10 + d) * q == v * (10 * q) + d * q;
    Scaled(v * 10 + d, q);
  }

  lemma DigitRoundTrip(d: nat)
    requires d < 10
    ensures DigitOf(DigitChar(d)) == d
  {
  }

  /** Reading the digits of `n`, of which there are `j`, behind the value `v`. */
  lemma {:induction false} DigitsReadBack(n: nat, j: nat, s: seq<char>, i: nat, e: nat, v: nat)
    requires j >= 1 && n < Pow10(j) && Ends(s, i, e)
    requires e == i + |Digits(n, Pow10(j)).text| && s[i..e] == Digits(n, Pow10(j)).text
    requires v * Pow10(j) + n < 0x8000_0000
    ensures Digits(n, Pow10(j)).completed && Number(s, i, e, 10, v) == (v * Pow10(j) + n, e)
    decreases j
  {
    var q := Pow10(j - 1);
    assert Pow10(j) / 10 == q;
    FirstDigit(n, q, v);
    var d := n / q;
    DigitRoundTrip(d);
    assert s[i] == s[i..e][0] == DigitChar(d);
    assert Append(v, 10, d) == v * 10 + d;
    if j > 1 {
      assert q > 1;
      assert s[i + 1..e] == s[i..e][1..] == Digits(n % q, q).text;
      DigitsReadBack(n % q, j - 1, s, i + 1, e, v * 10 + d);
    }
  }

  lemma {:induction false} DigitCount(n: nat, k: nat)
    requires k >= 1
    ensures Digits(n, k).completed ==> Pow10(|Digits(n, k).text|) <= k
    decreases k
  {
    var q := k / 10;
    if q > 1 {
      DigitCount(n % q, q);
    }
  }

  lemma AppendSmall(v: nat, d: nat, j: nat)
    requires v < Pow10(j) && d < 10 && j < 9
    ensures Append(v, 10, d) == v * 10 + d < Pow10(j + 1)
  {
    PowersGrow(j + 1, 9);
    assert Pow10(9) == 10_0000_0000;
  }

  /** A number of at most nine digits stays below 10^9. */
  lemma {:induction false} NumberIsSmall(s: seq<char>, i: nat, e: nat, v: nat, j: nat)
    requires Ends(s, i, e) && v < Pow10(j) && j + (e - i) <= 9
    ensures 0 <= Number(s, i, e, 10, v).0 < Pow10(9)
    decreases e - i
  {
    PowersGrow(j, 9);
    var d := DigitOf(s[i]);
    if d < 10 {
      AppendSmall(v, d, j);
      NumberIsSmall(s, i + 1, e, v * 10 + d, j + 1);
    }
  }

  lemma SearchIsAbove(n: int, k: int, rounds: nat)
    requires IsInt(k)
    ensures var r := SearchPower(n, k, rounds); r.Some? ==> IsInt(r.value) && r.value > n
    decreases rounds
  {
  }

  /** Everything ditoa can print for a number from 10^9 up has at most nine characters. */
  lemma LargeIsShort(n: int, rounds: nat)
    requires Pow10(9) <= n < 0x8000_0000
    ensures DitoaText(n, rounds).completed ==> |DitoaText(n, rounds).text| <= 9
  {
    SearchIsAbove(n, 1, rounds);
    if DitoaText(n, rounds).completed {
      var k := SearchPower(n, 1, rounds).value;
      DigitCount(n, k);
      PowersGrow(10, |Digits(n, k).text|);
      assert Pow10(10) == 100_0000_0000;
    }
  }

  /** A string of at most nine characters never reads as a number from 10^9 up. */
  lemma ShortIsSmall(s: seq<char>, e: nat)
    requires Ends(s, 0, e) && e <= 9
    ensures Strtol(s, 0, e, 10).0 < Pow10(9)
  {
    var first := SkipBlanks(s, 0, e);
    if s[first] != NUL {
      NumberIsSmall(s, if s[first] == '-' then first + 1 else first, e, 0, 0);
    }
  }

  lemma FirstChar(n: nat, j: nat)
    requires j >= 1 && n < Pow10(j)
    ensures var w := Digits(n, Pow10(j)); w.text != [] && '0' <= w.text[0] <= '9'
  {
    assert Pow10(j) / 10 == Pow10(j - 1);
    FirstDigit(n, Pow10(j - 1), 0);
  }

  lemma {:induction false} PlainNumber(s: seq<char>, e: nat)
    requires Ends(s, 0, e) && '0' <= s[0] <= '9'
    ensures Strtol(s, 0, e, 10) == Number(s, 0, e, 10, 0)
  {
    assert SkipBlanks(s, 0, e) == 0;
  }

  lemma {:induction false} DigitsRead(n: nat, j: nat, tail: seq<char>)
    requires 1 <= j <= 9 && n < Pow10(j)
    ensures var w := Digits(n, Pow10(j));
            w.completed && Strtol(w.text + [NUL] + tail, 0, |w.text|, 10) == (n, |w.text|)
  {
    var w := Digits(n, Pow10(j));
    var s := w.text + [NUL] + tail;
    assert s[0..|w.text|] == w.text;
    DigitsReadFrom(n, j, s, |w.text|);
  }

  lemma {:induction false} DigitsReadFrom(n: nat, j: nat, s: seq<char>, e: nat)
    requires 1 <= j <= 9 && n < Pow10(j) && Ends(s, 0, e) && s[0..e] == Digits(n, Pow10(j)).text
    ensures Digits(n, Pow10(j)).completed && Strtol(s, 0, e, 10) == (n, e)
  {
    FirstChar(n, j);
    assert s[0] == s[0..e][0];
    PlainNumber(s, e);
    assert n < Pow10(9) == 10_0000_0000 by { PowersGrow(j, 9); }
    DigitsReadBack(n, j, s, 0, e, 0);
  }

  lemma SmallReadsBack(n: int, rounds: nat, tail: seq<char>)
    requires 0 < n < Pow10(9) && rounds >= 9
    ensures var w := DitoaText(n, rounds);
            w.completed && Strtol(w.text + [NUL] + tail, 0, |w.text|, 10) == (n, |w.text|)
  {
    TopPower();
    var i := FindsPower(n, 0, rounds);
    DigitsRead(n, i, tail);
    assert DitoaText(n, rounds) == Digits(n, Pow10(i));
  }

  /**
   Printing and reading back in base ten returns the number, and the position of the terminator,
   exactly for the numbers from 0 to 10^9 - 1; however long the search for the power may take.
   */
  lemma PrintAndRead(n: int, rounds: nat, tail: seq<char>)
    requires IsInt(n) && rounds >= 9
    ensures var w := DitoaText(n, rounds);
            (w.completed && Strtol(w.text + [NUL] + tail, 0, |w.text|, 10) == (n, |w.text|))
            <==> 0 <= n < 10_0000_0000
  {
    var w := DitoaText(n, rounds);
    var s := w.text + [NUL] + tail;
    assert Pow10(9) == 10_0000_0000;
    if 0 < n < Pow10(9) {
      SmallReadsBack(n, rounds, tail);
    } else if n >= Pow10(9) {
      LargeIsShort(n, rounds);
      if w.completed { ShortIsSmall(s, |w.text|); }
    }
  }

  // ---- For which numbers the search for the power ends ----

  /** What 10 to the `j` wraps to. */
  function Wrapped(j: nat): (r: int)
    ensures IsInt(r)
  {
    if j == 0 then 1 else Wrap(Wrapped(j - 1) * 10)
  }

  /** The first 33 of them; from 10 to the 32 on they are all zero. */
  const WRAPPED: seq<int> :=
    [1, 10, 100, 1000, 10000, 100000, 1000000, 10000000,
     100000000, 1000000000, 1410065408, 1215752192, -727379968, 1316134912, 276447232, -1530494976,
     1874919424, 1569325056, -1486618624, -1981284352, 1661992960, -559939584, -1304428544, -159383552,
     -1593835520, 1241513984, -469762048, -402653184, 268435456, -1610612736, 1073741824, -2147483648,
     0]

  lemma EntryFollows(j: nat)
    requires j < 32
    ensures |WRAPPED| == 33 && WRAPPED[j + 1] == Wrap(WRAPPED[j] * 10)
  {
  }

  lemma {:induction false} WrappedIs(j: nat)
    ensures |WRAPPED| == 33 && Wrapped(j) == if j < 32 then WRAPPED[j] else 0
  {
    if j > 0 {
      WrappedIs(j - 1);
      if j <= 32 { EntryFollows(j - 1); }
    }
  }

  lemma EntryBound(j: nat)
    requires j < |WRAPPED|
    ensures WRAPPED[j] <= 18_7491_9424
  {
  }

  lemma {:induction false} EndsAt(n: int, j: nat, top: nat, rounds: nat)
    requires j <= top <= j + rounds && Wrapped(top) > n
    ensures SearchPower(n, Wrapped(j), rounds).Some?
    decreases rounds
  {
    if Wrapped(j) <= n { EndsAt(n, j + 1, top, rounds - 1); }
  }

  lemma {:induction false} NeverEnds(n: int, j: nat, rounds: nat)
    requires n >= 18_7491_9424
    ensures SearchPower(n, Wrapped(j), rounds).None?
    decreases rounds
  {
    WrappedIs(j);
    if j < 32 { EntryBound(j); }
    if rounds > 0 { NeverEnds(n, j + 1, rounds - 1); }
  }

  /**
   The search ends, in at most 16 multiplications, below 1874919424, which is what 10 to the 16 wraps
   to, and never from there on.
   */
  lemma SearchEnds(n: int, rounds: nat)
    requires rounds >= 16
    ensures SearchPower(n, 1, rounds).Some? <==> n < 18_7491_9424
  {
    if n < 18_7491_9424 {
      WrappedIs(16);
      EndsAt(n, 0, 16, rounds);
    } else {
      NeverEnds(n, 0, rounds);
    }
  }
}
