/** A process's resource need, computed twice (simgrid/organizer/hpvc.c:85-119, 132-142, 582, 630-647): by `create_tasks` from the
    numbers it drew, and by `process_task` from the same numbers passed as decimal text. */
module ResourceNeed {
  import opened Arithmetic
  import opened Protocol

  function Digit(d: nat): char
    requires d < 10
  {
    '0' + d as char
  }

  predicate IsDigit(ch: char) { '0' <= ch <= '9' }

  function Value(ch: char): nat
    requires IsDigit(ch)
  {
    (ch - '0') as nat
  }

  /** `sprintf` with %u. */
  function Decimal(n: nat): string {
    if n < 10 then [Digit(n)] else Decimal(n / 10) + [Digit(n % 10)]
  }

  /** `atoi`: leading white space, an optional sign, then digits up to the first other character. */
  function Atoi(s: string): int {
    if s != [] && s[0] in " \t\n\r" then Atoi(s[1..])
    else if s != [] && s[0] == '-' then 0 - ReadDigits(s[1..], 0)
    else if s != [] && s[0] == '+' then ReadDigits(s[1..], 0)
    else ReadDigits(s, 0)
  }

  function ReadDigits(s: string, read: nat): nat {
    if s == [] || !IsDigit(s[0]) then read else ReadDigits(s[1..], 10 * read + Value(s[0]))
  }

  predicate AllDigits(s: string) { forall i :: 0 <= i < |s| ==> IsDigit(s[i]) }

  lemma {:induction false} ReadOneMore(s: string, d: char, read: nat)
    requires AllDigits(s) && IsDigit(d)
    ensures ReadDigits(s + [d], read) == 10 * ReadDigits(s, read) + Value(d)
    decreases |s|
  {
    if s != [] {
      ReadOneMore(s[1..], d, 10 * read + Value(s[0]));
      assert (s + [d])[1..] == s[1..] + [d];
    } else {
      assert ([d])[1..] == [];
      assert ReadDigits([d], read) == ReadDigits([], 10 * read + Value(d));
    }
  }

  lemma DigitValue(d: nat)
    requires d < 10
    ensures IsDigit(Digit(d)) && Value(Digit(d)) == d
  {
  }

  lemma {:induction false} DecimalReadsBack(n: nat)
    ensures Decimal(n) != [] && AllDigits(Decimal(n)) && ReadDigits(Decimal(n), 0) == n
  {
    DigitValue(n % 10);
    if n >= 10 {
      DecimalReadsBack(n / 10);
      ReadOneMore(Decimal(n / 10), Digit(n % 10), 0);
    } else {
      assert ReadDigits([Digit(n)], 0) == ReadDigits([], n);
    }
  }

  /** Text of a number is read back as that number. */
  lemma AtoiOfDecimal(n: nat)
    ensures Atoi(Decimal(n)) == n
  {
    DecimalReadsBack(n);
    assert IsDigit(Decimal(n)[0]);
  }

  /** A sign is read, white space before it is skipped, and what follows the digits is not looked at. */
  lemma AtoiForms(n: nat, space: char, rest: string)
    requires space in " \t\n\r" && (rest != [] ==> !IsDigit(rest[0]))
    ensures Atoi(['-'] + Decimal(n)) == -(n as int) && Atoi(['+'] + Decimal(n)) == n
    ensures Atoi([space] + Decimal(n)) == n && Atoi(Decimal(n) + rest) == n
  {
    DecimalReadsBack(n);
    AtoiOfDecimal(n);
    ReadStops(Decimal(n), rest, 0);
    assert (['-'] + Decimal(n))[1..] == Decimal(n) && (['+'] + Decimal(n))[1..] == Decimal(n);
    assert ([space] + Decimal(n))[1..] == Decimal(n);
    assert IsDigit((Decimal(n) + rest)[0]);
  }

  lemma {:induction false} ReadStops(s: string, rest: string, read: nat)
    requires AllDigits(s) && (rest != [] ==> !IsDigit(rest[0]))
    ensures ReadDigits(s + rest, read) == ReadDigits(s, read)
    decreases |s|
  {
    if s == [] {
      assert s + rest == rest;
    } else {
      ReadStops(s[1..], rest, 10 * read + Value(s[0]));
      assert (s + rest)[1..] == s[1..] + rest;
    }
  }

  /** For example. */
  lemma DecimalExample()
    ensures Decimal(120) == "120"
  {
    assert Decimal(12) == "1" + "2";
  }

  /** A number below 10^k takes at most k characters. */
  lemma {:induction false} DecimalLength(n: nat, k: nat)
    requires 1 <= k && n < Power(10, k)
    ensures |Decimal(n)| <= k
  {
    if n >= 10 {
      DecimalLength(n / 10, k - 1);
    }
  }

  /** The numbers `create_tasks` draws for one process: `rand_task` and the factors `r`, `m` and `c`. */
  datatype Draw = Draw(randTask: nat, r: nat, m: nat, c: nat)

  /** RAND_MAX and the capacities the need is a share of. */
  datatype Scale = Scale(randMax: nat, memoryMax: real, netMax: real) {
    predicate Valid() { 0 < randMax < 0x8000_0000 }
  }

  function ComputeNeed(w: Scale, d: Draw): Need
    requires w.Valid()
  {
    var m := if d.m <= 10 then 10 else d.m;
    Need(m as real / w.randMax as real * w.memoryMax, (if d.randTask < w.randMax then 0.4 else 0.03) * w.netMax)
  }

  /** The argument texts of a process and what it reads from them. */
  function Arguments(d: Draw): seq<string> {
    [Decimal(d.r), Decimal(d.m), Decimal(d.c), Decimal(d.randTask)]
  }

  /** An int stored in an unsigned. */
  function Unsigned(n: int): nat { n % 0x1_0000_0000 }

  function ReadDraw(arguments: seq<string>): Draw
    requires |arguments| == 4
  {
    Draw(Unsigned(Atoi(arguments[3])), Unsigned(Atoi(arguments[0])), Unsigned(Atoi(arguments[1])), Unsigned(Atoi(arguments[2])))
  }

  predicate Drawn(w: Scale, d: Draw) {
    d.randTask <= w.randMax && d.r <= w.randMax && d.m <= w.randMax && d.c <= w.randMax
  }

  lemma ArgumentReadsBack(n: nat)
    requires n < 0x8000_0000
    ensures Unsigned(Atoi(Decimal(n))) == n && |Decimal(n)| <= 10
  {
    AtoiOfDecimal(n);
    assert Power(10, 5) == 100_000;
    assert Power(10, 10) == 10_000_000_000;
    DecimalLength(n, 10);
  }

  /** A process releases exactly what was reserved for it: it computes its need from the numbers that were drawn. The texts fit
      their 40 characters with room for the terminating zero. */
  lemma SameNeed(w: Scale, d: Draw)
    requires w.Valid() && Drawn(w, d)
    ensures ReadDraw(Arguments(d)) == d
    ensures ComputeNeed(w, ReadDraw(Arguments(d))) == ComputeNeed(w, d)
    ensures forall i :: 0 <= i < 4 ==> |Arguments(d)[i]| < 40
  {
    ArgumentReadsBack(d.r);
    ArgumentReadsBack(d.m);
    ArgumentReadsBack(d.c);
    ArgumentReadsBack(d.randTask);
  }

  /** The memory need grows in proportion to `m` from 10 on and is the whole capacity at RAND_MAX; the net need is one of two
      shares. */
  lemma NeedInNumbers(w: Scale, d: Draw)
    requires w.Valid()
    ensures ComputeNeed(w, d).memory * w.randMax as real == w.memoryMax * (if d.m >= 10 then d.m else 10) as real
    ensures ComputeNeed(w, d).net == w.netMax * if d.randTask < w.randMax then 0.4 else 0.03
  {
    var m := (if d.m >= 10 then d.m else 10) as real;
    var share := m / w.randMax as real;
    assert share * w.randMax as real == m;
    assert share * w.memoryMax * w.randMax as real == w.memoryMax * (share * w.randMax as real);
  }
}
