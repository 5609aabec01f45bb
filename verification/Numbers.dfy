/** Reading integers out of text as the C library does. Texts hold no NUL; `At` gives the one
    that ends a C string. */
module Numbers {

  const LONG_MAX: int := 0x7FFF_FFFF_FFFF_FFFF
  const LONG_MIN: int := -0x8000_0000_0000_0000

  function At(s: string, k: nat): char {
    if k < |s| then s[k] else '\0'
  }

  function DigitValue(c: char): int {
    if '0' <= c <= '9' then c as int - '0' as int
    else if 'a' <= c <= 'z' then c as int - 'a' as int + 10
    else if 'A' <= c <= 'Z' then c as int - 'A' as int + 10
    else -1
  }

  predicate IsDigit(c: char, base: nat) {
    0 <= DigitValue(c) < base
  }

  predicate IsSpace(c: char) {
    c in {' ', '\t', '\n', '\r', 11 as char, 12 as char}
  }

  function Spaces(s: string, k: nat): (e: nat)
    requires k <= |s|
    ensures k <= e <= |s|
    decreases |s| - k
  {
    if k < |s| && IsSpace(s[k]) then Spaces(s, k + 1) else k
  }

  /** The value of the digits from `k` on, after `acc`, and where they end. */
  function Digits(s: string, base: nat, k: nat, acc: int): (r: (int, nat))
    requires k <= |s|
    ensures k <= r.1 <= |s|
    decreases |s| - k
  {
    if k < |s| && IsDigit(s[k], base) then Digits(s, base, k + 1, acc * base + DigitValue(s[k])) else (acc, k)
  }

  function Clamp(n: int): int {
    if n > LONG_MAX then LONG_MAX else if n < LONG_MIN then LONG_MIN else n
  }

  /** `strtol` with base 0, for a 64-bit `long`: the value, and how many characters it took, none
      if there is no number. */
  function Strtol(s: string): (r: (int, nat))
    ensures r.1 <= |s| && LONG_MIN <= r.0 <= LONG_MAX
  {
    var i := Spaces(s, 0);
    var j := if At(s, i) in {'+', '-'} then i + 1 else i;
    var hex := At(s, j) == '0' && At(s, j + 1) in {'x', 'X'} && IsDigit(At(s, j + 2), 16);
    var start := if hex then j + 2 else j;
    if start > |s| then (0, 0)
    else
      var (v, e) := Digits(s, if hex then 16 else if At(s, j) == '0' then 8 else 10, start, 0);
      if e == start then (0, 0) else (Clamp(if At(s, i) == '-' then -v else v), e)
  }

  /** A `long` stored in an `int`. */
  function ToInt(n: int): (r: int)
    ensures -0x8000_0000 <= r < 0x8000_0000
    ensures (r - n) % 0x1_0000_0000 == 0
  {
    var m := n % 0x1_0000_0000;
    if m < 0x8000_0000 then m else m - 0x1_0000_0000
  }

  lemma StrtolTakesDigits(s: string)
    requires s != "" && '0' <= s[0] <= '9'
    ensures Strtol(s).1 > 0
  {
    assert Spaces(s, 0) == 0;
  }

  /** An `int` holds exactly the numbers that fit. */
  lemma ToIntKeeps(n: int)
    ensures ToInt(n) == n <==> -0x8000_0000 <= n < 0x8000_0000
  {
  }

  lemma ToIntOfMax()
    ensures ToInt(0xFFFF_FFFF) == -1 && ToInt(LONG_MAX) == -1
  {
  }

  // ----- numbers as text

  function DigitChar(d: nat): (c: char)
    requires d < 10
    ensures DigitValue(c) == d && '0' <= c <= '9'
  {
    ('0' as int + d) as char
  }

  function Decimal(n: nat): (s: string)
    ensures s != [] && '0' <= s[0] <= '9'
    ensures s[0] == '0' ==> n == 0 && |s| == 1
  {
    if n < 10 then [DigitChar(n)] else Decimal(n / 10) + [DigitChar(n % 10)]
  }

  lemma {:induction false} DigitsOfDecimal(n: nat, rest: string)
    ensures Digits(Decimal(n) + rest, 10, 0, 0) == Digits(Decimal(n) + rest, 10, |Decimal(n)|, n)
  {
    if n >= 10 {
      var tail := [DigitChar(n % 10)] + rest;
      assert Decimal(n) + rest == Decimal(n / 10) + tail;
      DigitsOfDecimal(n / 10, tail);
    }
  }

  /** `strtol` reads back what is written in decimal. */
  lemma StrtolOfDecimal(n: nat, rest: string)
    requires rest == "" || (DigitValue(rest[0]) < 0)
    ensures Strtol(Decimal(n) + rest) == (Clamp(n), |Decimal(n)|)
  {
    var s := Decimal(n) + rest;
    assert s[0] == Decimal(n)[0];
    assert Spaces(s, 0) == 0;
    DigitsOfDecimal(n, rest);
    assert Digits(s, 10, |Decimal(n)|, n) == (n, |Decimal(n)|);
    if s[0] == '0' {
      assert At(s, 1) == At(rest, 0);
      assert Digits(s, 8, 0, 0) == Digits(s, 8, 1, 0) == (0, 1);
    }
  }

  // ----- every notation

  lemma DigitsAre(c: char, d: nat)
    requires d < 16
    ensures DigitValue(c) == d <==> c == "0123456789abcdef"[d] || c == "0123456789ABCDEF"[d]
  {
  }

  /** Space, tab, line feed, vertical tab, form feed and carriage return. */
  lemma SpacesAre(c: char)
    ensures IsSpace(c) <==> c == ' ' || 9 <= c as int <= 13
  {
    assert '\t' as int == 9 && '\n' as int == 10 && '\r' as int == 13;
  }

  /** What digits mean, each worth `base` times the one after it. */
  ghost function Worth(ds: string, base: nat): int {
    if ds == "" then 0 else Worth(ds[..|ds| - 1], base) * base + DigitValue(ds[|ds| - 1])
  }

  /** `s` starts with spaces up to `i`, a sign or none up to `j`, "0x" or nothing up to `m`, and
      digits of base `base`, not followed by another, up to `e`; a first digit 0 means octal. */
  ghost predicate Number(s: string, i: nat, j: nat, m: nat, e: nat, base: nat) {
    && i <= j <= m < e <= |s|
    && (forall k :: 0 <= k < i ==> IsSpace(s[k]))
    && s[i..j] in {"", "+", "-"}
    && (forall k :: m <= k < e ==> IsDigit(s[k], base))
    && !IsDigit(At(s, e), base)
    && match base
       case 16 => s[j..m] in {"0x", "0X"}
       case 8 => m == j && s[m] == '0' && !(At(s, m + 1) in {'x', 'X'} && IsDigit(At(s, m + 2), 16))
       case _ => base == 10 && m == j && s[m] != '0'
  }

  lemma {:induction false} SpacesSkipped(s: string, k: nat, i: nat)
    requires k <= i <= |s| && (forall h :: k <= h < i ==> IsSpace(s[h])) && !IsSpace(At(s, i))
    ensures Spaces(s, k) == i
    decreases i - k
  {
    if k < i { SpacesSkipped(s, k + 1, i); }
  }

  lemma {:induction false} DigitsUpTo(s: string, base: nat, m: nat, k: nat)
    requires m <= k <= |s| && forall h :: m <= h < k ==> IsDigit(s[h], base)
    ensures Digits(s, base, m, 0) == Digits(s, base, k, Worth(s[m..k], base))
  {
    if k > m {
      DigitsUpTo(s, base, m, k - 1);
      assert s[m..k][..k - 1 - m] == s[m..k - 1];
    }
  }

  lemma SignRead(s: string, i: nat, j: nat, m: nat, e: nat, base: nat)
    requires Number(s, i, j, m, e, base)
    ensures (s[i..j] == "-" <==> At(s, i) == '-') && (s[i..j] == "+" <==> At(s, i) == '+')
    ensures j == (if At(s, i) in {'+', '-'} then i + 1 else i) && Spaces(s, 0) == i
  {
    assert j > i ==> s[i..j][0] == s[i];
    assert m > j ==> s[j..m][0] == s[j];
    SpacesSkipped(s, 0, i);
  }

  lemma MarkRead(s: string, i: nat, j: nat, m: nat, e: nat, base: nat)
    requires Number(s, i, j, m, e, base)
    ensures base == 16 ==> m == j + 2 && s[j] == '0' && s[j + 1] in {'x', 'X'}
  {
    assert m > j ==> s[j..m][0] == s[j];
    assert m > j + 1 ==> s[j..m][1] == s[j + 1];
  }

  /** The number is what its digits mean in base 16, 8 or 10, negated after a minus, and all of it
      is taken. */
  lemma StrtolOfNumber(s: string, i: nat, j: nat, m: nat, e: nat, base: nat)
    requires Number(s, i, j, m, e, base)
    ensures var v := Worth(s[m..e], base);
      Strtol(s) == (Clamp(if s[i..j] == "-" then -v else v), e)
  {
    SignRead(s, i, j, m, e, base);
    MarkRead(s, i, j, m, e, base);
    DigitsUpTo(s, base, m, e);
  }

  /** Without a digit after the spaces and the sign there is no number, and nothing is taken. */
  lemma StrtolOfNone(s: string, i: nat, j: nat)
    requires i <= j <= |s| && (forall k :: 0 <= k < i ==> IsSpace(s[k])) && !IsSpace(At(s, i))
    requires j == (if At(s, i) in {'+', '-'} then i + 1 else i) && !IsDigit(At(s, j), 10)
    ensures Strtol(s) == (0, 0)
  {
    SpacesSkipped(s, 0, i);
  }
}
