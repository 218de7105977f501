// Whole numbers written and read in decimal, within 64 bits.
module Numbers {
  import opened Texts

  const MAX_UINT64 := 18446744073709551615
  const MAX_INT64 := 9223372036854775807
  // The least number that ten times goes past MAX_UINT64.
  const CUTOFF := 1844674407370955162

  datatype Read = Number(n: int) | OutOfRange | Unreadable

  predicate IsDigit(c: char) { '0' <= c <= '9' }

  function Digit(c: char): nat
    requires IsDigit(c)
  {
    c as int - '0' as int
  }

  // The digits one by one; past the range, what follows is not looked at.
  function Scan(s: string, n: nat): Read
    decreases |s|
  {
    if s == [] then Number(n)
    else if !IsDigit(s[0]) then Unreadable
    else if n >= CUTOFF then OutOfRange
    else if n * 10 + Digit(s[0]) > MAX_UINT64 then OutOfRange
    else Scan(s[1..], n * 10 + Digit(s[0]))
  }

  function Signed(negative: bool, read: Read): Read {
    if !read.Number? then read
    else if negative then (if read.n > MAX_INT64 + 1 then OutOfRange else Number(-read.n))
    else if read.n > MAX_INT64 then OutOfRange
    else read
  }

  function Atoi(s: string): Read {
    if s == [] then Unreadable
    else
      var signed := s[0] == '+' || s[0] == '-';
      var digits := if signed then s[1..] else s;
      if digits == [] then Unreadable else Signed(s[0] == '-', Scan(digits, 0))
  }

  function DigitOf(n: nat): char
    requires n < 10
  {
    ('0' as int + n) as char
  }

  function Digits(n: nat): string {
    if n < 10 then [DigitOf(n)] else Digits(n / 10) + [DigitOf(n % 10)]
  }

  function Itoa(n: int): string { if n < 0 then "-" + Digits(-n) else Digits(n) }

  lemma ScanOneMore(n: nat, d: nat, rest: string)
    requires d < 10 && n < CUTOFF && n * 10 + d <= MAX_UINT64
    ensures Scan([DigitOf(d)] + rest, n) == Scan(rest, n * 10 + d)
  {
    assert ([DigitOf(d)] + rest)[1..] == rest;
  }

  lemma {:induction false} ScanDigits(n: nat, rest: string)
    requires n <= MAX_UINT64
    ensures Scan(Digits(n) + rest, 0) == Scan(rest, n)
  {
    hide Scan;
    if n < 10 {
      ScanOneMore(0, n, rest);
    } else {
      var last := [DigitOf(n % 10)];
      assert Digits(n) + rest == Digits(n / 10) + (last + rest);
      ScanDigits(n / 10, last + rest);
      ScanOneMore(n / 10, n % 10, rest);
    }
  }

  lemma {:induction false} DigitsAreDigits(n: nat)
    ensures Digits(n) != [] && forall c :: c in Digits(n) ==> IsDigit(c)
  {
    if n < 10 {
    } else {
      DigitsAreDigits(n / 10);
    }
  }

  lemma DigitsAreRead(n: nat)
    requires n <= MAX_UINT64
    ensures Scan(Digits(n), 0) == Number(n)
  {
    hide Digits;
    assert Digits(n) + [] == Digits(n);
    ScanDigits(n, []);
  }

  lemma DigitsAreTrimmed(n: nat)
    ensures Digits(n) != [] && !IsSpace(Digits(n)[0]) && !IsSpace(Digits(n)[|Digits(n)| - 1])
    ensures IsDigit(Digits(n)[0])
  {
    hide Digits;
    DigitsAreDigits(n);
    var s := Digits(n);
    assert s[0] in s && s[|s| - 1] in s;
  }

  // Every number of 64 bits that is written is read as itself, and has no space around it.
  lemma WrittenIsRead(n: int)
    requires -MAX_INT64 - 1 <= n <= MAX_INT64
    ensures Atoi(Itoa(n)) == Number(n)
    ensures Itoa(n) != [] && IsTrimmed(Itoa(n))
  {
    hide Scan, Digits, IsSpace;
    var m := if n < 0 then -n else n;
    DigitsAreRead(m);
    DigitsAreTrimmed(m);
    if n < 0 {
      assert ("-" + Digits(m))[1..] == Digits(m);
      MinusIsNoSpace();
    }
  }

  lemma MinusIsNoSpace()
    ensures !IsSpace('-')
  {
  }

  // ---- What is read, told of the digits ----

  predicate AllDigits(s: string) { forall k :: 0 <= k < |s| ==> IsDigit(s[k]) }

  // The number some digits say, after those that say n.
  ghost function Value(n: nat, s: string): nat
    requires AllDigits(s)
    decreases |s|
  {
    if s == [] then n else Value(n * 10 + Digit(s[0]), s[1..])
  }

  lemma {:induction false} ValueGrows(n: nat, s: string)
    requires AllDigits(s)
    ensures n <= Value(n, s)
    decreases |s|
  {
    if s != [] {
      ValueGrows(n * 10 + Digit(s[0]), s[1..]);
    }
  }

  // Something that is no digit, after digits that are within the range.
  ghost predicate StopsWithin(n: nat, s: string) {
    exists k :: 0 <= k < |s| && !IsDigit(s[k]) && AllDigits(s[..k]) && Value(n, s[..k]) <= MAX_UINT64
  }

  lemma StopsNext(n: nat, s: string)
    requires s != [] && IsDigit(s[0])
    ensures StopsWithin(n, s) <==> StopsWithin(n * 10 + Digit(s[0]), s[1..])
  {
    var m, rest := n * 10 + Digit(s[0]), s[1..];
    forall k | 0 <= k < |rest|
      ensures AllDigits(rest[..k]) <==> AllDigits(s[..k + 1])
      ensures AllDigits(rest[..k]) ==> Value(m, rest[..k]) == Value(n, s[..k + 1])
    {
      assert s[..k + 1] == [s[0]] + rest[..k];
      assert s[..k + 1][1..] == rest[..k];
      assert AllDigits(s[..k + 1]) ==> AllDigits(rest[..k]) by {
        assert forall i :: 0 <= i < k ==> rest[..k][i] == s[..k + 1][i + 1];
      }
    }
    if k :| 0 <= k < |s| && !IsDigit(s[k]) && AllDigits(s[..k]) && Value(n, s[..k]) <= MAX_UINT64 {
      assert !IsDigit(rest[k - 1]) && s[..k] == s[..k - 1 + 1];
    }
    if k :| 0 <= k < |rest| && !IsDigit(rest[k]) && AllDigits(rest[..k]) && Value(m, rest[..k]) <= MAX_UINT64 {
      assert !IsDigit(s[k + 1]);
    }
  }

  lemma StopsNowhere(n: nat, s: string)
    requires n > MAX_UINT64
    ensures !StopsWithin(n, s)
  {
    if k :| 0 <= k < |s| && !IsDigit(s[k]) && AllDigits(s[..k]) && Value(n, s[..k]) <= MAX_UINT64 {
      ValueGrows(n, s[..k]);
      assert false;
    }
  }

  // Digits are read as the number they say when it is within the range. What stops them within it cannot be
  // read, and past it what follows is not looked at.
  lemma {:induction false} ScanTells(s: string, n: nat)
    requires n <= MAX_UINT64
    ensures Scan(s, n).Number? <==> AllDigits(s) && Value(n, s) <= MAX_UINT64
    ensures Scan(s, n).Number? ==> Scan(s, n) == Number(Value(n, s))
    ensures Scan(s, n) == Unreadable <==> StopsWithin(n, s)
    decreases |s|
  {
    if s == [] {
    } else if !IsDigit(s[0]) {
      assert s[..0] == [] && StopsWithin(n, s);
    } else {
      var m := n * 10 + Digit(s[0]);
      StopsNext(n, s);
      AllDigitsNext(s);
      if m <= MAX_UINT64 {
        ScanTells(s[1..], m);
      } else {
        StopsNowhere(m, s[1..]);
        if AllDigits(s) {
          ValueGrows(m, s[1..]);
        }
      }
      hide StopsWithin, AllDigits;
    }
  }

  lemma AllDigitsNext(s: string)
    requires s != []
    ensures AllDigits(s) <==> IsDigit(s[0]) && AllDigits(s[1..])
  {
    assert s == [s[0]] + s[1..];
  }

  // The digits of a text, without its sign.
  function Unsigned(s: string): string {
    if s != [] && (s[0] == '+' || s[0] == '-') then s[1..] else s
  }

  // The number a text of digits says, with its sign.
  ghost function Said(s: string): int
    requires AllDigits(Unsigned(s))
  {
    var said: int := Value(0, Unsigned(s));
    if "-" <= s then -said else said
  }

  // A text is read as a number exactly when it is digits, a sign before them or not, that say a number of 64
  // bits: and then as that number.
  lemma AtoiTells(s: string)
    ensures var digits := Unsigned(s);
            && (Atoi(s).Number? <==>
                  digits != [] && AllDigits(digits) && -MAX_INT64 - 1 <= Said(s) <= MAX_INT64)
            && (Atoi(s).Number? ==> Atoi(s).n == Said(s))
            && (Atoi(s) == Unreadable <==> digits == [] || StopsWithin(0, digits))
  {
    hide Scan, Value, AllDigits, StopsWithin;
    ScanTells(Unsigned(s), 0);
    assert "-" <= s <==> s != [] && s[0] == '-';
  }
}
