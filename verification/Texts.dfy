// Texts without the space around them.
module Texts {
  predicate IsSpace(c: char) {
    c in " \t\n\r" || c == 11 as char || c == 12 as char || c == 0x85 as char || c == 0xA0 as char
    || c == 0x1680 as char || 0x2000 as char <= c <= 0x200A as char || c == 0x2028 as char
    || c == 0x2029 as char || c == 0x202F as char || c == 0x205F as char || c == 0x3000 as char
  }

  // A text without the space around it.
  function TrimLeft(s: string): string {
    if s != [] && IsSpace(s[0]) then TrimLeft(s[1..]) else s
  }

  function TrimRight(s: string): string {
    if s != [] && IsSpace(s[|s| - 1]) then TrimRight(s[..|s| - 1]) else s
  }

  function Trim(s: string): string { TrimRight(TrimLeft(s)) }

  predicate IsTrimmed(s: string) {
    s != [] ==> !IsSpace(s[0]) && !IsSpace(s[|s| - 1])
  }

  lemma {:induction false} TrimLeftStarts(s: string)
    ensures TrimLeft(s) != [] ==> !IsSpace(TrimLeft(s)[0])
  {
    hide IsSpace;
    if s != [] && IsSpace(s[0]) {
      TrimLeftStarts(s[1..]);
    }
  }

  lemma {:induction false} TrimRightEnds(s: string)
    ensures TrimRight(s) <= s
    ensures TrimRight(s) != [] ==> !IsSpace(TrimRight(s)[|TrimRight(s)| - 1])
  {
    hide IsSpace;
    if s != [] && IsSpace(s[|s| - 1]) {
      TrimRightEnds(s[..|s| - 1]);
    }
  }

  lemma TrimmedStays(s: string)
    requires IsTrimmed(s)
    ensures Trim(s) == s
  {
    hide IsSpace;
  }

  // Trimming leaves no space around, and nothing to trim.
  lemma TrimIsTrimmed(s: string)
    ensures IsTrimmed(Trim(s)) && Trim(Trim(s)) == Trim(s)
  {
    hide IsSpace;
    TrimLeftStarts(s);
    TrimRightEnds(TrimLeft(s));
    TrimmedStays(Trim(s));
  }

  lemma TrimmedIsItself(s: string)
    ensures Trim(s) == s <==> IsTrimmed(s)
  {
    TrimIsTrimmed(s);
    if IsTrimmed(s) {
      TrimmedStays(s);
    }
  }

  predicate AllSpace(s: string) { forall c :: c in s ==> IsSpace(c) }

  lemma {:induction false} TrimLeftTakesSpace(s: string) returns (left: string)
    ensures s == left + TrimLeft(s) && AllSpace(left)
  {
    hide IsSpace;
    if s != [] && IsSpace(s[0]) {
      var rest := TrimLeftTakesSpace(s[1..]);
      left := [s[0]] + rest;
    } else {
      left := [];
    }
  }

  lemma {:induction false} TrimRightTakesSpace(s: string) returns (right: string)
    ensures s == TrimRight(s) + right && AllSpace(right)
  {
    hide IsSpace;
    if s != [] && IsSpace(s[|s| - 1]) {
      var rest := TrimRightTakesSpace(s[..|s| - 1]);
      right := rest + [s[|s| - 1]];
    } else {
      right := [];
    }
  }

  // Nothing but space is taken away, and only at the two ends.
  lemma TrimTakesSpace(s: string) returns (left: string, right: string)
    ensures s == left + Trim(s) + right && AllSpace(left) && AllSpace(right)
  {
    hide IsSpace, TrimLeft, TrimRight;
    left := TrimLeftTakesSpace(s);
    right := TrimRightTakesSpace(TrimLeft(s));
  }
}
