/** Decimal rendering of machine integers and `join`, the two string
    primitives every `Display`/`Emit` implementation of the checker uses. */
module Text {

  predicate IsDigit(c: char) {
    '0' <= c <= '9'
  }

  predicate AllDigits(s: string) {
    forall i :: 0 <= i < |s| ==> IsDigit(s[i])
  }

  function DigitChar(d: nat): (c: char)
    requires d < 10
    ensures IsDigit(c) && (c as int) - ('0' as int) == d
  {
    ['0', '1', '2', '3', '4', '5', '6', '7', '8', '9'][d]
  }

  /** How `usize`/`u128` values print under `{}`: decimal, no sign,
      no leading zeros. */
  function NatStr(n: nat): (s: string)
    ensures |s| >= 1 && AllDigits(s)
    ensures s[0] == '0' ==> n == 0
  {
    if n < 10 then [DigitChar(n)] else NatStr(n / 10) + [DigitChar(n % 10)]
  }

  /** The value a string of decimal digits denotes (the reader of NatStr). */
  function DigitsValue(s: string): nat
    requires AllDigits(s)
  {
    if s == [] then 0
    else DigitsValue(s[..|s| - 1]) * 10 + ((s[|s| - 1] as int) - ('0' as int))
  }

  /** Printing a number and reading it back yields the same number. */
  lemma {:induction false} NatStrRoundTrip(n: nat)
    ensures DigitsValue(NatStr(n)) == n
  {
    if n >= 10 {
      NatStrRoundTrip(n / 10);
      var s := NatStr(n);
      assert s[..|s| - 1] == NatStr(n / 10);
    }
  }

  /** `Vec<String>::join(sep)`. */
  function Join(sep: string, parts: seq<string>): (s: string)
    ensures parts == [] ==> s == ""
    ensures |parts| == 1 ==> s == parts[0]
  {
    if parts == [] then ""
    else if |parts| == 1 then parts[0]
    else parts[0] + sep + Join(sep, parts[1..])
  }
}

/** Parenthesis nesting of rendered text: the well-formedness every
    s-expression the emitter produces must have. */
module Parens {

  predicate NoParens(s: string) {
    forall i :: 0 <= i < |s| ==> s[i] != '(' && s[i] != ')'
  }

  /** Scans `s` from nesting level `k`; -1 once a `)` closes nothing,
      otherwise the nesting level at the end. */
  function Scan(s: string, k: nat): int
  {
    if s == [] then k
    else
      var k' := if s[0] == '(' then k + 1 else if s[0] == ')' then k - 1 else k;
      if k' < 0 then -1 else Scan(s[1..], k')
  }

  predicate Balanced(s: string) {
    Scan(s, 0) == 0
  }

  lemma {:induction false} ScanAppend(a: string, b: string, k: nat)
    ensures Scan(a + b, k) == (if Scan(a, k) < 0 then -1 else Scan(b, Scan(a, k)))
  {
    if a == [] {
      assert a + b == b;
    } else {
      assert (a + b)[0] == a[0] && (a + b)[1..] == a[1..] + b;
      var k' := if a[0] == '(' then k + 1 else if a[0] == ')' then k - 1 else k;
      if k' >= 0 {
        ScanAppend(a[1..], b, k');
      }
    }
  }

  lemma {:induction false} ScanShift(s: string, k: nat, n: nat)
    requires Scan(s, k) >= 0
    ensures Scan(s, k + n) == Scan(s, k) + n
  {
    if s != [] {
      var k' := if s[0] == '(' then k + 1 else if s[0] == ')' then k - 1 else k;
      ScanShift(s[1..], k', n);
    }
  }

  lemma {:induction false} NoParensScan(s: string, k: nat)
    requires NoParens(s)
    ensures Scan(s, k) == k
  {
    if s != [] {
      NoParensScan(s[1..], k);
    }
  }

  lemma BalancedAppend(a: string, b: string)
    requires Balanced(a) && Balanced(b)
    ensures Balanced(a + b)
  {
    ScanAppend(a, b, 0);
  }

  lemma NoParensBalanced(s: string)
    requires NoParens(s)
    ensures Balanced(s)
  {
    NoParensScan(s, 0);
  }

  /** Wrapping balanced text in a pair of parentheses keeps it balanced. */
  lemma BalancedWrap(s: string)
    requires Balanced(s)
    ensures Balanced("(" + s + ")")
  {
    ScanAppend("(", s, 0);
    ScanShift(s, 0, 1);
    ScanAppend("(" + s, ")", 0);
  }

  /** Appending a piece to text scanned so far: a piece without
      parentheses leaves the level alone, a balanced piece returns to it. */
  lemma Extend(prefix: string, piece: string, k: nat)
    requires Scan(prefix, 0) == k
    requires NoParens(piece) || Balanced(piece)
    ensures Scan(prefix + piece, 0) == k
  {
    ScanAppend(prefix, piece, 0);
    if NoParens(piece) {
      NoParensScan(piece, k);
    } else {
      ScanShift(piece, 0, k);
    }
  }

  lemma ExtendLiteral(prefix: string, piece: string, k: nat, j: int)
    requires Scan(prefix, 0) == k && Scan(piece, k) == j
    ensures Scan(prefix + piece, 0) == j
  {
    ScanAppend(prefix, piece, 0);
  }
}
