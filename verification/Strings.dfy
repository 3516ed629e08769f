/** The text primitives the JavaScript sources lean on: `indexOf`, `split`, `join`,
    `parseInt` and decimal printing. */
module Strings {

  datatype Option<+T> = None | Some(value: T)

  predicate At<T(==)>(s: seq<T>, pat: seq<T>, i: int) {
    0 <= i && i + |pat| <= |s| && s[i..i + |pat|] == pat
  }

  /** The index of the first occurrence of `pat`, or -1. */
  function Find<T(==)>(s: seq<T>, pat: seq<T>): (r: int)
    ensures r == -1 || (0 <= r && r + |pat| <= |s|)
  {
    if |s| < |pat| then -1
    else if s[..|pat|] == pat then 0
    else
      var r := Find(s[1..], pat);
      if r < 0 then -1 else r + 1
  }

  lemma TailSlice<T>(s: seq<T>, i: nat, n: nat)
    requires 1 <= i && i + n <= |s|
    ensures s[1..][i - 1..i - 1 + n] == s[i..i + n]
  {
  }

  /** `Find` returns an occurrence unless it returns -1 ... */
  lemma {:induction false} FindAt<T>(s: seq<T>, pat: seq<T>)
    ensures Find(s, pat) == -1 || At(s, pat, Find(s, pat))
  {
    if |s| >= |pat| && s[..|pat|] != pat {
      FindAt(s[1..], pat);
      var r := Find(s[1..], pat);
      if r >= 0 {
        TailSlice(s, r + 1, |pat|);
      }
    }
  }

  /** ... and no occurrence comes before it. */
  lemma {:induction false} FindLeast<T>(s: seq<T>, pat: seq<T>, i: nat)
    requires At(s, pat, i)
    ensures 0 <= Find(s, pat) <= i
  {
    if s[..|pat|] != pat {
      assert i != 0;
      TailSlice(s, i, |pat|);
      FindLeast(s[1..], pat, i - 1);
    }
  }

  /** Data that arrives later does not move an occurrence that is already there. */
  lemma FindExtends<T>(a: seq<T>, b: seq<T>, pat: seq<T>)
    requires Find(a, pat) >= 0
    ensures Find(a + b, pat) == Find(a, pat)
  {
    hide Find;
    var k := Find(a, pat);
    FindAt(a, pat);
    assert (a + b)[k..k + |pat|] == a[k..k + |pat|];
    FindLeast(a + b, pat, k);
    var i := Find(a + b, pat);
    FindAt(a + b, pat);
    assert (a + b)[i..i + |pat|] == a[i..i + |pat|];
    FindLeast(a, pat, i);
  }

  /** An occurrence that ends inside a prefix is an occurrence in the prefix. */
  lemma FindInPrefix<T>(a: seq<T>, b: seq<T>, pat: seq<T>)
    requires 0 <= Find(a + b, pat) && Find(a + b, pat) + |pat| <= |a|
    ensures Find(a, pat) == Find(a + b, pat)
  {
    hide Find;
    var k := Find(a + b, pat);
    FindAt(a + b, pat);
    assert (a + b)[k..k + |pat|] == a[k..k + |pat|];
    FindLeast(a, pat, k);
    FindExtends(a, b, pat);
  }

  /** `s.split(sep)`. */
  function Split(s: string, sep: string): (parts: seq<string>)
    requires sep != ""
    ensures parts != []
    decreases |s|
  {
    var i := Find(s, sep);
    if i < 0 then [s] else [s[..i]] + Split(s[i + |sep|..], sep)
  }

  /** `parts.join(sep)`. */
  function Join(parts: seq<string>, sep: string): string {
    if parts == [] then ""
    else if |parts| == 1 then parts[0]
    else parts[0] + sep + Join(parts[1..], sep)
  }

  lemma {:induction false} JoinSplit(s: string, sep: string)
    requires sep != ""
    ensures Join(Split(s, sep), sep) == s
    decreases |s|
  {
    var i := Find(s, sep);
    if i >= 0 {
      var rest := s[i + |sep|..];
      JoinSplit(rest, sep);
      FindAt(s, sep);
      assert s[i..i + |sep|] == sep;
      assert s == s[..i] + s[i..i + |sep|] + rest;
      assert Split(s, sep) == [s[..i]] + Split(rest, sep);
    }
  }

  lemma BeforeFirst<T>(s: seq<T>, pat: seq<T>)
    requires Find(s, pat) >= 0 && pat != []
    ensures Find(s[..Find(s, pat)], pat) < 0
  {
    var a, b := s[..Find(s, pat)], s[Find(s, pat)..];
    assert a + b == s;
    if Find(a, pat) >= 0 {
      FindExtends(a, b, pat);
    }
  }

  /** No part of a split contains the separator. */
  lemma {:induction false} SplitPartsClean(s: string, sep: string, k: nat)
    requires sep != "" && k < |Split(s, sep)|
    ensures Find(Split(s, sep)[k], sep) < 0
    decreases |s|
  {
    var i := Find(s, sep);
    if i >= 0 {
      if k == 0 {
        BeforeFirst(s, sep);
      } else {
        SplitPartsClean(s[i + |sep|..], sep, k - 1);
      }
    }
  }

  lemma SplitAfter(a: string, sep: string, b: string)
    requires sep != "" && Find(a + sep + b, sep) == |a|
    ensures Split(a + sep + b, sep) == [a] + Split(b, sep)
  {
    var s := a + sep + b;
    assert s[..|a|] == a && s[|a| + |sep|..] == b;
  }

  /** What a line `key: text` starts with. */
  lemma KeyEnds(key: string, text: string)
    requires Find(key, ": ") < 0
    ensures Find(key + ": " + text, ": ") == |key|
  {
    var line := key + ": " + text;
    assert line[|key|..|key| + 2] == ": ";
    FindLeast(line, ": ", |key|);
    FindAt(line, ": ");
    var k := Find(line, ": ");
    assert line[k..k + 2][1] == line[k + 1] == ' ';
    if k + 2 <= |key| {
      assert key[k..k + 2] == line[k..k + 2];
      FindLeast(key, ": ", k);
    }
  }

  lemma FindCharAbsent(a: string, c: char)
    ensures c in a <==> Find(a, [c]) >= 0
  {
    if c in a {
      var k :| 0 <= k < |a| && a[k] == c;
      assert a[k..k + 1] == [c];
      FindLeast(a, [c], k);
    }
    if Find(a, [c]) >= 0 {
      FindAt(a, [c]);
      assert a[Find(a, [c])] == [c][0];
    }
  }

  /** One-character separators never straddle. */
  lemma FindChar(a: string, c: char, b: string)
    requires c !in a
    ensures Find(a + [c] + b, [c]) == |a|
  {
    var s := a + [c] + b;
    assert s[|a|..|a| + 1] == [c];
    FindLeast(s, [c], |a|);
    FindAt(s, [c]);
    assert s[Find(s, [c])] == c;
  }

  lemma ConcatSlice<T>(a: seq<T>, b: seq<T>, i: nat, n: nat)
    requires i + n <= |b|
    ensures (a + b)[|a| + i..|a| + i + n] == b[i..i + n]
  {
  }

  /** Nothing starts inside `a`: the first occurrence is the first one after it. */
  lemma FindSkips<T>(a: seq<T>, b: seq<T>, pat: seq<T>)
    requires forall i :: 0 <= i < |a| ==> !At(a + b, pat, i)
    ensures Find(a + b, pat) == if Find(b, pat) < 0 then -1 else |a| + Find(b, pat)
  {
    hide Find;
    FindAt(a + b, pat);
    FindAt(b, pat);
    var i, k := Find(a + b, pat), Find(b, pat);
    if i >= 0 {
      ConcatSlice(a, b, i - |a|, |pat|);
      FindLeast(b, pat, i - |a|);
    }
    if k >= 0 {
      ConcatSlice(a, b, k, |pat|);
      FindLeast(a + b, pat, |a| + k);
    }
  }

  /** Splitting undoes joining, for lines that hold no separator. */
  lemma {:induction false} SplitJoin(lines: seq<string>, c: char)
    requires lines != [] && forall l :: l in lines ==> c !in l
    ensures Split(Join(lines, [c]), [c]) == lines
  {
    if |lines| == 1 {
      FindCharAbsent(lines[0], c);
    } else {
      var more := Join(lines[1..], [c]);
      SplitJoin(lines[1..], c);
      FindChar(lines[0], c, more);
      SplitAfter(lines[0], [c], more);
    }
  }

  /* ---- decimal numbers ---- */

  predicate IsDigit(c: char) { '0' <= c <= '9' }

  /** The characters `trim` and `parseInt` skip: white space and line terminators. */
  predicate IsSpace(c: char) {
    || '\t' <= c <= '\r'
    || '\U{2000}' <= c <= '\U{200a}'
    || c in {' ', '\U{a0}', '\U{1680}', '\U{2028}', '\U{2029}', '\U{202f}', '\U{205f}', '\U{3000}', '\U{feff}'}
  }

  function Digit(d: nat): char
    requires d < 10
  {
    d as char + '0'
  }

  function DigitValue(c: char): nat
    requires IsDigit(c)
  {
    (c - '0') as int
  }

  function DecimalNat(n: nat): (s: string)
    ensures s != "" && forall i :: 0 <= i < |s| ==> IsDigit(s[i])
  {
    if n < 10 then [Digit(n)] else DecimalNat(n / 10) + [Digit(n % 10)]
  }

  /** How a template literal or `+` prints an integer. */
  function Decimal(n: int): string {
    if n < 0 then "-" + DecimalNat(-n) else DecimalNat(n)
  }

  function DigitsPrefix(s: string): (d: string)
    ensures |d| <= |s| && d == s[..|d|] && forall i :: 0 <= i < |d| ==> IsDigit(d[i])
  {
    if s == "" || !IsDigit(s[0]) then "" else [s[0]] + DigitsPrefix(s[1..])
  }

  function NatOf(d: string): nat
    requires forall i :: 0 <= i < |d| ==> IsDigit(d[i])
  {
    if d == "" then 0 else 10 * NatOf(d[..|d| - 1]) + DigitValue(d[|d| - 1])
  }

  function TrimLeft(s: string): string {
    if s != "" && IsSpace(s[0]) then TrimLeft(s[1..]) else s
  }

  function TrimRight(s: string): string {
    if s != "" && IsSpace(s[|s| - 1]) then TrimRight(s[..|s| - 1]) else s
  }

  /** `s.trim()`. */
  function Trim(s: string): string { TrimRight(TrimLeft(s)) }

  lemma {:induction false} TrimLeftIs(s: string) returns (a: string)
    ensures s == a + TrimLeft(s) && forall c :: c in a ==> IsSpace(c)
    ensures TrimLeft(s) != "" ==> !IsSpace(TrimLeft(s)[0])
  {
    a := "";
    if s != "" && IsSpace(s[0]) {
      var rest := TrimLeftIs(s[1..]);
      a := [s[0]] + rest;
    }
  }

  lemma {:induction false} TrimRightIs(s: string) returns (b: string)
    ensures s == TrimRight(s) + b && forall c :: c in b ==> IsSpace(c)
    ensures TrimRight(s) != "" ==> !IsSpace(TrimRight(s)[|TrimRight(s)| - 1])
  {
    b := "";
    if s != "" && IsSpace(s[|s| - 1]) {
      var rest := TrimRightIs(s[..|s| - 1]);
      b := rest + [s[|s| - 1]];
    }
  }

  /** Trimming takes white space off both ends, all of it, and nothing else. */
  lemma TrimIs(s: string) returns (a: string, b: string)
    ensures s == a + Trim(s) + b && forall c :: c in a || c in b ==> IsSpace(c)
    ensures Trim(s) != "" ==> !IsSpace(Trim(s)[0]) && !IsSpace(Trim(s)[|Trim(s)| - 1])
  {
    hide TrimLeft, TrimRight, IsSpace;
    a := TrimLeftIs(s);
    b := TrimRightIs(TrimLeft(s));
    if Trim(s) != "" {
      assert TrimLeft(s)[0] == Trim(s)[0];
    }
  }

  /** `parseInt(s, 10)`; None stands for NaN. */
  function ParseInt(s: string): Option<int> { ParseSigned(TrimLeft(s)) }

  function ParseSigned(t: string): Option<int> {
    if t != "" && t[0] == '-' then
      match ParseDigits(t[1..])
      case None => None
      case Some(n) => Some(-(n as int))
    else ParseDigits(if t != "" && t[0] == '+' then t[1..] else t)
  }

  function ParseDigits(u: string): Option<nat> {
    var d := DigitsPrefix(u);
    if d == "" then None else Some(NatOf(d))
  }

  lemma {:induction false} AllDigits(d: string)
    requires forall i :: 0 <= i < |d| ==> IsDigit(d[i])
    ensures DigitsPrefix(d) == d
  {
    if d != "" {
      AllDigits(d[1..]);
    }
  }

  lemma {:induction false} NatOfDecimal(n: nat)
    ensures NatOf(DecimalNat(n)) == n
  {
    if n >= 10 {
      NatOfDecimal(n / 10);
      var s := DecimalNat(n);
      assert s[..|s| - 1] == DecimalNat(n / 10);
    }
  }

  lemma DigitIsNotSpace(c: char)
    requires IsDigit(c) || c == '-'
    ensures !IsSpace(c)
  {
  }

  lemma DigitsReadBack(n: nat)
    ensures ParseDigits(DecimalNat(n)) == Some(n)
  {
    NatOfDecimal(n);
    AllDigits(DecimalNat(n));
  }

  lemma SignedReadBack(n: int)
    ensures ParseSigned(Decimal(n)) == Some(n)
  {
    if n < 0 {
      DigitsReadBack(-n);
      assert Decimal(n)[1..] == DecimalNat(-n);
    } else {
      DigitsReadBack(n);
      var c := Decimal(n)[0];
      assert IsDigit(c) && c != '-' && c != '+';
    }
  }

  /** Printing an integer and reading it back is the identity. */
  lemma ParseIntDecimal(n: int)
    ensures ParseInt(Decimal(n)) == Some(n)
  {
    SignedReadBack(n);
    DigitIsNotSpace(Decimal(n)[0]);
  }

  lemma {:induction false} TrimLeftSkips(space: string, s: string)
    requires forall i :: 0 <= i < |space| ==> IsSpace(space[i])
    requires s != "" && !IsSpace(s[0])
    ensures TrimLeft(space + s) == s
    decreases |space|
  {
    if space == "" {
      assert space + s == s;
    } else {
      assert (space + s)[1..] == space[1..] + s;
      TrimLeftSkips(space[1..], s);
    }
  }

  lemma {:induction false} DigitsUpTo(d: string, rest: string)
    requires forall i :: 0 <= i < |d| ==> IsDigit(d[i])
    requires rest == "" || !IsDigit(rest[0])
    ensures DigitsPrefix(d + rest) == d
    decreases |d|
  {
    if d == "" {
      assert d + rest == rest;
    } else {
      assert (d + rest)[1..] == d[1..] + rest;
      DigitsUpTo(d[1..], rest);
    }
  }

  lemma SignedReads(sign: string, n: nat, rest: string)
    requires sign in {"", "+", "-"} && (rest == "" || !IsDigit(rest[0]))
    ensures ParseSigned(sign + (DecimalNat(n) + rest)) == Some(if sign == "-" then -(n as int) else n as int)
  {
    hide DigitsPrefix, DecimalNat, NatOf;
    var digits := DecimalNat(n);
    var s := sign + (digits + rest);
    DigitsUpTo(digits, rest);
    NatOfDecimal(n);
    if sign == "" {
      assert s == digits + rest && s[0] == digits[0];
    } else {
      assert s[0] == sign[0] && s[1..] == digits + rest;
    }
  }

  /** `parseInt` skips white space, takes a sign and the digits after it, and ignores the rest. */
  lemma ParseIntReads(space: string, sign: string, n: nat, rest: string)
    requires forall i :: 0 <= i < |space| ==> IsSpace(space[i])
    requires sign in {"", "+", "-"} && (rest == "" || !IsDigit(rest[0]))
    ensures ParseInt(space + (sign + (DecimalNat(n) + rest))) == Some(if sign == "-" then -(n as int) else n as int)
  {
    hide ParseSigned, DecimalNat;
    var digits := DecimalNat(n);
    var s := sign + (digits + rest);
    DigitIsNotSpace(digits[0]);
    assert s[0] == if sign == "" then digits[0] else sign[0];
    TrimLeftSkips(space, s);
    SignedReads(sign, n, rest);
  }

  /** Without a digit there it is no number. */
  lemma ParseIntFails(s: string)
    requires var t := TrimLeft(s);
             var u := if t != "" && (t[0] == '-' || t[0] == '+') then t[1..] else t;
             u == "" || !IsDigit(u[0])
    ensures ParseInt(s) == None
  {
  }
}
