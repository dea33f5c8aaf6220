/** The few JavaScript built-ins the timetable code relies on, stated as
    Dafny functions: Array.prototype.find and filter, Array.prototype.join
    and String.prototype.split on one character, String(n) for integers,
    and Math.ceil(n / 3). */
module Basics {

  datatype Option<T> = None | Some(value: T)

  /** Array.prototype.find, returning the position of the first element
      that satisfies p (or None when no element does). */
  function Find<T>(s: seq<T>, p: T -> bool): (r: Option<nat>)
    ensures r.Some? ==> r.value < |s| && p(s[r.value])
    ensures r.Some? ==> forall j :: 0 <= j < r.value ==> !p(s[j])
    ensures r.None? <==> forall j :: 0 <= j < |s| ==> !p(s[j])
  {
    if s == [] then None
    else if p(s[0]) then Some(0)
    else match Find(s[1..], p)
      case None => None
      case Some(i) => Some(i + 1)
  }

  /** The first position that satisfies p is the one Find returns. */
  lemma FindFirst<T>(s: seq<T>, p: T -> bool, i: nat)
    requires i < |s| && p(s[i])
    requires forall j :: 0 <= j < i ==> !p(s[j])
    ensures Find(s, p) == Some(i)
  {
  }

  /** Appending an element leaves an earlier match in place, and otherwise
      the new element is found exactly when it satisfies p. */
  lemma {:induction false} FindAppend<T>(s: seq<T>, x: T, p: T -> bool)
    ensures Find(s + [x], p) ==
      (if Find(s, p).Some? then Find(s, p) else if p(x) then Some(|s|) else None)
    decreases |s|
  {
    var t := s + [x];
    if s == [] {
      assert t == [x] && t[1..] == [];
    } else {
      assert t[0] == s[0];
      assert t[1..] == s[1..] + [x];
      FindAppend(s[1..], x, p);
    }
  }

  /** Array.prototype.filter: the elements satisfying p, in their order. */
  function Filter<T(!new)>(s: seq<T>, p: T -> bool): (r: seq<T>)
    ensures |r| <= |s|
    ensures forall i :: 0 <= i < |r| ==> p(r[i])
  {
    if s == [] then []
    else Filter(s[..|s| - 1], p) + (if p(s[|s| - 1]) then [s[|s| - 1]] else [])
  }

  /** An element is kept exactly when it is in the input and satisfies p. */
  lemma {:induction false} FilterMembership<T(!new)>(s: seq<T>, p: T -> bool, x: T)
    ensures x in Filter(s, p) <==> x in s && p(x)
    decreases |s|
  {
    if s != [] {
      var init, last := s[..|s| - 1], s[|s| - 1];
      FilterMembership(init, p, x);
      assert s == init + [last];
    }
  }

  /** Filtering with a test every element passes keeps the whole sequence. */
  lemma {:induction false} FilterAll<T(!new)>(s: seq<T>, p: T -> bool)
    requires forall i :: 0 <= i < |s| ==> p(s[i])
    ensures Filter(s, p) == s
    decreases |s|
  {
    if s != [] {
      var init := s[..|s| - 1];
      assert forall i :: 0 <= i < |init| ==> p(init[i]) by {
        forall i | 0 <= i < |init|
          ensures p(init[i])
        {
          assert init[i] == s[i];
        }
      }
      FilterAll(init, p);
      assert init + [s[|s| - 1]] == s;
    }
  }

  lemma {:induction false} FilterAppend<T(!new)>(a: seq<T>, b: seq<T>, p: T -> bool)
    ensures Filter(a + b, p) == Filter(a, p) + Filter(b, p)
    decreases |b|
  {
    if b == [] {
      assert a + b == a;
    } else {
      var b' := b[..|b| - 1];
      assert (a + b)[..|a + b| - 1] == a + b';
      assert b[..|b| - 1] == b';
      FilterAppend(a, b', p);
    }
  }

  /** Array.prototype.join(sep) on strings. */
  function Join(fields: seq<string>, sep: char): (r: string)
    ensures |fields| == 1 ==> r == fields[0]
  {
    if fields == [] then ""
    else if |fields| == 1 then fields[0]
    else Join(fields[..|fields| - 1], sep) + [sep] + fields[|fields| - 1]
  }

  /** String.prototype.split on one character: the pieces between the
      occurrences of sep, so there is always at least one piece. */
  function Split(s: string, sep: char): (r: seq<string>)
    ensures |r| >= 1
  {
    if s == [] then [""]
    else
      var parts := Split(s[..|s| - 1], sep);
      if s[|s| - 1] == sep then parts + [""]
      else parts[..|parts| - 1] + [parts[|parts| - 1] + [s[|s| - 1]]]
  }

  /** A piece free of sep is not cut, and what precedes it is split as before. */
  lemma {:induction false} SplitAfter(prefix: string, piece: string, sep: char)
    requires sep !in piece
    ensures Split(prefix + [sep] + piece, sep) == Split(prefix, sep) + [piece]
    decreases |piece|
  {
    if piece == [] {
      assert prefix + [sep] + piece == prefix + [sep];
      assert (prefix + [sep])[..|prefix|] == prefix;
    } else {
      var init := piece[..|piece| - 1];
      var s := prefix + [sep] + piece;
      assert s[..|s| - 1] == prefix + [sep] + init;
      assert s[|s| - 1] == piece[|piece| - 1];
      SplitAfter(prefix, init, sep);
      assert init + [piece[|piece| - 1]] == piece;
    }
  }

  lemma {:induction false} SplitWhole(piece: string, sep: char)
    requires sep !in piece
    ensures Split(piece, sep) == [piece]
    decreases |piece|
  {
    if piece != [] {
      var init := piece[..|piece| - 1];
      SplitWhole(init, sep);
      assert init + [piece[|piece| - 1]] == piece;
    }
  }

  /** Splitting undoes joining, provided no field contains the separator. */
  lemma {:induction false} SplitJoin(fields: seq<string>, sep: char)
    requires |fields| >= 1
    requires forall i :: 0 <= i < |fields| ==> sep !in fields[i]
    ensures Split(Join(fields, sep), sep) == fields
    decreases |fields|
  {
    if |fields| == 1 {
      SplitWhole(fields[0], sep);
    } else {
      var init := fields[..|fields| - 1];
      SplitJoin(init, sep);
      SplitAfter(Join(init, sep), fields[|fields| - 1], sep);
      assert init + [fields[|fields| - 1]] == fields;
    }
  }

  function DigitChar(d: nat): (c: char)
    requires d < 10
  {
    ('0' as int + d) as char
  }

  predicate IsDigitChar(c: char) {
    '0' <= c <= '9'
  }

  /** Decimal digits of n, without leading zeros: String(n) for n >= 0. */
  function NatToString(n: nat): (r: string)
    ensures |r| >= 1
    ensures forall i :: 0 <= i < |r| ==> IsDigitChar(r[i])
  {
    if n < 10 then [DigitChar(n)]
    else NatToString(n / 10) + [DigitChar(n % 10)]
  }

  /** String(n) for any integer n. */
  function IntToString(n: int): (r: string)
    ensures |r| >= 1
  {
    if n < 0 then "-" + NatToString(-n) else NatToString(n)
  }

  /** The inverse of NatToString, reading a run of decimal digits. */
  function ParseNat(s: string): nat
    requires forall i :: 0 <= i < |s| ==> IsDigitChar(s[i])
  {
    if s == [] then 0
    else
      assert IsDigitChar(s[|s| - 1]);
      ParseNat(s[..|s| - 1]) * 10 + (s[|s| - 1] as int - '0' as int)
  }

  function ParseInt(s: string): int
    requires |s| >= 1
    requires s[0] == '-' || IsDigitChar(s[0])
    requires forall i :: 1 <= i < |s| ==> IsDigitChar(s[i])
  {
    if s[0] == '-' then -(ParseNat(s[1..]) as int) else ParseNat(s)
  }

  lemma {:induction false} ParseNatToString(n: nat)
    ensures ParseNat(NatToString(n)) == n
  {
    if n >= 10 {
      var s := NatToString(n);
      assert s[..|s| - 1] == NatToString(n / 10);
      ParseNatToString(n / 10);
    }
  }

  /** Reading back String(n) gives n, so distinct integers print differently. */
  lemma ParseIntToString(n: int)
    ensures var s := IntToString(n);
      (s[0] == '-' || IsDigitChar(s[0])) && (forall i :: 1 <= i < |s| ==> IsDigitChar(s[i])) &&
      ParseInt(s) == n
  {
    var s := IntToString(n);
    if n < 0 {
      var digits := NatToString(-n);
      assert s == "-" + digits;
      assert s[1..] == digits;
      assert forall i :: 1 <= i < |s| ==> s[i] == digits[i - 1];
      ParseNatToString(-n);
    } else {
      assert s == NatToString(n);
      ParseNatToString(n);
    }
  }

  lemma IntToStringInjective(a: int, b: int)
    requires IntToString(a) == IntToString(b)
    ensures a == b
  {
    ParseIntToString(a);
    ParseIntToString(b);
  }

  /** The product of two naturals is a natural; calling it keeps the
      nonlinear step out of larger proof contexts. */
  lemma MulNat(a: nat, b: nat)
    ensures a * b >= 0
  {
  }

  /** Position j of a block of m rows of n splits into row j / n and column j % n. */
  lemma RowColumn(j: nat, n: nat, m: nat)
    requires n > 0 && j < m * n
    ensures j == (j / n) * n + j % n && 0 <= j % n < n && j / n < m
  {
    var q := j / n;
    assert q * n <= j;
    assert (m - q) * n > 0 by {
      assert (m - q) * n == m * n - q * n;
    }
  }

  /** Math.ceil(p / 3) on an integer p. */
  function CeilThird(p: int): (r: int)
    ensures 3 * (r - 1) < p <= 3 * r
  {
    -((-p) / 3)
  }

  /** Two strings each made of an underscore-free head, an underscore and a
      tail are equal only when heads and tails are equal. */
  lemma UnderscoreSplit(a: string, b: string, c: string, d: string)
    requires '_' !in a && '_' !in c
    requires a + "_" + b == c + "_" + d
    ensures a == c && b == d
  {
    var s := a + "_" + b;
    assert s[|a|] == '_' && forall i :: 0 <= i < |a| ==> s[i] == a[i];
    assert s[|c|] == '_' && forall i :: 0 <= i < |c| ==> s[i] == c[i];
    assert |a| == |c|;
    assert a == s[..|a|] == c;
    assert b == s[|a| + 1..] == d;
  }
}
