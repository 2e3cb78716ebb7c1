/**
 The string operations the filters rely on: Python's `p in s` substring test,
 Python 2's `unicode()` text of a leaf value, and `str.split('.')` of the key
 pattern.
 */
module Text {
  import opened JsonValue

  // ---------------------------------------------------------------------------
  // Substring test

  /** `p in s` for strings: p occurs in s as a contiguous run (case-sensitive). */
  predicate Substring(p: string, s: string)
    ensures Substring(p, s) ==> |p| <= |s|
    ensures |p| == |s| ==> (Substring(p, s) <==> p == s)
    decreases |s|
  {
    p <= s || (s != [] && Substring(p, s[1..]))
  }

  /** An occurrence of p at any offset of s makes p a substring of s. */
  lemma {:induction false} SubstringAt(p: string, s: string, i: int)
    requires 0 <= i <= |s| - |p|
    requires s[i..i + |p|] == p
    ensures Substring(p, s)
    decreases i
  {
    if i == 0 {
      assert s[..|p|] == p;
    } else {
      assert s[1..][i - 1..i - 1 + |p|] == s[i..i + |p|];
      SubstringAt(p, s[1..], i - 1);
    }
  }

  /** A substring occurs at some offset of s. */
  lemma {:induction false} SubstringOffset(p: string, s: string) returns (i: int)
    requires Substring(p, s)
    ensures 0 <= i <= |s| - |p| && s[i..i + |p|] == p
    decreases |s|
  {
    if p <= s {
      i := 0;
    } else {
      var j := SubstringOffset(p, s[1..]);
      assert s[1..][j..j + |p|] == s[j + 1..j + 1 + |p|];
      i := j + 1;
    }
  }

  /** The empty pattern, which the key filter substitutes for "*", is a
      substring of every key. */
  lemma EmptySubstring(s: string)
    ensures Substring("", s)
  {
  }

  /** A pattern whose first character does not occur in s is no substring of s. */
  lemma {:induction false} AbsentFirstChar(p: string, s: string)
    requires p != [] && p[0] !in s
    ensures !Substring(p, s)
    decreases |s|
  {
    if s != [] {
      assert s[1..] <= s[1..] && p[0] !in s[1..] by {
        assert forall c :: c in s[1..] ==> c in s;
      }
      AbsentFirstChar(p, s[1..]);
    }
  }

  /** Whatever surrounds p, p is a substring of it. */
  lemma SubstringSplit(p: string, a: string, b: string)
    ensures Substring(p, a + p + b)
  {
    var s := a + p + b;
    assert s[|a|..|a| + |p|] == p;
    SubstringAt(p, s, |a|);
  }

  // ---------------------------------------------------------------------------
  // Decimal text of integers

  function DigitChar(d: nat): char
    requires d < 10
  {
    "0123456789"[d]
  }

  predicate IsDigit(c: char)
  {
    '0' <= c <= '9'
  }

  predicate AllDigits(s: string)
  {
    forall i :: 0 <= i < |s| ==> IsDigit(s[i])
  }

  /** `unicode(n)` for n >= 0: decimal digits, no leading zero. */
  function NatText(n: nat): (r: string)
    ensures |r| >= 1 && AllDigits(r)
    ensures r[0] == '0' ==> n == 0
    decreases n
  {
    if n < 10 then [DigitChar(n)] else NatText(n / 10) + [DigitChar(n % 10)]
  }

  /** `unicode(n)` for a Python integer: a minus sign for negatives. */
  function IntText(n: int): (r: string)
    ensures |r| >= 1
    ensures r[0] == '-' <==> n < 0
  {
    if n < 0 then "-" + NatText(-n) else NatText(n)
  }

  /** The value of a run of decimal digits. */
  function DigitsValue(s: string): nat
    requires AllDigits(s)
  {
    if s == [] then 0
    else
      assert IsDigit(s[|s| - 1]);
      assert AllDigits(s[..|s| - 1]);
      DigitsValue(s[..|s| - 1]) * 10 + (s[|s| - 1] as int - '0' as int)
  }

  /** Reads back an optional minus sign followed by decimal digits. */
  function ParseInt(s: string): Option<int>
  {
    if s != [] && s[0] == '-' then
      if AllDigits(s[1..]) then Some(0 - DigitsValue(s[1..])) else None
    else if AllDigits(s) then Some(DigitsValue(s))
    else None
  }

  lemma {:induction false} NatTextValue(n: nat)
    ensures DigitsValue(NatText(n)) == n
    decreases n
  {
    if n >= 10 {
      NatTextValue(n / 10);
      var t := NatText(n);
      assert t[..|t| - 1] == NatText(n / 10);
    }
  }

  /** A minus sign followed by digits reads back as the negated digits' value. */
  lemma ParseNegative(d: string)
    requires AllDigits(d)
    ensures ParseInt("-" + d) == Some(0 - DigitsValue(d))
  {
    assert ("-" + d)[1..] == d;
  }

  /** Digits with no minus sign read back as their value. */
  lemma ParseDigits(d: string)
    requires d != [] && AllDigits(d)
    ensures ParseInt(d) == Some(DigitsValue(d))
  {
    assert IsDigit(d[0]);
  }

  /** The decimal text of every integer reads back as that integer. */
  lemma IntTextRoundTrip(n: int)
    ensures ParseInt(IntText(n)) == Some(n)
  {
    if n < 0 {
      var d := NatText(-n);
      assert IntText(n) == "-" + d;
      ParseNegative(d);
      NatTextValue(-n);
    } else {
      var d := NatText(n);
      assert IntText(n) == d;
      ParseDigits(d);
      NatTextValue(n);
    }
  }

  // ---------------------------------------------------------------------------
  // Text of a leaf value

  /** Python 2 `unicode(v)` of a parsed leaf: a string is itself, an integer its
      decimal form, booleans "True"/"False", null "None". */
  function Unicode(v: Json): (r: string)
    requires IsLeaf(v)
    ensures v.Num? ==> ParseInt(r) == Some(v.num)
    ensures v.Bool? || v.Null? ==> r in {"True", "False", "None"}
  {
    match v
    case Str(s) => s
    case Num(n) => IntTextRoundTrip(n); IntText(n)
    case Bool(b) => if b then "True" else "False"
    case Null => "None"
  }

  // ---------------------------------------------------------------------------
  // Splitting the key pattern

  /** `s.split('.')`: the runs between dots, empty runs included; never empty. */
  function Split(s: string): (parts: seq<string>)
    ensures |parts| >= 1
    ensures forall i :: 0 <= i < |parts| ==> '.' !in parts[i]
  {
    if s == [] then [[]]
    else
      var init := Split(s[..|s| - 1]);
      var c := s[|s| - 1];
      if c == '.' then init + [[]]
      else init[..|init| - 1] + [init[|init| - 1] + [c]]
  }

  /** `'.'.join(parts)`. */
  function Join(parts: seq<string>): string
  {
    if parts == [] then []
    else if |parts| == 1 then parts[0]
    else Join(parts[..|parts| - 1]) + "." + parts[|parts| - 1]
  }

  lemma {:induction false} JoinLast(init: seq<string>, c: char)
    requires |init| >= 1
    ensures Join(init[..|init| - 1] + [init[|init| - 1] + [c]]) == Join(init) + [c]
  {
    var ps := init[..|init| - 1] + [init[|init| - 1] + [c]];
    if |init| > 1 {
      assert ps[..|ps| - 1] == init[..|init| - 1];
    }
  }

  /** Joining the split pattern with dots gives the pattern back. */
  lemma {:induction false} SplitJoin(s: string)
    ensures Join(Split(s)) == s
    decreases |s|
  {
    if s != [] {
      var prefix, c := s[..|s| - 1], s[|s| - 1];
      var init := Split(prefix);
      SplitJoin(prefix);
      assert prefix + [c] == s;
      if c == '.' {
        var ps := init + [[]];
        assert Split(s) == ps;
        assert ps[..|ps| - 1] == init;
        assert Join(ps) == Join(init) + "." + [];
      } else {
        assert Split(s) == init[..|init| - 1] + [init[|init| - 1] + [c]];
        JoinLast(init, c);
      }
    }
  }

  lemma {:induction false} SplitNoDot(s: string)
    requires '.' !in s
    ensures Split(s) == [s]
    decreases |s|
  {
    if s != [] {
      var init := s[..|s| - 1];
      assert '.' !in init;
      SplitNoDot(init);
      assert init + [s[|s| - 1]] == s;
    }
  }

  lemma {:induction false} SplitAfterDot(a: string, b: string)
    requires '.' !in b
    ensures Split(a + "." + b) == Split(a) + [b]
    decreases |b|
  {
    if b == [] {
      var s := a + "." + b;
      assert s == a + ".";
      assert s[..|s| - 1] == a;
    } else {
      var b' := b[..|b| - 1];
      var c := b[|b| - 1];
      assert '.' !in b';
      SplitAfterDot(a, b');
      var s := a + "." + b;
      assert s[..|s| - 1] == a + "." + b';
      assert s[|s| - 1] == c;
      var init := Split(a) + [b'];
      assert init[..|init| - 1] == Split(a);
      assert b' + [c] == b;
    }
  }

  /** Splitting dot-joined dot-free tokens gives the tokens back. */
  lemma {:induction false} JoinSplit(parts: seq<string>)
    requires |parts| >= 1
    requires forall i :: 0 <= i < |parts| ==> '.' !in parts[i]
    ensures Split(Join(parts)) == parts
    decreases |parts|
  {
    if |parts| == 1 {
      SplitNoDot(parts[0]);
    } else {
      var init := parts[..|parts| - 1];
      JoinSplit(init);
      SplitAfterDot(Join(init), parts[|parts| - 1]);
    }
  }
}
