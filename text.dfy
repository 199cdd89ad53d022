/** The string operations the shopping-list export relies on: the order used
    for sorting by name, decimal rendering of amounts, and Python's
    `str.join` / `str.split` on one separator character. */
module Text {

  /** Lexicographic order on code points (Python's `<` on `str`). */
  predicate StrLt(a: string, b: string)
  {
    if |a| == 0 then |b| > 0
    else if |b| == 0 then false
    else if a[0] < b[0] then true
    else a[0] == b[0] && StrLt(a[1..], b[1..])
  }

  predicate StrLe(a: string, b: string)
  {
    a == b || StrLt(a, b)
  }

  lemma {:induction false} StrLtIrreflexive(a: string)
    ensures !StrLt(a, a)
  {
    if |a| > 0 {
      StrLtIrreflexive(a[1..]);
    }
  }

  lemma {:induction false} StrLtTransitive(a: string, b: string, c: string)
    requires StrLt(a, b) && StrLt(b, c)
    ensures StrLt(a, c)
  {
    if |a| > 0 && a[0] == b[0] && b[0] == c[0] {
      StrLtTransitive(a[1..], b[1..], c[1..]);
    }
  }

  lemma {:induction false} StrLtTotal(a: string, b: string)
    ensures a == b || StrLt(a, b) || StrLt(b, a)
  {
    if |a| > 0 && |b| > 0 && a[0] == b[0] {
      StrLtTotal(a[1..], b[1..]);
      if a[1..] == b[1..] {
        assert a == [a[0]] + a[1..] && b == [b[0]] + b[1..];
      }
    }
  }

  lemma StrLeTransitive(a: string, b: string, c: string)
    requires StrLe(a, b) && StrLe(b, c)
    ensures StrLe(a, c)
  {
    if a != b && b != c {
      StrLtTransitive(a, b, c);
    }
  }

  lemma StrLeTotal(a: string, b: string)
    ensures StrLe(a, b) || StrLe(b, a)
  {
    StrLtTotal(a, b);
  }

  // ---------------------------------------------------------------------
  // Decimal rendering of a non-negative integer (`f'{n}'`)

  predicate IsDigit(c: char)
  {
    '0' <= c <= '9'
  }

  predicate AllDigits(s: string)
  {
    forall i :: 0 <= i < |s| ==> IsDigit(s[i])
  }

  function DigitChar(d: nat): (c: char)
    requires d < 10
    ensures IsDigit(c) && c as int - '0' as int == d
  {
    ('0' as int + d) as char
  }

  function DigitValue(c: char): nat
    requires IsDigit(c)
  {
    c as int - '0' as int
  }

  /** The decimal digits of `n`, most significant first, without leading zeros. */
  function NatToString(n: nat): (s: string)
    ensures |s| > 0 && AllDigits(s)
    ensures |s| > 1 ==> s[0] != '0'
  {
    if n < 10 then [DigitChar(n)] else NatToString(n / 10) + [DigitChar(n % 10)]
  }

  /** The value of a string of decimal digits (the inverse of NatToString). */
  function ParseNat(s: string): nat
    requires AllDigits(s)
  {
    if s == [] then 0 else 10 * ParseNat(s[..|s| - 1]) + DigitValue(s[|s| - 1])
  }

  lemma {:induction false} ParseNatToString(n: nat)
    ensures ParseNat(NatToString(n)) == n
  {
    var s := NatToString(n);
    if n >= 10 {
      ParseNatToString(n / 10);
      assert s[..|s| - 1] == NatToString(n / 10);
    }
  }

  // ---------------------------------------------------------------------
  // Python's `sep.join(parts)` and `s.split(c)`

  function Join(parts: seq<string>, sep: string): string
  {
    if |parts| == 0 then ""
    else if |parts| == 1 then parts[0]
    else parts[0] + sep + Join(parts[1..], sep)
  }

  /** The pieces of `s` between occurrences of `c`; `""` splits into `[""]`. */
  function Split(s: string, c: char): (r: seq<string>)
    ensures |r| > 0
  {
    if |s| == 0 then [""]
    else
      var rest := Split(s[1..], c);
      if s[0] == c then [""] + rest else [[s[0]] + rest[0]] + rest[1..]
  }

  lemma {:induction false} SplitPrefix(l: string, t: string, c: char)
    requires c !in l
    ensures Split(l + t, c) == [l + Split(t, c)[0]] + Split(t, c)[1..]
  {
    if |l| > 0 {
      SplitPrefix(l[1..], t, c);
      assert (l + t)[1..] == l[1..] + t;
      assert [l[0]] + (l[1..] + Split(t, c)[0]) == l + Split(t, c)[0];
    } else {
      var r := Split(t, c);
      assert l + t == t;
      assert r == [r[0]] + r[1..];
      assert l + r[0] == r[0];
    }
  }

  /** Splitting a joined list on the separator gives back the list, when no
      part contains the separator. */
  lemma {:induction false} SplitJoin(parts: seq<string>, c: char)
    requires |parts| > 0
    requires forall i :: 0 <= i < |parts| ==> c !in parts[i]
    ensures Split(Join(parts, [c]), c) == parts
  {
    if |parts| == 1 {
      SplitPrefix(parts[0], "", c);
      assert parts[0] + "" == parts[0];
    } else {
      var rest := Join(parts[1..], [c]);
      SplitJoin(parts[1..], c);
      assert parts[0] + [c] + rest == parts[0] + ([c] + rest);
      SplitPrefix(parts[0], [c] + rest, c);
      assert ([c] + rest)[1..] == rest;
      assert Split([c] + rest, c) == [""] + Split(rest, c);
      assert parts[0] + "" == parts[0];
      assert parts == [parts[0]] + parts[1..];
    }
  }

  // ---------------------------------------------------------------------
  // Python's `str.strip()`

  /** Python's `str.isspace()` for one character: the ASCII whitespace and
      separator controls, NEL, and the Unicode space separators and
      line/paragraph separators. */
  predicate IsSpace(c: char)
  {
    var n := c as int;
    || (0x09 <= n <= 0x0D) || (0x1C <= n <= 0x20) || n == 0x85 || n == 0xA0
    || n == 0x1680 || (0x2000 <= n <= 0x200A) || n == 0x2028 || n == 0x2029
    || n == 0x202F || n == 0x205F || n == 0x3000
  }

  /** `s` without its leading whitespace. */
  function TrimStart(s: string): (t: string)
    ensures |t| <= |s| && t == s[|s| - |t|..]
    ensures forall k :: 0 <= k < |s| - |t| ==> IsSpace(s[k])
    ensures t == [] || !IsSpace(t[0])
  {
    if s != [] && IsSpace(s[0]) then TrimStart(s[1..]) else s
  }

  /** `s` without its trailing whitespace. */
  function TrimEnd(s: string): (t: string)
    ensures |t| <= |s| && t == s[..|t|]
    ensures forall k :: |t| <= k < |s| ==> IsSpace(s[k])
    ensures t == [] || !IsSpace(t[|t| - 1])
  {
    if s != [] && IsSpace(s[|s| - 1]) then TrimEnd(s[..|s| - 1]) else s
  }

  /** The number of leading whitespace characters of `s`. */
  function LeadingSpace(s: string): nat
  {
    |s| - |TrimStart(s)|
  }

  /** `s.strip()`: the slice of `s` between its leading and its trailing
      whitespace, which neither starts nor ends with whitespace. */
  function Strip(s: string): (t: string)
    ensures t == [] || (!IsSpace(t[0]) && !IsSpace(t[|t| - 1]))
    ensures var i := LeadingSpace(s);
      && i + |t| <= |s| && t == s[i..i + |t|]
      && (forall k :: 0 <= k < i ==> IsSpace(s[k]))
      && (forall k :: i + |t| <= k < |s| ==> IsSpace(s[k]))
  {
    var a := TrimStart(s);
    var t := TrimEnd(a);
    PrefixOfSuffix(s, a, t);
    t
  }

  /** A prefix `t` of a suffix `a` of `s` is the slice of `s` after the
      suffix's start, and whitespace after `t` in `a` is whitespace of `s`. */
  lemma PrefixOfSuffix(s: string, a: string, t: string)
    requires |a| <= |s| && a == s[|s| - |a|..]
    requires |t| <= |a| && t == a[..|t|]
    requires forall k :: |t| <= k < |a| ==> IsSpace(a[k])
    ensures var i := |s| - |a|;
      && i + |t| <= |s| && t == s[i..i + |t|]
      && forall k :: i + |t| <= k < |s| ==> IsSpace(s[k])
  {
    var i := |s| - |a|;
    forall k | i + |t| <= k < |s| ensures IsSpace(s[k]) {
      assert s[k] == a[k - i];
    }
  }

  /** Stripping removes whitespace only: a character that is not whitespace
      occurs in the stripped string exactly when it occurs in the original. */
  lemma StripKeeps(s: string, c: char)
    requires !IsSpace(c)
    ensures c in Strip(s) <==> c in s
  {
    if c in s {
      var k :| 0 <= k < |s| && s[k] == c;
      StripKeepsAt(s, k);
    }
    if c in Strip(s) {
      var k :| 0 <= k < |Strip(s)| && Strip(s)[k] == c;
      StripFrom(s, k);
    }
  }

  /** Every character of the stripped string comes from `s`. */
  lemma StripFrom(s: string, k: nat)
    requires k < |Strip(s)|
    ensures Strip(s)[k] in s
  {
    assert s[LeadingSpace(s) + k] == Strip(s)[k];
  }

  /** A character of `s` that is not whitespace survives stripping. */
  lemma StripKeepsAt(s: string, k: nat)
    requires k < |s| && !IsSpace(s[k])
    ensures s[k] in Strip(s)
  {
    var t, i := Strip(s), LeadingSpace(s);
    StripInside(s, k);
    assert t[k - i] == s[k];
  }

  /** A character of `s` that is not whitespace lies inside the stripped slice. */
  lemma StripInside(s: string, k: nat)
    requires k < |s| && !IsSpace(s[k])
    ensures LeadingSpace(s) <= k < LeadingSpace(s) + |Strip(s)|
  {
  }

  /** A string is all whitespace exactly when it strips to nothing, and
      stripping twice changes nothing. */
  lemma StripProperties(s: string)
    ensures Strip(s) == [] <==> forall k :: 0 <= k < |s| ==> IsSpace(s[k])
    ensures Strip(Strip(s)) == Strip(s)
  {
    var t := Strip(s);
    var i := LeadingSpace(s);
    if t != [] {
      assert s[i] == t[0];
    } else {
      forall k | 0 <= k < |s| ensures IsSpace(s[k]) {
        if k < i {
        } else {
          assert i + |t| <= k;
        }
      }
    }
    var a := TrimStart(t);
    if t != [] {
      assert a == t;
      assert TrimEnd(a) == a;
    }
  }

  // ---------------------------------------------------------------------
  // Scanning helpers

  /** Index of the first `c` in `s`, or `|s|` when there is none. */
  function IndexOf(s: string, c: char): (i: nat)
    ensures i <= |s|
    ensures i < |s| ==> s[i] == c
    ensures forall k :: 0 <= k < i ==> s[k] != c
  {
    if |s| == 0 then 0
    else if s[0] == c then 0
    else 1 + IndexOf(s[1..], c)
  }

  /** A string whose first `c` is at `n` has `IndexOf` equal to `n`. */
  lemma IndexOfAt(s: string, c: char, n: nat)
    requires n < |s| && s[n] == c
    requires forall k :: 0 <= k < n ==> s[k] != c
    ensures IndexOf(s, c) == n
  {
    var i := IndexOf(s, c);
    assert i < |s| ==> s[i] == c;
  }

  /** The digit run of `digits + t` ends where `t` starts, when `t` starts
      with a non-digit. */
  lemma DigitRunOf(digits: string, t: string)
    requires AllDigits(digits) && |t| > 0 && !IsDigit(t[0])
    ensures DigitRun(digits + t) == |digits|
  {
    var s := digits + t;
    var d := DigitRun(s);
    assert s[|digits|] == t[0];
    assert forall k :: 0 <= k < |digits| ==> s[k] == digits[k];
    forall k | |digits| < k <= |s| ensures !AllDigits(s[..k]) {
      assert s[..k][|digits|] == t[0];
    }
  }

  /** Length of the longest prefix of `s` made of decimal digits. */
  function DigitRun(s: string): (n: nat)
    ensures n <= |s| && AllDigits(s[..n])
    ensures n < |s| ==> !IsDigit(s[n])
  {
    if |s| == 0 || !IsDigit(s[0]) then 0
    else
      var k := DigitRun(s[1..]);
      assert s[..1 + k] == [s[0]] + s[1..][..k];
      1 + k
  }
}
