/** The handful of Python string operations the planefence scripts rely on:
    `strip()`, `lower()`, slicing, `split(sep)`, `replace(c, "")`,
    `isdigit()`/`int()` on digit strings, `str(n)` and `'{:,}'.format(n)`. */
module PyStr {

  /** Characters Python 3's `str.strip()` removes (those with `isspace()`). */
  const Py3Space: set<char> := {
    ' ', '\t', '\n', '\r', '\U{000B}', '\U{000C}',
    '\U{001C}', '\U{001D}', '\U{001E}', '\U{001F}', '\U{0085}', '\U{00A0}', '\U{1680}',
    '\U{2000}', '\U{2001}', '\U{2002}', '\U{2003}', '\U{2004}', '\U{2005}', '\U{2006}',
    '\U{2007}', '\U{2008}', '\U{2009}', '\U{200A}',
    '\U{2028}', '\U{2029}', '\U{202F}', '\U{205F}', '\U{3000}'
  }

  /** Characters Python 2's byte-string `strip()` removes (C-locale `isspace`). */
  const Py2Space: set<char> := {' ', '\t', '\n', '\r', '\U{000B}', '\U{000C}'}

  /** Drops the longest prefix made of characters in `ws`. */
  function TrimLeft(s: string, ws: set<char>): string {
    if |s| > 0 && s[0] in ws then TrimLeft(s[1..], ws) else s
  }

  /** Drops the longest suffix made of characters in `ws`. */
  function TrimRight(s: string, ws: set<char>): string {
    if |s| > 0 && s[|s| - 1] in ws then TrimRight(s[..|s| - 1], ws) else s
  }

  /** `TrimLeft` keeps a suffix, cuts only whitespace, and stops at the first
      character that is not whitespace. */
  lemma {:induction false} TrimLeftShape(s: string, ws: set<char>)
    ensures var r := TrimLeft(s, ws);
            && |r| <= |s| && r == s[|s| - |r|..]
            && (forall k :: 0 <= k < |s| - |r| ==> s[k] in ws)
            && (r == [] || r[0] !in ws)
  {
    if |s| > 0 && s[0] in ws {
      TrimLeftShape(s[1..], ws);
    }
  }

  /** `TrimRight` keeps a prefix, cuts only whitespace, and stops at the last
      character that is not whitespace. */
  lemma {:induction false} TrimRightShape(s: string, ws: set<char>)
    ensures var r := TrimRight(s, ws);
            && |r| <= |s| && r == s[..|r|]
            && (forall k :: |r| <= k < |s| ==> s[k] in ws)
            && (r == [] || r[|r| - 1] !in ws)
  {
    if |s| > 0 && s[|s| - 1] in ws {
      TrimRightShape(s[..|s| - 1], ws);
    }
  }

  function StripSet(s: string, ws: set<char>): string {
    TrimRight(TrimLeft(s, ws), ws)
  }

  /** Python 3 `s.strip()`. */
  function Strip(s: string): string {
    StripSet(s, Py3Space)
  }

  /** Python 2 `s.strip()` on a byte string. */
  function Strip2(s: string): string {
    StripSet(s, Py2Space)
  }

  /** `StripSet` keeps one infix of `s`: what it cut off is whitespace, and the
      result neither starts nor ends with whitespace. */
  lemma StripShape(s: string, ws: set<char>)
    ensures var r := StripSet(s, ws);
            exists i, j :: 0 <= i <= j <= |s| && r == s[i..j]
                           && (forall k :: 0 <= k < i ==> s[k] in ws)
                           && (forall k :: j <= k < |s| ==> s[k] in ws)
    ensures var r := StripSet(s, ws); r == [] || (r[0] !in ws && r[|r| - 1] !in ws)
  {
    var l := TrimLeft(s, ws);
    var r := TrimRight(l, ws);
    TrimLeftShape(s, ws);
    TrimRightShape(l, ws);
    var i := |s| - |l|;
    var j := i + |r|;
    assert r == s[i..j];
    assert forall k :: j <= k < |s| ==> s[k] == l[k - i];
  }

  /** Stripping twice is stripping once. */
  lemma StripIdempotent(s: string, ws: set<char>)
    ensures StripSet(StripSet(s, ws), ws) == StripSet(s, ws)
  {
    var r := StripSet(s, ws);
    StripShape(s, ws);
    if r != [] {
      assert TrimLeft(r, ws) == r;
      assert TrimRight(r, ws) == r;
    } else {
      assert TrimLeft(r, ws) == r;
    }
  }

  /** A string that neither starts nor ends with whitespace is left as it is. */
  lemma StripUnchanged(s: string, ws: set<char>)
    requires s != [] && s[0] !in ws && s[|s| - 1] !in ws
    ensures StripSet(s, ws) == s
  {
    assert TrimLeft(s, ws) == s;
  }

  function LowerChar(c: char): char {
    if 'A' <= c <= 'Z' then (c as int + 32) as char else c
  }

  /** `s.lower()` on the ASCII letters that ICAO addresses and dates use. */
  function Lower(s: string): string {
    seq(|s|, i requires 0 <= i < |s| => LowerChar(s[i]))
  }

  function Min(a: int, b: int): int {
    if a <= b then a else b
  }

  /** Python `s[a:b]` for non-negative bounds: both bounds are clamped to the
      length and an empty slice results when they cross. */
  function Slice(s: string, a: nat, b: nat): (r: string)
    ensures |r| <= |s| && |r| <= b
    ensures a <= b <= |s| ==> r == s[a..b]
  {
    var lo := Min(a, |s|);
    var hi := Min(b, |s|);
    if lo <= hi then s[lo..hi] else []
  }

  /** Python `s[:n]`. */
  function Prefix(s: string, n: nat): (r: string)
    ensures |r| == Min(n, |s|) && r == s[..|r|]
  {
    Slice(s, 0, n)
  }

  function Occurrences(s: string, c: char): nat {
    if s == [] then 0 else (if s[0] == c then 1 else 0) + Occurrences(s[1..], c)
  }

  /** Python `s.split(c)` with an explicit separator: one more piece than there
      are separators, and no piece holds the separator. */
  function Split(s: string, c: char): (parts: seq<string>)
    ensures |parts| == Occurrences(s, c) + 1
    ensures forall k :: 0 <= k < |parts| ==> c !in parts[k]
  {
    if s == [] then [""]
    else
      var rest := Split(s[1..], c);
      if s[0] == c then [""] + rest
      else [[s[0]] + rest[0]] + rest[1..]
  }

  /** Python `c.join(parts)`. */
  function Join(parts: seq<string>, c: char): string
    requires |parts| >= 1
  {
    if |parts| == 1 then parts[0] else parts[0] + [c] + Join(parts[1..], c)
  }

  /** Joining the pieces of a split gives back the string. */
  lemma {:induction false} JoinSplit(s: string, c: char)
    ensures Join(Split(s, c), c) == s
  {
    if s != [] {
      JoinSplit(s[1..], c);
      var rest := Split(s[1..], c);
      if s[0] != c {
        if |rest| == 1 {
        } else {
          assert ([[s[0]] + rest[0]] + rest[1..])[1..] == rest[1..];
          assert Join(rest, c) == rest[0] + [c] + Join(rest[1..], c);
        }
      } else {
        assert ([""] + rest)[1..] == rest;
      }
    }
  }

  /** Splitting a join of separator-free pieces gives back the pieces. */
  lemma {:induction false} SplitJoin(parts: seq<string>, c: char)
    requires |parts| >= 1
    requires forall k :: 0 <= k < |parts| ==> c !in parts[k]
    ensures Split(Join(parts, c), c) == parts
  {
    if |parts| == 1 {
      SplitNoSeparator(parts[0], c);
    } else {
      SplitJoin(parts[1..], c);
      SplitAppend(parts[0], Join(parts[1..], c), c);
      assert [parts[0]] + parts[1..] == parts;
    }
  }

  lemma {:induction false} SplitNoSeparator(s: string, c: char)
    requires c !in s
    ensures Split(s, c) == [s]
  {
    if s != [] {
      assert c !in s[1..];
      SplitNoSeparator(s[1..], c);
      assert [s[0]] + s[1..] == s;
    }
  }

  lemma {:induction false} SplitAppend(p: string, t: string, c: char)
    requires c !in p
    ensures Split(p + [c] + t, c) == [p] + Split(t, c)
  {
    if p == [] {
      assert p + [c] + t == [c] + t;
      assert ([c] + t)[1..] == t;
    } else {
      assert (p + [c] + t)[1..] == p[1..] + [c] + t;
      assert c !in p[1..];
      SplitAppend(p[1..], t, c);
      assert [p[0]] + p[1..] == p;
    }
  }

  /** Python `s.replace(c, "")` for a single character `c`. */
  function RemoveChar(s: string, c: char): (r: string)
    ensures c !in r
    ensures |r| == |s| - Occurrences(s, c)
    ensures forall x :: x != c ==> (x in r <==> x in s)
  {
    if s == [] then []
    else
      var rest := RemoveChar(s[1..], c);
      assert forall x :: x in s <==> x == s[0] || x in s[1..];
      if s[0] == c then rest else [s[0]] + rest
  }

  lemma {:induction false} RemoveCharAbsent(s: string, c: char)
    requires c !in s
    ensures RemoveChar(s, c) == s
  {
    if s != [] {
      assert c !in s[1..];
      RemoveCharAbsent(s[1..], c);
    }
  }

  lemma {:induction false} RemoveCharAppend(a: string, b: string, c: char)
    ensures RemoveChar(a + b, c) == RemoveChar(a, c) + RemoveChar(b, c)
  {
    if a != [] {
      assert (a + b)[1..] == a[1..] + b;
      RemoveCharAppend(a[1..], b, c);
    } else {
      assert a + b == b;
    }
  }

  predicate IsDigit(c: char) {
    '0' <= c <= '9'
  }

  /** Python `s.isdigit()` restricted to ASCII digits: non-empty and digits only. */
  predicate IsDigits(s: string) {
    |s| > 0 && forall i :: 0 <= i < |s| ==> IsDigit(s[i])
  }

  /** Python `int(s)` for a string of ASCII digits (leading zeros allowed). */
  function DecimalValue(s: string): nat
    requires forall i :: 0 <= i < |s| ==> IsDigit(s[i])
  {
    if s == [] then 0
    else
      assert IsDigit(s[|s| - 1]);
      DecimalValue(s[..|s| - 1]) * 10 + (s[|s| - 1] as int - '0' as int)
  }

  /** Python `str(n)` for a natural number. */
  function DecimalString(n: nat): (r: string)
    ensures IsDigits(r)
    ensures DecimalValue(r) == n
    ensures |r| > 1 ==> r[0] != '0'
  {
    if n < 10 then ["0123456789"[n]]
    else
      var h := DecimalString(n / 10);
      var r := h + ["0123456789"[n % 10]];
      assert r[..|r| - 1] == h;
      r
  }

  /** Commas between groups of three digits, counted from the right. */
  function GroupDigits(ds: string): (r: string)
    decreases |ds|
  {
    if |ds| <= 3 then ds else GroupDigits(ds[..|ds| - 3]) + "," + ds[|ds| - 3..]
  }

  /** `'{:,}'.format(n)` for an integer `n`. */
  function Grouped(n: int): string {
    if n < 0 then "-" + GroupDigits(DecimalString(-n)) else GroupDigits(DecimalString(n))
  }

  /** Removing the commas from a grouped digit string gives the digits back. */
  lemma {:induction false} UngroupDigits(ds: string)
    requires ',' !in ds
    ensures RemoveChar(GroupDigits(ds), ',') == ds
    decreases |ds|
  {
    if |ds| <= 3 {
      RemoveCharAbsent(ds, ',');
    } else {
      var hi, lo := ds[..|ds| - 3], ds[|ds| - 3..];
      assert ds == hi + lo;
      assert ',' !in hi && ',' !in lo;
      UngroupDigits(hi);
      RemoveCharAppend(GroupDigits(hi) + ",", lo, ',');
      RemoveCharAppend(GroupDigits(hi), ",", ',');
      RemoveCharAbsent(lo, ',');
    }
  }

  /** Every group after the first holds exactly three digits, and the first
      one to three: the text between consecutive commas is three long. */
  lemma {:induction false} GroupDigitsShape(ds: string)
    requires ',' !in ds
    ensures var parts := Split(GroupDigits(ds), ',');
            (|ds| > 0 ==> 1 <= |parts[0]| <= 3)
            && forall k :: 1 <= k < |parts| ==> |parts[k]| == 3
    decreases |ds|
  {
    if |ds| <= 3 {
      SplitNoSeparator(ds, ',');
    } else {
      var hi, lo := ds[..|ds| - 3], ds[|ds| - 3..];
      assert ',' !in hi && ',' !in lo;
      GroupDigitsShape(hi);
      var g := GroupDigits(hi);
      var parts := Split(g, ',');
      JoinSplit(g, ',');
      var all := parts + [lo];
      assert forall k :: 0 <= k < |all| ==> ',' !in all[k];
      JoinAppend(parts, lo, ',');
      SplitJoin(all, ',');
    }
  }

  lemma {:induction false} JoinAppend(parts: seq<string>, last: string, c: char)
    requires |parts| >= 1
    ensures Join(parts + [last], c) == Join(parts, c) + [c] + last
  {
    if |parts| == 1 {
      assert (parts + [last])[1..] == [last];
    } else {
      assert (parts + [last])[1..] == parts[1..] + [last];
      JoinAppend(parts[1..], last, c);
    }
  }
}
