/**
 * The few Python string operations the batch runner relies on, written out over
 * `string` (a sequence of code points): `str.isspace`, `str.strip`, `str.split`
 * with a one-character separator, `sep.join`, the substring test `a in b` and
 * the decimal formatting of a non-negative `int`.
 */
module Text {

  /** Python's `str.isspace()` for one code point. */
  predicate IsSpace(c: char) {
    var n := c as int;
    (9 <= n <= 13) || (28 <= n <= 32) || n == 0x85 || n == 0xA0 || n == 0x1680
    || (0x2000 <= n <= 0x200A) || n == 0x2028 || n == 0x2029 || n == 0x202F
    || n == 0x205F || n == 0x3000
  }

  /** `s.lstrip()`: the suffix left after the longest whitespace prefix. */
  function TrimLeft(s: string): (r: string)
    ensures |r| <= |s| && r == s[|s| - |r|..]
    ensures forall k :: 0 <= k < |s| - |r| ==> IsSpace(s[k])
    ensures r == [] || !IsSpace(r[0])
  {
    if s != [] && IsSpace(s[0]) then TrimLeft(s[1..]) else s
  }

  /** `s.rstrip()`: the prefix left after the longest whitespace suffix. */
  function TrimRight(s: string): (r: string)
    ensures |r| <= |s| && r == s[..|r|]
    ensures forall k :: |r| <= k < |s| ==> IsSpace(s[k])
    ensures r == [] || !IsSpace(r[|r| - 1])
  {
    if s != [] && IsSpace(s[|s| - 1]) then TrimRight(s[..|s| - 1]) else s
  }

  /** `s.strip()`. */
  function Strip(s: string): (r: string)
    ensures |r| <= |s|
    ensures r == [] || (!IsSpace(r[0]) && !IsSpace(r[|r| - 1]))
  {
    TrimRight(TrimLeft(s))
  }

  /** `s` is `r` preceded by `i` whitespace characters and followed by whitespace only. */
  predicate PaddedAt(s: string, r: string, i: int) {
    0 <= i <= |s| - |r| && r == s[i..i + |r|]
    && (forall k :: 0 <= k < i ==> IsSpace(s[k]))
    && (forall k :: i + |r| <= k < |s| ==> IsSpace(s[k]))
  }

  /**
   * `Strip` removes exactly the longest whitespace prefix and the longest
   * whitespace suffix: what is left is an infix of `s` surrounded by whitespace.
   */
  lemma StripIsInfix(s: string)
    ensures exists i :: PaddedAt(s, Strip(s), i)
  {
    var l := TrimLeft(s);
    var r := Strip(s);
    var i := |s| - |l|;
    assert r == l[..|r|];
    assert r == s[i..i + |r|];
    forall k | i + |r| <= k < |s| ensures IsSpace(s[k]) {
      assert s[k] == l[k - i];
    }
    assert PaddedAt(s, r, i);
  }

  /** A string with no whitespace at either end is its own strip. */
  lemma StripUnpadded(s: string)
    requires s == [] || (!IsSpace(s[0]) && !IsSpace(s[|s| - 1]))
    ensures Strip(s) == s
  {
    assert TrimLeft(s) == s;
  }

  /** `str.strip` is idempotent. */
  lemma StripIdempotent(s: string)
    ensures Strip(Strip(s)) == Strip(s)
  {
    StripUnpadded(Strip(s));
  }

  /**
   * Python's `s.split(sep)` for a one-character separator: always at least one
   * piece, and empty pieces are kept.
   */
  function SplitOn(s: string, sep: char): (r: seq<string>)
    ensures |r| >= 1
    ensures forall k :: 0 <= k < |r| ==> sep !in r[k]
  {
    if s == [] then [""]
    else
      var init := SplitOn(s[..|s| - 1], sep);
      if s[|s| - 1] == sep then init + [""]
      else init[..|init| - 1] + [init[|init| - 1] + [s[|s| - 1]]]
  }

  /** Python's `sep.join(parts)`. */
  function Join(parts: seq<string>, sep: string): string {
    if |parts| == 0 then ""
    else if |parts| == 1 then parts[0]
    else Join(parts[..|parts| - 1], sep) + sep + parts[|parts| - 1]
  }

  /** Joining the pieces of a split with the separator gives back the input. */
  lemma {:induction false} JoinSplitOn(s: string, sep: char)
    ensures Join(SplitOn(s, sep), [sep]) == s
  {
    if s != [] {
      var front, c := s[..|s| - 1], s[|s| - 1];
      var init := SplitOn(front, sep);
      var r := SplitOn(s, sep);
      JoinSplitOn(front, sep);
      assert s == front + [c];
      if c == sep {
        assert r == init + [""];
        assert r[..|init|] == init;
        assert Join(r, [sep]) == Join(init, [sep]) + [sep] + "";
      } else {
        var k := |init| - 1;
        assert r == init[..k] + [init[k] + [c]];
        if k == 0 {
          assert Join(r, [sep]) == init[0] + [c];
        } else {
          assert r[..k] == init[..k];
          assert Join(r, [sep]) == Join(init[..k], [sep]) + [sep] + (init[k] + [c]);
          assert Join(init, [sep]) == Join(init[..k], [sep]) + [sep] + init[k];
        }
      }
    }
  }


  /** A split gives one piece more than there are separators. */
  lemma {:induction false} SplitOnCount(s: string, sep: char)
    ensures |SplitOn(s, sep)| == multiset(s)[sep] + 1
  {
    if s != [] {
      var front := s[..|s| - 1];
      SplitOnCount(front, sep);
      assert s == front + [s[|s| - 1]];
      assert multiset(s) == multiset(front) + multiset{s[|s| - 1]};
    }
  }

  /** Python's `sub in s`. */
  predicate IsSubstring(sub: string, s: string)
    decreases |s|
  {
    |sub| <= |s| && (s[..|sub|] == sub || IsSubstring(sub, s[1..]))
  }

  /** `sub` occurs in `s` starting at offset `k`. */
  predicate OccursAt(sub: string, s: string, k: int) {
    0 <= k <= |s| - |sub| && s[k..k + |sub|] == sub
  }

  /** `sub in s` holds exactly when `sub` occurs in `s` at some offset. */
  lemma {:induction false} IsSubstringAt(sub: string, s: string)
    ensures IsSubstring(sub, s) <==> exists k :: OccursAt(sub, s, k)
    decreases |s|
  {
    if |sub| <= |s| && s[..|sub|] == sub {
      assert OccursAt(sub, s, 0);
    } else if |sub| <= |s| {
      IsSubstringAt(sub, s[1..]);
      if exists k :: OccursAt(sub, s, k) {
        var k :| OccursAt(sub, s, k);
        assert k != 0;
        assert s[1..][k - 1..k - 1 + |sub|] == sub;
        assert OccursAt(sub, s[1..], k - 1);
      }
      if IsSubstring(sub, s[1..]) {
        var k :| OccursAt(sub, s[1..], k);
        assert s[k + 1..k + 1 + |sub|] == sub;
        assert OccursAt(sub, s, k + 1);
      }
    }
  }

  predicate IsDigit(c: char) {
    '0' <= c <= '9'
  }

  function DigitChar(d: nat): (c: char)
    requires d < 10
    ensures IsDigit(c)
  {
    ('0' as int + d) as char
  }

  /** `"{}".format(n)` for a non-negative integer: its decimal digits, no leading zero. */
  function NatToString(n: nat): (r: string)
    ensures |r| >= 1
    ensures forall k :: 0 <= k < |r| ==> IsDigit(r[k])
    ensures |r| > 1 ==> r[0] != '0'
  {
    if n < 10 then [DigitChar(n)] else NatToString(n / 10) + [DigitChar(n % 10)]
  }

  function DigitValue(c: char): (d: nat)
    requires IsDigit(c)
    ensures d < 10
  {
    c as int - '0' as int
  }

  /** The value of a string of decimal digits. */
  function DigitsValue(s: string): nat
    requires forall k :: 0 <= k < |s| ==> IsDigit(s[k])
  {
    if s == [] then 0 else DigitsValue(s[..|s| - 1]) * 10 + DigitValue(s[|s| - 1])
  }

  /** Reading back the decimal form of `n` gives `n`: the format loses nothing. */
  lemma {:induction false} NatToStringRoundTrip(n: nat)
    ensures DigitsValue(NatToString(n)) == n
  {
    if n >= 10 {
      NatToStringRoundTrip(n / 10);
      var r := NatToString(n);
      assert r[..|r| - 1] == NatToString(n / 10);
    }
  }

  /** Different numbers have different decimal forms. */
  lemma NatToStringInjective(m: nat, n: nat)
    requires NatToString(m) == NatToString(n)
    ensures m == n
  {
    NatToStringRoundTrip(m);
    NatToStringRoundTrip(n);
  }
}
