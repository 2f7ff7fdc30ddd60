/**
 * The few functions of Go's `strings` package that the link layer relies on:
 * `TrimSpace`, `ToLower` (restricted to ASCII letters), `IndexByte` and
 * `SplitN(s, sep, 2)` for a one-character separator.
 */
module GoStrings {

  /** unicode.IsSpace: the ASCII controls \t \n \v \f \r, the space, and the Unicode White_Space characters. */
  predicate IsSpace(c: char) {
    var n := c as int;
    (9 <= n <= 13) || n == 32 || n == 0x85 || n == 0xA0 || n == 0x1680
    || (0x2000 <= n <= 0x200A) || n == 0x2028 || n == 0x2029 || n == 0x202F
    || n == 0x205F || n == 0x3000
  }

  predicate AllSpace(s: string) {
    forall i :: 0 <= i < |s| ==> IsSpace(s[i])
  }

  /** Drops the leading white space. */
  function TrimLeft(s: string): string {
    if |s| > 0 && IsSpace(s[0]) then TrimLeft(s[1..]) else s
  }

  /** Drops the trailing white space. */
  function TrimRight(s: string): string {
    if |s| > 0 && IsSpace(s[|s| - 1]) then TrimRight(s[..|s| - 1]) else s
  }

  /** strings.TrimSpace. */
  function TrimSpace(s: string): string {
    TrimRight(TrimLeft(s))
  }

  /** Maps an ASCII upper-case letter to its lower-case form and leaves every other character alone. */
  function LowerChar(c: char): (d: char)
    ensures IsSpace(d) == IsSpace(c)
    ensures ('A' <= c <= 'Z') == (d != c)
  {
    if 'A' <= c <= 'Z' then (c as int + 32) as char else c
  }

  /** A lower-cased character is never an ASCII capital. */
  lemma LowerCharNotUpper(c: char)
    ensures !('A' <= LowerChar(c) <= 'Z')
  {
  }

  /** strings.ToLower on ASCII input. */
  function ToLower(s: string): string {
    if s == [] then [] else [LowerChar(s[0])] + ToLower(s[1..])
  }

  /** strings.IndexByte: the position of the first `c` in `s`, or -1 when `s` holds none. */
  function IndexByte(s: string, c: char): (k: int)
    ensures -1 <= k < |s|
    ensures k == -1 <==> c !in s
    ensures 0 <= k ==> s[k] == c && c !in s[..k]
  {
    if s == [] then -1
    else if s[0] == c then 0
    else
      var k := IndexByte(s[1..], c);
      if k < 0 then -1 else k + 1
  }

  /**
   * strings.SplitN(s, sep, 2) for a one-character separator: `[s]` when `sep`
   * does not occur, otherwise the text before and after its first occurrence.
   */
  function SplitFirst(s: string, sep: char): (parts: seq<string>)
    ensures 1 <= |parts| <= 2
    ensures |parts| == 1 <==> sep !in s
    ensures |parts| == 1 ==> parts[0] == s
    ensures |parts| == 2 ==> parts[0] + [sep] + parts[1] == s && sep !in parts[0]
  {
    var k := IndexByte(s, sep);
    if k < 0 then [s]
    else
      assert s == s[..k] + [sep] + s[k + 1..];
      [s[..k], s[k + 1..]]
  }

  // ---------------------------------------------------------------------
  // What the trimming and case functions compute. They are stated as lemmas
  // rather than postconditions so that a proof pays for them only where it
  // asks for them.
  // ---------------------------------------------------------------------

  /** TrimLeft yields the longest suffix of `s` that does not start with a space, and only spaces precede it. */
  lemma {:induction false} TrimLeftSpec(s: string)
    ensures var r := TrimLeft(s);
      |r| <= |s| && r == s[|s| - |r|..] && AllSpace(s[..|s| - |r|]) && (r == [] || !IsSpace(r[0]))
    decreases |s|
  {
    if |s| > 0 && IsSpace(s[0]) {
      TrimLeftSpec(s[1..]);
      var r := TrimLeft(s[1..]);
      forall i | 0 <= i < |s| - |r| ensures IsSpace(s[i]) {
        if i > 0 { assert s[i] == s[1..][..|s| - 1 - |r|][i - 1]; }
      }
    }
  }

  /** TrimRight yields the longest prefix of `s` that does not end with a space, and only spaces follow it. */
  lemma {:induction false} TrimRightSpec(s: string)
    ensures var r := TrimRight(s);
      |r| <= |s| && r == s[..|r|] && AllSpace(s[|r|..]) && (r == [] || !IsSpace(r[|r| - 1]))
    decreases |s|
  {
    if |s| > 0 && IsSpace(s[|s| - 1]) {
      var t := s[..|s| - 1];
      TrimRightSpec(t);
      var r := TrimRight(t);
      forall i | |r| <= i < |s| ensures IsSpace(s[i]) {
        if i < |s| - 1 { assert s[i] == t[|r|..][i - |r|]; }
      }
    }
  }

  /** TrimSpace: `s` is the result surrounded by white space, and the result neither starts nor ends with a space. */
  lemma {:induction false} TrimSpaceSpec(s: string)
    ensures var r := TrimSpace(s);
      (exists i :: 0 <= i <= |s| - |r| && r == s[i..i + |r|] && AllSpace(s[..i]) && AllSpace(s[i + |r|..]))
      && (r == [] || (!IsSpace(r[0]) && !IsSpace(r[|r| - 1])))
  {
    var t := TrimLeft(s);
    var r := TrimRight(t);
    TrimLeftSpec(s);
    TrimRightSpec(t);
    var i := |s| - |t|;
    assert t == s[i..];
    assert r == s[i..i + |r|];
    assert s[i + |r|..] == t[|r|..];
    assert 0 <= i <= |s| - |r| && AllSpace(s[..i]) && AllSpace(s[i + |r|..]);
  }

  /** ToLower lower-cases each character in place. */
  lemma {:induction false} ToLowerSpec(s: string)
    ensures |ToLower(s)| == |s|
    ensures forall i :: 0 <= i < |s| ==> ToLower(s)[i] == LowerChar(s[i])
    decreases |s|
  {
    if s != [] {
      ToLowerSpec(s[1..]);
      assert forall i :: 1 <= i < |s| ==> s[i] == s[1..][i - 1];
    }
  }

  // ---------------------------------------------------------------------
  // Lemmas about the normalisation `TrimSpace(ToLower(s))`
  // ---------------------------------------------------------------------

  lemma {:induction false} ToLowerAppend(a: string, b: string)
    ensures ToLower(a + b) == ToLower(a) + ToLower(b)
  {
    ToLowerSpec(a + b);
    ToLowerSpec(a);
    ToLowerSpec(b);
    var l, r := ToLower(a + b), ToLower(a) + ToLower(b);
    assert |l| == |r|;
    forall i | 0 <= i < |l| ensures l[i] == r[i] {
      if i < |a| { assert (a + b)[i] == a[i]; } else { assert (a + b)[i] == b[i - |a|]; }
    }
  }

  /** Lower-casing twice is lower-casing once. */
  lemma {:induction false} ToLowerIdempotent(s: string)
    ensures ToLower(ToLower(s)) == ToLower(s)
  {
    ToLowerSpec(s);
    ToLowerSpec(ToLower(s));
    var l, r := ToLower(ToLower(s)), ToLower(s);
    forall i | 0 <= i < |s| ensures l[i] == r[i] {
      assert LowerChar(LowerChar(s[i])) == LowerChar(s[i]);
    }
  }

  /** White space is left alone by lower-casing. */
  lemma {:induction false} ToLowerAllSpace(s: string)
    requires AllSpace(s)
    ensures ToLower(s) == s
  {
    ToLowerSpec(s);
    var r := ToLower(s);
    forall i | 0 <= i < |s| ensures r[i] == s[i] {
      assert IsSpace(s[i]);
    }
  }

  /** `s` holds no ASCII capital. */
  predicate NoUpper(s: string) {
    forall i :: 0 <= i < |s| ==> !('A' <= s[i] <= 'Z')
  }

  /** A lower-cased string holds no ASCII capital. */
  lemma {:induction false} ToLowerNoUpper(s: string)
    ensures NoUpper(ToLower(s))
  {
    ToLowerSpec(s);
    forall i | 0 <= i < |s| ensures !('A' <= ToLower(s)[i] <= 'Z') {
      LowerCharNotUpper(s[i]);
    }
  }

  /** Trimming only removes characters, so it adds no capital. */
  lemma {:induction false} TrimSpaceNoUpper(s: string)
    requires NoUpper(s)
    ensures NoUpper(TrimSpace(s))
  {
    var t := TrimLeft(s);
    TrimLeftSpec(s);
    forall i | 0 <= i < |t| ensures !('A' <= t[i] <= 'Z') {
      assert t[i] == s[|s| - |t| + i];
    }
    var r := TrimRight(t);
    TrimRightSpec(t);
    forall i | 0 <= i < |r| ensures !('A' <= r[i] <= 'Z') {
      assert r[i] == t[i];
    }
  }

  /** A string without ASCII upper-case letters is its own lower-case form. */
  lemma {:induction false} ToLowerOfLower(s: string)
    requires NoUpper(s)
    ensures ToLower(s) == s
  {
    ToLowerSpec(s);
    var r := ToLower(s);
    forall i | 0 <= i < |s| ensures r[i] == s[i] {
      assert !('A' <= s[i] <= 'Z');
    }
  }

  /** A string that is already trimmed is its own trim. */
  lemma {:induction false} TrimSpaceOfTrimmed(s: string)
    requires s == [] || (!IsSpace(s[0]) && !IsSpace(s[|s| - 1]))
    ensures TrimSpace(s) == s
  {
    assert TrimLeft(s) == s;
    assert TrimRight(s) == s;
  }

  /** Leading white space never reaches the result of TrimLeft. */
  lemma {:induction false} TrimLeftSpacePrefix(p: string, s: string)
    requires AllSpace(p)
    ensures TrimLeft(p + s) == TrimLeft(s)
    decreases |p|
  {
    if p != [] {
      assert (p + s)[0] == p[0];
      assert (p + s)[1..] == p[1..] + s;
      TrimLeftSpacePrefix(p[1..], s);
    } else {
      assert p + s == s;
    }
  }

  /** Trailing white space never reaches the result of TrimRight. */
  lemma {:induction false} TrimRightSpaceSuffix(s: string, q: string)
    requires AllSpace(q)
    ensures TrimRight(s + q) == TrimRight(s)
    decreases |q|
  {
    if q != [] {
      var n := |s + q|;
      assert (s + q)[n - 1] == q[|q| - 1];
      assert (s + q)[..n - 1] == s + q[..|q| - 1];
      TrimRightSpaceSuffix(s, q[..|q| - 1]);
    } else {
      assert s + q == s;
    }
  }

  /** Trimming a string with trailing blanks: TrimLeft either eats all of `s` or leaves the blanks after it. */
  lemma {:induction false} TrimLeftThenSuffix(s: string, q: string)
    requires AllSpace(q)
    ensures AllSpace(s) ==> TrimLeft(s + q) == []
    ensures !AllSpace(s) ==> TrimLeft(s + q) == TrimLeft(s) + q
    decreases |s|
  {
    if s == [] {
      assert s + q == q;
      TrimLeftSpec(q);
    } else {
      assert (s + q)[0] == s[0];
      assert (s + q)[1..] == s[1..] + q;
      if IsSpace(s[0]) {
        TrimLeftThenSuffix(s[1..], q);
        assert AllSpace(s) == AllSpace(s[1..]) by {
          if AllSpace(s[1..]) {
            forall i | 0 <= i < |s| ensures IsSpace(s[i]) {
              if i > 0 { assert s[i] == s[1..][i - 1]; }
            }
          }
        }
      }
    }
  }

  /** Surrounding white space does not change TrimSpace. */
  lemma {:induction false} TrimSpacePadded(p: string, s: string, q: string)
    requires AllSpace(p) && AllSpace(q)
    ensures TrimSpace(p + s + q) == TrimSpace(s)
  {
    assert p + s + q == p + (s + q);
    TrimLeftSpacePrefix(p, s + q);
    TrimLeftThenSuffix(s, q);
    if AllSpace(s) {
      TrimLeftThenSuffix(s, []);
      assert s + [] == s;
    } else {
      TrimRightSpaceSuffix(TrimLeft(s), q);
    }
  }
}
