/**
 String helpers the configuration generator relies on: Python's `str.strip()`
 (used on the ACL text) and a scan that collects, in order, the variable part
 of every line built from a fixed prefix and suffix (used to read the bridge
 targets back out of a rendered configuration).
 */
module Text {

  /** Python's `str.isspace()` for one character: the ASCII whitespace and
      separator controls, NEL, NBSP and the Unicode space separators. */
  predicate IsSpace(c: char) {
    var k := c as int;
    || 9 <= k <= 13
    || 28 <= k <= 32
    || k == 0x85
    || k == 0xA0
    || k == 0x1680
    || 0x2000 <= k <= 0x200A
    || k == 0x2028
    || k == 0x2029
    || k == 0x202F
    || k == 0x205F
    || k == 0x3000
  }

  predicate AllSpace(s: string) {
    forall k :: 0 <= k < |s| ==> IsSpace(s[k])
  }

  /** Length of the longest all-whitespace prefix of `s`. */
  function LeadingSpace(s: string): (i: nat)
    ensures i <= |s|
    ensures AllSpace(s[..i])
    ensures i < |s| ==> !IsSpace(s[i])
    decreases |s|
  {
    if s == [] || !IsSpace(s[0]) then 0
    else
      var i := 1 + LeadingSpace(s[1..]);
      assert forall k :: 1 <= k < i ==> s[k] == s[1..][k - 1];
      i
  }

  /** Start of the longest all-whitespace suffix of `s`. */
  function TrailingSpace(s: string): (j: nat)
    ensures j <= |s|
    ensures AllSpace(s[j..])
    ensures j > 0 ==> !IsSpace(s[j - 1])
    decreases |s|
  {
    if s == [] || !IsSpace(s[|s| - 1]) then |s|
    else
      var j := TrailingSpace(s[..|s| - 1]);
      assert forall k :: j <= k < |s| - 1 ==> s[k] == s[..|s| - 1][k];
      j
  }

  /** `s[i..j]` is what remains of `s` once every leading and trailing
      whitespace character is removed. */
  ghost predicate IsTrim(s: string, i: int, j: int) {
    && 0 <= i <= j <= |s|
    && AllSpace(s[..i])
    && AllSpace(s[j..])
    && (i < j ==> !IsSpace(s[i]) && !IsSpace(s[j - 1]))
  }

  /** Python's `s.strip()` with no argument. */
  function Strip(s: string): (r: string)
    ensures |r| <= |s|
    ensures r == [] || (!IsSpace(r[0]) && !IsSpace(r[|r| - 1]))
    ensures r == [] <==> AllSpace(s)
    ensures exists i, j :: IsTrim(s, i, j) && r == s[i..j]
  {
    var i := LeadingSpace(s);
    var j := TrailingSpace(s);
    if j <= i then
      assert i == |s| && s[..i] == s;
      assert IsTrim(s, |s|, |s|);
      []
    else
      assert !AllSpace(s) by { assert !IsSpace(s[i]); }
      assert IsTrim(s, i, j);
      s[i..j]
  }

  /** Any way of cutting `s` into leading whitespace, a part that neither
      starts nor ends in whitespace, and trailing whitespace yields exactly
      what `Strip` returns. */
  lemma StripUnique(s: string, i: int, j: int)
    requires IsTrim(s, i, j)
    ensures Strip(s) == s[i..j]
  {
    var a := LeadingSpace(s);
    var b := TrailingSpace(s);
    if i < j {
      // `a` cannot stop before `i` (s[a] would be a space) nor pass it (s[i] is not)
      assert a == i && b == j;
    } else {
      assert AllSpace(s) by {
        forall k | 0 <= k < |s| ensures IsSpace(s[k]) {
          if k < i { assert s[k] == s[..i][k]; } else { assert s[k] == s[j..][k - j]; }
        }
      }
    }
  }

  /** `line` is `pre`, then some text, then `suf`. */
  predicate Framed(pre: string, suf: string, line: string) {
    && |pre| + |suf| <= |line|
    && line[..|pre|] == pre
    && line[|line| - |suf|..] == suf
  }

  /** The text between the frame's prefix and suffix. */
  function Inner(pre: string, suf: string, line: string): string
    requires Framed(pre, suf, line)
  {
    line[|pre|..|line| - |suf|]
  }

  /** The inner text of every line of `lines` framed by `pre` and `suf`, in
      the order the lines appear. */
  function Captures(pre: string, suf: string, lines: seq<string>): (r: seq<string>)
    ensures |r| <= |lines|
    decreases |lines|
  {
    if lines == [] then []
    else
      (if Framed(pre, suf, lines[0]) then [Inner(pre, suf, lines[0])] else [])
      + Captures(pre, suf, lines[1..])
  }

  lemma {:induction false} CapturesAppend(pre: string, suf: string, a: seq<string>, b: seq<string>)
    ensures Captures(pre, suf, a + b) == Captures(pre, suf, a) + Captures(pre, suf, b)
    decreases |a|
  {
    if a != [] {
      var head := if Framed(pre, suf, a[0]) then [Inner(pre, suf, a[0])] else [];
      assert (a + b)[0] == a[0];
      assert (a + b)[1..] == a[1..] + b;
      CapturesAppend(pre, suf, a[1..], b);
      assert Captures(pre, suf, a + b) == head + Captures(pre, suf, a[1..] + b);
      assert Captures(pre, suf, a) == head + Captures(pre, suf, a[1..]);
    } else {
      assert a + b == b;
    }
  }

  /** A line is framed exactly when it is `pre + q + suf` for `q` its inner part. */
  lemma FramedBuild(pre: string, suf: string, q: string)
    ensures Framed(pre, suf, pre + q + suf)
    ensures Inner(pre, suf, pre + q + suf) == q
  {
    var line := pre + q + suf;
    assert line[..|pre|] == pre;
    assert line[|line| - |suf|..] == suf;
    assert line[|pre|..|line| - |suf|] == q;
  }

  lemma FramedSplit(pre: string, suf: string, line: string)
    requires Framed(pre, suf, line)
    ensures line == pre + Inner(pre, suf, line) + suf
  {
    var q := Inner(pre, suf, line);
    assert line == line[..|pre|] + line[|pre|..|line| - |suf|] + line[|line| - |suf|..];
  }

  /** The line `pre + q + suf` occurs in `lines` exactly when `q` is among
      the captured inner parts. */
  lemma {:induction false} CapturesMember(pre: string, suf: string, lines: seq<string>, q: string)
    ensures pre + q + suf in lines <==> q in Captures(pre, suf, lines)
    decreases |lines|
  {
    if lines != [] {
      CapturesMember(pre, suf, lines[1..], q);
      FramedBuild(pre, suf, q);
      if Framed(pre, suf, lines[0]) {
        FramedSplit(pre, suf, lines[0]);
      }
      assert lines == [lines[0]] + lines[1..];
    }
  }
}
