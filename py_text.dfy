/**
 * The few pieces of Python's text handling the programs rely on:
 * `str.isspace` (which is also what `\s` matches in a `re` pattern over
 * `str`), `str.strip()` and `str.split('\n')`.
 */
module PyText {

  /** `str.isspace()`: the ASCII whitespace characters, the information
      separators 0x1C-0x1F, and Unicode's other space characters. */
  predicate IsSpace(c: char) {
    c == ' ' || ('\t' <= c <= '\r') || ('\U{1C}' <= c <= '\U{1F}')
    || c == '\U{85}' || c == '\U{A0}' || c == '\U{1680}'
    || ('\U{2000}' <= c <= '\U{200A}') || c == '\U{2028}' || c == '\U{2029}'
    || c == '\U{202F}' || c == '\U{205F}' || c == '\U{3000}'
  }

  /** Every character of s[i..j] is whitespace. */
  ghost predicate AllSpaceIn(s: string, i: int, j: int) {
    0 <= i <= j <= |s| && forall m :: i <= m < j ==> IsSpace(s[m])
  }

  ghost predicate AllSpace(t: string) {
    AllSpaceIn(t, 0, |t|)
  }

  /** `\s*` from position i, taken greedily: the end of the whitespace run
      that starts at i. */
  function SkipSpace(s: string, i: nat): (j: nat)
    requires i <= |s|
    ensures i <= j <= |s| && AllSpaceIn(s, i, j)
    ensures j == |s| || !IsSpace(s[j])
    decreases |s| - i
  {
    if i == |s| || !IsSpace(s[i]) then i else SkipSpace(s, i + 1)
  }

  /** No whitespace run from i ends before the one SkipSpace finds. */
  lemma SpaceRunBound(s: string, i: nat, j: nat)
    requires i <= |s| && AllSpaceIn(s, i, j)
    ensures j <= SkipSpace(s, i)
  {
  }

  lemma AllSpaceSlice(s: string, i: nat, j: nat)
    requires AllSpaceIn(s, i, j)
    ensures AllSpace(s[i..j])
  {
    var t := s[i..j];
    forall m | 0 <= m < |t| ensures IsSpace(t[m]) {
      assert t[m] == s[i + m];
    }
  }

  /** The start of the whitespace run that ends at j, not going below lo. */
  function TrimEnd(s: string, lo: nat, j: nat): (k: nat)
    requires lo <= j <= |s|
    ensures lo <= k <= j && AllSpaceIn(s, k, j)
    ensures k == lo || !IsSpace(s[k - 1])
    decreases j
  {
    if j == lo || !IsSpace(s[j - 1]) then j else TrimEnd(s, lo, j - 1)
  }

  /** A slice of a slice is a slice. */
  lemma SliceOfSlice(s: string, i: nat, j: nat, a: nat, b: nat)
    requires i <= j <= |s| && a <= b <= j - i
    ensures s[i..j][a..b] == s[i + a..i + b]
  {
    var u, v := s[i..j][a..b], s[i + a..i + b];
    forall m | 0 <= m < |u| ensures u[m] == v[m] {}
  }

  /** The front and the back of a slice are slices. */
  lemma SliceParts(s: string, i: nat, j: nat, k: nat)
    requires i <= j <= |s| && k <= j - i
    ensures s[i..j][..k] == s[i..i + k] && s[i..j][k..] == s[i + k..j]
  {
    var t := s[i..j];
    forall m | 0 <= m < k ensures t[..k][m] == s[i..i + k][m] {}
    forall m | 0 <= m < j - i - k ensures t[k..][m] == s[i + k..j][m] {}
  }

  /** Dropping e characters, then k more, drops e + k. */
  lemma DropDrop(s: string, e: nat, k: nat)
    requires e <= |s| && k <= |s| - e
    ensures s[e..][k..] == s[e + k..]
  {
    var u, v := s[e..][k..], s[e + k..];
    forall m | 0 <= m < |u| ensures u[m] == v[m] {}
  }

  /** `str.strip()` with no argument. */
  function Strip(s: string): (r: string)
  {
    var i := SkipSpace(s, 0);
    s[i..TrimEnd(s, i, |s|)]
  }

  /** What strip promises: it removes exactly the whitespace at both ends. */
  lemma StripSpec(s: string)
    ensures exists i, j :: AllSpaceIn(s, 0, i) && i <= j && AllSpaceIn(s, j, |s|) && Strip(s) == s[i..j]
    ensures Strip(s) == [] <==> AllSpace(s)
    ensures Strip(s) != [] ==> !IsSpace(Strip(s)[0]) && !IsSpace(Strip(s)[|Strip(s)| - 1])
  {
    var i := SkipSpace(s, 0);
    var j := TrimEnd(s, i, |s|);
    assert Strip(s) == s[i..j];
    if j == i {
      assert AllSpaceIn(s, 0, i) && AllSpaceIn(s, i, |s|);
    } else {
      assert !IsSpace(s[i]);
    }
  }

  /** A string without whitespace at either end is left alone by strip. */
  lemma StripKeeps(s: string)
    requires s == [] || (!IsSpace(s[0]) && !IsSpace(s[|s| - 1]))
    ensures Strip(s) == s
  {
  }

  /** `s.split('\n')`: the pieces between newlines, always at least one. */
  function SplitLines(s: string): (r: seq<string>)
    ensures |r| >= 1 && JoinLines(r) == s
    ensures forall k :: 0 <= k < |r| ==> '\n' !in r[k]
    decreases |s|
  {
    if s == [] then [""]
    else if s[0] == '\n' then [""] + SplitLines(s[1..])
    else
      var t := SplitLines(s[1..]);
      [[s[0]] + t[0]] + t[1..]
  }

  /** `'\n'.join(lines)`. */
  function JoinLines(lines: seq<string>): string
    requires |lines| >= 1
    decreases |lines|
  {
    if |lines| == 1 then lines[0] else lines[0] + "\n" + JoinLines(lines[1..])
  }

  /** Splitting a join of newline-free lines gives the lines back. */
  lemma {:induction false} SplitJoin(lines: seq<string>)
    requires |lines| >= 1
    requires forall k :: 0 <= k < |lines| ==> '\n' !in lines[k]
    ensures SplitLines(JoinLines(lines)) == lines
    decreases |lines|, |lines[0]|
  {
    var l := lines[0];
    if |lines| == 1 {
      SplitNoNewline(l);
    } else if l == [] {
      var rest := lines[1..];
      SplitJoin(rest);
      SplitNewline(JoinLines(rest));
      assert JoinLines(lines) == "\n" + JoinLines(rest);
      assert lines == [""] + rest;
    } else {
      var rest := [l[1..]] + lines[1..];
      assert rest[1..] == lines[1..];
      assert forall k :: 1 <= k < |rest| ==> rest[k] == lines[k];
      SplitJoin(rest);
      JoinFirst(l, lines[1..]);
      SplitChar(l[0], JoinLines(rest));
      assert [l[0]] + l[1..] == l;
      assert lines == [l] + lines[1..];
    }
  }

  lemma JoinFirst(l: string, more: seq<string>)
    requires l != [] && more != []
    ensures JoinLines([l] + more) == [l[0]] + JoinLines([l[1..]] + more)
  {
    assert ([l] + more)[1..] == more;
    assert ([l[1..]] + more)[1..] == more;
    assert l == [l[0]] + l[1..];
  }

  lemma SplitNewline(s: string)
    ensures SplitLines("\n" + s) == [""] + SplitLines(s)
  {
    assert ("\n" + s)[1..] == s;
  }

  lemma SplitChar(c: char, s: string)
    requires c != '\n'
    ensures SplitLines([c] + s) == [[c] + SplitLines(s)[0]] + SplitLines(s)[1..]
  {
    assert ([c] + s)[1..] == s;
  }

  lemma {:induction false} SplitNoNewline(s: string)
    requires '\n' !in s
    ensures SplitLines(s) == [s]
    decreases |s|
  {
    if s != [] {
      SplitNoNewline(s[1..]);
    }
  }
}
