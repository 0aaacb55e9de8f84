/**
 * The few functions of Go's `strings` package that the lookup builder relies on:
 * `strings.TrimSpace`, `strings.Index` (behind `strings.Count(s, sep) > 0`) and
 * `strings.Split` with a non-empty separator, together with `strings.Join` as the
 * inverse of `Split`.
 */
module GoStrings {

  /** Go's `unicode.IsSpace`: the Latin-1 white space plus the Unicode `White_Space` characters. */
  predicate IsSpace(c: char) {
    || c == '\t' || c == '\n' || c == '\U{000B}' || c == '\U{000C}' || c == '\r' || c == ' '
    || c == '\U{0085}' || c == '\U{00A0}' || c == '\U{1680}'
    || ('\U{2000}' <= c <= '\U{200A}')
    || c == '\U{2028}' || c == '\U{2029}' || c == '\U{202F}' || c == '\U{205F}' || c == '\U{3000}'
  }

  ghost predicate AllSpace(s: string) {
    forall k :: 0 <= k < |s| ==> IsSpace(s[k])
  }

  /** `s` neither starts nor ends with white space. */
  predicate Unpadded(s: string) {
    s != [] ==> !IsSpace(s[0]) && !IsSpace(s[|s| - 1])
  }

  /** Where the scan for the first non-white-space character from `from` stops. */
  function FirstNonSpace(s: string, from: nat): (start: nat)
    requires from <= |s|
    decreases |s| - from
    ensures from <= start <= |s|
    ensures forall k :: from <= k < start ==> IsSpace(s[k])
    ensures start < |s| ==> !IsSpace(s[start])
  {
    if from < |s| && IsSpace(s[from]) then FirstNonSpace(s, from + 1) else from
  }

  /** Where the backward scan from `stop` stops: at `lo`, or just after a non-white-space character. */
  function LastNonSpaceEnd(s: string, lo: nat, stop: nat): (end: nat)
    requires lo <= stop <= |s|
    ensures lo <= end <= stop
    ensures forall k :: end <= k < stop ==> IsSpace(s[k])
    ensures end > lo ==> !IsSpace(s[end - 1])
  {
    if stop > lo && IsSpace(s[stop - 1]) then LastNonSpaceEnd(s, lo, stop - 1) else stop
  }

  /** `r` occurs in `s` at position `i` with nothing but white space around it. */
  ghost predicate TrimmedAt(s: string, r: string, i: int) {
    && 0 <= i <= |s| - |r| && s[i..i + |r|] == r
    && (forall k :: 0 <= k < i ==> IsSpace(s[k]))
    && (forall k :: i + |r| <= k < |s| ==> IsSpace(s[k]))
  }

  /** `r` is `s` with leading and trailing white space cut off. */
  ghost predicate TrimmedOf(s: string, r: string) {
    exists i :: TrimmedAt(s, r, i)
  }

  /**
   * Go's `strings.TrimSpace`: the infix of `s` left when all leading and trailing
   * white space is cut off. It is empty exactly when `s` is all white space.
   */
  function TrimSpace(s: string): (r: string)
    ensures r == [] <==> AllSpace(s)
    ensures Unpadded(r)
    ensures TrimmedOf(s, r)
  {
    var start := FirstNonSpace(s, 0);
    var stop := LastNonSpaceEnd(s, start, |s|);
    assert start < stop ==> !IsSpace(s[stop - 1]);
    assert TrimmedAt(s, s[start..stop], start);
    s[start..stop]
  }

  /** A string that neither starts nor ends with white space is its own trimmed form. */
  lemma TrimSpaceOfTrimmed(s: string)
    requires Unpadded(s)
    ensures TrimSpace(s) == s
  {
    assert FirstNonSpace(s, 0) == 0;
    assert LastNonSpaceEnd(s, 0, |s|) == |s|;
    assert s[0..|s|] == s;
  }

  /** `sep` occurs in `s` starting at position `k`. */
  predicate OccursAt(s: string, sep: string, k: int) {
    0 <= k && k + |sep| <= |s| && s[k..k + |sep|] == sep
  }

  /** Go's `strings.Index` for a non-empty `sep`, searching from position `from`. */
  function IndexFrom(s: string, sep: string, from: nat): (r: int)
    requires |sep| > 0
    decreases |s| - from
    ensures r == -1 || (from <= r && OccursAt(s, sep, r))
    ensures forall k :: from <= k && (r == -1 || k < r) ==> !OccursAt(s, sep, k)
  {
    if from + |sep| > |s| then -1
    else if s[from..from + |sep|] == sep then from
    else IndexFrom(s, sep, from + 1)
  }

  /** Go's `strings.Index`: the first position of `sep` in `s`, or -1. */
  function Index(s: string, sep: string): (r: int)
    requires |sep| > 0
    ensures r == -1 <==> forall k :: !OccursAt(s, sep, k)
    ensures r != -1 ==> OccursAt(s, sep, r) && forall k :: 0 <= k < r ==> !OccursAt(s, sep, k)
  {
    IndexFrom(s, sep, 0)
  }

  /** `strings.Count(s, sep) > 0` for a non-empty `sep`: `sep` occurs somewhere in `s`. */
  function Contains(s: string, sep: string): (r: bool)
    requires |sep| > 0
    ensures r <==> exists k :: OccursAt(s, sep, k)
  {
    Index(s, sep) != -1
  }

  /** Where `sep` is found first, `s` is the text before it, `sep`, and the text after it. */
  lemma IndexSplitsString(s: string, sep: string)
    requires |sep| > 0 && Index(s, sep) != -1
    ensures var i := Index(s, sep);
      0 <= i && i + |sep| <= |s| && s == s[..i] + sep + s[i + |sep|..]
  {
    var i := Index(s, sep);
    assert s[i..i + |sep|] == sep;
    assert s == s[..i] + s[i..i + |sep|] + s[i + |sep|..];
  }

  /** Go's `strings.Split` for a non-empty separator: the pieces between the non-overlapping occurrences of `sep`, left to right. */
  function Split(s: string, sep: string): (parts: seq<string>)
    requires |sep| > 0
    decreases |s|
    ensures |parts| >= 1
    ensures !Contains(s, sep) <==> parts == [s]
  {
    var i := Index(s, sep);
    if i == -1 then [s] else [s[..i]] + Split(s[i + |sep|..], sep)
  }

  /** Go's `strings.Join` of at least one piece. */
  function Join(parts: seq<string>, sep: string): string
    requires |parts| >= 1
  {
    if |parts| == 1 then parts[0] else parts[0] + sep + Join(parts[1..], sep)
  }

  /** One step of `Split` where the separator occurs. */
  lemma SplitStep(s: string, sep: string)
    requires |sep| > 0 && Index(s, sep) != -1
    ensures var i := Index(s, sep);
      0 <= i && i + |sep| <= |s| && Split(s, sep) == [s[..i]] + Split(s[i + |sep|..], sep)
  {
  }

  /** One step of `Join` in front of a non-empty tail. */
  lemma JoinStep(head: string, tail: seq<string>, sep: string)
    requires |tail| >= 1
    ensures Join([head] + tail, sep) == head + sep + Join(tail, sep)
  {
    assert ([head] + tail)[1..] == tail;
  }

  /** Splitting and joining again gives back the original string. */
  lemma {:induction false} JoinSplit(s: string, sep: string)
    requires |sep| > 0
    ensures Join(Split(s, sep), sep) == s
    decreases |s|
  {
    if Contains(s, sep) {
      var i := Index(s, sep);
      var rest := s[i + |sep|..];
      SplitStep(s, sep);
      IndexSplitsString(s, sep);
      JoinSplit(rest, sep);
      JoinStep(s[..i], Split(rest, sep), sep);
    }
  }

  /** The text before the first occurrence of the separator does not contain it. */
  lemma BeforeIndexFree(s: string, sep: string)
    requires |sep| > 0 && Index(s, sep) != -1
    ensures Index(s, sep) <= |s| && !Contains(s[..Index(s, sep)], sep)
  {
    var i := Index(s, sep);
    var head := s[..i];
    forall k | 0 <= k ensures !OccursAt(head, sep, k) {
      if k + |sep| <= |head| {
        assert head[k..k + |sep|] == s[k..k + |sep|];
        assert !OccursAt(s, sep, k);
      }
    }
  }

  /** The first piece of a split at an occurrence of the separator does not contain it. */
  lemma SplitHeadFree(s: string, sep: string)
    requires |sep| > 0 && Contains(s, sep)
    ensures !Contains(Split(s, sep)[0], sep)
  {
    SplitStep(s, sep);
    BeforeIndexFree(s, sep);
  }

  /** Past the first piece, the pieces of a split are those of the text after the first separator. */
  lemma SplitLaterPiece(s: string, sep: string, j: nat)
    requires |sep| > 0 && Contains(s, sep) && 0 < j < |Split(s, sep)|
    ensures Index(s, sep) + |sep| <= |s|
    ensures j - 1 < |Split(s[Index(s, sep) + |sep|..], sep)|
    ensures Split(s, sep)[j] == Split(s[Index(s, sep) + |sep|..], sep)[j - 1]
  {
    SplitStep(s, sep);
  }

  /** The `j`-th piece of a split does not contain the separator. */
  lemma {:induction false} SplitPieceFree(s: string, sep: string, j: nat)
    requires |sep| > 0 && j < |Split(s, sep)|
    ensures !Contains(Split(s, sep)[j], sep)
    decreases |s|
  {
    if !Contains(s, sep) {
      assert Split(s, sep) == [s];
    } else if j == 0 {
      SplitHeadFree(s, sep);
    } else {
      SplitLaterPiece(s, sep, j);
      SplitPieceFree(s[Index(s, sep) + |sep|..], sep, j - 1);
    }
  }

  /** No piece of a split contains the separator. */
  lemma SplitPiecesFree(s: string, sep: string)
    requires |sep| > 0
    ensures forall p :: p in Split(s, sep) ==> !Contains(p, sep)
  {
    forall p | p in Split(s, sep) ensures !Contains(p, sep) {
      var j :| 0 <= j < |Split(s, sep)| && Split(s, sep)[j] == p;
      SplitPieceFree(s, sep, j);
    }
  }

  /** The separator alone splits into two empty pieces. */
  lemma SplitSeparatorAlone(sep: string)
    requires |sep| > 0
    ensures Split(sep, sep) == ["", ""]
  {
    assert OccursAt(sep, sep, 0);
    assert Index(sep, sep) == 0;
    assert sep[|sep|..] == "";
    assert Split("", sep) == [""];
  }

  /** A one-character separator that is not a character of `s` does not occur in it. */
  lemma AbsentCharNotContained(s: string, c: char)
    requires forall k :: 0 <= k < |s| ==> s[k] != c
    ensures !Contains(s, [c])
  {
    forall k | 0 <= k < |s| ensures !OccursAt(s, [c], k) {
      assert s[k..k + 1][0] == s[k];
    }
  }

  /** The first position of a one-character separator is the first position holding that character. */
  lemma IndexOfChar(s: string, c: char, i: nat)
    requires i < |s| && s[i] == c
    requires forall k :: 0 <= k < i ==> s[k] != c
    ensures Index(s, [c]) == i
  {
    assert s[i..i + 1] == [c];
    assert OccursAt(s, [c], i);
    forall k | 0 <= k < i ensures !OccursAt(s, [c], k) {
      assert s[k..k + 1][0] == s[k];
    }
    var r := Index(s, [c]);
    assert r != -1;
    assert !(r < i);
  }

  /** Joining pieces free of a one-character separator and splitting again gives back the pieces. */
  lemma {:induction false} SplitJoin(parts: seq<string>, c: char)
    requires |parts| >= 1
    requires forall p, k :: p in parts && 0 <= k < |p| ==> p[k] != c
    ensures Split(Join(parts, [c]), [c]) == parts
  {
    var head := parts[0];
    if |parts| == 1 {
      AbsentCharNotContained(head, c);
    } else {
      var tail := parts[1..];
      var s := Join(parts, [c]);
      assert s == head + [c] + Join(tail, [c]);
      assert s[|head|] == c;
      assert forall k :: 0 <= k < |head| ==> s[k] == head[k];
      IndexOfChar(s, c, |head|);
      assert s[|head| + 1..] == Join(tail, [c]);
      assert s[..|head|] == head;
      SplitJoin(tail, c);
    }
  }
}
