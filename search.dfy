/**
 * Searches shared by the models of regular-expression matching and of `findIndex`: the
 * leftmost or last position where a test holds, and where a `.` stops.
 */
module Search {
  import opened Options
  import opened Text

  /** The leftmost position at or after `i` where `at` finds a match, as a regular expression
      without anchors is tried. */
  function FirstAt<T>(s: string, i: nat, at: (string, nat) -> Option<T>): (k: Option<nat>)
    requires i <= |s|
    ensures k.Some? ==> i <= k.value <= |s| && at(s, k.value).Some?
    ensures k.Some? ==> forall m :: i <= m < k.value ==> at(s, m).None?
    ensures k.None? ==> forall m :: i <= m <= |s| ==> at(s, m).None?
    decreases |s| - i
  {
    if at(s, i).Some? then Some(i)
    else if i == |s| then None
    else FirstAt(s, i + 1, at)
  }

  /** The first position where `at` matches is where the search stops. */
  lemma FirstAtIs<T>(s: string, k: nat, at: (string, nat) -> Option<T>)
    requires k <= |s| && at(s, k).Some?
    requires forall m :: 0 <= m < k ==> at(s, m).None?
    ensures FirstAt(s, 0, at) == Some(k)
  {
    var r := FirstAt(s, 0, at);
    assert r.Some?;
    assert !(r.value < k);
    assert !(k < r.value);
  }

  /** Where the `.` of a regular expression stops when started at `j`: the first line
      terminator, or the end. */
  function LineEnd(s: string, j: nat): (r: nat)
    requires j <= |s|
    ensures j <= r <= |s|
    ensures forall k :: j <= k < r ==> !IsLineTerminator(s[k])
    ensures r < |s| ==> IsLineTerminator(s[r])
    decreases |s| - j
  {
    if j == |s| || IsLineTerminator(s[j]) then j else LineEnd(s, j + 1)
  }

  /** A character that is not a line terminator, after a run without any, lies before
      the end of the line. */
  lemma BeforeLineEnd(s: string, j: nat, m: nat)
    requires j <= m < |s| && !IsLineTerminator(s[m])
    requires forall k :: j <= k < m ==> !IsLineTerminator(s[k])
    ensures m < LineEnd(s, j)
  {
  }

  /** What a `.` run from `j` covers holds no line terminator. */
  lemma LineEndSlice(s: string, j: nat, e: nat)
    requires j <= e <= |s| && e <= LineEnd(s, j)
    ensures NoLineTerminator(s[j..e])
  {
    var t := s[j..e];
    forall k | 0 <= k < |t| ensures !IsLineTerminator(t[k]) {
      assert t[k] == s[j + k];
    }
  }

  /** The last position in `[lo, hi)` where `at` holds. */
  function LastAt(s: string, lo: nat, hi: nat, at: (string, nat) -> bool): (k: Option<nat>)
    ensures k.Some? ==> lo <= k.value < hi && at(s, k.value)
    ensures k.Some? ==> forall m :: k.value < m < hi ==> !at(s, m)
    ensures k.None? ==> forall m :: lo <= m < hi ==> !at(s, m)
    decreases hi
  {
    if hi <= lo then None
    else if at(s, hi - 1) then Some(hi - 1)
    else LastAt(s, lo, hi - 1, at)
  }

  /** The first element at or after `from` where `p` holds. */
  function FindIndex<T>(xs: seq<T>, p: T -> bool, from: nat): (k: Option<nat>)
    requires from <= |xs|
    ensures k.Some? ==> from <= k.value < |xs| && p(xs[k.value])
    ensures k.Some? ==> forall m :: from <= m < k.value ==> !p(xs[m])
    ensures k.None? ==> forall m :: from <= m < |xs| ==> !p(xs[m])
    decreases |xs| - from
  {
    if from == |xs| then None
    else if p(xs[from]) then Some(from)
    else FindIndex(xs, p, from + 1)
  }

  /** The search stops at the first element where `p` holds. */
  lemma FindIndexIs<T>(xs: seq<T>, p: T -> bool, k: nat)
    requires k < |xs| && p(xs[k])
    requires forall m :: 0 <= m < k ==> !p(xs[m])
    ensures FindIndex(xs, p, 0) == Some(k)
  {
    var r := FindIndex(xs, p, 0);
    assert r.Some?;
    assert !(r.value < k);
  }

  /** The first position in `[lo, hi]` where `at` holds, as a lazy `.+?` or `.*?` is
      widened one character at a time. */
  function FirstIn(s: string, lo: nat, hi: nat, at: (string, nat) -> bool): (k: Option<nat>)
    ensures k.Some? ==> lo <= k.value <= hi && at(s, k.value)
    ensures k.Some? ==> forall m :: lo <= m < k.value ==> !at(s, m)
    ensures k.None? ==> forall m :: lo <= m <= hi ==> !at(s, m)
    decreases hi - lo
  {
    if hi < lo then None
    else if at(s, lo) then Some(lo)
    else if lo == hi then None
    else FirstIn(s, lo + 1, hi, at)
  }

  /** The lazy search stops at the first position where `at` holds. */
  lemma FirstInIs(s: string, lo: nat, hi: nat, at: (string, nat) -> bool, k: nat)
    requires lo <= k <= hi && at(s, k)
    requires forall m :: lo <= m < k ==> !at(s, m)
    ensures FirstIn(s, lo, hi, at) == Some(k)
  {
    var r := FirstIn(s, lo, hi, at);
    assert r.Some?;
    assert !(r.value < k);
  }
}
