/** The string operations the core relies on: Python's `str.startswith` and
    `str.split`, and Go's `strings.HasPrefix`, `HasSuffix`, `TrimPrefix` and
    `TrimSuffix`. Strings are sequences of characters. */
module Text {
  import opened Common

  /** `s.startswith(prefix)` in Python, `strings.HasPrefix(s, prefix)` in Go. */
  predicate StartsWith(s: string, prefix: string) {
    |prefix| <= |s| && s[..|prefix|] == prefix
  }

  /** `strings.HasSuffix(s, suffix)` in Go. */
  predicate EndsWith(s: string, suffix: string) {
    |suffix| <= |s| && s[|s| - |suffix|..] == suffix
  }

  /** `sep` occurs in `s` starting at index `k`. */
  predicate OccursAt(s: string, sep: string, k: int) {
    0 <= k && k + |sep| <= |s| && s[k..k + |sep|] == sep
  }

  /** `sep` occurs somewhere in `s`. */
  ghost predicate Contains(s: string, sep: string) {
    exists k :: OccursAt(s, sep, k)
  }

  /** The leftmost occurrence of `sep` in `s` at or after index `from`. */
  function FindFrom(s: string, sep: string, from: nat): (r: Option<nat>)
    requires from <= |s|
    ensures r.Some? ==> from <= r.value && OccursAt(s, sep, r.value)
    ensures forall k | from <= k && (r.None? || k < r.value) :: !OccursAt(s, sep, k)
    decreases |s| - from
  {
    if OccursAt(s, sep, from) then Some(from)
    else if from == |s| then None
    else FindFrom(s, sep, from + 1)
  }

  /** Python's `s.split(sep)` for a non-empty separator: the pieces between the
      leftmost non-overlapping occurrences of `sep`, from left to right. There is
      always at least one piece, and no piece contains the separator. */
  function Split(s: string, sep: string): (parts: seq<string>)
    requires sep != []
    ensures |parts| >= 1
    ensures forall i | 0 <= i < |parts| :: !Contains(parts[i], sep)
    decreases |s|
  {
    match FindFrom(s, sep, 0)
    case None => [s]
    case Some(k) =>
      var head := s[..k];
      assert !Contains(head, sep) by {
        forall j | OccursAt(head, sep, j) ensures false {
          assert s[j..j + |sep|] == head[j..j + |sep|];
          assert OccursAt(s, sep, j);
        }
      }
      [head] + Split(s[k + |sep|..], sep)
  }

  /** Python's `sep.join(parts)`. */
  function Join(parts: seq<string>, sep: string): string {
    if parts == [] then []
    else if |parts| == 1 then parts[0]
    else parts[0] + sep + Join(parts[1..], sep)
  }

  /** Joining the pieces of a split with the same separator gives back the
      original string: `sep.join(s.split(sep)) == s`. */
  lemma {:induction false} JoinSplit(s: string, sep: string)
    requires sep != []
    ensures Join(Split(s, sep), sep) == s
    decreases |s|
  {
    match FindFrom(s, sep, 0)
    case None =>
    case Some(k) =>
      var rest := s[k + |sep|..];
      var tail := Split(rest, sep);
      JoinSplit(rest, sep);
      var parts := [s[..k]] + tail;
      assert Split(s, sep) == parts;
      assert |parts| >= 2 && parts[0] == s[..k] && parts[1..] == tail;
      assert Join(parts, sep) == s[..k] + sep + Join(tail, sep);
      assert s == s[..k] + sep + rest;
  }

  /** A string in which the separator does not occur splits into itself alone. */
  lemma SplitWithoutSeparator(s: string, sep: string)
    requires sep != []
    requires forall k | 0 <= k <= |s| :: !OccursAt(s, sep, k)
    ensures Split(s, sep) == [s]
  {
  }

  /** A tail of `s` that starts past every occurrence of `sep` holds none,
      so it splits into itself alone. */
  lemma SplitTailWithoutSeparator(s: string, sep: string, from: nat)
    requires sep != []
    requires from <= |s|
    requires forall k | from <= k <= |s| :: !OccursAt(s, sep, k)
    ensures Split(s[from..], sep) == [s[from..]]
  {
    var rest := s[from..];
    forall k | 0 <= k <= |rest| ensures !OccursAt(rest, sep, k) {
      if OccursAt(rest, sep, k) {
        assert s[from + k..from + k + |sep|] == rest[k..k + |sep|];
        assert OccursAt(s, sep, from + k);
      }
    }
    SplitWithoutSeparator(rest, sep);
  }

  /** One step of the split: the text before the leftmost occurrence, then
      the split of what follows it. */
  lemma SplitStep(s: string, sep: string, n: nat)
    requires sep != []
    requires OccursAt(s, sep, n)
    requires forall k | 0 <= k < n :: !OccursAt(s, sep, k)
    ensures Split(s, sep) == [s[..n]] + Split(s[n + |sep|..], sep)
  {
    FindFromAt(s, sep, 0, n);
  }

  /** The search from `from` stops at the first occurrence at or after it. */
  lemma FindFromAt(s: string, sep: string, from: nat, n: nat)
    requires from <= n <= |s|
    requires OccursAt(s, sep, n)
    requires forall k | from <= k < n :: !OccursAt(s, sep, k)
    ensures FindFrom(s, sep, from) == Some(n)
  {
    var found := FindFrom(s, sep, from);
    assert found.Some?;
    assert found.value == n;
  }

  /** A string in which `sep` occurs at `n`, and neither before `n` nor after
      that occurrence, splits into the text before and the text after it. */
  lemma SplitAtOnlyOccurrence(s: string, sep: string, n: nat)
    requires sep != []
    requires OccursAt(s, sep, n)
    requires forall k | 0 <= k < n :: !OccursAt(s, sep, k)
    requires forall k | n + |sep| <= k <= |s| :: !OccursAt(s, sep, k)
    ensures Split(s, sep) == [s[..n], s[n + |sep|..]]
  {
    SplitStep(s, sep, n);
    SplitTailWithoutSeparator(s, sep, n + |sep|);
  }

  /** Go's `strings.TrimSuffix`: `s` without one trailing `suffix` when it has
      one, `s` unchanged otherwise. */
  function TrimSuffix(s: string, suffix: string): (r: string)
    ensures EndsWith(s, suffix) ==> r + suffix == s
    ensures !EndsWith(s, suffix) ==> r == s
  {
    if EndsWith(s, suffix) then s[..|s| - |suffix|] else s
  }

  /** Go's `strings.TrimPrefix`: `s` without one leading `prefix` when it has
      one, `s` unchanged otherwise. */
  function TrimPrefix(s: string, prefix: string): (r: string)
    ensures StartsWith(s, prefix) ==> prefix + r == s
    ensures !StartsWith(s, prefix) ==> r == s
  {
    if StartsWith(s, prefix) then s[|prefix|..] else s
  }
}
