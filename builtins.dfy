/** The Python built-ins the scripts rely on, with Python's semantics:
    `str.find`, `str.split(sep)`, `sep.join`, `str.replace(c, '')`,
    `str.rstrip()`, negative list indexing and `str(bool)`. */
module Builtins {
  import opened Wrappers

  /** The separator of the fields of a triple line, `"s | p | o"`. */
  const Sep: string := " | "

  predicate OccursAt(s: string, sep: string, i: nat) {
    i + |sep| <= |s| && s[i..i + |sep|] == sep
  }

  ghost predicate Contains(s: string, sep: string) {
    exists i: nat :: OccursAt(s, sep, i)
  }

  /** `s.find(sep, k)`: the first index at or after `k` where `sep` occurs. */
  function IndexOfFrom(s: string, sep: string, k: nat): (r: Option<nat>)
    ensures r.Some? ==> k <= r.value && OccursAt(s, sep, r.value)
    ensures r.Some? ==> forall j: nat :: k <= j < r.value ==> !OccursAt(s, sep, j)
    ensures r.None? ==> forall j: nat :: k <= j ==> !OccursAt(s, sep, j)
    decreases |s| - k
  {
    if k + |sep| > |s| then None
    else if s[k..k + |sep|] == sep then Some(k)
    else IndexOfFrom(s, sep, k + 1)
  }

  /** `s.find(sep)`, with None for Python's -1. */
  function IndexOf(s: string, sep: string): (r: Option<nat>)
    ensures r.Some? ==> OccursAt(s, sep, r.value)
    ensures r.Some? ==> forall j: nat :: j < r.value ==> !OccursAt(s, sep, j)
    ensures r.None? <==> !Contains(s, sep)
  {
    IndexOfFrom(s, sep, 0)
  }

  /** `sep.join(parts)`. */
  function Join(parts: seq<string>, sep: string): string {
    if |parts| == 0 then ""
    else if |parts| == 1 then parts[0]
    else parts[0] + sep + Join(parts[1..], sep)
  }

  /** `s.split(sep)` for a non-empty separator: the pieces between the
      non-overlapping occurrences of `sep`, found from left to right. */
  function Split(s: string, sep: string): (parts: seq<string>)
    requires |sep| > 0
    ensures |parts| >= 1
    ensures Join(parts, sep) == s
    ensures forall i :: 0 <= i < |parts| ==> !Contains(parts[i], sep)
    ensures forall k :: 0 <= k < |parts| - 1 ==> IndexOf(Join(parts[k..], sep), sep) == Some(|parts[k]|)
    decreases |s|
  {
    match IndexOf(s, sep)
    case None => [s]
    case Some(i) =>
      var rest := Split(s[i + |sep|..], sep);
      assert s == s[..i] + sep + s[i + |sep|..] by {
        assert s[i..i + |sep|] == sep;
      }
      PrefixIsFree(s, sep, i);
      var parts := [s[..i]] + rest;
      assert parts[0..] == parts;
      assert forall k :: 1 <= k < |parts| ==> parts[k..] == rest[k - 1..];
      parts
  }

  lemma PrefixIsFree(s: string, sep: string, i: nat)
    requires |sep| > 0 && i <= |s|
    requires forall j: nat :: j < i ==> !OccursAt(s, sep, j)
    ensures !Contains(s[..i], sep)
  {
    forall j: nat | OccursAt(s[..i], sep, j)
      ensures false
    {
      assert s[..i][j..j + |sep|] == s[j..j + |sep|];
      assert OccursAt(s, sep, j);
    }
  }

  /** The text of a triple line as `s + ' | ' + p + ' | ' + o` builds it. */
  function Join3(a: string, b: string, c: string): string {
    a + Sep + b + Sep + c
  }

  /** A field that can be put before a separator and split off again:
      it holds no separator and does not end in `" |"` (which together
      with the separator's first blank would read as a separator one
      character early). */
  ghost predicate Clean(a: string) {
    !Contains(a, Sep) && !(|a| >= 2 && a[|a| - 2..] == " |")
  }

  lemma {:induction false} SplitPastCleanField(a: string, rest: string)
    requires Clean(a)
    ensures Split(a + Sep + rest, Sep) == [a] + Split(rest, Sep)
  {
    var s := a + Sep + rest;
    assert OccursAt(s, Sep, |a|) by {
      assert s[|a|..|a| + 3] == Sep;
    }
    forall j: nat | j < |a|
      ensures !OccursAt(s, Sep, j)
    {
      if j + 3 <= |a| {
        assert a[j..j + 3] == s[j..j + 3];
        assert !OccursAt(a, Sep, j);
      } else if j + 1 == |a| {
        assert s[j + 1] == ' ';
        assert Sep[1] == '|';
      } else {
        assert a[|a| - 2..] == [s[j], s[j + 1]];
        assert s[j..j + 3] == [s[j], s[j + 1], s[j + 2]];
      }
    }
    var found := IndexOf(s, Sep);
    assert found == Some(|a|);
    assert s[..|a|] == a;
    assert s[|a| + 3..] == rest;
  }

  lemma SplitFree(c: string)
    requires !Contains(c, Sep)
    ensures Split(c, Sep) == [c]
  {
  }

  /** Splitting a line joined from clean fields gives the fields back. */
  lemma {:induction false} SplitJoin3(a: string, b: string, c: string)
    requires Clean(a) && Clean(b) && !Contains(c, Sep)
    ensures Split(Join3(a, b, c), Sep) == [a, b, c]
  {
    assert Join3(a, b, c) == a + Sep + (b + Sep + c);
    SplitPastCleanField(a, b + Sep + c);
    SplitPastCleanField(b, c);
    SplitFree(c);
  }

  /** Fields that merely hold no separator are not enough: `"a |"`
      joined with `"b"` and `"c"` splits as `["a", "| b", "c"]`. */
  lemma SeparatorFreeIsNotEnough()
    ensures !Contains("a |", Sep) && !Contains("b", Sep) && !Contains("c", Sep)
    ensures Split(Join3("a |", "b", "c"), Sep)[0] == "a"
  {
    var s := Join3("a |", "b", "c");
    assert s == "a | | b | c";
    assert OccursAt(s, Sep, 1) by {
      assert s[1..4] == Sep;
    }
    assert !OccursAt(s, Sep, 0) by {
      assert s[0] != Sep[0];
    }
    assert IndexOf(s, Sep) == Some(1);
    assert s[..1] == "a";
    forall i: nat | OccursAt("a |", Sep, i) ensures false {
    }
  }

  /** `s.replace(c, '')`: `s` with every `c` removed; every other character
      is kept as often as it occurs (`RemoveCharCounts`) and in order
      (`RemoveCharAppend`). */
  function RemoveChar(s: string, c: char): (r: string)
    ensures c !in r
    ensures |r| <= |s|
    ensures forall x :: x in r ==> x in s
    ensures c !in s ==> r == s
  {
    if s == [] then []
    else
      assert s == [s[0]] + s[1..];
      (if s[0] == c then [] else [s[0]]) + RemoveChar(s[1..], c)
  }

  /** Every character but `c` survives `RemoveChar` as often as it occurs. */
  lemma {:induction false} RemoveCharCounts(s: string, c: char)
    ensures multiset(RemoveChar(s, c)) == multiset(s)[c := 0]
  {
    if s != [] {
      assert s == [s[0]] + s[1..];
      RemoveCharCounts(s[1..], c);
    }
  }

  /** Removing a character keeps the order of the others: it works piece
      by piece. */
  lemma {:induction false} RemoveCharAppend(a: string, b: string, c: char)
    ensures RemoveChar(a + b, c) == RemoveChar(a, c) + RemoveChar(b, c)
  {
    if a != [] {
      assert (a + b)[0] == a[0] && (a + b)[1..] == a[1..] + b;
      RemoveCharAppend(a[1..], b, c);
    } else {
      assert a + b == b;
    }
  }

  /** `c.isspace()` for one character, after Python's definition
      (bidirectional class WS, B or S, or category Zs). */
  predicate IsSpace(c: char) {
    var n := c as int;
    (9 <= n <= 13) || (28 <= n <= 32) || n == 0x85 || n == 0xA0 || n == 0x1680
    || (0x2000 <= n <= 0x200A) || n == 0x2028 || n == 0x2029 || n == 0x202F
    || n == 0x205F || n == 0x3000
  }

  /** `s.rstrip()`: `s` without its trailing whitespace. */
  function RStrip(s: string): (r: string)
    ensures |r| <= |s| && r == s[..|r|]
    ensures forall i :: |r| <= i < |s| ==> IsSpace(s[i])
    ensures |r| > 0 ==> !IsSpace(r[|r| - 1])
  {
    if |s| > 0 && IsSpace(s[|s| - 1]) then RStrip(s[..|s| - 1]) else s
  }

  /** `s[i]` for Python's indices: negative ones count from the end, and
      an index outside `-|s| .. |s| - 1` raises IndexError. */
  function PyIndex<T>(s: seq<T>, i: int): Option<T> {
    if 0 <= i < |s| then Some(s[i])
    else if -|s| <= i < 0 then Some(s[|s| + i])
    else None
  }

  /** `str(b)` for a bool. */
  function BoolStr(b: bool): string {
    if b then "True" else "False"
  }
}
