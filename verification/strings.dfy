/**
 The two JavaScript string primitives the service relies on, over
 `seq<char>`: `String.prototype.includes` and `String.prototype.split`
 with a non-empty string separator (left-to-right, non-overlapping
 matches), together with `Array.prototype.join` as split's partner.
 */
module Strings {
  import opened Common

  /** `sep` occurs in `s` starting at index `i`. */
  predicate OccursAt(s: string, sep: string, i: nat) {
    i + |sep| <= |s| && s[i..i + |sep|] == sep
  }

  /** No character of `s` is `c`. */
  predicate Free(s: string, c: char) {
    forall i :: 0 <= i < |s| ==> s[i] != c
  }

  /** An occurrence in `s[1..]` is an occurrence in `s`, one position later. */
  lemma OccursAtShift(s: string, sep: string, j: nat)
    requires |s| > 0
    ensures OccursAt(s[1..], sep, j) <==> OccursAt(s, sep, j + 1)
  {
    if j + 1 + |sep| <= |s| {
      assert s[1..][j..j + |sep|] == s[j + 1..j + 1 + |sep|];
    }
  }

  /** Index of the leftmost occurrence of `sep` in `s`, if any. */
  function FirstIndex(s: string, sep: string): (r: Option<nat>)
    ensures r.Some? ==> OccursAt(s, sep, r.value)
    ensures r.Some? ==> forall j: nat :: j < r.value ==> !OccursAt(s, sep, j)
    ensures r.None? ==> forall j: nat :: !OccursAt(s, sep, j)
    decreases |s|
  {
    if |s| < |sep| then None
    else if s[..|sep|] == sep then Some(0)
    else
      assert !OccursAt(s, sep, 0);
      assert forall j: nat :: 1 <= j ==> (OccursAt(s, sep, j) <==> OccursAt(s[1..], sep, j - 1)) by {
        forall j: nat | 1 <= j ensures OccursAt(s, sep, j) <==> OccursAt(s[1..], sep, j - 1) {
          OccursAtShift(s, sep, j - 1);
        }
      }
      match FirstIndex(s[1..], sep)
      case None => None
      case Some(k) => Some(k + 1)
  }

  /** `s.includes(sub)`: true exactly when `sub` occurs somewhere in `s`. */
  function Includes(s: string, sub: string): (b: bool)
    ensures b <==> exists i: nat :: OccursAt(s, sub, i)
  {
    FirstIndex(s, sub).Some?
  }

  /** Any occurrence makes `includes` true. */
  lemma IncludesOccurrence(s: string, sub: string, i: nat)
    requires OccursAt(s, sub, i)
    ensures Includes(s, sub)
  {
  }

  /** `s.split(sep)` for a non-empty separator. */
  function Split(s: string, sep: string): (parts: seq<string>)
    requires |sep| > 0
    ensures |parts| >= 1
    ensures forall k :: 0 <= k < |parts| ==> !Includes(parts[k], sep)
    decreases |s|
  {
    match FirstIndex(s, sep)
    case None => [s]
    case Some(i) =>
      var head := s[..i];
      assert !Includes(head, sep) by {
        forall j: nat ensures !OccursAt(head, sep, j) {
          if OccursAt(head, sep, j) {
            assert head[j..j + |sep|] == s[j..j + |sep|];
            assert OccursAt(s, sep, j);
          }
        }
      }
      [head] + Split(s[i + |sep|..], sep)
  }

  /** `parts.join(sep)`. */
  function Join(parts: seq<string>, sep: string): string {
    if |parts| == 0 then ""
    else if |parts| == 1 then parts[0]
    else parts[0] + sep + Join(parts[1..], sep)
  }

  /** Splitting loses nothing: joining the pieces back with the same
      separator restores the input. */
  lemma {:induction false} JoinSplit(s: string, sep: string)
    requires |sep| > 0
    ensures Join(Split(s, sep), sep) == s
    decreases |s|
  {
    match FirstIndex(s, sep)
    case None =>
    case Some(i) =>
      var rest := s[i + |sep|..];
      var tail := Split(rest, sep);
      var parts := [s[..i]] + tail;
      assert Split(s, sep) == parts;
      assert parts[0] == s[..i] && parts[1..] == tail && |parts| >= 2;
      calc {
        Join(parts, sep);
        s[..i] + sep + Join(tail, sep);
        { JoinSplit(rest, sep); }
        s[..i] + sep + rest;
        { assert s[i..i + |sep|] == sep; }
        s;
      }
  }

  /** With a one-character separator, no piece contains that character. */
  lemma SplitPiecesFree(s: string, sep: string, k: nat)
    requires |sep| == 1 && k < |Split(s, sep)|
    ensures Free(Split(s, sep)[k], sep[0])
  {
    var p := Split(s, sep)[k];
    assert FirstIndex(p, sep).None?;
    forall i | 0 <= i < |p| ensures p[i] != sep[0] {
      assert !OccursAt(p, sep, i);
      assert p[i..i + 1] == [p[i]];
      assert sep == [sep[0]];
    }
  }

  /** A string free of the separator's first character has no occurrence. */
  lemma NoOccurrence(a: string, sep: string)
    requires |sep| > 0 && Free(a, sep[0])
    ensures FirstIndex(a, sep) == None
  {
    forall j: nat ensures !OccursAt(a, sep, j) {
      if j + |sep| <= |a| {
        assert a[j..j + |sep|][0] == a[j];
      }
    }
  }

  /** The first occurrence in `a + sep + b` is the one right after `a`
      when `a` is free of the separator's first character. */
  lemma FirstIndexAfter(a: string, sep: string, b: string)
    requires |sep| > 0 && Free(a, sep[0])
    ensures FirstIndex(a + sep + b, sep) == Some(|a|)
  {
    var s := a + sep + b;
    assert s[|a|..|a| + |sep|] == sep;
    assert OccursAt(s, sep, |a|);
    forall j: nat | j < |a| ensures !OccursAt(s, sep, j) {
      assert s[j..j + |sep|][0] == s[j] == a[j];
    }
  }

  /** Splitting `a + sep + b`, `a` free of the separator, yields `a`
      followed by the pieces of `b`. */
  lemma SplitAfter(a: string, sep: string, b: string)
    requires |sep| > 0 && Free(a, sep[0])
    ensures Split(a + sep + b, sep) == [a] + Split(b, sep)
  {
    var s := a + sep + b;
    FirstIndexAfter(a, sep, b);
    assert s[..|a|] == a;
    assert s[|a| + |sep|..] == b;
  }

  /** A string free of the separator splits into itself alone. */
  lemma SplitFree(a: string, sep: string)
    requires |sep| > 0 && Free(a, sep[0])
    ensures Split(a, sep) == [a]
  {
    NoOccurrence(a, sep);
  }
}
