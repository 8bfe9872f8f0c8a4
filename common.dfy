/** Small value types and the few functions of Go's `strings` package that the router uses.
    Strings are sequences of characters; case mapping is ASCII only. */
module Common {

  datatype Option<T> = None | Some(value: T)

  /** `strings.HasSuffix(s, "/")`. */
  predicate EndsWithSlash(s: string) {
    |s| > 0 && s[|s| - 1] == '/'
  }

  /** ASCII upper-casing of one character, as `strings.ToUpper` does for ASCII input. */
  function UpperChar(c: char): (u: char)
    ensures 'a' <= c <= 'z' ==> 'A' <= u <= 'Z' && u as int == c as int - 32
    ensures !('a' <= c <= 'z') ==> u == c
  {
    if 'a' <= c <= 'z' then (c as int - 32) as char else c
  }

  /** `strings.ToUpper` restricted to ASCII letters. */
  function Upper(s: string): (u: string)
    ensures |u| == |s|
    ensures forall i :: 0 <= i < |s| ==> u[i] == UpperChar(s[i])
  {
    if s == [] then [] else [UpperChar(s[0])] + Upper(s[1..])
  }

  /** Upper-casing twice changes nothing more than upper-casing once. */
  lemma UpperIdempotent(s: string)
    ensures Upper(Upper(s)) == Upper(s)
  {
    assert forall i :: 0 <= i < |s| ==> Upper(Upper(s))[i] == Upper(s)[i];
  }

  /** Every element upper-cased, in order. */
  function UpperAll(v: seq<string>): (r: seq<string>)
    ensures |r| == |v|
    ensures forall i :: 0 <= i < |v| ==> r[i] == Upper(v[i])
  {
    seq(|v|, i requires 0 <= i < |v| => Upper(v[i]))
  }

  /** `from` occurs in `s` starting at position `i`. */
  predicate OccursAt(s: string, from: string, i: nat) {
    i + |from| <= |s| && s[i..i + |from|] == from
  }

  /** `strings.Replace(s, from, to, -1)` for a non-empty `from`: scanning left to right,
      every non-overlapping occurrence of `from` is replaced by `to`; the inserted text
      is not scanned again. */
  function ReplaceAll(s: string, from: string, to: string): string
    requires |from| > 0
    decreases |s|
  {
    if |s| < |from| then s
    else if s[..|from|] == from then to + ReplaceAll(s[|from|..], from, to)
    else [s[0]] + ReplaceAll(s[1..], from, to)
  }

  /** A text in which `from` occurs nowhere comes back unchanged. */
  lemma {:induction false} ReplaceAllAbsent(s: string, from: string, to: string)
    requires |from| > 0
    requires forall i :: 0 <= i <= |s| ==> !OccursAt(s, from, i)
    ensures ReplaceAll(s, from, to) == s
    decreases |s|
  {
    if |s| >= |from| {
      assert !OccursAt(s, from, 0);
      forall i | 0 <= i <= |s| - 1
        ensures !OccursAt(s[1..], from, i)
      {
        assert !OccursAt(s, from, i + 1);
        if i + |from| <= |s| - 1 {
          assert s[1..][i..i + |from|] == s[i + 1..i + 1 + |from|];
        }
      }
      ReplaceAllAbsent(s[1..], from, to);
      assert s == [s[0]] + s[1..];
    }
  }

  /** Replacing a text by itself changes nothing. */
  lemma {:induction false} ReplaceAllSelf(s: string, from: string)
    requires |from| > 0
    ensures ReplaceAll(s, from, from) == s
    decreases |s|
  {
    if |s| >= |from| {
      if s[..|from|] == from {
        ReplaceAllSelf(s[|from|..], from);
        assert s == from + s[|from|..];
      } else {
        ReplaceAllSelf(s[1..], from);
        assert s == [s[0]] + s[1..];
      }
    }
  }

  /** A prefix that does not hold the first character of `from` is copied through unchanged:
      no occurrence can start in it. */
  lemma {:induction false} ReplaceAllSkip(a: string, b: string, from: string, to: string)
    requires |from| > 0
    requires from[0] !in a
    ensures ReplaceAll(a + b, from, to) == a + ReplaceAll(b, from, to)
    decreases |a|
  {
    if a != [] {
      var s := a + b;
      if |s| < |from| {
        assert |b| < |from|;
      } else {
        assert s[..|from|][0] == a[0] != from[0];
        assert s[1..] == a[1..] + b;
        ReplaceAllSkip(a[1..], b, from, to);
      }
    } else {
      assert a + b == b;
    }
  }
}
