/**
 * The two Python sequence operations `next_trips` uses, slicing a prefix
 * (`s[:n]`) and `sep.join(parts)`, and `s.split(c)`, which the tool never
 * calls: it is only the means of stating which lines a rendered record has.
 */
module Strings {

  /** `s[:n]` for a non-negative `n`: the longest prefix of `s` of length at most `n`. */
  function Take<T>(s: seq<T>, n: nat): (r: seq<T>)
    ensures |r| == if n <= |s| then n else |s|
    ensures r <= s
  {
    if n <= |s| then s[..n] else s
  }

  /** Python's `sep.join(parts)`. */
  function Join(sep: string, parts: seq<string>): string
  {
    if |parts| == 0 then ""
    else if |parts| == 1 then parts[0]
    else parts[0] + sep + Join(sep, parts[1..])
  }

  /** Start of `parts[i]` in `Join(sep, parts)`: the lengths of all earlier parts and separators. */
  function Offset(sep: string, parts: seq<string>, i: nat): nat
    requires i <= |parts|
  {
    if i == 0 then 0 else Offset(sep, parts, i - 1) + |parts[i - 1]| + |sep|
  }

  /** From the start of `parts[i]` on, the join is the join of `parts[i..]`. */
  lemma {:induction false} JoinFrom(sep: string, parts: seq<string>, i: nat)
    requires i < |parts|
    ensures Offset(sep, parts, i) <= |Join(sep, parts)|
    ensures Join(sep, parts)[Offset(sep, parts, i)..] == Join(sep, parts[i..])
  {
    if i == 0 {
      assert parts[0..] == parts;
    } else {
      JoinFrom(sep, parts, i - 1);
      var prev := parts[i - 1..];
      assert prev[1..] == parts[i..];
      assert Join(sep, prev) == parts[i - 1] + sep + Join(sep, parts[i..]);
    }
  }

  /**
   * The layout of `Join(sep, parts)`: from `Offset(sep, parts, i)` on it
   * holds `parts[i]`, followed by `sep` when another part comes next, and the
   * join ends right after the last part. So the result consists of exactly
   * `|parts|` parts, in order, with exactly one separator between
   * consecutive parts and nothing else.
   */
  lemma JoinLayout(sep: string, parts: seq<string>, i: nat)
    requires i < |parts|
    ensures Offset(sep, parts, i) + |parts[i]| <= |Join(sep, parts)|
    ensures Join(sep, parts)[Offset(sep, parts, i)..Offset(sep, parts, i) + |parts[i]|] == parts[i]
    ensures i + 1 == |parts| ==> |Join(sep, parts)| == Offset(sep, parts, i) + |parts[i]|
    ensures i + 1 < |parts| ==> Offset(sep, parts, i + 1) <= |Join(sep, parts)|
    ensures i + 1 < |parts| ==>
              Join(sep, parts)[Offset(sep, parts, i) + |parts[i]|..Offset(sep, parts, i + 1)] == sep
  {
    JoinFrom(sep, parts, i);
    var j := Join(sep, parts);
    var o := Offset(sep, parts, i);
    var rest := parts[i..];
    if i + 1 == |parts| {
      assert Join(sep, rest) == parts[i];
      assert j[o..o + |parts[i]|] == j[o..][..|parts[i]|];
    } else {
      assert rest[1..] == parts[i + 1..];
      assert Join(sep, rest) == parts[i] + sep + Join(sep, parts[i + 1..]);
      assert j[o..o + |parts[i]|] == j[o..][..|parts[i]|];
      assert j[o + |parts[i]|..o + |parts[i]| + |sep|] == j[o..][|parts[i]|..|parts[i]| + |sep|];
    }
  }

  /** A non-empty join starts with its first part. */
  lemma JoinStartsWithFirst(sep: string, parts: seq<string>)
    requires 0 < |parts|
    ensures parts[0] <= Join(sep, parts)
  {
  }

  /** Python's `s.split(c)` for a one-character separator: always at least one piece. */
  function Split(s: string, c: char): (r: seq<string>)
    ensures |r| >= 1
  {
    if |s| == 0 then [""]
    else if s[0] == c then [""] + Split(s[1..], c)
    else
      var rest := Split(s[1..], c);
      [[s[0]] + rest[0]] + rest[1..]
  }

  /** Joining pieces that do not contain `c` and splitting on `c` gives back the pieces. */
  lemma {:induction false} SplitJoin(parts: seq<string>, c: char)
    requires 0 < |parts|
    requires forall k :: 0 <= k < |parts| ==> c !in parts[k]
    ensures Split(Join([c], parts), c) == parts
  {
    if |parts| == 1 {
      SplitWithout(parts[0], c);
    } else {
      SplitJoin(parts[1..], c);
      SplitAppend(parts[0], Join([c], parts[1..]), c);
      assert [parts[0]] + parts[1..] == parts;
    }
  }

  /** A string without `c` splits into itself alone. */
  lemma {:induction false} SplitWithout(s: string, c: char)
    requires c !in s
    ensures Split(s, c) == [s]
  {
    if |s| > 0 {
      assert c !in s[1..] by {
        forall k | 0 <= k < |s[1..]| ensures s[1..][k] != c {
          assert s[1..][k] == s[k + 1];
        }
      }
      SplitWithout(s[1..], c);
      assert [s[0]] + s[1..] == s;
    }
  }

  /** Splitting `a + [c] + b`, where `a` has no `c`, yields `a` and then the pieces of `b`. */
  lemma {:induction false} SplitAppend(a: string, b: string, c: char)
    requires c !in a
    ensures Split(a + [c] + b, c) == [a] + Split(b, c)
  {
    var s := a + [c] + b;
    if |a| == 0 {
      assert s[1..] == b;
    } else {
      assert c !in a[1..] by {
        forall k | 0 <= k < |a[1..]| ensures a[1..][k] != c {
          assert a[1..][k] == a[k + 1];
        }
      }
      SplitAppend(a[1..], b, c);
      assert s[1..] == a[1..] + [c] + b;
      assert s[0] == a[0];
      assert [a[0]] + a[1..] == a;
    }
  }
}
