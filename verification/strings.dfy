/**
 * Text operations the source takes from the JavaScript runtime:
 * `includes`, global literal `replace`, `join`, `split` and `toLowerCase`.
 */
module Strings {

  /** `p` is a prefix of `s`. */
  predicate StartsWith(s: string, p: string) {
    |p| <= |s| && s[..|p|] == p
  }

  /** `p` occurs in `s` at position `i`. */
  predicate OccursAt(s: string, p: string, i: int) {
    0 <= i && i + |p| <= |s| && s[i..i + |p|] == p
  }

  /** `s.includes(p)`. */
  predicate Contains(s: string, p: string) {
    exists i | 0 <= i <= |s| :: OccursAt(s, p, i)
  }

  lemma OccursAtStartsWith(s: string, p: string, i: int)
    requires 0 <= i <= |s|
    ensures OccursAt(s, p, i) <==> StartsWith(s[i..], p)
  {
    if |p| <= |s| - i {
      assert s[i..][..|p|] == s[i..i + |p|];
    }
  }

  /**
   * Replaces every occurrence of the non-empty literal `p` in `s` by `r`,
   * scanning left to right and never matching inside a replacement: what
   * `s.replace(new RegExp(p, 'g'), r)` does when `p` holds no regular
   * expression metacharacter and `r` holds no `$` pattern.
   */
  function ReplaceAll(s: string, p: string, r: string): (out: string)
    requires |p| > 0
    decreases |s|
  {
    if |s| < |p| then s
    else if s[..|p|] == p then r + ReplaceAll(s[|p|..], p, r)
    else [s[0]] + ReplaceAll(s[1..], p, r)
  }

  /** A text without an occurrence of `p` comes back unchanged. */
  lemma {:induction false} ReplaceAllAbsent(s: string, p: string, r: string)
    requires |p| > 0
    requires !Contains(s, p)
    ensures ReplaceAll(s, p, r) == s
    decreases |s|
  {
    if |s| >= |p| {
      assert !OccursAt(s, p, 0);
      assert s[..|p|] != p;
      forall i | OccursAt(s[1..], p, i) ensures false {
        assert s[1..][i..i + |p|] == s[i + 1..i + 1 + |p|];
        assert OccursAt(s, p, i + 1);
      }
      ReplaceAllAbsent(s[1..], p, r);
    }
  }

  /**
   * When no occurrence of `p` starts inside the prefix `a`, replacing in
   * `a + b` leaves `a` alone and replaces in `b`.
   */
  lemma {:induction false} ReplaceAllKeepsPrefix(a: string, b: string, p: string, r: string)
    requires |p| > 0
    requires forall i :: 0 <= i < |a| ==> !OccursAt(a + b, p, i)
    ensures ReplaceAll(a + b, p, r) == a + ReplaceAll(b, p, r)
    decreases |a|
  {
    if a != [] {
      var s := a + b;
      assert !OccursAt(s, p, 0);
      if |s| < |p| {
        assert ReplaceAll(s, p, r) == s;
        ReplaceAllAbsent(b, p, r);
      } else {
        assert s[..|p|] != p;
        assert s[1..] == a[1..] + b;
        forall i | 0 <= i < |a[1..]| ensures !OccursAt(a[1..] + b, p, i) {
          assert !OccursAt(s, p, i + 1);
        }
        ReplaceAllKeepsPrefix(a[1..], b, p, r);
        assert [s[0]] + (a[1..] + ReplaceAll(b, p, r)) == a + ReplaceAll(b, p, r);
      }
    } else {
      assert a + b == b;
    }
  }

  /** `lines.join(sep)`: the lines with `sep` between neighbours; nothing for no lines. */
  function Join(lines: seq<string>, sep: char): string {
    if lines == [] then ""
    else if |lines| == 1 then lines[0]
    else lines[0] + [sep] + Join(lines[1..], sep)
  }

  /** `s.split(sep)` for a one-character separator. */
  function Split(s: string, sep: char): (parts: seq<string>)
    ensures |parts| >= 1
  {
    if s == [] then [[]]
    else
      var rest := Split(s[1..], sep);
      if s[0] == sep then [[]] + rest
      else [[s[0]] + rest[0]] + rest[1..]
  }

  lemma {:induction false} SplitPlain(a: string, sep: char)
    requires sep !in a
    ensures Split(a, sep) == [a]
  {
    if a != [] {
      SplitPlain(a[1..], sep);
      assert [a[0]] + a[1..] == a;
    }
  }

  lemma {:induction false} SplitFirst(a: string, b: string, sep: char)
    requires sep !in a
    ensures Split(a + [sep] + b, sep) == [a] + Split(b, sep)
  {
    if a == [] {
      assert a + [sep] + b == [sep] + b;
      assert ([sep] + b)[1..] == b;
    } else {
      var s := a + [sep] + b;
      assert s[1..] == a[1..] + [sep] + b;
      SplitFirst(a[1..], b, sep);
      assert [a[0]] + a[1..] == a;
    }
  }

  /** Joining lines that do not hold the separator and splitting again gives the lines back. */
  lemma {:induction false} SplitJoin(lines: seq<string>, sep: char)
    requires |lines| >= 1
    requires forall i :: 0 <= i < |lines| ==> sep !in lines[i]
    ensures Split(Join(lines, sep), sep) == lines
  {
    if |lines| == 1 {
      SplitPlain(lines[0], sep);
    } else {
      SplitJoin(lines[1..], sep);
      SplitFirst(lines[0], Join(lines[1..], sep), sep);
      assert [lines[0]] + lines[1..] == lines;
    }
  }

  function LowerChar(c: char): char {
    if 'A' <= c <= 'Z' then (c as int + 32) as char else c
  }

  /** `toLowerCase` on the ASCII letters; every other character is kept. */
  function ToLower(s: string): (r: string)
    ensures |r| == |s|
    ensures forall i :: 0 <= i < |s| ==> r[i] == LowerChar(s[i])
  {
    if s == [] then [] else [LowerChar(s[0])] + ToLower(s[1..])
  }

  /** Lower-casing twice is lower-casing once. */
  lemma ToLowerIdempotent(s: string)
    ensures ToLower(ToLower(s)) == ToLower(s)
  {
  }
}
