/** String helpers the logger relies on: Arduino `String::indexOf` (a
    first-occurrence substring search that answers -1 when there is none)
    and comma-separated joining of printed fields, with the split that
    reads such a line back. */
module Text {

  predicate OccursAt(s: string, pattern: string, i: int) {
    0 <= i && i + |pattern| <= |s| && s[i..i + |pattern|] == pattern
  }

  ghost predicate Contains(s: string, pattern: string) {
    exists i :: OccursAt(s, pattern, i)
  }

  /** First occurrence of `pattern` in `s` at or after `from`, or -1. */
  function IndexFrom(s: string, pattern: string, from: nat): (i: int)
    ensures i == -1 || (from <= i && OccursAt(s, pattern, i))
    ensures forall j :: from <= j && (i == -1 || j < i) ==> !OccursAt(s, pattern, j)
    decreases |s| - from
  {
    if from + |pattern| > |s| then -1
    else if s[from..from + |pattern|] == pattern then from
    else IndexFrom(s, pattern, from + 1)
  }

  /** `s.indexOf(pattern)`: the least index where `pattern` occurs, or -1. */
  function IndexOf(s: string, pattern: string): (i: int)
    ensures i >= 0 <==> Contains(s, pattern)
    ensures i >= 0 ==> OccursAt(s, pattern, i) && forall j :: 0 <= j < i ==> !OccursAt(s, pattern, j)
    ensures i < 0 ==> i == -1
  {
    IndexFrom(s, pattern, 0)
  }

  /** The fields separated by `sep`, as `print(a); print(sep); print(b); ...` writes them. */
  function Join(fields: seq<string>, sep: char): string {
    if |fields| == 0 then ""
    else if |fields| == 1 then fields[0]
    else fields[0] + [sep] + Join(fields[1..], sep)
  }

  /** Cuts `s` at every `sep`; always yields at least one (possibly empty) piece. */
  function Split(s: string, sep: char): (pieces: seq<string>)
    ensures |pieces| >= 1
  {
    if s == [] then [""]
    else
      var rest := Split(s[1..], sep);
      if s[0] == sep then [""] + rest else [[s[0]] + rest[0]] + rest[1..]
  }

  predicate Free(fields: seq<string>, c: char) {
    forall i :: 0 <= i < |fields| ==> c !in fields[i]
  }

  lemma {:induction false} SplitNoSep(a: string, sep: char)
    requires sep !in a
    ensures Split(a, sep) == [a]
  {
    if a != [] {
      SplitNoSep(a[1..], sep);
      assert a[0] != sep && [a[0]] + a[1..] == a;
    }
  }

  lemma {:induction false} SplitAtFirstSep(a: string, sep: char, b: string)
    requires sep !in a
    ensures Split(a + [sep] + b, sep) == [a] + Split(b, sep)
    decreases |a|
  {
    var s := a + [sep] + b;
    if a == [] {
      assert s[1..] == b;
    } else {
      assert s[0] == a[0] != sep && s[1..] == a[1..] + [sep] + b;
      SplitAtFirstSep(a[1..], sep, b);
      assert [a[0]] + a[1..] == a;
    }
  }

  /** Splitting a joined line gives the fields back, provided none of them holds the separator. */
  lemma {:induction false} SplitJoin(fields: seq<string>, sep: char)
    requires |fields| >= 1 && Free(fields, sep)
    ensures Split(Join(fields, sep), sep) == fields
  {
    if |fields| == 1 {
      SplitNoSep(fields[0], sep);
    } else {
      SplitJoin(fields[1..], sep);
      SplitAtFirstSep(fields[0], sep, Join(fields[1..], sep));
    }
  }

  /** A joined line holds a character other than the separator only if some field does. */
  lemma {:induction false} JoinFree(fields: seq<string>, sep: char, c: char)
    requires c != sep && Free(fields, c)
    ensures c !in Join(fields, sep)
  {
    if |fields| > 1 {
      JoinFree(fields[1..], sep, c);
    }
  }
}
