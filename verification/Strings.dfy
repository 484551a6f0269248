/** The host's `split` and `join` on strings. */
module Strings {

  /** `parts.join(sep)`. */
  function Join(parts: seq<string>, sep: string): string {
    if parts == [] then ""
    else if |parts| == 1 then parts[0]
    else parts[0] + sep + Join(parts[1..], sep)
  }

  predicate Free(s: string, c: char) {
    c !in s
  }

  /** The length of the longest prefix of `s` without `c`. */
  function Span(s: string, c: char): (n: nat)
    ensures n <= |s| && Free(s[..n], c)
    ensures n < |s| ==> s[n] == c
  {
    if s == "" || s[0] == c then 0
    else
      var n := Span(s[1..], c);
      assert s[..n + 1] == [s[0]] + s[1..][..n];
      n + 1
  }

  lemma {:induction false} SpanIs(s: string, c: char, n: nat)
    requires n <= |s| && Free(s[..n], c) && (n < |s| ==> s[n] == c)
    ensures Span(s, c) == n
  {
    if n > 0 {
      assert s[0] == s[..n][0];
      assert s[1..][..n - 1] == s[..n][1..];
      SpanIs(s[1..], c, n - 1);
    }
  }

  /** `s.split(c)`: at least one part, none containing `c`. */
  function Split(s: string, c: char): (parts: seq<string>)
    ensures parts != [] && forall p :: p in parts ==> Free(p, c)
    decreases |s|
  {
    var n := Span(s, c);
    if n == |s| then
      assert s[..n] == s;
      [s]
    else [s[..n]] + Split(s[n + 1..], c)
  }

  lemma {:induction false} JoinSplit(s: string, c: char)
    ensures Join(Split(s, c), [c]) == s
    decreases |s|
  {
    var n := Span(s, c);
    if n < |s| {
      JoinSplit(s[n + 1..], c);
      var rest := Split(s[n + 1..], c);
      assert ([s[..n]] + rest)[1..] == rest;
      assert s == s[..n] + [c] + s[n + 1..];
    }
  }

  lemma {:induction false} SplitJoin(parts: seq<string>, c: char)
    requires parts != [] && forall p :: p in parts ==> Free(p, c)
    ensures Split(Join(parts, [c]), c) == parts
    decreases |parts|
  {
    var s, n := Join(parts, [c]), |parts[0]|;
    assert s[..n] == parts[0];
    SpanIs(s, c, n);
    if |parts| == 1 {
    } else {
      assert s[n] == c;
      assert s[n + 1..] == Join(parts[1..], [c]);
      SplitJoin(parts[1..], c);
      assert parts == [parts[0]] + parts[1..];
    }
  }
}
