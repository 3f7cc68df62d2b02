/** Joining parts with a separator, and taking the result apart again. */
module Joining {

  function Join(parts: seq<string>, sep: char): string {
    if parts == [] then ""
    else if |parts| == 1 then parts[0]
    else parts[0] + [sep] + Join(parts[1..], sep)
  }

  predicate Free(s: string, sep: char) {
    sep !in s
  }

  /** Parts without the separator are determined by what they join to, and so is their number. */
  lemma {:induction false} JoinInjective(a: seq<string>, b: seq<string>, sep: char)
    requires a != [] && b != [] && Join(a, sep) == Join(b, sep)
    requires forall i :: 0 <= i < |a| ==> Free(a[i], sep)
    requires forall i :: 0 <= i < |b| ==> Free(b[i], sep)
    ensures a == b
    decreases |a|
  {
    FirstPart(a, sep);
    FirstPart(b, sep);
    assert a == [a[0]] + a[1..] && b == [b[0]] + b[1..];
    if |a| > 1 {
      assert Join(a[1..], sep) == Join(a, sep)[|a[0]| + 1..];
      assert Join(b[1..], sep) == Join(b, sep)[|b[0]| + 1..];
      JoinInjective(a[1..], b[1..], sep);
    }
  }

  /** How far a string goes before the separator. */
  function Head(s: string, sep: char): nat {
    if s == "" || s[0] == sep then 0 else 1 + Head(s[1..], sep)
  }

  lemma {:induction false} HeadOf(part: string, rest: string, sep: char)
    requires Free(part, sep) && (rest == "" || rest[0] == sep)
    ensures Head(part + rest, sep) == |part|
  {
    if part == "" {
      assert part + rest == rest;
    } else {
      assert (part + rest)[1..] == part[1..] + rest;
      HeadOf(part[1..], rest, sep);
    }
  }

  lemma FirstPart(parts: seq<string>, sep: char)
    requires parts != [] && Free(parts[0], sep)
    ensures var s := Join(parts, sep);
            var n := Head(s, sep);
            n == |parts[0]| && n <= |s| && s[..n] == parts[0] && (n == |s| <==> |parts| == 1)
  {
    var s := Join(parts, sep);
    var rest := if |parts| == 1 then "" else [sep] + Join(parts[1..], sep);
    assert s == parts[0] + rest;
    HeadOf(parts[0], rest, sep);
  }
}
