/** Byte streams of newline-terminated records, and what survives when a stream is cut. */
module Lines {

  type Rec = string

  predicate NoNewline(s: string) {
    forall i :: 0 <= i < |s| ==> s[i] != '\n'
  }

  /** The longest beginning of `s` that ends in a newline. */
  function Whole(s: string): string {
    if s == "" || s[|s| - 1] == '\n' then s else Whole(s[..|s| - 1])
  }

  function WholeAll(streams: seq<string>): string {
    if streams == [] then "" else Whole(streams[0]) + WholeAll(streams[1..])
  }

  /** The bytes of whole records, one line each. */
  function Encode(recs: seq<Rec>): string {
    if recs == [] then "" else recs[0] + "\n" + Encode(recs[1..])
  }

  function CountLines(s: string): nat {
    if s == "" then 0 else CountLines(s[1..]) + (if s[0] == '\n' then 1 else 0)
  }

  predicate Records(recs: seq<Rec>) {
    forall r :: r in recs ==> NoNewline(r)
  }

  lemma {:induction false} WholeNoNewline(s: string)
    requires NoNewline(s)
    ensures Whole(s) == "" && CountLines(s) == 0
    decreases |s|
  {
    if s != "" {
      WholeNoNewline(s[..|s| - 1]);
      CountNoNewline(s);
    }
  }

  lemma {:induction false} CountNoNewline(s: string)
    requires NoNewline(s)
    ensures CountLines(s) == 0
    decreases |s|
  {
    if s != "" {
      CountNoNewline(s[1..]);
    }
  }

  /** A line at the front is whole, whatever follows it. */
  lemma {:induction false} WholeLine(line: string, rest: string)
    requires line != "" && line[|line| - 1] == '\n'
    ensures Whole(line + rest) == line + Whole(rest)
    decreases |rest|
  {
    var s := line + rest;
    if rest == "" {
      assert s == line;
    } else if rest[|rest| - 1] != '\n' {
      assert s[..|s| - 1] == line + rest[..|rest| - 1];
      WholeLine(line, rest[..|rest| - 1]);
    }
  }

  lemma {:induction false} CountConcat(a: string, b: string)
    ensures CountLines(a + b) == CountLines(a) + CountLines(b)
    decreases |a|
  {
    if a == "" {
      assert a + b == b;
    } else {
      assert (a + b)[1..] == a[1..] + b;
      CountConcat(a[1..], b);
    }
  }

  /** A stream cut anywhere still holds a whole number of records: those whose newline it reached. */
  lemma {:induction false} CutEncoding(recs: seq<Rec>, b: string)
    requires Records(recs) && b <= Encode(recs)
    ensures CountLines(b) <= |recs|
    ensures Whole(b) == Encode(recs[..CountLines(b)])
    decreases |recs|
  {
    if recs == [] || |b| <= |recs[0]| {
      if recs != [] {
        assert recs[0] in recs && b == recs[0][..|b|];
      }
      WholeNoNewline(b);
    } else {
      var line, rest := recs[0] + "\n", b[|recs[0]| + 1..];
      assert Encode(recs) == line + Encode(recs[1..]);
      assert b == line + rest && rest <= Encode(recs[1..]);
      CutEncoding(recs[1..], rest);
      WholeLine(line, rest);
      CountConcat(line, rest);
      CountConcat(recs[0], "\n");
      CountNoNewline(recs[0]);
      assert recs[..CountLines(b)][1..] == recs[1..][..CountLines(rest)];
    }
  }

  /** A stream that does not reach the end of its encoding loses at least the last record. */
  lemma {:induction false} ProperCut(recs: seq<Rec>, b: string)
    requires Records(recs) && recs != [] && b < Encode(recs)
    ensures CountLines(b) < |recs|
    decreases |recs|
  {
    assert Encode(recs) == recs[0] + ("\n" + Encode(recs[1..])) && NoNewline(recs[0]);
    if |b| <= |recs[0]| {
      assert b == recs[0][..|b|];
      CountNoNewline(b);
    } else {
      var line, rest := recs[0] + "\n", b[|recs[0]| + 1..];
      assert Encode(recs) == line + Encode(recs[1..]);
      assert b == line + rest && rest <= Encode(recs[1..]);
      CountConcat(line, rest);
      CountConcat(recs[0], "\n");
      CountNoNewline(recs[0]);
      if |recs| > 1 {
        ProperCut(recs[1..], rest);
      }
    }
  }

  lemma {:induction false} EncodeConcat(a: seq<Rec>, b: seq<Rec>)
    ensures Encode(a + b) == Encode(a) + Encode(b)
  {
    if a == [] {
      assert a + b == b;
    } else {
      assert (a + b)[1..] == a[1..] + b;
      EncodeConcat(a[1..], b);
    }
  }

  lemma EncodeSnoc(recs: seq<Rec>, r: Rec)
    ensures Encode(recs + [r]) == Encode(recs) + r + "\n"
  {
    EncodeConcat(recs, [r]);
    assert Encode([r]) == r + "\n" + Encode([]);
    assert Encode(recs) + (r + "\n") == Encode(recs) + r + "\n";
  }
}
