/** Event signatures: printing a canonical one, splitting a type list, and parsing one back. */
module Signature {
  import opened Common
  import opened Joining

  /** One event parameter; `components` are the fields of a tuple. */
  datatype Input = Input(name: string, typ: string, indexed: bool, components: seq<Input>)

  /** Tuples, and arrays of tuples, expand to their component lists. */
  function CanonicalType(p: Input): string
    decreases p, 0
  {
    if "tuple" <= p.typ then "(" + Join(CanonicalTypes(p.components), ',') + ")" + p.typ[5..] else p.typ
  }

  function CanonicalTypes(ps: seq<Input>): (ts: seq<string>)
    ensures |ts| == |ps|
    decreases ps, 1
  {
    if ps == [] then [] else [CanonicalType(ps[0])] + CanonicalTypes(ps[1..])
  }

  function CanonicalSignature(name: string, ps: seq<Input>): string {
    name + "(" + Join(CanonicalTypes(ps), ',') + ")"
  }

  /** Splits what is left of a list, `cur` being the part read so far and `depth` its open parentheses. */
  function SplitFrom(s: string, depth: nat, cur: string): Option<seq<string>> {
    if s == "" then if depth == 0 then Some([cur]) else None
    else if s[0] == '(' then SplitFrom(s[1..], depth + 1, cur + [s[0]])
    else if s[0] == ')' then if depth == 0 then None else SplitFrom(s[1..], depth - 1, cur + [s[0]])
    else if s[0] == ',' && depth == 0 then
      Prepend([cur], SplitFrom(s[1..], 0, ""))
    else SplitFrom(s[1..], depth, cur + [s[0]])
  }

  function SplitTopLevel(s: string): Option<seq<string>> {
    SplitFrom(s, 0, "")
  }

  predicate IsSpace(c: char) {
    c in {' ', '\t', '\n', '\r'} || c as int == 11 || c as int == 12
  }

  function TrimSpace(s: string): string {
    if s != "" && IsSpace(s[0]) then TrimSpace(s[1..])
    else if s != "" && IsSpace(s[|s| - 1]) then TrimSpace(s[..|s| - 1])
    else s
  }

  function Unnamed(typ: string): Input {
    Input("", TrimSpace(typ), false, [])
  }

  function UnnamedAll(parts: seq<string>): seq<Input> {
    if parts == [] then [] else [Unnamed(parts[0])] + UnnamedAll(parts[1..])
  }

  datatype EventAbi = EventAbi(name: string, signature: string, inputs: seq<Input>)

  function IndexOfParen(s: string): (i: nat)
    ensures i <= |s| && (i < |s| ==> s[i] == '(') && '(' !in s[..i]
  {
    if s == "" || s[0] == '(' then 0 else 1 + IndexOfParen(s[1..])
  }

  function ParseSignature(name: string, signature: string): Option<EventAbi> {
    var open := IndexOfParen(signature);
    if open == |signature| || signature[|signature| - 1] != ')' then None
    else
      var inner := signature[open + 1..|signature| - 1];
      if TrimSpace(inner) == "" then Some(EventAbi(name, CanonicalSignature(signature[..open], []), []))
      else
        match SplitTopLevel(inner)
        case None => None
        case Some(parts) =>
          var inputs := UnnamedAll(parts);
          Some(EventAbi(name, CanonicalSignature(signature[..open], inputs), inputs))
  }

  /** The splitting loop as the program runs it. */
  method SplitLoop(s: string) returns (r: Option<seq<string>>)
    ensures r == SplitTopLevel(s)
  {
    var parts: seq<string> := [];
    var depth, start := 0, 0;
    PrependNothing([], SplitTopLevel(s));
    assert s[0..] == s && s[0..0] == "";
    for i := 0 to |s|
      invariant 0 <= start <= i && depth >= 0
      invariant SplitTopLevel(s) == Prepend(parts, SplitFrom(s[i..], depth, s[start..i]))
    {
      assert s[i..][1..] == s[i + 1..];
      match s[i] {
        case '(' =>
          depth := depth + 1;
        case ')' =>
          depth := depth - 1;
          if depth < 0 {
            return None;
          }
        case ',' =>
          if depth == 0 {
            PrependOne(parts, s[start..i], SplitFrom(s[i + 1..], 0, ""));
            parts := parts + [s[start..i]];
            start := i + 1;
          }
        case _ =>
      }
      assert start <= i ==> s[start..i + 1] == s[start..i] + [s[i]];
    }
    assert s[|s|..] == "" && s[start..|s|] == s[start..];
    if depth != 0 {
      return None;
    }
    return Some(parts + [s[start..]]);
  }

  // ---- Balance ----

  /** The depth after `s`, if it never closes more than it opened. */
  function Scan(s: string, depth: nat): Option<nat> {
    if s == "" then Some(depth)
    else if s[0] == '(' then Scan(s[1..], depth + 1)
    else if s[0] == ')' then if depth == 0 then None else Scan(s[1..], depth - 1)
    else Scan(s[1..], depth)
  }

  /** No comma of `s` lies outside all parentheses, when it starts at `depth`. */
  predicate CommaFree(s: string, depth: nat) {
    s == "" || if s[0] == '(' then CommaFree(s[1..], depth + 1)
               else if s[0] == ')' then depth > 0 && CommaFree(s[1..], depth - 1)
               else (s[0] == ',' ==> depth > 0) && CommaFree(s[1..], depth)
  }

  /** A balanced part without a top-level comma. */
  predicate Item(s: string) {
    Scan(s, 0) == Some(0) && CommaFree(s, 0)
  }

  lemma {:induction false} ScanConcat(a: string, b: string, depth: nat)
    ensures Scan(a + b, depth) == match Scan(a, depth) case None => None case Some(d) => Scan(b, d)
    ensures CommaFree(a + b, depth)
       <==> Scan(a, depth).Some? && CommaFree(a, depth) && CommaFree(b, Scan(a, depth).value)
    decreases |a|
  {
    if a == "" {
      assert a + b == b;
    } else {
      assert (a + b)[1..] == a[1..] + b;
      if a[0] == '(' {
        ScanConcat(a[1..], b, depth + 1);
      } else if a[0] == ')' {
        if depth > 0 { ScanConcat(a[1..], b, depth - 1); }
      } else {
        ScanConcat(a[1..], b, depth);
      }
    }
  }

  /** Splitting runs over a stretch without top-level commas and adds it to the current part. */
  lemma {:induction false} SplitStretch(x: string, rest: string, depth: nat, cur: string)
    requires Scan(x, depth).Some? && CommaFree(x, depth)
    ensures SplitFrom(x + rest, depth, cur) == SplitFrom(rest, Scan(x, depth).value, cur + x)
    decreases |x|
  {
    if x == "" {
      assert x + rest == rest && cur + x == cur;
    } else {
      assert (x + rest)[1..] == x[1..] + rest;
      assert cur + [x[0]] + x[1..] == cur + x;
      var next := if x[0] == '(' then depth + 1 else if x[0] == ')' then depth - 1 else depth;
      SplitStretch(x[1..], rest, next, cur + [x[0]]);
    }
  }

  /** Splitting a comma-joined list of items gives the items back. */
  lemma {:induction false} SplitJoin(items: seq<string>)
    requires items != [] && forall t :: t in items ==> Item(t)
    ensures SplitTopLevel(Join(items, ',')) == Some(items)
    decreases |items|
  {
    var first := items[0];
    assert Item(first);
    if |items| == 1 {
      SplitStretch(first, "", 0, "");
      assert first + "" == first && "" + first == first && items == [first];
    } else {
      var rest := Join(items[1..], ',');
      SplitJoin(items[1..]);
      SplitStretch(first, "," + rest, 0, "");
      assert first + [','] + rest == first + ("," + rest);
      assert ("," + rest)[1..] == rest && "" + first == first;
      assert [first] + items[1..] == items;
    }
  }

  /** What a split of any string means: the parts re-join to it, and each is balanced without a top-level comma. */
  lemma {:induction false} SplitFromMeaning(s: string, depth: nat, cur: string)
    requires Scan(cur, 0) == Some(depth) && CommaFree(cur, 0)
    ensures var r := SplitFrom(s, depth, cur);
            && (r.Some? <==> Scan(s, depth) == Some(0))
            && (r.Some? ==> r.value != [] && Join(r.value, ',') == cur + s && forall t :: t in r.value ==> Item(t))
    decreases |s|
  {
    if s == "" {
      assert cur + s == cur;
    } else if s[0] == ',' && depth == 0 {
      SplitFromMeaning(s[1..], 0, "");
      var r := SplitFrom(s[1..], 0, "");
      if r.Some? {
        assert ([cur] + r.value)[1..] == r.value;
        assert cur + [','] + ("" + s[1..]) == cur + s;
      }
    } else if s[0] != ')' || depth > 0 {
      var next := if s[0] == '(' then depth + 1 else if s[0] == ')' then depth - 1 else depth;
      ScanConcat(cur, [s[0]], 0);
      ScanOne(s[0], depth);
      assert cur + [s[0]] + s[1..] == cur + s;
      SplitFromMeaning(s[1..], next, cur + [s[0]]);
    }
  }

  lemma ScanOne(c: char, depth: nat)
    requires (c != ')' || depth > 0) && (c != ',' || depth > 0)
    ensures Scan([c], depth) == Some(if c == '(' then depth + 1 else if c == ')' then depth - 1 else depth)
    ensures CommaFree([c], depth)
  {
    assert [c][1..] == "";
  }

  /** A list splits exactly if its parentheses balance; the parts re-join to it and are items. */
  lemma SplitMeaning(s: string)
    ensures var r := SplitTopLevel(s);
            && (r.Some? <==> Scan(s, 0) == Some(0))
            && (r.Some? ==> r.value != [] && Join(r.value, ',') == s && forall t :: t in r.value ==> Item(t))
  {
    SplitFromMeaning(s, 0, "");
    assert "" + s == s;
  }

  // ---- Canonical types are items ----

  predicate Plain(s: string) {
    forall i :: 0 <= i < |s| ==> s[i] !in {'(', ')', ','} && !IsSpace(s[i])
  }

  /** A parameter whose elementary type names are plain, as Solidity's are. */
  predicate WellFormed(p: Input)
    decreases p, 0
  {
    if "tuple" <= p.typ then Plain(p.typ[5..]) && AllWellFormed(p.components) else p.typ != "" && Plain(p.typ)
  }

  predicate AllWellFormed(ps: seq<Input>)
    decreases ps, 1
  {
    ps == [] || (WellFormed(ps[0]) && AllWellFormed(ps[1..]))
  }

  lemma {:induction false} PlainScan(s: string, depth: nat)
    requires Plain(s)
    ensures Scan(s, depth) == Some(depth) && CommaFree(s, depth)
    decreases |s|
  {
    if s != "" {
      PlainScan(s[1..], depth);
    }
  }

  /** Inside parentheses nothing is at the top level. */
  lemma {:induction false} ScanDeeper(s: string, depth: nat)
    requires Scan(s, depth).Some?
    ensures Scan(s, depth + 1) == Some(Scan(s, depth).value + 1) && CommaFree(s, depth + 1)
    decreases |s|
  {
    if s != "" {
      ScanDeeper(s[1..], if s[0] == '(' then depth + 1 else if s[0] == ')' then depth - 1 else depth);
    }
  }

  lemma {:induction false} JoinBalanced(items: seq<string>)
    requires forall t :: t in items ==> Item(t)
    ensures Scan(Join(items, ','), 0) == Some(0)
  {
    if items != [] {
      SplitJoin(items);
      SplitMeaning(Join(items, ','));
    }
  }

  /** A parenthesised, balanced list followed by a plain suffix is one item. */
  lemma TupleItem(inner: string, suffix: string)
    requires Scan(inner, 0) == Some(0) && Plain(suffix)
    ensures Item("(" + inner + ")" + suffix)
  {
    ScanDeeper(inner, 0);
    PlainScan(suffix, 0);
    assert "("[1..] == "" && ")"[1..] == "";
    ScanConcat("(", inner, 0);
    ScanConcat("(" + inner, ")", 0);
    ScanConcat("(" + inner + ")", suffix, 0);
  }

  lemma {:induction false} CanonicalItem(p: Input)
    requires WellFormed(p)
    ensures Item(CanonicalType(p)) && CanonicalType(p) != ""
    decreases p, 0
  {
    if "tuple" <= p.typ {
      CanonicalItems(p.components);
      JoinBalanced(CanonicalTypes(p.components));
      TupleItem(Join(CanonicalTypes(p.components), ','), p.typ[5..]);
    } else {
      PlainScan(p.typ, 0);
    }
  }

  lemma {:induction false} CanonicalItems(ps: seq<Input>)
    requires AllWellFormed(ps)
    ensures forall t :: t in CanonicalTypes(ps) ==> Item(t) && t != ""
    decreases ps, 1
  {
    if ps != [] {
      CanonicalItem(ps[0]);
      CanonicalItems(ps[1..]);
    }
  }

  /** Splitting a canonical parameter list, nested tuples included, gives the component types. */
  lemma SplitCanonicalList(ps: seq<Input>)
    requires ps != [] && AllWellFormed(ps)
    ensures SplitTopLevel(Join(CanonicalTypes(ps), ',')) == Some(CanonicalTypes(ps))
  {
    CanonicalItems(ps);
    SplitJoin(CanonicalTypes(ps));
  }

  // ---- Printing and parsing ----

  /** Trimming leaves it alone. */
  predicate Trimmed(s: string) {
    s == "" || (!IsSpace(s[0]) && !IsSpace(s[|s| - 1]))
  }

  /** A type as parsing keeps it: trimmed, one item, and not to be expanded again. */
  predicate Settled(t: string) {
    Trimmed(t) && Item(t) && !("tuple" <= t)
  }

  lemma {:induction false} TrimTrims(s: string)
    ensures Trimmed(TrimSpace(s)) && (Trimmed(s) ==> TrimSpace(s) == s)
    decreases |s|
  {
    if s != "" && IsSpace(s[0]) {
      TrimTrims(s[1..]);
    } else if s != "" && IsSpace(s[|s| - 1]) {
      TrimTrims(s[..|s| - 1]);
    }
  }

  /** Trimming takes spaces off both ends, all of them and nothing else. */
  lemma {:induction false} TrimMeaning(s: string) returns (a: nat, b: nat)
    ensures a <= b <= |s| && TrimSpace(s) == s[a..b]
    ensures forall i :: (0 <= i < a || b <= i < |s|) ==> IsSpace(s[i])
    ensures a < b ==> !IsSpace(s[a]) && !IsSpace(s[b - 1])
    decreases |s|
  {
    if s != "" && IsSpace(s[0]) {
      var c, d := TrimMeaning(s[1..]);
      a, b := c + 1, d + 1;
    } else if s != "" && IsSpace(s[|s| - 1]) {
      a, b := TrimMeaning(s[..|s| - 1]);
    } else {
      a, b := 0, |s|;
    }
  }

  /** Spaces do not matter to being an item. */
  lemma {:induction false} TrimItem(s: string)
    requires Item(s)
    ensures Item(TrimSpace(s))
    decreases |s|
  {
    if s != "" && IsSpace(s[0]) {
      TrimItem(s[1..]);
    } else if s != "" && IsSpace(s[|s| - 1]) {
      var init := s[..|s| - 1];
      assert s == init + [s[|s| - 1]];
      ScanConcat(init, [s[|s| - 1]], 0);
      SpaceScan(s[|s| - 1], Scan(init, 0));
      TrimItem(init);
    }
  }

  lemma SpaceScan(c: char, d: Option<nat>)
    requires IsSpace(c)
    ensures d.Some? ==> Scan([c], d.value) == d
  {
    assert [c][1..] == "";
  }

  /** Dropping the word tuple leaves an item. */
  lemma AfterTuple(t: string)
    requires Item(t) && "tuple" <= t
    ensures Item("()" + t[5..])
  {
    assert t == "tuple" + t[5..];
    ScanConcat("tuple", t[5..], 0);
    assert Plain("tuple");
    PlainScan("tuple", 0);
    ScanConcat("()", t[5..], 0);
    assert "()"[1..] == ")" && ")"[1..] == "";
  }

  lemma EmptyTuple(t: string)
    requires "tuple" <= t
    ensures var c := CanonicalType(Input("", t, false, []));
            c == "()" + t[5..] && c[|c| - 1] == if |t| == 5 then ')' else t[|t| - 1]
  {
    assert CanonicalTypes([]) == [];
    assert "(" + "" + ")" + t[5..] == "()" + t[5..];
  }

  lemma UnnamedSettles(part: string)
    requires Item(part)
    ensures Settled(CanonicalType(Unnamed(part)))
    ensures CanonicalType(Unnamed(part)) == "" ==> TrimSpace(part) == ""
  {
    var t := TrimSpace(part);
    TrimTrims(part);
    TrimItem(part);
    if "tuple" <= t {
      AfterTuple(t);
      EmptyTuple(t);
    }
  }

  /** A settled type survives being parsed again. */
  lemma SettledStays(t: string)
    requires Settled(t)
    ensures CanonicalType(Unnamed(t)) == t
  {
    TrimTrims(t);
  }

  lemma {:induction false} AllSettle(parts: seq<string>)
    requires forall t :: t in parts ==> Item(t)
    ensures forall t :: t in CanonicalTypes(UnnamedAll(parts)) ==> Settled(t)
    ensures |CanonicalTypes(UnnamedAll(parts))| == |parts|
  {
    if parts != [] {
      UnnamedSettles(parts[0]);
      AllSettle(parts[1..]);
      assert UnnamedAll(parts)[1..] == UnnamedAll(parts[1..]);
    }
  }

  lemma {:induction false} AllStay(ts: seq<string>)
    requires forall t :: t in ts ==> Settled(t)
    ensures CanonicalTypes(UnnamedAll(ts)) == ts
  {
    if ts != [] {
      SettledStays(ts[0]);
      AllStay(ts[1..]);
      assert UnnamedAll(ts)[1..] == UnnamedAll(ts[1..]);
    }
  }

  lemma {:induction false} FirstParen(name: string, rest: string)
    requires '(' !in name
    ensures IndexOfParen(name + "(" + rest) == |name|
  {
    var s := name + "(" + rest;
    if name != "" {
      assert s[0] == name[0] && s[1..] == name[1..] + "(" + rest;
      FirstParen(name[1..], rest);
    }
  }

  /** Parsing a signature whose types are settled keeps the signature as it is. */
  lemma ParseSettled(name: string, event: string, ts: seq<string>)
    requires '(' !in event && forall t :: t in ts ==> Settled(t)
    requires ts == [] || TrimSpace(Join(ts, ',')) != ""
    ensures ParseSignature(name, event + "(" + Join(ts, ',') + ")")
         == Some(EventAbi(name, event + "(" + Join(ts, ',') + ")", UnnamedAll(ts)))
  {
    var inner := Join(ts, ',');
    var s := event + "(" + inner + ")";
    assert s == event + "(" + (inner + ")");
    FirstParen(event, inner + ")");
    assert s[..|event|] == event && s[|event| + 1..|s| - 1] == inner;
    if ts == [] {
      assert TrimSpace("") == "";
    } else {
      SplitJoin(ts);
      AllStay(ts);
    }
  }

  lemma {:induction false} CanonicalSettled(p: Input)
    requires WellFormed(p)
    ensures Settled(CanonicalType(p)) && CanonicalType(p) != ""
  {
    CanonicalItem(p);
    if "tuple" <= p.typ {
      var c := CanonicalType(p);
      assert c[0] == '(';
      assert c[|c| - 1] == if |p.typ| == 5 then ')' else p.typ[5..][|p.typ[5..]| - 1];
    }
  }

  lemma {:induction false} AllCanonicalSettled(ps: seq<Input>)
    requires AllWellFormed(ps)
    ensures forall t :: t in CanonicalTypes(ps) ==> Settled(t) && t != ""
  {
    if ps != [] {
      CanonicalSettled(ps[0]);
      AllCanonicalSettled(ps[1..]);
    }
  }

  lemma JoinNotBlank(ts: seq<string>)
    requires ts != [] && Settled(ts[0]) && ts[0] != ""
    ensures TrimSpace(Join(ts, ',')) != ""
  {
    var s := Join(ts, ',');
    assert s[0] == ts[0][0];
    NotBlank(s);
  }

  lemma {:induction false} NotBlank(s: string)
    requires s != "" && !IsSpace(s[0])
    ensures TrimSpace(s) != ""
    decreases |s|
  {
    if IsSpace(s[|s| - 1]) {
      NotBlank(s[..|s| - 1]);
    }
  }

  /** Parsing a canonical signature reproduces it, with one positional input for each parameter. */
  lemma ParseCanonical(name: string, event: string, ps: seq<Input>)
    requires '(' !in event && AllWellFormed(ps)
    ensures ParseSignature(name, CanonicalSignature(event, ps))
         == Some(EventAbi(name, CanonicalSignature(event, ps), UnnamedAll(CanonicalTypes(ps))))
  {
    AllCanonicalSettled(ps);
    if ps != [] {
      JoinNotBlank(CanonicalTypes(ps));
    }
    ParseSettled(name, event, CanonicalTypes(ps));
  }

  /** Whatever signature is parsed, the normalized one parses to itself. */
  lemma ParseNormalizes(name: string, signature: string)
    requires ParseSignature(name, signature).Some?
    ensures var e := ParseSignature(name, signature).value;
            var again := ParseSignature(name, e.signature);
            again.Some? && again.value.signature == e.signature
  {
    var open := IndexOfParen(signature);
    var event := signature[..open];
    var inner := signature[open + 1..|signature| - 1];
    NoParenBefore(signature);
    if TrimSpace(inner) == "" {
      ParseSettled(name, event, []);
      assert event + "(" + "" + ")" == CanonicalSignature(event, []);
    } else {
      SplitMeaning(inner);
      var parts := SplitTopLevel(inner).value;
      var ts := CanonicalTypes(UnnamedAll(parts));
      AllSettle(parts);
      SettledNotBlank(parts, inner);
      ParseSettled(name, event, ts);
      AllStay(ts);
    }
  }

  lemma {:induction false} NoParenBefore(s: string)
    ensures '(' !in s[..IndexOfParen(s)]
  {
    if s != "" && s[0] != '(' {
      NoParenBefore(s[1..]);
      assert s[..IndexOfParen(s)] == [s[0]] + s[1..][..IndexOfParen(s[1..])];
    }
  }

  /** The types of a list that is not blank do not join to a blank. */
  lemma SettledNotBlank(parts: seq<string>, inner: string)
    requires parts != [] && inner == Join(parts, ',') && TrimSpace(inner) != "" && forall t :: t in parts ==> Item(t)
    ensures TrimSpace(Join(CanonicalTypes(UnnamedAll(parts)), ',')) != ""
  {
    var ts := CanonicalTypes(UnnamedAll(parts));
    AllSettle(parts);
    var s := Join(ts, ',');
    assert Item(parts[0]);
    UnnamedSettles(parts[0]);
    assert ts[0] == CanonicalType(Unnamed(parts[0]));
    if |parts| == 1 {
      assert ts[0] != "";
      JoinNotBlank(ts);
    } else {
      assert s == ts[0] + [','] + Join(ts[1..], ',');
      assert s[0] == if ts[0] == "" then ',' else ts[0][0];
      NotBlank(s);
    }
  }
}
