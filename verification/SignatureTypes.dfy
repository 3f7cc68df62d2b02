/** What a canonical signature says about the parameters, and which signatures can be parsed. */
module SignatureTypes {
  import opened Common
  import opened Joining
  import opened Signature

  /** The type of a parameter without its names: an elementary type, or a tuple of types with an array suffix. */
  datatype TypeTree = Elementary(typ: string) | Tuple(fields: seq<TypeTree>, suffix: string)

  function Tree(p: Input): TypeTree
    decreases p, 0
  {
    if "tuple" <= p.typ then Tuple(Trees(p.components), p.typ[5..]) else Elementary(p.typ)
  }

  function Trees(ps: seq<Input>): (ts: seq<TypeTree>)
    ensures |ts| == |ps|
    decreases ps, 1
  {
    if ps == [] then [] else [Tree(ps[0])] + Trees(ps[1..])
  }

  // ---- The signature determines the types ----

  lemma JoinEmptyIff(items: seq<string>)
    requires forall t :: t in items ==> t != ""
    ensures Join(items, ',') == "" <==> items == []
  {
    if items != [] {
      assert items[0] in items;
    }
  }

  /** A canonical list determines its items. */
  lemma ListDetermines(ps: seq<Input>, qs: seq<Input>)
    requires AllWellFormed(ps) && AllWellFormed(qs)
    requires Join(CanonicalTypes(ps), ',') == Join(CanonicalTypes(qs), ',')
    ensures CanonicalTypes(ps) == CanonicalTypes(qs)
  {
    CanonicalItems(ps);
    CanonicalItems(qs);
    JoinEmptyIff(CanonicalTypes(ps));
    JoinEmptyIff(CanonicalTypes(qs));
    if ps != [] && qs != [] {
      SplitCanonicalList(ps);
      SplitCanonicalList(qs);
    }
  }

  /** The suffix of a tuple has no parenthesis, so the last one closes the list. */
  lemma TupleParts(inner: string, suffix: string, inner': string, suffix': string)
    requires Plain(suffix) && Plain(suffix') && "(" + inner + ")" + suffix == "(" + inner' + ")" + suffix'
    ensures inner == inner' && suffix == suffix'
  {
    var s := "(" + inner + ")" + suffix;
    var a, b := |inner| + 1, |inner'| + 1;
    assert s[a] == ')' && s[b] == ')';
    assert forall i :: a < i < |s| ==> s[i] == suffix[i - a - 1];
    assert forall i :: b < i < |s| ==> s[i] == suffix'[i - b - 1];
    assert a == b;
    assert s[1..a] == inner && s[1..b] == inner' && s[a + 1..] == suffix && s[b + 1..] == suffix';
  }

  lemma TupleText(p: Input)
    requires "tuple" <= p.typ
    ensures CanonicalType(p) == "(" + Join(CanonicalTypes(p.components), ',') + ")" + p.typ[5..]
  {
  }

  /** Parameters print alike exactly if their types are alike, nested tuples included. */
  lemma {:induction false} CanonicalTypeIff(p: Input, q: Input)
    requires WellFormed(p) && WellFormed(q)
    ensures CanonicalType(p) == CanonicalType(q) <==> Tree(p) == Tree(q)
    decreases p, 0
  {
    if "tuple" <= p.typ && "tuple" <= q.typ {
      TupleText(p);
      TupleText(q);
      CanonicalTypesIff(p.components, q.components);
      if CanonicalType(p) == CanonicalType(q) {
        TupleParts(Join(CanonicalTypes(p.components), ','), p.typ[5..],
                   Join(CanonicalTypes(q.components), ','), q.typ[5..]);
        ListDetermines(p.components, q.components);
      }
    } else if "tuple" <= p.typ {
      TupleText(p);
      assert CanonicalType(p)[0] == '(';
    } else if "tuple" <= q.typ {
      TupleText(q);
      assert CanonicalType(q)[0] == '(';
    }
  }

  lemma {:induction false} CanonicalTypesIff(ps: seq<Input>, qs: seq<Input>)
    requires AllWellFormed(ps) && AllWellFormed(qs)
    ensures CanonicalTypes(ps) == CanonicalTypes(qs) <==> Trees(ps) == Trees(qs)
    decreases ps, 1
  {
    if ps != [] && qs != [] {
      CanonicalTypeIff(ps[0], qs[0]);
      CanonicalTypesIff(ps[1..], qs[1..]);
      ConsIff(CanonicalType(ps[0]), CanonicalTypes(ps[1..]), CanonicalType(qs[0]), CanonicalTypes(qs[1..]));
      ConsIff(Tree(ps[0]), Trees(ps[1..]), Tree(qs[0]), Trees(qs[1..]));
    }
  }

  lemma ConsIff<T>(x: T, xs: seq<T>, y: T, ys: seq<T>)
    ensures [x] + xs == [y] + ys <==> x == y && xs == ys
  {
    if [x] + xs == [y] + ys {
      assert ([x] + xs)[0] == x && ([y] + ys)[0] == y;
      assert ([x] + xs)[1..] == xs && ([y] + ys)[1..] == ys;
    }
  }

  /** Two events have one signature exactly if they have one name and the same parameter types in order. */
  lemma SignatureIff(a: string, ps: seq<Input>, b: string, qs: seq<Input>)
    requires '(' !in a && '(' !in b && AllWellFormed(ps) && AllWellFormed(qs)
    ensures CanonicalSignature(a, ps) == CanonicalSignature(b, qs) <==> a == b && Trees(ps) == Trees(qs)
  {
    var x, y := Join(CanonicalTypes(ps), ','), Join(CanonicalTypes(qs), ',');
    CanonicalTypesIff(ps, qs);
    if CanonicalSignature(a, ps) == CanonicalSignature(b, qs) {
      assert a + "(" + x + ")" == a + "(" + (x + ")") && b + "(" + y + ")" == b + "(" + (y + ")");
      FirstParen(a, x + ")");
      FirstParen(b, y + ")");
      var s := a + "(" + x + ")";
      assert s[..|a|] == a && s[..|b|] == b;
      assert s[|a| + 1..|s| - 1] == x && s[|b| + 1..|s| - 1] == y;
      ListDetermines(ps, qs);
    }
  }

  // ---- Parsing ----

  /** The inputs of a parsed canonical signature: its types in order, without names, none of them indexed. */
  lemma {:induction false} PositionalInputs(ts: seq<string>)
    requires forall t :: t in ts ==> Trimmed(t)
    ensures UnnamedAll(ts) == seq(|ts|, i requires 0 <= i < |ts| => Input("", ts[i], false, []))
  {
    if ts != [] {
      TrimTrims(ts[0]);
      PositionalInputs(ts[1..]);
    }
  }

  lemma ParsedInputs(name: string, event: string, ps: seq<Input>)
    requires '(' !in event && AllWellFormed(ps)
    ensures var r := ParseSignature(name, CanonicalSignature(event, ps));
            && r.Some? && r.value.name == name && |r.value.inputs| == |ps|
            && forall i :: 0 <= i < |ps| ==> r.value.inputs[i] == Input("", CanonicalTypes(ps)[i], false, [])
  {
    ParseCanonical(name, event, ps);
    AllCanonicalSettled(ps);
    PositionalInputs(CanonicalTypes(ps));
  }

  /**
   * A signature is refused exactly if it has no opening parenthesis, does not end in a closing one,
   * or what is between the first and the last is more than spaces and not balanced.
   */
  lemma ParseFailsIff(name: string, signature: string)
    ensures ParseSignature(name, signature).None?
       <==> || IndexOfParen(signature) == |signature| || signature[|signature| - 1] != ')'
            || var inner := signature[IndexOfParen(signature) + 1..|signature| - 1];
               (exists i :: 0 <= i < |inner| && !IsSpace(inner[i])) && Scan(inner, 0) != Some(0)
  {
    if IndexOfParen(signature) < |signature| && signature[|signature| - 1] == ')' {
      var inner := signature[IndexOfParen(signature) + 1..|signature| - 1];
      SplitMeaning(inner);
      BlankIff(inner);
    }
  }

  lemma BlankIff(s: string)
    ensures TrimSpace(s) == "" <==> forall i :: 0 <= i < |s| ==> IsSpace(s[i])
  {
    var a, b := TrimMeaning(s);
    if a < b {
      assert !IsSpace(s[a]);
    }
  }
}
