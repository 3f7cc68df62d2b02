/** What a decoded log says about the values the event was emitted with. */
module EventRoundTrip {
  import opened Common
  import opened Decimal
  import opened Words
  import opened AbiDecode
  import opened AbiRoundTrip
  import opened Signature
  import opened EventDecode

  /** One argument of an emitted event; `hash` is what the log keeps of it when it is indexed and dynamic. */
  datatype Arg = Arg(name: string, indexed: bool, typ: AbiType, value: AbiValue, hash: seq<Byte>)

  predicate ValidArgs(args: seq<Arg>) {
    forall a :: a in args ==> Supported(a.typ) && HasType(a.typ, a.value) && |a.hash| == 32
  }

  function Inputs(args: seq<Arg>): (inputs: seq<Input>)
    ensures |inputs| == |args|
  {
    seq(|args|, i requires 0 <= i < |args| => Input(args[i].name, TypeName(args[i].typ), args[i].indexed, []))
  }

  /** The topic of an indexed argument. */
  function Topic(a: Arg): string
    requires Supported(a.typ) && HasType(a.typ, a.value)
  {
    "0x" + Hex(if Static(a.typ) then EncodeWord(a.typ, a.value) else a.hash)
  }

  function Topics(args: seq<Arg>): seq<string>
    requires ValidArgs(args)
  {
    if args == [] then [] else (if args[0].indexed then [Topic(args[0])] else []) + Topics(args[1..])
  }

  function DataArgs(args: seq<Arg>): (d: seq<Arg>)
    ensures ValidArgs(args) ==> ValidArgs(d)
  {
    if args == [] then [] else (if args[0].indexed then [] else [args[0]]) + DataArgs(args[1..])
  }

  function Types(args: seq<Arg>): (ts: seq<AbiType>) {
    if args == [] then [] else [args[0].typ] + Types(args[1..])
  }

  function Values(args: seq<Arg>): (vs: seq<AbiValue>) {
    if args == [] then [] else [args[0].value] + Values(args[1..])
  }

  /** What the map should hold for an argument: its value, or the hash when that is all the log has. */
  function Expected(a: Arg): string
    requires HasType(a.typ, a.value)
  {
    if a.indexed && !Static(a.typ) then "0x" + Hex(a.hash) else Render(a.typ, a.value)
  }

  /** The expected entries of the arguments from position `i` on that are, or are not, indexed. */
  function Expectations(args: seq<Arg>, i: nat, indexed: bool): seq<Entry>
    requires ValidArgs(args) && i <= |args|
    decreases |args| - i
  {
    if i == |args| then []
    else
      (if args[i].indexed == indexed then [(ParamName(args[i].name, i), Expected(args[i]))] else [])
      + Expectations(args, i + 1, indexed)
  }

  // ---- Entries in a map ----

  predicate Named(es: seq<Entry>, name: string) {
    exists e :: e in es && e.0 == name
  }

  lemma {:induction false} PutKeys(m: map<string, string>, es: seq<Entry>, name: string)
    ensures name in Put(m, es) <==> name in m || Named(es, name)
    decreases es
  {
    if es != [] {
      PutKeys(m[es[0].0 := es[0].1], es[1..], name);
      assert Named(es, name) <==> es[0].0 == name || Named(es[1..], name) by {
        assert es == [es[0]] + es[1..];
      }
    }
  }

  /** An entry survives if every other entry of its name says the same. */
  lemma {:induction false} PutGet(m: map<string, string>, es: seq<Entry>, name: string, v: string)
    requires forall e :: e in es && e.0 == name ==> e.1 == v
    requires Named(es, name) || (name in m && m[name] == v)
    ensures name in Put(m, es) && Put(m, es)[name] == v
    decreases es
  {
    if es != [] {
      assert es == [es[0]] + es[1..];
      PutGet(m[es[0].0 := es[0].1], es[1..], name, v);
    }
  }

  // ---- The two stretches of entries ----

  lemma TopicRoundTrip(a: Arg)
    requires Supported(a.typ) && HasType(a.typ, a.value) && |a.hash| == 32 && a.indexed
    ensures DecodeTopic(TypeName(a.typ), Topic(a)) == Some(Expected(a))
  {
    if Static(a.typ) {
      StaticName(a.typ);
      WordRoundTrip(a.typ, a.value);
      HexRoundTrip(EncodeWord(a.typ, a.value));
    } else {
      DynamicName(a.typ);
      HexRoundTrip(a.hash);
    }
  }

  lemma ExpectationsStep(args: seq<Arg>, i: nat, indexed: bool)
    requires ValidArgs(args) && i < |args|
    ensures Expectations(args, i, indexed)
         == if args[i].indexed == indexed
            then [(ParamName(args[i].name, i), Expected(args[i]))] + Expectations(args, i + 1, indexed)
            else Expectations(args, i + 1, indexed)
  {
    assert [] + Expectations(args, i + 1, indexed) == Expectations(args, i + 1, indexed);
  }

  lemma {:induction false} IndexedRoundTrip(args: seq<Arg>, topics: seq<string>, i: nat, next: nat)
    requires ValidArgs(args) && i <= |args| && next <= |topics| && topics[next..] == Topics(args[i..])
    ensures IndexedEntries(Inputs(args), topics, i, next) == Some(Expectations(args, i, true))
    decreases |args| - i
  {
    if i < |args| {
      var a := args[i];
      assert a in args && args[i..][0] == a && args[i..][1..] == args[i + 1..];
      ExpectationsStep(args, i, true);
      if a.indexed {
        assert topics[next..][0] == Topic(a) && topics[next + 1..] == topics[next..][1..];
        TopicRoundTrip(a);
        IndexedRoundTrip(args, topics, i + 1, next + 1);
      } else {
        assert [] + Topics(args[i + 1..]) == Topics(args[i + 1..]);
        IndexedRoundTrip(args, topics, i + 1, next);
      }
    }
  }

  lemma {:induction false} ArgsTyped(args: seq<Arg>)
    requires ValidArgs(args)
    ensures Typed(Types(args), Values(args))
  {
    if args != [] {
      assert args[0] in args;
      ArgsTyped(args[1..]);
    }
  }

  lemma {:induction false} TypeNamesOf(args: seq<Arg>, i: nat)
    requires i <= |args|
    ensures DataTypes(Inputs(args), i) == TypeNames(Types(DataArgs(args[i..])))
    decreases |args| - i
  {
    if i < |args| {
      assert args[i..][0] == args[i] && args[i..][1..] == args[i + 1..];
      TypeNamesOf(args, i + 1);
      var rest := DataArgs(args[i + 1..]);
      if args[i].indexed {
        assert [] + rest == rest;
        assert [] + DataTypes(Inputs(args), i + 1) == DataTypes(Inputs(args), i + 1);
      } else {
        TypeNamesCons(args[i], rest);
      }
    }
  }

  lemma TypeNamesCons(a: Arg, rest: seq<Arg>)
    ensures TypeNames(Types([a] + rest)) == [TypeName(a.typ)] + TypeNames(Types(rest))
  {
    assert ([a] + rest)[1..] == rest;
  }

  lemma {:induction false} DataEntries(args: seq<Arg>, i: nat)
    requires ValidArgs(args) && i <= |args|
    ensures var d := DataArgs(args[i..]);
            && Typed(Types(d), Values(d)) && |DataNames(Inputs(args), i)| == |Types(d)|
            && Zip(DataNames(Inputs(args), i), RenderAll(Types(d), Values(d))) == Expectations(args, i, false)
    decreases |args| - i
  {
    ArgsTyped(DataArgs(args[i..]));
    TypeNamesOf(args, i);
    if i < |args| {
      assert args[i..][0] == args[i] && args[i..][1..] == args[i + 1..];
      DataEntries(args, i + 1);
      ExpectationsStep(args, i, false);
      var rest := DataArgs(args[i + 1..]);
      if args[i].indexed {
        assert [] + rest == rest;
        assert [] + DataNames(Inputs(args), i + 1) == DataNames(Inputs(args), i + 1);
      } else {
        assert ([args[i]] + rest)[1..] == rest;
        ZipCons(ParamName(args[i].name, i), DataNames(Inputs(args), i + 1),
                Render(args[i].typ, args[i].value), RenderAll(Types(rest), Values(rest)));
      }
    }
  }

  lemma ZipCons(name: string, names: seq<string>, v: string, vs: seq<string>)
    requires |names| == |vs|
    ensures Zip([name] + names, [v] + vs) == [(name, v)] + Zip(names, vs)
  {
  }

  // ---- The whole log ----

  /** The data of the log: the encoding of the arguments that are not indexed. */
  function Data(args: seq<Arg>): seq<Byte>
    requires ValidArgs(args)
  {
    ArgsTyped(DataArgs(args));
    Encode(Types(DataArgs(args)), Values(DataArgs(args)))
  }

  /** Decoding an emitted log yields exactly the expected entries. */
  lemma EntriesOfEmitted(room: nat, args: seq<Arg>, signature: string)
    requires ValidArgs(args) && Fits(room, Data(args))
    ensures Entries(room, Inputs(args), [signature] + Topics(args), "0x" + Hex(Data(args)))
         == Ok(Expectations(args, 0, true) + Expectations(args, 0, false))
  {
    var d, topics := DataArgs(args), [signature] + Topics(args);
    assert args[0..] == args && topics[1..] == Topics(args);
    ArgsTyped(d);
    HexRoundTrip(Data(args));
    IndexedRoundTrip(args, topics, 0, 1);
    TypeNamesOf(args, 0);
    DataEntries(args, 0);
    DecodeInvertsEncode(room, Types(d), Values(d));
    EntriesAre(room, Inputs(args), topics, "0x" + Hex(Data(args)), Data(args), Expectations(args, 0, true),
               RenderAll(Types(d), Values(d)));
  }

  lemma {:induction false} ExpectationOf(args: seq<Arg>, i: nat, indexed: bool, k: nat)
    requires ValidArgs(args) && i <= k < |args| && args[k].indexed == indexed
    ensures (ParamName(args[k].name, k), Expected(args[k])) in Expectations(args, i, indexed)
    decreases k - i
  {
    if i < k {
      ExpectationOf(args, i + 1, indexed, k);
    }
  }

  lemma {:induction false} ExpectationFrom(args: seq<Arg>, i: nat, indexed: bool, e: Entry) returns (k: nat)
    requires ValidArgs(args) && i <= |args| && e in Expectations(args, i, indexed)
    ensures i <= k < |args| && e == (ParamName(args[k].name, k), Expected(args[k]))
    decreases |args| - i
  {
    if args[i].indexed == indexed && e == (ParamName(args[i].name, i), Expected(args[i])) {
      k := i;
    } else {
      k := ExpectationFrom(args, i + 1, indexed, e);
    }
  }

  predicate DistinctNames(args: seq<Arg>) {
    forall i, j :: 0 <= i < j < |args| ==> ParamName(args[i].name, i) != ParamName(args[j].name, j)
  }

  /** Each argument of an emitted event is in the decoded map under its name, and nothing else is. */
  ghost predicate Describes(m: map<string, string>, args: seq<Arg>)
    requires ValidArgs(args)
  {
    && (forall name :: name in m <==> exists i :: 0 <= i < |args| && ParamName(args[i].name, i) == name)
    && (forall i :: 0 <= i < |args| ==>
          var name := ParamName(args[i].name, i); name in m && m[name] == Expected(args[i]))
  }

  lemma OwnValue(args: seq<Arg>, i: nat)
    requires ValidArgs(args) && DistinctNames(args) && i < |args|
    ensures var m := Put(map[], Expectations(args, 0, true) + Expectations(args, 0, false));
            var name := ParamName(args[i].name, i);
            name in m && m[name] == Expected(args[i])
  {
    var name := ParamName(args[i].name, i);
    var a, b := Expectations(args, 0, true), Expectations(args, 0, false);
    ExpectationOf(args, 0, args[i].indexed, i);
    assert (name, Expected(args[i])) in a + b;
    forall e: Entry | e in a + b && e.0 == name ensures e.1 == Expected(args[i]) {
      var k := ExpectationFrom(args, 0, e in a, e);
    }
    PutGet(map[], a + b, name, Expected(args[i]));
  }

  lemma NamedByArgs(args: seq<Arg>, name: string)
    requires ValidArgs(args) && name in Put(map[], Expectations(args, 0, true) + Expectations(args, 0, false))
    ensures exists i :: 0 <= i < |args| && ParamName(args[i].name, i) == name
  {
    var a, b := Expectations(args, 0, true), Expectations(args, 0, false);
    PutKeys(map[], a + b, name);
    var e: Entry :| e in a + b && e.0 == name;
    var k := ExpectationFrom(args, 0, e in a, e);
  }

  /** Decoding what an event emitted gives back its arguments, by name. */
  lemma DecodeEmitted(room: nat, args: seq<Arg>, signature: string)
    requires ValidArgs(args) && DistinctNames(args) && Fits(room, Data(args))
    ensures var entries := Entries(room, Inputs(args), [signature] + Topics(args), "0x" + Hex(Data(args)));
            entries.Ok? && Describes(Put(map[], entries.value), args)
  {
    EntriesOfEmitted(room, args, signature);
    var m := Put(map[], Expectations(args, 0, true) + Expectations(args, 0, false));
    forall i | 0 <= i < |args|
      ensures ParamName(args[i].name, i) in m && m[ParamName(args[i].name, i)] == Expected(args[i])
    {
      OwnValue(args, i);
    }
    forall name | name in m ensures exists i :: 0 <= i < |args| && ParamName(args[i].name, i) == name {
      NamedByArgs(args, name);
    }
  }

  lemma PositionalNames(i: nat, j: nat)
    ensures "arg" + Itoa(i) == "arg" + Itoa(j) ==> i == j
  {
    if "arg" + Itoa(i) == "arg" + Itoa(j) {
      assert ("arg" + Itoa(i))[3..] == Itoa(i) && ("arg" + Itoa(j))[3..] == Itoa(j);
      ItoaInjective(i, j);
    }
  }

  /** The arguments of an event whose parameters have no names are found as arg0, arg1 and so on. */
  lemma DecodeUnnamed(room: nat, args: seq<Arg>, signature: string)
    requires ValidArgs(args) && (forall a :: a in args ==> a.name == "") && Fits(room, Data(args))
    ensures var entries := Entries(room, Inputs(args), [signature] + Topics(args), "0x" + Hex(Data(args)));
            && entries.Ok?
            && var m := Put(map[], entries.value);
               forall i :: 0 <= i < |args| ==> "arg" + Itoa(i) in m && m["arg" + Itoa(i)] == Expected(args[i])
  {
    forall i, j | 0 <= i < j < |args| ensures ParamName(args[i].name, i) != ParamName(args[j].name, j) {
      assert args[i] in args && args[j] in args;
      PositionalNames(i, j);
    }
    DecodeEmitted(room, args, signature);
    var m := Put(map[], Entries(room, Inputs(args), [signature] + Topics(args), "0x" + Hex(Data(args))).value);
    forall i | 0 <= i < |args| ensures "arg" + Itoa(i) in m && m["arg" + Itoa(i)] == Expected(args[i]) {
      assert args[i] in args && ParamName(args[i].name, i) == "arg" + Itoa(i);
    }
  }

  // ---- Any log ----

  predicate HasName(inputs: seq<Input>, i: nat, indexed: bool, name: string) {
    exists k :: i <= k < |inputs| && inputs[k].indexed == indexed && Name(inputs, k) == name
  }

  lemma HasNameStep(inputs: seq<Input>, i: nat, indexed: bool, name: string)
    requires i < |inputs|
    ensures HasName(inputs, i, indexed, name)
       <==> (inputs[i].indexed == indexed && Name(inputs, i) == name) || HasName(inputs, i + 1, indexed, name)
  {
  }

  lemma {:induction false} IndexedNames(inputs: seq<Input>, topics: seq<string>, i: nat, next: nat, name: string)
    requires i <= |inputs| && IndexedEntries(inputs, topics, i, next).Some?
    ensures Named(IndexedEntries(inputs, topics, i, next).value, name) <==> HasName(inputs, i, true, name)
    decreases |inputs| - i
  {
    if i < |inputs| {
      HasNameStep(inputs, i, true, name);
      if inputs[i].indexed {
        IndexedNames(inputs, topics, i + 1, next + 1, name);
        var es, rest := IndexedEntries(inputs, topics, i, next).value,
            IndexedEntries(inputs, topics, i + 1, next + 1).value;
        assert es[0].0 == Name(inputs, i) && es[1..] == rest && es == [es[0]] + rest;
      } else {
        IndexedNames(inputs, topics, i + 1, next, name);
      }
    }
  }

  lemma {:induction false} DataNamesAre(inputs: seq<Input>, i: nat, name: string)
    requires i <= |inputs|
    ensures name in DataNames(inputs, i) <==> HasName(inputs, i, false, name)
    decreases |inputs| - i
  {
    if i < |inputs| {
      HasNameStep(inputs, i, false, name);
      DataNamesAre(inputs, i + 1, name);
      var first := if inputs[i].indexed then [] else [Name(inputs, i)];
      assert DataNames(inputs, i) == first + DataNames(inputs, i + 1);
      assert name in DataNames(inputs, i) <==> name in first || name in DataNames(inputs, i + 1);
    }
  }

  lemma NamedInZip(names: seq<string>, vs: seq<string>, name: string)
    requires |names| == |vs|
    ensures Named(Zip(names, vs), name) <==> name in names
  {
    if name in names {
      var k :| 0 <= k < |names| && names[k] == name;
      assert Zip(names, vs)[k] == (name, vs[k]);
    }
  }

  /** Whatever a log holds, if it decodes then every input has an entry and no entry is of anything else. */
  lemma EntriesNameInputs(room: nat, inputs: seq<Input>, topics: seq<string>, data: string, name: string)
    requires Entries(room, inputs, topics, data).Ok?
    ensures name in Put(map[], Entries(room, inputs, topics, data).value)
       <==> exists k :: 0 <= k < |inputs| && Name(inputs, k) == name
  {
    var names := DataNames(inputs, 0);
    var a := IndexedEntries(inputs, topics, 0, 1).value;
    var vs := DecodeFrom(room, DataTypes(inputs, 0), HexToBytes(data).value, 0).value;
    var b := Zip(names, vs);
    IndexedNames(inputs, topics, 0, 1, name);
    DataNamesAre(inputs, 0, name);
    NamedInZip(names, vs, name);
    PutKeys(map[], a + b, name);
    assert Named(a + b, name) <==> Named(a, name) || Named(b, name);
    assert HasName(inputs, 0, true, name) || HasName(inputs, 0, false, name)
       <==> exists k :: 0 <= k < |inputs| && Name(inputs, k) == name;
  }
}
