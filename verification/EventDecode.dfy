/** Decoding one event log into a map from parameter names to rendered values. */
module EventDecode {
  import opened Common
  import opened Words
  import opened Decimal
  import opened Joining
  import opened AbiDecode
  import opened Signature

  type Entry = (string, string)

  /** An unnamed parameter is called after its position. */
  function ParamName(name: string, i: nat): string {
    if name == "" then "arg" + Itoa(i) else name
  }

  function Name(inputs: seq<Input>, i: nat): string
    requires i < |inputs|
  {
    ParamName(inputs[i].name, i)
  }

  /** A static value is in its topic; of a dynamic one only the hash is. */
  function DecodeTopic(typ: string, topic: string): Option<string> {
    match HexToBytes(topic)
    case None => None
    case Some(word) =>
      if |word| != 32 then None
      else if IsDynamicType(typ) then Some("0x" + Hex(word))
      else DecodeWord(typ, word)
  }

  /** The entries of the indexed inputs from position `i` on, `next` being the topic the first of them is in. */
  function IndexedEntries(inputs: seq<Input>, topics: seq<string>, i: nat, next: nat): Option<seq<Entry>>
    requires i <= |inputs|
    decreases |inputs| - i
  {
    if i == |inputs| then Some([])
    else if !inputs[i].indexed then IndexedEntries(inputs, topics, i + 1, next)
    else if next >= |topics| then None
    else
      match DecodeTopic(inputs[i].typ, topics[next])
      case None => None
      case Some(v) => Prepend([(Name(inputs, i), v)], IndexedEntries(inputs, topics, i + 1, next + 1))
  }

  function DataTypes(inputs: seq<Input>, i: nat): seq<string>
    requires i <= |inputs|
    decreases |inputs| - i
  {
    if i == |inputs| then []
    else (if inputs[i].indexed then [] else [inputs[i].typ]) + DataTypes(inputs, i + 1)
  }

  function DataNames(inputs: seq<Input>, i: nat): (names: seq<string>)
    requires i <= |inputs|
    ensures |names| == |DataTypes(inputs, i)|
    decreases |inputs| - i
  {
    if i == |inputs| then []
    else (if inputs[i].indexed then [] else [Name(inputs, i)]) + DataNames(inputs, i + 1)
  }

  function Zip(names: seq<string>, values: seq<string>): seq<Entry>
    requires |names| == |values|
  {
    seq(|names|, i requires 0 <= i < |names| => (names[i], values[i]))
  }

  /** Entries written one after the other; a later one replaces an earlier one of the same name. */
  function Put(m: map<string, string>, entries: seq<Entry>): map<string, string>
    decreases entries
  {
    if entries == [] then m else Put(m[entries[0].0 := entries[0].1], entries[1..])
  }

  /** What a log decodes to: the indexed entries, then those of its data. */
  function Entries(room: nat, inputs: seq<Input>, topics: seq<string>, data: string): Decoded<seq<Entry>> {
    match HexToBytes(data)
    case None => Malformed
    case Some(bytes) =>
      match IndexedEntries(inputs, topics, 0, 1)
      case None => Malformed
      case Some(es) =>
        match DecodeFrom(room, DataTypes(inputs, 0), bytes, 0)
        case Ok(vs) => if |vs| == |DataNames(inputs, 0)| then Ok(es + Zip(DataNames(inputs, 0), vs)) else Malformed
        case Malformed => Malformed
        case Panics => Panics
  }

  lemma EntriesAre(room: nat, inputs: seq<Input>, topics: seq<string>, data: string, bytes: seq<Byte>, es: seq<Entry>,
                   vs: seq<string>)
    requires HexToBytes(data) == Some(bytes) && IndexedEntries(inputs, topics, 0, 1) == Some(es)
    requires DecodeFrom(room, DataTypes(inputs, 0), bytes, 0) == Ok(vs) && |vs| == |DataNames(inputs, 0)|
    ensures Entries(room, inputs, topics, data) == Ok(es + Zip(DataNames(inputs, 0), vs))
  {
  }

  // ---- When a log decodes ----

  /** A topic decodes exactly if it is 32 bytes of hexadecimal and its type is dynamic or one of a single word. */
  lemma TopicDecodesIff(typ: string, topic: string)
    ensures DecodeTopic(typ, topic).Some?
       <==> && HexToBytes(topic).Some? && |HexToBytes(topic).value| == 32
            && (IsDynamicType(typ) || DecodeWord(typ, HexToBytes(topic).value).Some?)
  {
  }

  /** The topic of the indexed input at position `k`: the first is the signature. */
  function TopicOf(inputs: seq<Input>, k: nat): nat
    requires k <= |inputs|
  {
    if k == 0 then 1 else TopicOf(inputs, k - 1) + (if inputs[k - 1].indexed then 1 else 0)
  }

  predicate TopicGood(inputs: seq<Input>, topics: seq<string>, k: nat)
    requires k < |inputs|
  {
    inputs[k].indexed ==>
      TopicOf(inputs, k) < |topics| && DecodeTopic(inputs[k].typ, topics[TopicOf(inputs, k)]).Some?
  }

  /** The indexed inputs decode exactly if each has a topic that does. */
  lemma {:induction false} IndexedDecodeIff(inputs: seq<Input>, topics: seq<string>, i: nat)
    requires i <= |inputs|
    ensures IndexedEntries(inputs, topics, i, TopicOf(inputs, i)).Some?
       <==> forall k :: i <= k < |inputs| ==> TopicGood(inputs, topics, k)
    decreases |inputs| - i
  {
    if i < |inputs| {
      IndexedDecodeIff(inputs, topics, i + 1);
      assert (forall k :: i <= k < |inputs| ==> TopicGood(inputs, topics, k))
        <==> TopicGood(inputs, topics, i) && forall k :: i + 1 <= k < |inputs| ==> TopicGood(inputs, topics, k);
    }
  }

  lemma EntriesOkIff(room: nat, inputs: seq<Input>, topics: seq<string>, data: string, bytes: seq<Byte>)
    requires HexToBytes(data) == Some(bytes)
    ensures Entries(room, inputs, topics, data).Ok?
       <==> IndexedEntries(inputs, topics, 0, 1).Some? && DecodeFrom(room, DataTypes(inputs, 0), bytes, 0).Ok?
  {
    DecodeFromLength(room, DataTypes(inputs, 0), bytes, 0);
  }

  /**
   * A log decodes exactly if its data is hexadecimal, each indexed input has a topic of 32 bytes that
   * decodes, and the others decode from the data.
   */
  lemma LogDecodesIff(room: nat, inputs: seq<Input>, topics: seq<string>, data: string)
    ensures Entries(room, inputs, topics, data).Ok?
       <==> && HexToBytes(data).Some?
            && (forall k :: 0 <= k < |inputs| ==> TopicGood(inputs, topics, k))
            && DecodeFrom(room, DataTypes(inputs, 0), HexToBytes(data).value, 0).Ok?
  {
    IndexedDecodeIff(inputs, topics, 0);
    if HexToBytes(data).Some? {
      EntriesOkIff(room, inputs, topics, data, HexToBytes(data).value);
    }
  }

  // ---- When decoding panics ----

  /** The number in the word at `offset`. */
  function Number(data: seq<Byte>, offset: nat): nat
    requires offset + 32 <= |data|
  {
    ToNat(data[offset..offset + 32])
  }

  /**
   * The length word at `offset` is in the data and fits 64 bits, and the end of the bytes it asks for
   * is past the largest integer, or there is no room for the elements it asks for.
   */
  predicate LengthPanics(room: nat, typ: string, data: seq<Byte>, offset: nat) {
    && offset + 32 <= |data| && Number(data, offset) < Pow256(8)
    && if typ == "bytes" || typ == "string" then offset + 32 + Number(data, offset) >= INT_LIMIT
       else HasSuffix(typ, "[]") && !IsDynamicType(typ[..|typ| - 2])
            && (Number(data, offset) >= INT_LIMIT || Number(data, offset) > room)
  }

  /** The head word at `head` is an offset that fits 64 bits but not an integer, or points to a length that panics. */
  predicate HeadPanics(room: nat, typ: string, data: seq<Byte>, head: nat) {
    && IsDynamicType(typ) && head + 32 <= |data| && Number(data, head) < Pow256(8)
    && (Number(data, head) + 32 >= INT_LIMIT || LengthPanics(room, typ, data, Number(data, head)))
  }

  lemma ParamPanicsIff(room: nat, typ: string, data: seq<Byte>, head: nat)
    ensures DecodeParam(room, typ, data, head).Panics? <==> HeadPanics(room, typ, data, head)
  {
    if head + 32 <= |data| && IsDynamicType(typ) && Number(data, head) < Pow256(8) {
      var offset := Number(data, head);
      assert DecodeParam(room, typ, data, head) == DecodeDynamic(room, typ, data, offset);
      if offset + 32 < INT_LIMIT && offset + 32 <= |data| && Number(data, offset) < Pow256(8) {
        assert WordAt(data, offset) == Some(Number(data, offset));
      }
    }
  }

  /** The first of the parameters that does not decode panics. */
  predicate FirstBadPanics(room: nat, types: seq<string>, data: seq<Byte>, head: nat)
    decreases types
  {
    types != []
    && (HeadPanics(room, types[0], data, head)
        || (DecodeParam(room, types[0], data, head).Ok? && FirstBadPanics(room, types[1..], data, head + 32)))
  }

  lemma {:induction false} DataPanicsIff(room: nat, types: seq<string>, data: seq<Byte>, head: nat)
    ensures DecodeFrom(room, types, data, head).Panics? <==> FirstBadPanics(room, types, data, head)
    decreases types
  {
    if types != [] {
      ParamPanicsIff(room, types[0], data, head);
      DataPanicsIff(room, types[1..], data, head + 32);
      DecodeFromCons(room, types, data, head, DecodeParam(room, types[0], data, head));
    }
  }

  lemma EntriesPanicIff(room: nat, inputs: seq<Input>, topics: seq<string>, data: string, bytes: seq<Byte>)
    requires HexToBytes(data) == Some(bytes)
    ensures Entries(room, inputs, topics, data).Panics?
       <==> IndexedEntries(inputs, topics, 0, 1).Some? && DecodeFrom(room, DataTypes(inputs, 0), bytes, 0).Panics?
  {
  }

  /**
   * Exactly which logs end the program instead of being skipped: the data is hexadecimal, every
   * indexed input decodes, and the first input in the data that does not decode has an offset or a
   * length past the largest integer, or asks for more elements than there is room for.
   */
  lemma LogPanicsIff(room: nat, inputs: seq<Input>, topics: seq<string>, data: string)
    ensures Entries(room, inputs, topics, data).Panics?
       <==> HexToBytes(data).Some? && IndexedEntries(inputs, topics, 0, 1).Some?
            && FirstBadPanics(room, DataTypes(inputs, 0), HexToBytes(data).value, 0)
  {
    if HexToBytes(data).Some? {
      var bytes := HexToBytes(data).value;
      EntriesPanicIff(room, inputs, topics, data, bytes);
      DataPanicsIff(room, DataTypes(inputs, 0), bytes, 0);
    }
  }

  lemma LimitFits()
    ensures INT_LIMIT < Pow256(8) <= Pow256(32)
  {
    Pow256Monotone(8, 32);
  }

  lemma LimitWord(room: nat)
    ensures HeadPanics(room, "bytes", ToBytes(INT_LIMIT, 32), 0)
  {
    var data := ToBytes(INT_LIMIT, 32);
    LimitFits();
    ToBytesToNat(INT_LIMIT, 32);
    assert data[0..32] == data;
  }

  /** One word is enough: an event with one `bytes` parameter whose offset is the first that is no integer. */
  lemma PanicExample(room: nat, signature: string)
    ensures Entries(room, [Input("memo", "bytes", false, [])], [signature], "0x" + Hex(ToBytes(INT_LIMIT, 32))).Panics?
  {
    var inputs, data := [Input("memo", "bytes", false, [])], ToBytes(INT_LIMIT, 32);
    HexRoundTrip(data);
    LimitWord(room);
    assert DataTypes(inputs, 0) == ["bytes"] + DataTypes(inputs, 1) == ["bytes"];
    assert FirstBadPanics(room, ["bytes"], data, 0);
    assert IndexedEntries(inputs, [signature], 0, 1) == IndexedEntries(inputs, [signature], 1, 1) == Some([]);
    LogPanicsIff(room, inputs, [signature], "0x" + Hex(data));
  }

  // ---- The program's loops ----

  lemma {:induction false} DecodeFromLength(room: nat, types: seq<string>, data: seq<Byte>, head: nat)
    ensures DecodeFrom(room, types, data, head).Ok? ==> |DecodeFrom(room, types, data, head).value| == |types|
    decreases types
  {
    if types != [] {
      DecodeFromLength(room, types[1..], data, head + 32);
    }
  }

  lemma {:induction false} PutConcat(m: map<string, string>, a: seq<Entry>, b: seq<Entry>)
    ensures Put(m, a + b) == Put(Put(m, a), b)
    decreases |a|
  {
    if a == [] {
      assert a + b == b;
    } else {
      assert (a + b)[1..] == a[1..] + b;
      PutConcat(m[a[0].0 := a[0].1], a[1..], b);
    }
  }

  lemma PutOne(m: map<string, string>, a: seq<Entry>, name: string, v: string)
    ensures Put(m, a + [(name, v)]) == Put(m, a)[name := v]
  {
    PutConcat(m, a, [(name, v)]);
    assert [(name, v)][1..] == [];
  }

  /** The loop over the elements has read `done` when it is at element `i`. */
  predicate ElementsRead(elem: string, data: seq<Byte>, base: nat, count: nat, i: nat, done: seq<string>)
    requires i <= count
  {
    DecodeElements(elem, data, base, count) == Prepend(done, DecodeElements(elem, data, base + 32 * i, count - i))
  }

  lemma ElementRead(elem: string, data: seq<Byte>, base: nat, count: nat, i: nat, done: seq<string>, v: string)
    requires i < count && ElementsRead(elem, data, base, count, i, done)
    requires base + 32 * i + 32 <= |data| && DecodeWord(elem, data[base + 32 * i..base + 32 * i + 32]) == Some(v)
    ensures ElementsRead(elem, data, base, count, i + 1, done + [v])
  {
    DecodeElementsStep(elem, data, base + 32 * i, count - i, v);
    PrependOne(done, v, DecodeElements(elem, data, base + 32 * (i + 1), count - i - 1));
  }

  lemma ElementRefused(elem: string, data: seq<Byte>, base: nat, count: nat, i: nat, done: seq<string>)
    requires i < count && ElementsRead(elem, data, base, count, i, done)
    requires base + 32 * i + 32 > |data| || DecodeWord(elem, data[base + 32 * i..base + 32 * i + 32]) == None
    ensures DecodeElements(elem, data, base, count) == None
  {
  }

  /** The elements of an array, one word each; room for all of them is made first. */
  method DecodeArrayElements(room: nat, elem: string, data: seq<Byte>, base: nat, count: nat)
    returns (r: Decoded<seq<string>>)
    ensures r == DecodeArray(room, elem, data, base, count)
  {
    if count >= INT_LIMIT || count > room {
      return Panics;
    }
    var elems: seq<string> := [];
    PrependNothing([], DecodeElements(elem, data, base, count));
    for i := 0 to count
      invariant |elems| == i && ElementsRead(elem, data, base, count, i, elems)
    {
      var ws := base + 32 * i;
      var v := if ws + 32 > |data| then None else DecodeWord(elem, data[ws..ws + 32]);
      if v == None {
        ElementRefused(elem, data, base, count, i, elems);
        return Malformed;
      }
      ElementRead(elem, data, base, count, i, elems, v.value);
      elems := elems + [v.value];
    }
    PrependNothing(elems, None);
    return Ok(elems);
  }

  /** A dynamic value; the elements of an array are decoded in a loop. */
  method DecodeDynamicValue(room: nat, typ: string, data: seq<Byte>, offset: nat) returns (r: Decoded<string>)
    ensures r == DecodeDynamic(room, typ, data, offset)
  {
    if offset + 32 >= INT_LIMIT {
      return Panics;
    }
    var count := WordAt(data, offset);
    if count == None {
      return Malformed;
    }
    var base := offset + 32;
    if typ == "bytes" || typ == "string" || !HasSuffix(typ, "[]") {
      return DecodePayload(room, typ, data, base, count.value);
    }
    var elem := typ[..|typ| - 2];
    if IsDynamicType(elem) {
      return Malformed;
    }
    var elems := DecodeArrayElements(room, elem, data, base, count.value);
    match elems {
      case Ok(vs) =>
        return Ok("[" + Join(vs, ',') + "]");
      case Malformed =>
        return Malformed;
      case Panics =>
        return Panics;
    }
  }

  /** The parameter whose head word is at `head`. */
  method DecodeDataParam(room: nat, typ: string, data: seq<Byte>, head: nat) returns (r: Decoded<string>)
    ensures r == DecodeParam(room, typ, data, head)
  {
    if head + 32 > |data| {
      return Malformed;
    }
    if !IsDynamicType(typ) {
      return OrMalformed(DecodeWord(typ, data[head..head + 32]));
    }
    var offset := WordAt(data, head);
    if offset == None {
      return Malformed;
    }
    r := DecodeDynamicValue(room, typ, data, offset.value);
  }

  /** The loop over the data's parameters has read `done` when it is at parameter `i`, whose head is at `head`. */
  predicate ParamsRead(room: nat, types: seq<string>, data: seq<Byte>, i: nat, head: nat, done: seq<string>)
    requires i <= |types|
  {
    DecodeFrom(room, types, data, 0) == Attach(done, DecodeFrom(room, types[i..], data, head))
  }

  lemma NothingRead(room: nat, types: seq<string>, data: seq<Byte>)
    ensures ParamsRead(room, types, data, 0, 0, [])
  {
    assert types[0..] == types;
    AttachNothing([], DecodeFrom(room, types, data, 0));
  }

  lemma ParamRead(room: nat, types: seq<string>, data: seq<Byte>, i: nat, head: nat, done: seq<string>,
                  v: Decoded<string>)
    requires i < |types| && ParamsRead(room, types, data, i, head, done)
    requires DecodeParam(room, types[i], data, head) == v
    ensures match v
            case Ok(x) => ParamsRead(room, types, data, i + 1, head + 32, done + [x])
            case Malformed => DecodeFrom(room, types, data, 0) == Malformed
            case Panics => DecodeFrom(room, types, data, 0) == Panics
  {
    DecodeFromCons(room, types[i..], data, head, v);
    assert types[i..][1..] == types[i + 1..];
    if v.Ok? {
      AttachOne(done, v.value, DecodeFrom(room, types[i + 1..], data, head + 32));
    }
  }

  /** The values of the data, one head word each. */
  method DecodeData(room: nat, types: seq<string>, data: seq<Byte>) returns (r: Decoded<seq<string>>)
    ensures r == DecodeFrom(room, types, data, 0)
  {
    var out: seq<string> := [];
    var head := 0;
    NothingRead(room, types, data);
    for i := 0 to |types|
      invariant ParamsRead(room, types, data, i, head, out)
    {
      var v := DecodeDataParam(room, types[i], data, head);
      ParamRead(room, types, data, i, head, out, v);
      match v {
        case Ok(x) =>
          out, head := out + [x], head + 32;
        case Malformed =>
          return Malformed;
        case Panics =>
          return Panics;
      }
    }
    AttachNothing(out, Malformed);
    return Ok(out);
  }

  lemma IndexedStep(inputs: seq<Input>, topics: seq<string>, i: nat, next: nat, es: seq<Entry>, v: string)
    requires i < |inputs| && inputs[i].indexed && next < |topics|
    requires DecodeTopic(inputs[i].typ, topics[next]) == Some(v)
    ensures Prepend(es, IndexedEntries(inputs, topics, i, next))
         == Prepend(es + [(Name(inputs, i), v)], IndexedEntries(inputs, topics, i + 1, next + 1))
  {
    PrependOne(es, (Name(inputs, i), v), IndexedEntries(inputs, topics, i + 1, next + 1));
  }

  /** The inputs `types` and `names` were collected from, as far as position `i`. */
  predicate SetAside(inputs: seq<Input>, i: nat, types: seq<string>, names: seq<string>)
    requires i <= |inputs|
  {
    DataTypes(inputs, 0) == types + DataTypes(inputs, i) && DataNames(inputs, 0) == names + DataNames(inputs, i)
  }

  lemma SetAsideStep(inputs: seq<Input>, i: nat, types: seq<string>, names: seq<string>)
    requires i < |inputs| && SetAside(inputs, i, types, names)
    ensures if inputs[i].indexed then SetAside(inputs, i + 1, types, names)
            else SetAside(inputs, i + 1, types + [inputs[i].typ], names + [Name(inputs, i)])
  {
    if inputs[i].indexed {
      assert [] + DataTypes(inputs, i + 1) == DataTypes(inputs, i + 1);
      assert [] + DataNames(inputs, i + 1) == DataNames(inputs, i + 1);
    } else {
      var typ, name := inputs[i].typ, Name(inputs, i);
      assert types + ([typ] + DataTypes(inputs, i + 1)) == types + [typ] + DataTypes(inputs, i + 1);
      assert names + ([name] + DataNames(inputs, i + 1)) == names + [name] + DataNames(inputs, i + 1);
    }
  }

  /** The first loop: topics are decoded on the way, inputs that are in the data are set aside. */
  method SortInputs(inputs: seq<Input>, topics: seq<string>)
    returns (r: Option<map<string, string>>, types: seq<string>, names: seq<string>)
    ensures r == match IndexedEntries(inputs, topics, 0, 1) case None => None case Some(es) => Some(Put(map[], es))
    ensures r.Some? ==> types == DataTypes(inputs, 0) && names == DataNames(inputs, 0)
  {
    var params: map<string, string> := map[];
    types, names := [], [];
    ghost var es: seq<Entry> := [];
    var next, i := 1, 0;
    PrependNothing(es, IndexedEntries(inputs, topics, 0, 1));
    while i < |inputs|
      invariant i <= |inputs|
      invariant params == Put(map[], es)
      invariant IndexedEntries(inputs, topics, 0, 1) == Prepend(es, IndexedEntries(inputs, topics, i, next))
      invariant SetAside(inputs, i, types, names)
    {
      var name := Name(inputs, i);
      SetAsideStep(inputs, i, types, names);
      if inputs[i].indexed {
        if next >= |topics| {
          return None, [], [];
        }
        var v := DecodeTopic(inputs[i].typ, topics[next]);
        if v == None {
          return None, [], [];
        }
        IndexedStep(inputs, topics, i, next, es, v.value);
        PutOne(map[], es, name, v.value);
        es := es + [(name, v.value)];
        params := params[name := v.value];
        next := next + 1;
      } else {
        types, names := types + [inputs[i].typ], names + [name];
      }
      i := i + 1;
    }
    PrependNothing(es, None);
    assert types + [] == types && names + [] == names;
    return Some(params), types, names;
  }

  /** The last loop: the values of the data go under their names. */
  method PutAll(m: map<string, string>, names: seq<string>, values: seq<string>) returns (params: map<string, string>)
    requires |names| == |values|
    ensures params == Put(m, Zip(names, values))
  {
    params := m;
    ghost var z := Zip(names, values);
    for i := 0 to |values|
      invariant params == Put(m, z[..i])
    {
      assert z[..i + 1] == z[..i] + [(names[i], values[i])];
      PutOne(m, z[..i], names[i], values[i]);
      params := params[names[i] := values[i]];
    }
    assert z[..|values|] == z;
  }

  /** Decodes a log; entries of the data replace indexed entries of the same name. */
  method DecodeLog(room: nat, inputs: seq<Input>, topics: seq<string>, data: string)
    returns (r: Decoded<map<string, string>>)
    ensures match Entries(room, inputs, topics, data)
            case Ok(es) => r == Ok(Put(map[], es))
            case Malformed => r == Malformed
            case Panics => r == Panics
  {
    var bytes := HexToBytes(data);
    if bytes == None {
      return Malformed;
    }
    var indexed, types, names := SortInputs(inputs, topics);
    if indexed == None {
      return Malformed;
    }
    ghost var es := IndexedEntries(inputs, topics, 0, 1).value;
    if |types| == 0 {
      assert es + Zip(names, []) == es;
      return Ok(indexed.value);
    }
    var vals := DecodeData(room, types, bytes.value);
    DecodeFromLength(room, types, bytes.value, 0);
    match vals {
      case Ok(vs) =>
        PutConcat(map[], es, Zip(names, vs));
        var params := PutAll(indexed.value, names, vs);
        return Ok(params);
      case Malformed =>
        return Malformed;
      case Panics =>
        return Panics;
    }
  }
}
