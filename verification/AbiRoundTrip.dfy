/** Decoding undoes the encoding of the Solidity ABI specification, for every supported type. */
module AbiRoundTrip {
  import opened Common
  import opened Words
  import opened Decimal
  import opened Joining
  import opened AbiDecode

  // ---- Type names ----

  lemma NumberedName(prefix: string, n: nat)
    requires prefix != ""
    ensures var name := prefix + Itoa(n);
            name[0] == prefix[0] && name[|name| - 1] != ']' && prefix <= name && name[|prefix|..] == Itoa(n)
  {
    ItoaValue(n);
  }

  lemma PlainName(name: string)
    requires name != "" && (name[0] !in {'b', 's', 't'} || name == "bool")
    requires name[|name| - 1] != ']'
    ensures !IsDynamicType(name)
  {
  }

  /** Bytes, strings, arrays of unknown length and tuples are laid out outside the head, nothing else. */
  lemma DynamicTypeIff(typ: string)
    ensures IsDynamicType(typ)
       <==> || typ in {"bytes", "string"} || (|typ| >= 2 && typ[|typ| - 2] == '[' && typ[|typ| - 1] == ']')
            || (|typ| >= 5 && typ[..5] == "tuple")
  {
    if |typ| >= 2 {
      assert typ[|typ| - 2..] == [typ[|typ| - 2], typ[|typ| - 1]];
    }
  }

  lemma StaticName(t: AbiType)
    requires Static(t)
    ensures !IsDynamicType(TypeName(t))
  {
    match t
    case UInt(size) => NumberedName("uint", 8 * size);
    case SInt(size) => NumberedName("int", 8 * size);
    case FixedBytes(size) =>
      NumberedName("bytes", size);
      assert TypeName(t) != "bytes" by { ItoaValue(size); }
    case Address => PlainName("address");
    case Bool => PlainName("bool");
  }

  lemma AtoiItoa(n: nat)
    ensures Atoi(Itoa(n)) == Some(n)
  {
    ItoaValue(n);
    var s := Itoa(n);
    assert IsDigit(s[0]) && s[0] != '-' && s[0] != '+';
    assert Atoi(s) == Some(Value(s));
  }

  lemma FixedSize(size: nat)
    requires 1 <= size <= 32
    ensures FixedBytesSize("bytes" + Itoa(size)) == Some(size)
  {
    NumberedName("bytes", size);
    ItoaValue(size);
    assert "bytes" + Itoa(size) != "bytes";
    AtoiItoa(size);
  }

  /** A printed integer reads back as the integer. */
  lemma AtoiIntStr(n: int)
    ensures Atoi(IntStr(n)) == Some(n)
  {
    if n < 0 {
      ItoaValue(Abs(n));
      assert IntStr(n)[1..] == Itoa(Abs(n));
    } else {
      AtoiItoa(n);
    }
  }

  // ---- Words ----

  lemma UIntWord(size: nat, n: nat)
    requires 1 <= size <= 32 && n < Pow256(size)
    ensures DecodeWord("uint" + Itoa(8 * size), ToBytes(n, 32)) == Some(IntStr(n))
  {
    NumberedName("uint", 8 * size);
    Pow256Monotone(size, 32);
    ToBytesToNat(n, 32);
  }

  lemma TwosComplementRange(n: int, size: nat)
    requires 1 <= size <= 32 && -128 * Pow256(size - 1) <= n < 128 * Pow256(size - 1)
    ensures TwosComplement(n, size) < Pow256(32)
    ensures TwosComplement(n, size) >= 128 * Pow256(31) <==> n < 0
  {
    Pow256Monotone(size - 1, 31);
    assert Pow256(32) == 256 * Pow256(31);
  }

  lemma SignedValue(size: nat, n: int)
    requires 1 <= size <= 32 && -128 * Pow256(size - 1) <= n < 128 * Pow256(size - 1)
    ensures DecodeSignedInt(ToBytes(TwosComplement(n, size), 32)) == IntStr(n)
  {
    var m := TwosComplement(n, size);
    TwosComplementRange(n, size);
    ToBytesToNat(m, 32);
    HighBit(m, 32);
  }

  lemma IntWord(typ: string, word: seq<Byte>)
    requires "int" <= typ && |word| == 32
    ensures DecodeWord(typ, word) == Some(DecodeSignedInt(word))
  {
    assert typ[0] == 'i';
  }

  lemma SIntWord(size: nat, n: int)
    requires 1 <= size <= 32 && -128 * Pow256(size - 1) <= n < 128 * Pow256(size - 1)
    ensures DecodeWord("int" + Itoa(8 * size), ToBytes(TwosComplement(n, size), 32)) == Some(IntStr(n))
  {
    NumberedName("int", 8 * size);
    SignedValue(size, n);
    IntWord("int" + Itoa(8 * size), ToBytes(TwosComplement(n, size), 32));
  }

  lemma BoolWord(b: bool)
    ensures DecodeWord("bool", ToBytes(if b then 1 else 0, 32)) == Some(if b then "true" else "false")
  {
  }

  lemma FixedBytesWord(size: nat, bytes: seq<Byte>)
    requires 1 <= size <= 32 && |bytes| == size
    ensures DecodeWord("bytes" + Itoa(size), bytes + ZeroBytes(32 - size)) == Some("0x" + Hex(bytes))
  {
    NumberedName("bytes", size);
    FixedSize(size);
    assert (bytes + ZeroBytes(32 - size))[..size] == bytes;
    assert !("uint" <= "bytes" + Itoa(size)) && !("int" <= "bytes" + Itoa(size));
  }

  /** A static value's word decodes to its rendering. */
  lemma WordRoundTrip(t: AbiType, v: AbiValue)
    requires Static(t) && HasType(t, v)
    ensures DecodeWord(TypeName(t), EncodeWord(t, v)) == Some(Render(t, v))
  {
    match t
    case Address => assert (ZeroBytes(12) + v.bytes)[12..] == v.bytes;
    case Bool => BoolWord(v.b);
    case UInt(size) => UIntWord(size, v.n);
    case SInt(size) => SIntWord(size, v.n);
    case FixedBytes(size) => FixedBytesWord(size, v.bytes);
  }

  /** Which types have a rendering in one word, whatever the word holds. */
  lemma WordDecodesIff(typ: string, word: seq<Byte>)
    requires |word| == 32
    ensures DecodeWord(typ, word).Some?
       <==> || typ in {"address", "bool"} || "uint" <= typ || "int" <= typ
            || ("bytes" <= typ && Atoi(typ[5..]).Some? && 1 <= Atoi(typ[5..]).value <= 32)
  {
    if "bytes" <= typ {
      assert typ[0] == 'b';
      assert Atoi("") == None;
    }
  }

  /** Any word is a bool: false exactly if its last byte is zero. */
  lemma AnyBool(word: seq<Byte>)
    requires |word| == 32
    ensures DecodeWord("bool", word) == Some("false") <==> word[31] == 0
    ensures DecodeWord("bool", word) == Some("true") <==> word[31] != 0
  {
    assert "false" != "true" by {
      assert "false"[0] != "true"[0];
    }
  }

  // ---- Dynamic values ----

  /** The stretch of `data` at `off` is `part`. */
  predicate At(data: seq<Byte>, off: nat, part: seq<Byte>) {
    off + |part| <= |data| && data[off..off + |part|] == part
  }

  lemma AtSplit(data: seq<Byte>, off: nat, a: seq<Byte>, b: seq<Byte>)
    requires At(data, off, a + b)
    ensures At(data, off, a) && At(data, off + |a|, b)
  {
    assert data[off..off + |a + b|][..|a|] == data[off..off + |a|];
    assert data[off..off + |a + b|][|a|..] == data[off + |a|..off + |a| + |b|];
  }

  lemma WordDecodes(t: AbiType, v: AbiValue, data: seq<Byte>, off: nat)
    requires Static(t) && HasType(t, v) && At(data, off, EncodeWord(t, v))
    ensures off + 32 <= |data| && DecodeWord(TypeName(t), data[off..off + 32]) == Some(Render(t, v))
  {
    WordRoundTrip(t, v);
  }

  lemma {:induction false} ElementsRoundTrip(e: AbiType, vs: seq<AbiValue>, data: seq<Byte>, base: nat)
    requires Static(e) && AllHaveType(e, vs) && At(data, base, EncodeWords(e, vs))
    ensures DecodeElements(TypeName(e), data, base, |vs|) == Some(RenderElements(e, vs))
    decreases |vs|
  {
    if vs != [] {
      AtSplit(data, base, EncodeWord(e, vs[0]), EncodeWords(e, vs[1..]));
      WordDecodes(e, vs[0], data, base);
      ElementsRoundTrip(e, vs[1..], data, base + 32);
      DecodeElementsStep(TypeName(e), data, base, |vs|, Render(e, vs[0]));
    }
  }

  /** A number that fits 64 bits is read back from its word. */
  lemma NumberWord(n: nat, data: seq<Byte>, off: nat)
    requires n < Pow256(8) && At(data, off, ToBytes(n, 32))
    ensures WordAt(data, off) == Some(n)
  {
    Pow256Monotone(8, 32);
    ToBytesToNat(n, 32);
  }

  /** The program can index the data and has room for one string for each word of it. */
  predicate Fits(room: nat, data: seq<Byte>) {
    |data| < INT_LIMIT && |data| <= 32 * room
  }

  lemma BytesAt(bytes: seq<Byte>, data: seq<Byte>, off: nat)
    requires |bytes| < INT_LIMIT
    requires At(data, off, ToBytes(|bytes|, 32) + bytes + ZeroBytes(Padding(|bytes|)))
    ensures WordAt(data, off) == Some(|bytes|) && At(data, off + 32, bytes)
  {
    var len := ToBytes(|bytes|, 32);
    AtSplit(data, off, len + bytes, ZeroBytes(Padding(|bytes|)));
    AtSplit(data, off, len, bytes);
    NumberWord(|bytes|, data, off);
  }

  lemma BytesPayload(room: nat, t: AbiType, bytes: seq<Byte>, data: seq<Byte>, base: nat)
    requires (t.DynBytes? || t.Str?) && At(data, base, bytes) && Fits(room, data)
    ensures DecodePayload(room, TypeName(t), data, base, |bytes|) == Ok(Render(t, BytesV(bytes)))
  {
  }

  lemma ArrayName(e: AbiType)
    requires Static(e)
    ensures var name := TypeName(e) + "[]";
            && name != "bytes" && name != "string" && HasSuffix(name, "[]")
            && name[..|name| - 2] == TypeName(e) && !IsDynamicType(name[..|name| - 2])
  {
    var name := TypeName(e) + "[]";
    StaticName(e);
    assert name[|name| - 1] == ']' && name[|name| - 2..] == "[]" && name[..|name| - 2] == TypeName(e);
  }

  lemma ArrayPayload(room: nat, e: AbiType, vs: seq<AbiValue>, data: seq<Byte>, base: nat)
    requires Static(e) && AllHaveType(e, vs) && At(data, base, EncodeWords(e, vs)) && Fits(room, data)
    ensures DecodePayload(room, TypeName(e) + "[]", data, base, |vs|)
         == Ok("[" + Join(RenderElements(e, vs), ',') + "]")
  {
    ArrayName(e);
    ElementsRoundTrip(e, vs, data, base);
  }

  lemma DynamicName(t: AbiType)
    requires Supported(t) && !Static(t)
    ensures IsDynamicType(TypeName(t))
  {
    if t.Array? {
      var name := TypeName(t);
      assert name[|name| - 2..] == "[]";
    }
  }

  /** A dynamic value decodes to its rendering wherever its encoding lies. */
  lemma DynamicRoundTrip(room: nat, t: AbiType, v: AbiValue, data: seq<Byte>, off: nat)
    requires Supported(t) && !Static(t) && HasType(t, v) && At(data, off, EncodeDynamic(t, v))
    ensures Fits(room, data) ==> DecodeDynamic(room, TypeName(t), data, off) == Ok(Render(t, v))
  {
    if !Fits(room, data) {
      return;
    }
    if t.Array? {
      AtSplit(data, off, ToBytes(|v.vs|, 32), EncodeWords(t.elem, v.vs));
      NumberWord(|v.vs|, data, off);
      ArrayPayload(room, t.elem, v.vs, data, off + 32);
    } else {
      BytesAt(v.bytes, data, off);
      BytesPayload(room, t, v.bytes, data, off + 32);
    }
  }

  // ---- Tuples ----

  lemma ParamAt(room: nat, typ: string, data: seq<Byte>, head: nat, s: string)
    requires head + 32 <= |data|
    requires if IsDynamicType(typ)
             then WordAt(data, head).Some? && DecodeDynamic(room, typ, data, WordAt(data, head).value) == Ok(s)
             else DecodeWord(typ, data[head..head + 32]) == Some(s)
    ensures DecodeParam(room, typ, data, head) == Ok(s)
  {
  }

  lemma StaticParam(room: nat, t: AbiType, data: seq<Byte>, head: nat, s: string)
    requires Static(t) && head + 32 <= |data| && DecodeWord(TypeName(t), data[head..head + 32]) == Some(s)
    ensures DecodeParam(room, TypeName(t), data, head) == Ok(s)
  {
    StaticName(t);
    ParamAt(room, TypeName(t), data, head, s);
  }

  lemma DynamicParam(room: nat, t: AbiType, data: seq<Byte>, head: nat, off: nat, s: string)
    requires Supported(t) && !Static(t) && head + 32 <= |data|
    requires WordAt(data, head) == Some(off) && DecodeDynamic(room, TypeName(t), data, off) == Ok(s)
    ensures DecodeParam(room, TypeName(t), data, head) == Ok(s)
  {
    DynamicName(t);
    ParamAt(room, TypeName(t), data, head, s);
  }

  /** One parameter, given its head and, if it is dynamic, its tail. */
  lemma ParamRoundTrip(room: nat, t: AbiType, v: AbiValue, data: seq<Byte>, head: nat, off: nat)
    requires Supported(t) && HasType(t, v)
    requires At(data, head, PartOf(t, v).Head(off)) && At(data, off, PartOf(t, v).Tail())
    ensures Fits(room, data) ==> DecodeParam(room, TypeName(t), data, head) == Ok(Render(t, v))
  {
    if !Fits(room, data) {
      return;
    }
    if Static(t) {
      WordDecodes(t, v, data, head);
      StaticParam(room, t, data, head, Render(t, v));
    } else {
      NumberWord(off, data, head);
      DynamicRoundTrip(room, t, v, data, off);
      DynamicParam(room, t, data, head, off, Render(t, v));
    }
  }

  /** Where the remaining heads and tails lie. */
  predicate LaidOut(ps: seq<Part>, data: seq<Byte>, head: nat, off: nat) {
    At(data, head, Heads(ps, off)) && At(data, off, Tails(ps))
  }

  lemma HeadsCons(p: Part, rest: seq<Part>, off: nat)
    ensures Heads([p] + rest, off) == p.Head(off) + Heads(rest, off + |p.Tail()|)
  {
    assert ([p] + rest)[1..] == rest;
  }

  lemma TailsCons(p: Part, rest: seq<Part>)
    ensures Tails([p] + rest) == p.Tail() + Tails(rest)
  {
    assert ([p] + rest)[1..] == rest;
  }

  lemma LaidOutStep(p: Part, rest: seq<Part>, data: seq<Byte>, head: nat, off: nat)
    requires LaidOut([p] + rest, data, head, off)
    ensures At(data, head, p.Head(off)) && At(data, off, p.Tail())
    ensures LaidOut(rest, data, head + 32, off + |p.Tail()|)
  {
    HeadsCons(p, rest, off);
    TailsCons(p, rest);
    AtSplit(data, head, p.Head(off), Heads(rest, off + |p.Tail()|));
    AtSplit(data, off, p.Tail(), Tails(rest));
  }

  /** The first parameter, and where it leaves the rest. */
  lemma FirstRoundTrip(room: nat, ts: seq<AbiType>, vs: seq<AbiValue>, data: seq<Byte>, head: nat, off: nat)
    returns (next: nat)
    requires Typed(ts, vs) && ts != [] && Fits(room, data) && LaidOut(Parts(ts, vs), data, head, off)
    ensures DecodeParam(room, TypeName(ts[0]), data, head) == Ok(Render(ts[0], vs[0]))
    ensures LaidOut(Parts(ts[1..], vs[1..]), data, head + 32, next)
  {
    var p := PartOf(ts[0], vs[0]);
    LaidOutStep(p, Parts(ts[1..], vs[1..]), data, head, off);
    ParamRoundTrip(room, ts[0], vs[0], data, head, off);
    next := off + |p.Tail()|;
  }

  lemma OneMore(room: nat, ts: seq<AbiType>, vs: seq<AbiValue>, data: seq<Byte>, head: nat)
    requires Typed(ts, vs) && ts != []
    requires DecodeParam(room, TypeName(ts[0]), data, head) == Ok(Render(ts[0], vs[0]))
    requires DecodeFrom(room, TypeNames(ts[1..]), data, head + 32) == Ok(RenderAll(ts[1..], vs[1..]))
    ensures DecodeFrom(room, TypeNames(ts), data, head) == Ok(RenderAll(ts, vs))
  {
    assert TypeNames(ts)[0] == TypeName(ts[0]) && TypeNames(ts)[1..] == TypeNames(ts[1..]);
    DecodeFromCons(room, TypeNames(ts), data, head, Ok(Render(ts[0], vs[0])));
  }

  lemma {:induction false} FromRoundTrip(room: nat, ts: seq<AbiType>, vs: seq<AbiValue>, data: seq<Byte>, head: nat,
      off: nat)
    requires Typed(ts, vs) && Fits(room, data) && LaidOut(Parts(ts, vs), data, head, off)
    ensures DecodeFrom(room, TypeNames(ts), data, head) == Ok(RenderAll(ts, vs))
    decreases |ts|
  {
    if ts != [] {
      var next := FirstRoundTrip(room, ts, vs, data, head, off);
      FromRoundTrip(room, ts[1..], vs[1..], data, head + 32, next);
      OneMore(room, ts, vs, data, head);
    }
  }

  /** Decoding the encoding of any list of supported values gives their renderings, in order. */
  lemma DecodeInvertsEncode(room: nat, ts: seq<AbiType>, vs: seq<AbiValue>)
    requires Typed(ts, vs) && Fits(room, Encode(ts, vs))
    ensures DecodeFrom(room, TypeNames(ts), Encode(ts, vs), 0) == Ok(RenderAll(ts, vs))
  {
    var data := Encode(ts, vs);
    var heads, tails := Heads(Parts(ts, vs), 32 * |ts|), Tails(Parts(ts, vs));
    assert data[0..|data|] == heads + tails;
    AtSplit(data, 0, heads, tails);
    FromRoundTrip(room, ts, vs, data, 0, 32 * |ts|);
  }

  // ---- Text ----

  /** Text whose characters are single bytes. */
  predicate ByteText(t: string) {
    forall i :: 0 <= i < |t| ==> t[i] as int < 256
  }

  function TextBytes(t: string): seq<Byte>
    requires ByteText(t)
  {
    seq(|t|, i requires 0 <= i < |t| => t[i] as int)
  }

  /** A string parameter decodes to the text it was encoded from. */
  lemma TextReads(room: nat, t: string)
    requires ByteText(t) && Fits(room, Encode([Str], [BytesV(TextBytes(t))]))
    ensures DecodeFrom(room, ["string"], Encode([Str], [BytesV(TextBytes(t))]), 0) == Ok([t])
  {
    var ts, vs := [Str], [BytesV(TextBytes(t))];
    assert Typed(ts, vs);
    DecodeInvertsEncode(room, ts, vs);
    assert BytesString(TextBytes(t)) == t;
    assert ts[1..] == [] && vs[1..] == [];
    assert TypeNames(ts) == ["string"] + TypeNames([]) == ["string"];
    assert RenderAll(ts, vs) == [t] + RenderAll([], []) == [t];
  }
}
