/** Decoding event data, and the encoding it undoes. */
module AbiDecode {
  import opened Common
  import opened Words
  import opened Decimal
  import opened Joining

  /** What decoding comes to. A panic ends the program, where a malformed log is only skipped. */
  datatype Decoded<+T> = Ok(value: T) | Malformed | Panics

  /** One more than the largest integer of the program. */
  const INT_LIMIT := 0x8000_0000_0000_0000

  /** Puts `done` in front of what a list decodes to, if it decodes. */
  function Attach<T>(done: seq<T>, rest: Decoded<seq<T>>): Decoded<seq<T>> {
    if rest.Ok? then Ok(done + rest.value) else rest
  }

  lemma AttachOne<T>(done: seq<T>, x: T, rest: Decoded<seq<T>>)
    ensures Attach(done, Attach([x], rest)) == Attach(done + [x], rest)
  {
    if rest.Ok? {
      assert done + ([x] + rest.value) == (done + [x]) + rest.value;
    }
  }

  lemma AttachNothing<T>(done: seq<T>, rest: Decoded<seq<T>>)
    ensures Attach([], rest) == rest && Attach(done, Ok([])) == Ok(done)
  {
    assert done + [] == done;
    if rest.Ok? {
      assert [] + rest.value == rest.value;
    }
  }

  function OrMalformed<T>(r: Option<T>): Decoded<T> {
    if r == None then Malformed else Ok(r.value)
  }

  // ---- What the program does, on type names ----

  predicate HasSuffix(s: string, suffix: string) {
    |s| >= |suffix| && s[|s| - |suffix|..] == suffix
  }

  predicate IsDynamicType(typ: string) {
    typ == "bytes" || typ == "string" || HasSuffix(typ, "[]") || "tuple" <= typ
  }

  /** Optional sign, then digits. */
  function Atoi(s: string): Option<int> {
    var signed := s != "" && (s[0] == '-' || s[0] == '+');
    var digits := if signed then s[1..] else s;
    if digits == "" || !IsDigits(digits) then None
    else
      var v: int := if signed && s[0] == '-' then 0 - Value(digits) else Value(digits);
      Some(v)
  }

  function FixedBytesSize(typ: string): Option<nat> {
    if typ == "bytes" then None
    else
      match Atoi(TrimPrefix(typ, "bytes"))
      case None => None
      case Some(n) => if 1 <= n <= 32 then Some(n) else None
  }

  function DecodeSignedInt(word: seq<Byte>): string
    requires |word| == 32
  {
    IntStr(if word[0] >= 128 then ToNat(word) - Pow256(32) else ToNat(word))
  }

  /** One 32-byte value, rendered. */
  function DecodeWord(typ: string, word: seq<Byte>): Option<string>
    requires |word| == 32
  {
    if typ == "address" then Some("0x" + Hex(word[12..]))
    else if typ == "bool" then Some(if word[31] == 0 then "false" else "true")
    else if "uint" <= typ then Some(Itoa(ToNat(word)))
    else if "int" <= typ then Some(DecodeSignedInt(word))
    else if "bytes" <= typ then
      match FixedBytesSize(typ)
      case None => None
      case Some(n) => if n <= 32 then Some("0x" + Hex(word[..n])) else None
    else None
  }

  function BytesString(bytes: seq<Byte>): string {
    seq(|bytes|, i requires 0 <= i < |bytes| => bytes[i] as char)
  }

  /** The elements of an array of static values that starts at `base`. */
  function DecodeElements(elem: string, data: seq<Byte>, base: nat, count: nat): Option<seq<string>>
    decreases count
  {
    if count == 0 then Some([])
    else if base + 32 > |data| then None
    else
      match DecodeWord(elem, data[base..base + 32])
      case None => None
      case Some(v) => Prepend([v], DecodeElements(elem, data, base + 32, count - 1))
  }

  lemma DecodeElementsStep(elem: string, data: seq<Byte>, base: nat, count: nat, v: string)
    requires count > 0 && base + 32 <= |data| && DecodeWord(elem, data[base..base + 32]) == Some(v)
    ensures DecodeElements(elem, data, base, count) == Prepend([v], DecodeElements(elem, data, base + 32, count - 1))
  {
  }

  /** The elements of an array, for all of which there must be room at once before the first is read. */
  function DecodeArray(room: nat, elem: string, data: seq<Byte>, base: nat, count: nat): Decoded<seq<string>> {
    if count >= INT_LIMIT || count > room then Panics else OrMalformed(DecodeElements(elem, data, base, count))
  }

  /**
   * A dynamic value of length `count` whose contents start at `base`. An end past the largest
   * integer wraps around to a negative number, on which slicing panics.
   */
  function DecodePayload(room: nat, typ: string, data: seq<Byte>, base: nat, count: nat): Decoded<string> {
    if typ == "bytes" then
      if base + count >= INT_LIMIT then Panics
      else if base + count > |data| then Malformed
      else Ok("0x" + Hex(data[base..base + count]))
    else if typ == "string" then
      if base + count >= INT_LIMIT then Panics
      else if base + count > |data| then Malformed
      else Ok(BytesString(data[base..base + count]))
    else if HasSuffix(typ, "[]") then
      var elem := typ[..|typ| - 2];
      if IsDynamicType(elem) then Malformed
      else
        match DecodeArray(room, elem, data, base, count)
        case Ok(vs) => Ok("[" + Join(vs, ',') + "]")
        case Malformed => Malformed
        case Panics => Panics
    else Malformed
  }

  /** The number in the word at `offset`, if there is a word and the number fits 64 bits. */
  function WordAt(data: seq<Byte>, offset: nat): Option<nat> {
    if offset + 32 > |data| then None
    else
      var n := ToNat(data[offset..offset + 32]);
      if n >= Pow256(8) then None else Some(n)
  }

  /** A dynamic value whose length word is at `offset`, unless the end of that word wraps around. */
  function DecodeDynamic(room: nat, typ: string, data: seq<Byte>, offset: nat): Decoded<string> {
    if offset + 32 >= INT_LIMIT then Panics
    else
      match WordAt(data, offset)
      case None => Malformed
      case Some(count) => DecodePayload(room, typ, data, offset + 32, count)
  }

  /** The parameter whose head word is at `head`: its value, or the offset of its value. */
  function DecodeParam(room: nat, typ: string, data: seq<Byte>, head: nat): Decoded<string> {
    if head + 32 > |data| then Malformed
    else if !IsDynamicType(typ) then OrMalformed(DecodeWord(typ, data[head..head + 32]))
    else
      match WordAt(data, head)
      case None => Malformed
      case Some(offset) => DecodeDynamic(room, typ, data, offset)
  }

  /** A tuple of parameters, the first of whose head words is at `head`. */
  function DecodeFrom(room: nat, types: seq<string>, data: seq<Byte>, head: nat): Decoded<seq<string>>
    decreases types
  {
    if types == [] then Ok([])
    else
      match DecodeParam(room, types[0], data, head)
      case Ok(v) => Attach([v], DecodeFrom(room, types[1..], data, head + 32))
      case Malformed => Malformed
      case Panics => Panics
  }

  lemma DecodeFromCons(room: nat, types: seq<string>, data: seq<Byte>, head: nat, v: Decoded<string>)
    requires types != [] && DecodeParam(room, types[0], data, head) == v
    ensures match v
            case Ok(x) => DecodeFrom(room, types, data, head)
                == Attach([x], DecodeFrom(room, types[1..], data, head + 32))
            case Malformed => DecodeFrom(room, types, data, head) == Malformed
            case Panics => DecodeFrom(room, types, data, head) == Panics
  {
  }

  // ---- The types of the Solidity ABI specification that are supported ----

  /** Integer sizes are in bytes. Array elements are static. */
  datatype AbiType =
    | Address | Bool | UInt(size: nat) | SInt(size: nat) | FixedBytes(size: nat)
    | DynBytes | Str | Array(elem: AbiType)

  datatype AbiValue = AddressV(bytes: seq<Byte>) | BoolV(b: bool) | IntV(n: int) | BytesV(bytes: seq<Byte>)
      | ListV(vs: seq<AbiValue>)

  predicate Static(t: AbiType) {
    match t
    case UInt(size) => 1 <= size <= 32
    case SInt(size) => 1 <= size <= 32
    case FixedBytes(size) => 1 <= size <= 32
    case Address => true
    case Bool => true
    case _ => false
  }

  predicate Supported(t: AbiType) {
    Static(t) || t.DynBytes? || t.Str? || (t.Array? && Static(t.elem))
  }

  function TypeName(t: AbiType): string {
    match t
    case Address => "address"
    case Bool => "bool"
    case UInt(size) => "uint" + Itoa(8 * size)
    case SInt(size) => "int" + Itoa(8 * size)
    case FixedBytes(size) => "bytes" + Itoa(size)
    case DynBytes => "bytes"
    case Str => "string"
    case Array(e) => TypeName(e) + "[]"
  }

  /** The value is in the range of its type. */
  predicate HasType(t: AbiType, v: AbiValue)
    decreases t, 0
  {
    match t
    case Address => v.AddressV? && |v.bytes| == 20
    case Bool => v.BoolV?
    case UInt(size) => v.IntV? && 0 <= v.n < Pow256(size)
    case SInt(size) => v.IntV? && size > 0 && -128 * Pow256(size - 1) <= v.n < 128 * Pow256(size - 1)
    case FixedBytes(size) => v.BytesV? && |v.bytes| == size
    case DynBytes => v.BytesV?
    case Str => v.BytesV?
    case Array(e) => v.ListV? && AllHaveType(e, v.vs)
  }

  predicate AllHaveType(t: AbiType, vs: seq<AbiValue>)
    decreases t, 1, |vs|
  {
    vs == [] || (HasType(t, vs[0]) && AllHaveType(t, vs[1..]))
  }

  /** How a value is printed in a record. */
  function Render(t: AbiType, v: AbiValue): string
    requires HasType(t, v)
    decreases v
  {
    match t
    case Address => "0x" + Hex(v.bytes)
    case Bool => if v.b then "true" else "false"
    case UInt(_) => IntStr(v.n)
    case SInt(_) => IntStr(v.n)
    case FixedBytes(_) => "0x" + Hex(v.bytes)
    case DynBytes => "0x" + Hex(v.bytes)
    case Str => BytesString(v.bytes)
    case Array(e) => "[" + Join(RenderElements(e, v.vs), ',') + "]"
  }

  function RenderElements(e: AbiType, vs: seq<AbiValue>): seq<string>
    requires AllHaveType(e, vs)
    decreases vs
  {
    if vs == [] then [] else [Render(e, vs[0])] + RenderElements(e, vs[1..])
  }

  /** The 32-byte word of a static value. */
  function EncodeWord(t: AbiType, v: AbiValue): (w: seq<Byte>)
    requires Static(t) && HasType(t, v)
    ensures |w| == 32
  {
    match t
    case Address => ZeroBytes(12) + v.bytes
    case Bool => ToBytes(if v.b then 1 else 0, 32)
    case UInt(_) => ToBytes(v.n, 32)
    case SInt(size) => ToBytes(TwosComplement(v.n, size), 32)
    case FixedBytes(size) => v.bytes + ZeroBytes(32 - size)
  }

  function TwosComplement(n: int, size: nat): nat
    requires 1 <= size <= 32 && -128 * Pow256(size - 1) <= n
  {
    Pow256Monotone(size - 1, 31);
    if n < 0 then n + Pow256(32) else n
  }

  function EncodeWords(e: AbiType, vs: seq<AbiValue>): (w: seq<Byte>)
    requires Static(e) && AllHaveType(e, vs)
    ensures |w| == 32 * |vs|
  {
    if vs == [] then [] else EncodeWord(e, vs[0]) + EncodeWords(e, vs[1..])
  }

  function Padding(n: nat): nat {
    (32 - n % 32) % 32
  }

  /** A dynamic value's part of the tail: its length, then its contents padded to whole words. */
  function EncodeDynamic(t: AbiType, v: AbiValue): seq<Byte>
    requires Supported(t) && !Static(t) && HasType(t, v)
  {
    if t.Array? then ToBytes(|v.vs|, 32) + EncodeWords(t.elem, v.vs)
    else ToBytes(|v.bytes|, 32) + v.bytes + ZeroBytes(Padding(|v.bytes|))
  }

  predicate Typed(ts: seq<AbiType>, vs: seq<AbiValue>) {
    |ts| == |vs|
    && (ts == [] || (Supported(ts[0]) && HasType(ts[0], vs[0]) && Typed(ts[1..], vs[1..])))
  }

  type Word = w: seq<Byte> | |w| == 32 witness ZeroBytes(32)

  /** A parameter's encoding: a word of its own, or bytes that an offset points to. */
  datatype Part = Inline(word: Word) | Outside(bytes: seq<Byte>)
  {
    function Head(off: nat): Word {
      if Inline? then word else ToBytes(off, 32)
    }

    function Tail(): seq<Byte> {
      if Inline? then [] else bytes
    }
  }

  function PartOf(t: AbiType, v: AbiValue): Part
    requires Supported(t) && HasType(t, v)
  {
    if Static(t) then Inline(EncodeWord(t, v)) else Outside(EncodeDynamic(t, v))
  }

  function Parts(ts: seq<AbiType>, vs: seq<AbiValue>): (ps: seq<Part>)
    requires Typed(ts, vs)
    ensures |ps| == |ts|
  {
    if ts == [] then [] else [PartOf(ts[0], vs[0])] + Parts(ts[1..], vs[1..])
  }

  /** The heads of the parts, the first of whose tails is at `off`. */
  function Heads(ps: seq<Part>, off: nat): (w: seq<Byte>)
    ensures |w| == 32 * |ps|
  {
    if ps == [] then [] else ps[0].Head(off) + Heads(ps[1..], off + |ps[0].Tail()|)
  }

  function Tails(ps: seq<Part>): seq<Byte> {
    if ps == [] then [] else ps[0].Tail() + Tails(ps[1..])
  }

  /** The encoding of a tuple of parameters: all heads, then all tails. */
  function Encode(ts: seq<AbiType>, vs: seq<AbiValue>): seq<Byte>
    requires Typed(ts, vs)
  {
    Heads(Parts(ts, vs), 32 * |ts|) + Tails(Parts(ts, vs))
  }

  function TypeNames(ts: seq<AbiType>): seq<string> {
    if ts == [] then [] else [TypeName(ts[0])] + TypeNames(ts[1..])
  }

  function RenderAll(ts: seq<AbiType>, vs: seq<AbiValue>): (r: seq<string>)
    requires Typed(ts, vs)
    ensures |r| == |ts|
  {
    if ts == [] then [] else [Render(ts[0], vs[0])] + RenderAll(ts[1..], vs[1..])
  }
}
