/** The amounts and parties of internal transfers, read from the text of either trace shape. */
module TraceValues {
  import opened Chain
  import opened Common
  import opened Traces
  import opened Words

  /** The hexadecimal numeral of `n`, without leading zeros. */
  function HexNumeral(n: nat): (s: string)
    ensures s != ""
  {
    if n < 16 then [HexChar(n)] else HexNumeral(n / 16) + [HexChar(n % 16)]
  }

  // ---- Digits ----

  /** Both cases of a letter are the same digit. */
  lemma HexDigitCase(c: char)
    ensures HexDigit(UpperChar(c)) == HexDigit(c) && HexDigit(LowerChar(c)) == HexDigit(c)
  {
  }

  // ---- Numbers ----

  /** A run of characters is a number exactly if it is not empty and all of them are digits. */
  lemma {:induction false} HexNumberIff(s: string)
    ensures HexNumber(s).Some? <==> s != "" && AllHex(s)
  {
    if s != "" {
      var last := |s| - 1;
      assert AllHex(s) <==> AllHex(s[..last]) && IsHex(s[last]);
      if last > 0 {
        HexNumberIff(s[..last]);
      }
    }
  }

  /** Letters read the same in either case. */
  lemma {:induction false} HexNumberCase(s: string)
    ensures HexNumber(Upper(s)) == HexNumber(s)
  {
    if s != "" {
      var last := |s| - 1;
      HexDigitCase(s[last]);
      HexNumberCase(s[..last]);
      assert Upper(s)[..last] == Upper(s[..last]);
    }
  }

  lemma HexNumberSnoc(s: string, n: nat, d: nat)
    requires d < 16 && HexNumber(s) == Some(n)
    ensures HexNumber(s + [HexChar(d)]) == Some(16 * n + d)
  {
    HexCharDigit(d);
    assert (s + [HexChar(d)])[..|s|] == s;
  }

  /** A number's numeral reads back as the number. */
  lemma {:induction false} NumeralReads(n: nat)
    ensures HexNumber(HexNumeral(n)) == Some(n)
  {
    if n < 16 {
      HexCharDigit(n);
    } else {
      NumeralReads(n / 16);
      HexNumberSnoc(HexNumeral(n / 16), n / 16, n % 16);
    }
  }

  /** The text after the prefix. */
  function Unprefixed(s: string): string {
    TrimPrefix(TrimPrefix(s, "0x"), "0X")
  }

  /** The text after the prefix and a sign. */
  function Digits(s: string): string {
    var t := Unprefixed(s);
    if t != "" && t[0] in {'-', '+'} then t[1..] else t
  }

  /** A value parses exactly if it is absent or, after its prefix and a sign, nothing but digits. */
  lemma ValueParsesIff(s: string)
    ensures ParseHexValue(s).Some? <==> s == "" || s == "0x" || (Digits(s) != "" && AllHex(Digits(s)))
  {
    HexNumberIff(Digits(s));
  }

  /** Only the prefix is taken off. */
  lemma PrefixOff(t: string)
    requires |t| > 1 ==> t[1] !in {'x', 'X'}
    ensures Unprefixed("0x" + t) == t == Unprefixed(t)
  {
    assert ("0x" + t)[2..] == t;
    assert !("0x" <= t) && !("0X" <= t);
  }

  lemma SecondDigit(digits: string)
    requires HexNumber(digits).Some?
    ensures digits != "" && digits[0] !in {'-', '+', 'x', 'X'} && (|digits| > 1 ==> digits[1] !in {'x', 'X'})
  {
    HexNumberIff(digits);
    assert IsHex(digits[0]) && (|digits| > 1 ==> IsHex(digits[1]));
  }

  /** Digits are read as they stand, with or without the prefix. */
  lemma DigitsRead(digits: string)
    requires HexNumber(digits).Some?
    ensures ParseHexValue("0x" + digits) == Some(HexNumber(digits).value) == ParseHexValue(digits)
  {
    SecondDigit(digits);
    PrefixOff(digits);
  }

  /** What a value is, in terms of its text after the prefix. */
  lemma ValueOf(s: string, n: nat)
    requires s != "" && s != "0x" && HexNumber(Digits(s)) == Some(n)
    ensures ParseHexValue(s)
         == Some(if Unprefixed(s) != "" && Unprefixed(s)[0] == '-' then 0 - (n as int) else n as int)
  {
  }

  /** A minus sign after the prefix negates them, a plus sign does not. */
  lemma SignedRead(sign: char, digits: string)
    requires sign in {'-', '+'} && HexNumber(digits).Some?
    ensures var n := HexNumber(digits).value;
            ParseHexValue("0x" + ([sign] + digits)) == Some(if sign == '-' then 0 - (n as int) else n as int)
  {
    var t := [sign] + digits;
    SecondDigit(digits);
    PrefixOff(t);
    assert t[1..] == digits;
    assert |"0x" + t| > 2;
    ValueOf("0x" + t, HexNumber(digits).value);
  }

  /** A number written in hexadecimal, in lower or in upper case, is the value. */
  lemma ValueReads(n: nat)
    ensures ParseHexValue("0x" + HexNumeral(n)) == Some(n) == ParseHexValue("0x" + Upper(HexNumeral(n)))
  {
    NumeralReads(n);
    HexNumberCase(HexNumeral(n));
    DigitsRead(HexNumeral(n));
    DigitsRead(Upper(HexNumeral(n)));
  }

  /** An absent value, and a zero, is no amount. */
  lemma NoValue(tx: string, path: seq<nat>, f: CallFrame)
    requires f.value in {"", "0x", "0x0"}
    ensures ParseHexValue(f.value) == Some(0) && FrameHits(tx, path, f) == []
  {
    ValueReads(0);
    assert HexNumeral(0) == "0";
  }

  // ---- Transfers ----

  /** What a positive amount, and no amount, come to. */
  function Exactly(t: Transfer): seq<Hit> {
    if t.value > 0 then [Moves(t)] else []
  }

  /** A kind of frame that moves value: its name in upper case, how it is reported, whether it creates a contract. */
  datatype Mover = Mover(kind: string, callType: string, creates: bool)

  const MOVERS: seq<Mover> := [
    Mover("CALL", "call", false), Mover("CREATE", "create", true), Mover("CREATE2", "create2", true),
    Mover("SELFDESTRUCT", "selfdestruct", false), Mover("SUICIDE", "suicide", false)]

  /** Upper case changes nothing but the case of letters, and leaves no lower-case letter. */
  lemma UpperMeaning(s: string)
    ensures EqualButCase(Upper(s), s)
    ensures forall i :: 0 <= i < |Upper(s)| ==> !('a' <= Upper(s)[i] <= 'z')
  {
  }

  lemma FoldUpper(s: string)
    ensures Fold(Upper(s)) == Fold(s)
  {
    assert forall i :: 0 <= i < |s| ==> LowerChar(UpperChar(s[i])) == LowerChar(s[i]);
  }

  lemma MoverLabel(m: Mover)
    requires m in MOVERS
    ensures Fold(m.kind) == m.callType
  {
    assert Fold("CALL") == "call" && Fold("CREATE") == "create" && Fold("CREATE2") == "create2";
    assert Fold("SELFDESTRUCT") == "selfdestruct" && Fold("SUICIDE") == "suicide";
  }

  /** A frame of a moving kind, in any case, transfers exactly its value, from its sender to its recipient. */
  lemma FrameMoves(tx: string, path: seq<nat>, f: CallFrame, m: Mover, n: nat)
    requires m in MOVERS && Upper(f.kind) == m.kind && f.value == "0x" + HexNumeral(n)
    ensures FrameHits(tx, path, f) == Exactly(Transfer(tx, path, f.from, f.to, n, m.callType, m.creates))
  {
    FoldUpper(f.kind);
    MoverLabel(m);
    ValueReads(n);
  }

  /** Every other kind moves nothing, whatever its value says: a delegated or static call, say. */
  lemma FrameMovesNothing(tx: string, path: seq<nat>, f: CallFrame)
    requires forall m :: m in MOVERS ==> Upper(f.kind) != m.kind
    ensures FrameHits(tx, path, f) == []
  {
    assert MOVERS[0] in MOVERS && MOVERS[1] in MOVERS && MOVERS[2] in MOVERS && MOVERS[3] in MOVERS
        && MOVERS[4] in MOVERS;
  }

  /** The entries of a flat list that move value. */
  lemma CallTraceMoves(t: ParityTrace, n: nat)
    requires t.kind == "call" && t.action.callType == "call" && t.action.value == "0x" + HexNumeral(n)
    ensures ParityHits(t) == Exactly(Transfer(t.txHash, t.traceAddress, t.action.from, t.action.to, n, "call", false))
  {
    ValueReads(n);
  }

  /** The recipient of a creation is the contract created, or empty if the entry does not name it. */
  lemma CreateTraceMoves(t: ParityTrace, to: string, n: nat)
    requires t.kind == "create" && t.action.value == "0x" + HexNumeral(n)
    requires to == match t.result case Some(a) => a case None => ""
    ensures ParityHits(t) == Exactly(Transfer(t.txHash, t.traceAddress, t.action.from, to, n, "create", true))
  {
    ValueReads(n);
  }

  lemma SuicideTraceMoves(t: ParityTrace, n: nat)
    requires t.kind == "suicide" && t.action.balance == "0x" + HexNumeral(n)
    ensures ParityHits(t) == Exactly(Transfer(t.txHash, t.traceAddress, t.action.address, t.action.refundAddress, n,
        "selfdestruct", false))
  {
    ValueReads(n);
  }

  /** Entries of another kind, and calls of another type, move nothing, whatever their value says. */
  lemma TraceMovesNothing(t: ParityTrace)
    requires t.kind !in {"call", "create", "suicide"} || (t.kind == "call" && t.action.callType != "call")
    ensures ParityHits(t) == []
  {
  }

  /** A value that does not parse, in a frame or an entry that would move it, is reported as such. */
  lemma BadValues(tx: string, path: seq<nat>, f: CallFrame, m: Mover, t: ParityTrace)
    requires m in MOVERS && Upper(f.kind) == m.kind && ParseHexValue(f.value).None?
    requires ParseHexValue(t.action.value).None? && ParseHexValue(t.action.balance).None?
    ensures FrameHits(tx, path, f) == [BadValue(path)]
    ensures t.kind in {"create", "suicide"} || (t.kind == "call" && t.action.callType == "call")
            ==> ParityHits(t) == [BadValue(t.traceAddress)]
  {
  }
}
