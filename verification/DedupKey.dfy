/** The deduplication key and the partition identity of a record. */
module DedupKey {
  import opened Common
  import opened Decimal
  import opened Joining

  datatype Type =
    | Event | NativeTransfer | InternalTransfer | Reorg
    | BalanceSample | OwnershipSample | ContractSample
    | BalanceChange | OwnershipChange | ContractChange
    | Other(name: string)

  datatype Envelope = Envelope(
    typ: Type, name: string, chainId: int, blockNumber: nat, blockHash: string, txHash: string,
    logIndex: Option<nat>, traceAddress: seq<nat>, emittedAt: string)

  function TypeName(t: Type): string {
    match t
    case Event => "event"
    case NativeTransfer => "native_transfer"
    case InternalTransfer => "internal_transfer"
    case Reorg => "reorg"
    case BalanceSample => "balance_sample"
    case OwnershipSample => "ownership_sample"
    case ContractSample => "contract_sample"
    case BalanceChange => "balance_change"
    case OwnershipChange => "ownership_change"
    case ContractChange => "contract_change"
    case Other(name) => name
  }

  function LogIndexStr(i: Option<nat>): string {
    if i.None? then "_" else Itoa(i.value)
  }

  function Numerals(path: seq<nat>): seq<string> {
    seq(|path|, i requires 0 <= i < |path| => Itoa(path[i]))
  }

  function TraceAddrStr(path: seq<nat>): string {
    if path == [] then "_" else Join(Numerals(path), '-')
  }

  predicate IsChange(t: Type) {
    t.BalanceChange? || t.OwnershipChange? || t.ContractChange?
  }

  function KeyParts(e: Envelope): seq<string> {
    var chain := IntStr(e.chainId);
    match e.typ
    case Event => [chain, e.txHash, LogIndexStr(e.logIndex)]
    case NativeTransfer => [chain, e.txHash]
    case InternalTransfer => [chain, e.txHash, TraceAddrStr(e.traceAddress)]
    case Reorg => [chain, TypeName(e.typ), Itoa(e.blockNumber), e.blockHash]
    case _ =>
      if IsChange(e.typ) then [chain, TypeName(e.typ), e.name, Itoa(e.blockNumber)]
      else [chain, TypeName(e.typ), e.name, Itoa(e.blockNumber), e.emittedAt]
  }

  function DedupKey(e: Envelope): string {
    Join(KeyParts(e), '|')
  }

  function PartitionIdentity(e: Envelope): string {
    var chain := IntStr(e.chainId);
    match e.typ
    case Event => Join([chain, e.txHash, LogIndexStr(e.logIndex)], '|')
    case NativeTransfer => Join([chain, e.txHash], '|')
    case InternalTransfer => Join([chain, e.txHash], '|')
    case Reorg => Join([chain, TypeName(e.typ)], '|')
    case _ => Join([chain, TypeName(e.typ), e.name], '|')
  }

  // ---- The documented identity ----

  /** What identifies a record of each class. */
  datatype Identity =
    | LogId(chainId: int, txHash: string, logIndex: Option<nat>)
    | NativeId(chainId: int, txHash: string)
    | InternalId(chainId: int, txHash: string, path: seq<nat>)
    | ReorgId(chainId: int, blockNumber: nat, blockHash: string)
    | SampleId(chainId: int, typ: Type, name: string, blockNumber: nat, emittedAt: string)
    | ChangeId(chainId: int, typ: Type, name: string, blockNumber: nat)

  function IdentityOf(e: Envelope): Identity {
    match e.typ
    case Event => LogId(e.chainId, e.txHash, e.logIndex)
    case NativeTransfer => NativeId(e.chainId, e.txHash)
    case InternalTransfer => InternalId(e.chainId, e.txHash, e.traceAddress)
    case Reorg => ReorgId(e.chainId, e.blockNumber, e.blockHash)
    case _ =>
      if IsChange(e.typ) then ChangeId(e.chainId, e.typ, e.name, e.blockNumber)
      else SampleId(e.chainId, e.typ, e.name, e.blockNumber, e.emittedAt)
  }

  /** No component holds the delimiter, and an unknown type is not one of the known ones. */
  predicate Clean(e: Envelope) {
    && Free(e.name, '|') && Free(e.blockHash, '|') && Free(e.txHash, '|') && Free(e.emittedAt, '|')
    && (e.typ.Other? ==> Free(e.typ.name, '|') && e.typ.name !in {
          "event", "native_transfer", "internal_transfer", "reorg", "balance_sample", "ownership_sample",
          "contract_sample", "balance_change", "ownership_change", "contract_change"})
  }

  // ---- Components ----

  lemma DigitsFree(s: string)
    requires IsDigits(s)
    ensures Free(s, '|') && Free(s, '-') && Free(s, '_')
  {
  }

  lemma ItoaFree(n: nat)
    ensures Free(Itoa(n), '|') && Free(Itoa(n), '-') && Free(Itoa(n), '_')
  {
    ItoaValue(n);
    DigitsFree(Itoa(n));
  }

  lemma IntStrFree(n: int)
    ensures Free(IntStr(n), '|')
  {
    ItoaFree(Abs(n));
  }

  lemma {:induction false} JoinFree(parts: seq<string>, sep: char, c: char)
    requires c != sep && forall i :: 0 <= i < |parts| ==> Free(parts[i], c)
    ensures Free(Join(parts, sep), c)
    decreases |parts|
  {
    if |parts| > 1 {
      JoinFree(parts[1..], sep, c);
    }
  }

  lemma TraceAddrFree(path: seq<nat>)
    ensures Free(TraceAddrStr(path), '|')
  {
    forall i | 0 <= i < |path| ensures Free(Numerals(path)[i], '|') {
      ItoaFree(path[i]);
    }
    JoinFree(Numerals(path), '-', '|');
  }

  lemma LogIndexFree(i: Option<nat>)
    ensures Free(LogIndexStr(i), '|')
  {
    if i.Some? {
      ItoaFree(i.value);
    }
  }

  lemma LogIndexInjective(a: Option<nat>, b: Option<nat>)
    requires LogIndexStr(a) == LogIndexStr(b)
    ensures a == b
  {
    if a.Some? { ItoaFree(a.value); }
    if b.Some? { ItoaFree(b.value); }
    if a.Some? && b.Some? {
      ItoaInjective(a.value, b.value);
    } else {
      assert '_' in "_";
    }
  }

  lemma NumeralsFree(path: seq<nat>)
    ensures forall i :: 0 <= i < |path| ==> Free(Numerals(path)[i], '-') && Free(Numerals(path)[i], '_')
  {
    forall i | 0 <= i < |path| ensures Free(Numerals(path)[i], '-') && Free(Numerals(path)[i], '_') {
      ItoaFree(path[i]);
    }
  }

  /** A trace path is determined by its rendering. */
  lemma TraceAddrInjective(a: seq<nat>, b: seq<nat>)
    requires TraceAddrStr(a) == TraceAddrStr(b)
    ensures a == b
  {
    NumeralsFree(a);
    NumeralsFree(b);
    JoinFree(Numerals(a), '-', '_');
    JoinFree(Numerals(b), '-', '_');
    if a == [] || b == [] {
      assert '_' in "_";
    } else {
      JoinInjective(Numerals(a), Numerals(b), '-');
      forall i | 0 <= i < |a| ensures i < |b| && a[i] == b[i] {
        assert Numerals(a)[i] == Numerals(b)[i];
        ItoaInjective(a[i], b[i]);
      }
    }
  }

  /** A log index and a trace path render alike only when the path is that one index, or both are absent. */
  lemma SuffixCollision(i: Option<nat>, path: seq<nat>)
    ensures LogIndexStr(i) == TraceAddrStr(path)
       <==> (i.None? && path == []) || (i.Some? && path == [i.value])
  {
    if i.Some? {
      assert TraceAddrStr([i.value]) == Itoa(i.value);
      if LogIndexStr(i) == TraceAddrStr(path) {
        TraceAddrInjective([i.value], path);
      }
    } else if LogIndexStr(i) == TraceAddrStr(path) {
      TraceAddrInjective([], path);
    }
  }

  /** The components of any key are free of the delimiter. */
  lemma KeyPartsFree(e: Envelope)
    requires Clean(e)
    ensures forall i :: 0 <= i < |KeyParts(e)| ==> Free(KeyParts(e)[i], '|')
  {
    IntStrFree(e.chainId);
    ItoaFree(e.blockNumber);
    TraceAddrFree(e.traceAddress);
    LogIndexFree(e.logIndex);
  }

  /** Equal keys have equal components. */
  lemma EqualKeys(a: Envelope, b: Envelope)
    requires Clean(a) && Clean(b)
    ensures DedupKey(a) == DedupKey(b) <==> KeyParts(a) == KeyParts(b)
  {
    KeyPartsFree(a);
    KeyPartsFree(b);
    if DedupKey(a) == DedupKey(b) {
      JoinInjective(KeyParts(a), KeyParts(b), '|');
    }
  }

  lemma TypeNameInjective(a: Envelope, b: Envelope)
    requires Clean(a) && Clean(b) && TypeName(a.typ) == TypeName(b.typ)
    ensures a.typ == b.typ
  {
  }

  // ---- When keys collide ----

  /** An event and an internal transfer of one transaction whose suffixes render alike. */
  predicate Collides(log: Envelope, transfer: Envelope) {
    && log.typ.Event? && transfer.typ.InternalTransfer?
    && log.chainId == transfer.chainId && log.txHash == transfer.txHash
    && ((log.logIndex.None? && transfer.traceAddress == [])
        || (log.logIndex.Some? && transfer.traceAddress == [log.logIndex.value]))
  }

  lemma TxKeys(a: Envelope, b: Envelope)
    requires Clean(a) && Clean(b) && |KeyParts(a)| == |KeyParts(b)| <= 3
    ensures KeyParts(a) == KeyParts(b) <==> IdentityOf(a) == IdentityOf(b) || Collides(a, b) || Collides(b, a)
  {
    SuffixCollision(a.logIndex, b.traceAddress);
    SuffixCollision(b.logIndex, a.traceAddress);
    if KeyParts(a) == KeyParts(b) {
      assert KeyParts(a)[0] == KeyParts(b)[0] && KeyParts(a)[1] == KeyParts(b)[1];
      IntStrInjective(a.chainId, b.chainId);
      if |KeyParts(a)| == 3 {
        assert KeyParts(a)[2] == KeyParts(b)[2];
        if a.typ.Event? && b.typ.Event? {
          LogIndexInjective(a.logIndex, b.logIndex);
        } else if a.typ.InternalTransfer? && b.typ.InternalTransfer? {
          TraceAddrInjective(a.traceAddress, b.traceAddress);
        }
      }
    }
  }

  lemma NamedKeys(a: Envelope, b: Envelope)
    requires Clean(a) && Clean(b) && |KeyParts(a)| == |KeyParts(b)| >= 4
    ensures KeyParts(a) == KeyParts(b) <==> IdentityOf(a) == IdentityOf(b)
  {
    if KeyParts(a) == KeyParts(b) {
      var p, q := KeyParts(a), KeyParts(b);
      assert p[0] == q[0] && p[1] == q[1] && p[2] == q[2] && p[3] == q[3];
      IntStrInjective(a.chainId, b.chainId);
      TypeNameInjective(a, b);
      ItoaInjective(a.blockNumber, b.blockNumber);
      if |p| == 5 {
        assert p[4] == q[4];
      }
    }
  }

  /**
   * Two records share a key exactly if their documented identities agree, or one is an event and
   * the other an internal transfer of the same transaction with the same rendered suffix.
   */
  lemma SameKeyIff(a: Envelope, b: Envelope)
    requires Clean(a) && Clean(b)
    ensures DedupKey(a) == DedupKey(b) <==> IdentityOf(a) == IdentityOf(b) || Collides(a, b) || Collides(b, a)
  {
    EqualKeys(a, b);
    if |KeyParts(a)| == |KeyParts(b)| {
      if |KeyParts(a)| <= 3 {
        TxKeys(a, b);
      } else {
        NamedKeys(a, b);
      }
    } else {
      DifferentArity(a, b);
    }
  }

  /** The collision is real: log number `n` of a transaction and its transfer at path [n] share a key. */
  lemma CollisionExample(log: Envelope, transfer: Envelope, n: nat)
    requires log.typ.Event? && log.logIndex == Some(n) && transfer.typ.InternalTransfer? && transfer.traceAddress == [n]
    requires log.chainId == transfer.chainId && log.txHash == transfer.txHash
    ensures DedupKey(log) == DedupKey(transfer) && IdentityOf(log) != IdentityOf(transfer)
  {
    SuffixCollision(log.logIndex, transfer.traceAddress);
  }

  lemma DifferentArity(a: Envelope, b: Envelope)
    requires |KeyParts(a)| != |KeyParts(b)|
    ensures IdentityOf(a) != IdentityOf(b) && !Collides(a, b) && !Collides(b, a)
  {
  }

  /** Records with one identity land on one partition, in any class. */
  lemma SameIdentitySamePartition(a: Envelope, b: Envelope)
    requires Clean(a) && Clean(b) && DedupKey(a) == DedupKey(b) && !Collides(a, b) && !Collides(b, a)
    ensures PartitionIdentity(a) == PartitionIdentity(b)
  {
    SameKeyIff(a, b);
  }
}
