/** Which records keep their order: those that share a partition. */
module Partitions {
  import opened Common
  import opened Decimal
  import opened DedupKey
  import opened Joining

  /** One log, all transfers of a transaction, all markers of a chain, or one configured entry. */
  datatype Lane =
    | LogLane(chainId: int, txHash: string, logIndex: Option<nat>)
    | TxLane(chainId: int, txHash: string)
    | MarkerLane(chainId: int)
    | EntryLane(chainId: int, typ: Type, name: string)

  function LaneOf(e: Envelope): Lane {
    match e.typ
    case Event => LogLane(e.chainId, e.txHash, e.logIndex)
    case NativeTransfer => TxLane(e.chainId, e.txHash)
    case InternalTransfer => TxLane(e.chainId, e.txHash)
    case Reorg => MarkerLane(e.chainId)
    case _ => EntryLane(e.chainId, e.typ, e.name)
  }

  /** Transaction hashes start with 0x, and no type is named like that. */
  predicate Hashed(e: Envelope) {
    && (e.typ.Event? || e.typ.NativeTransfer? || e.typ.InternalTransfer? ==> "0x" <= e.txHash)
    && (e.typ.Other? ==> !("0x" <= e.typ.name))
  }

  function Parts(e: Envelope): seq<string> {
    var chain := IntStr(e.chainId);
    match LaneOf(e)
    case LogLane(_, tx, i) => [chain, tx, LogIndexStr(i)]
    case TxLane(_, tx) => [chain, tx]
    case MarkerLane(_) => [chain, "reorg"]
    case EntryLane(_, typ, name) => [chain, TypeName(typ), name]
  }

  lemma PartsFree(e: Envelope)
    requires Clean(e)
    ensures Parts(e) != [] && forall i :: 0 <= i < |Parts(e)| ==> Free(Parts(e)[i], '|')
  {
    IntStrFree(e.chainId);
    LogIndexFree(e.logIndex);
  }

  lemma SameParts(a: Envelope, b: Envelope)
    requires Clean(a) && Clean(b)
    ensures PartitionIdentity(a) == PartitionIdentity(b) <==> Parts(a) == Parts(b)
  {
    PartsFree(a);
    PartsFree(b);
    assert PartitionIdentity(a) == Join(Parts(a), '|') && PartitionIdentity(b) == Join(Parts(b), '|');
    if PartitionIdentity(a) == PartitionIdentity(b) {
      JoinInjective(Parts(a), Parts(b), '|');
    }
  }

  /** The second component tells a transaction from a type. */
  lemma SecondPart(e: Envelope)
    requires Clean(e) && Hashed(e)
    ensures |Parts(e)| >= 2 && ("0x" <= Parts(e)[1] <==> LaneOf(e).LogLane? || LaneOf(e).TxLane?)
  {
    if "0x" <= Parts(e)[1] {
      assert Parts(e)[1][0] == '0';
    }
  }

  /** Two records share a partition exactly if they are of one lane. */
  lemma SamePartitionIff(a: Envelope, b: Envelope)
    requires Clean(a) && Clean(b) && Hashed(a) && Hashed(b)
    ensures PartitionIdentity(a) == PartitionIdentity(b) <==> LaneOf(a) == LaneOf(b)
  {
    var p, q := Parts(a), Parts(b);
    SameParts(a, b);
    SecondPart(a);
    SecondPart(b);
    if p == q {
      assert p[0] == q[0] && p[1] == q[1];
      IntStrInjective(a.chainId, b.chainId);
      if |p| == 3 {
        assert p[2] == q[2];
        if LaneOf(a).LogLane? {
          LogIndexInjective(a.logIndex, b.logIndex);
        } else {
          TypeNameInjective(a, b);
        }
      }
    }
  }
}
