/** The transfers inside one transaction get distinct keys. */
module TreeKeys {
  import opened Traces
  import opened Common
  import D = DedupKey
  import Joining

  ghost predicate Distinct(hits: seq<Hit>) {
    forall i, j :: 0 <= i < j < |hits| ==> hits[i].Path() != hits[j].Path()
  }

  lemma DistinctConcat(a: seq<Hit>, b: seq<Hit>)
    requires Distinct(a) && Distinct(b)
    requires forall g, h :: g in a && h in b ==> g.Path() != h.Path()
    ensures Distinct(a + b)
  {
    forall i, j | 0 <= i < j < |a + b| ensures (a + b)[i].Path() != (a + b)[j].Path() {
      if i < |a| <= j {
        assert a[i] in a && b[j - |a|] in b;
      }
    }
  }

  /** Every hit of `frames[i..]` lies below `prefix`, at child `i` or later. */
  lemma {:induction false} WalkPaths(tx: string, prefix: seq<nat>, frames: seq<CallFrame>, i: nat)
    requires i <= |frames|
    ensures forall h :: h in WalkHits(tx, prefix, frames, i) ==> prefix < h.Path() && i <= h.Path()[|prefix|]
    decreases frames, |frames| - i
  {
    if i < |frames| {
      WalkPaths(tx, prefix, frames, i + 1);
      if frames[i].error == "" {
        WalkPaths(tx, prefix + [i], frames[i].calls, 0);
        assert (prefix + [i])[|prefix|] == i;
        forall h | h in WalkHits(tx, prefix + [i], frames[i].calls, 0)
          ensures prefix < h.Path() && i <= h.Path()[|prefix|]
        {
          assert prefix + [i] < h.Path();
          assert h.Path()[|prefix|] == (prefix + [i])[|prefix|];
        }
      }
    }
  }

  /** The hits at or below child `i` have its path as a beginning. */
  lemma ChildPaths(tx: string, prefix: seq<nat>, frames: seq<CallFrame>, i: nat)
    requires i < |frames|
    ensures forall h :: h in FrameHits(tx, prefix + [i], frames[i]) + WalkHits(tx, prefix + [i], frames[i].calls, 0) ==>
              |h.Path()| > |prefix| && h.Path()[|prefix|] == i
  {
    var p := prefix + [i];
    WalkPaths(tx, p, frames[i].calls, 0);
    forall h | h in FrameHits(tx, p, frames[i]) + WalkHits(tx, p, frames[i].calls, 0)
      ensures |h.Path()| > |prefix| && h.Path()[|prefix|] == i
    {
      assert p <= h.Path();
      assert h.Path()[|prefix|] == p[|prefix|];
    }
  }

  lemma {:induction false} WalkDistinct(tx: string, prefix: seq<nat>, frames: seq<CallFrame>, i: nat)
    requires i <= |frames|
    ensures Distinct(WalkHits(tx, prefix, frames, i))
    decreases frames, |frames| - i
  {
    if i < |frames| {
      WalkDistinct(tx, prefix, frames, i + 1);
      if frames[i].error == "" {
        var p := prefix + [i];
        var own, below := FrameHits(tx, p, frames[i]), WalkHits(tx, p, frames[i].calls, 0);
        WalkDistinct(tx, p, frames[i].calls, 0);
        WalkPaths(tx, p, frames[i].calls, 0);
        DistinctConcat(own, below);
        ChildPaths(tx, prefix, frames, i);
        WalkPaths(tx, prefix, frames, i + 1);
        DistinctConcat(own + below, WalkHits(tx, prefix, frames, i + 1));
      }
    }
  }

  lemma {:induction false} WalkTx(tx: string, prefix: seq<nat>, frames: seq<CallFrame>, i: nat)
    requires i <= |frames|
    ensures forall h :: h in WalkHits(tx, prefix, frames, i) && h.Moves? ==> h.t.txHash == tx
    decreases frames, |frames| - i
  {
    if i < |frames| {
      WalkTx(tx, prefix, frames, i + 1);
      WalkTx(tx, prefix + [i], frames[i].calls, 0);
    }
  }

  /** The record of one transfer, apart from what does not enter the key. */
  function RecordOf(chainId: int, block: nat, t: Transfer): D.Envelope {
    D.Envelope(D.InternalTransfer, "native", chainId, block, "", t.txHash, None, t.path, "")
  }

  /** No two transfers of one transaction share a key. */
  lemma TransfersOfOneTxDiffer(tx: string, root: CallFrame, chainId: int, block: nat, i: nat, j: nat)
    requires Joining.Free(tx, '|')
    requires var hits := TxHits(tx, root); i < j < |hits| && hits[i].Moves? && hits[j].Moves?
    ensures var hits := TxHits(tx, root);
            D.DedupKey(RecordOf(chainId, block, hits[i].t)) != D.DedupKey(RecordOf(chainId, block, hits[j].t))
  {
    WalkDistinct(tx, [], root.calls, 0);
    WalkTx(tx, [], root.calls, 0);
    var hits := TxHits(tx, root);
    D.SameKeyIff(RecordOf(chainId, block, hits[i].t), RecordOf(chainId, block, hits[j].t));
  }
}
