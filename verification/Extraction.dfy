/** The extraction loops as the program runs them. */
module Extraction {
  import opened Chain
  import opened Common
  import opened Traces

  /** Collecting two stretches of hits one after the other. */
  lemma {:induction false} CollectConcat(out: seq<Transfer>, a: seq<Hit>, b: seq<Hit>)
    ensures Prepend(out, Collect(a + b))
         == match Prepend(out, Collect(a)) case None => None case Some(x) => Prepend(x, Collect(b))
    decreases |a|
  {
    if a == [] {
      assert a + b == b && out + [] == out;
    } else {
      assert (a + b)[0] == a[0] && (a + b)[1..] == a[1..] + b;
      if a[0].Moves? {
        CollectConcat(out + [a[0].t], a[1..], b);
        PrependOne(out, a[0].t, Collect(a[1..]));
        PrependOne(out, a[0].t, Collect(a[1..] + b));
      }
    }
  }

  lemma CollectOne(t: Transfer)
    ensures Collect([Moves(t)]) == Some([t])
  {
    assert [Moves(t)][1..] == [] && [t] + [] == [t];
  }

  /** Appends the transfers of `frames` to `out`, or fails on the first value that does not parse. */
  method WalkCallFrames(out: seq<Transfer>, tx: string, prefix: seq<nat>, frames: seq<CallFrame>)
    returns (r: Option<seq<Transfer>>)
    ensures r == Prepend(out, Collect(WalkHits(tx, prefix, frames, 0)))
    decreases frames
  {
    var all := out;
    for i := 0 to |frames|
      invariant Prepend(out, Collect(WalkHits(tx, prefix, frames, 0)))
             == Prepend(all, Collect(WalkHits(tx, prefix, frames, i)))
    {
      var f := frames[i];
      if f.error != "" {
        continue;
      }
      var path := prefix + [i];
      ghost var own, below := FrameHits(tx, path, f), WalkHits(tx, path, f.calls, 0);
      CollectConcat(all, own + below, WalkHits(tx, prefix, frames, i + 1));
      CollectConcat(all, own, below);
      PrependNothing(all, None);
      if IsValueMovingCall(f.kind) {
        match ParseHexValue(f.value) {
          case None =>
            return None;
          case Some(v) =>
            if v > 0 {
              var t := Transfer(tx, path, f.from, f.to, v, Fold(f.kind), IsCreate(f.kind));
              CollectOne(t);
              all := all + [t];
            }
        }
      }
      var inner := WalkCallFrames(all, tx, path, f.calls);
      match inner {
        case None => return None;
        case Some(ts) => all := ts;
      }
    }
    PrependNothing(all, None);
    return Some(all);
  }

  /** Some errored path is a strict prefix of `path`. */
  method HasErroredAncestor(path: seq<nat>, errored: seq<seq<nat>>) returns (found: bool)
    ensures found <==> exists e :: e in errored && e < path
  {
    for i := 0 to |errored|
      invariant forall k :: 0 <= k < i ==> !(errored[k] < path)
    {
      var e := errored[i];
      if |e| >= |path| {
        continue;
      }
      var matches := true;
      for j := 0 to |e|
        invariant matches && e[..j] == path[..j]
      {
        if e[j] != path[j] {
          matches := false;
          break;
        }
      }
      if matches {
        assert e == e[..|e|] == path[..|e|] && e in errored;
        return true;
      }
    }
    return false;
  }

  /** `errored` lists exactly the paths of the failed traces. */
  ghost predicate Lists(errored: seq<seq<nat>>, traces: seq<ParityTrace>) {
    forall e :: e in errored <==> exists t :: t in traces && t.error != "" && t.traceAddress == e
  }

  method ErroredPaths(traces: seq<ParityTrace>) returns (errored: seq<seq<nat>>)
    ensures Lists(errored, traces)
  {
    errored := [];
    for i := 0 to |traces|
      invariant Lists(errored, traces[..i])
    {
      assert traces[..i + 1] == traces[..i] + [traces[i]];
      if traces[i].error != "" {
        errored := errored + [traces[i].traceAddress];
      }
    }
    assert traces[..|traces|] == traces;
  }

  method ParseParityTraces(traces: seq<ParityTrace>) returns (r: Option<seq<Transfer>>)
    ensures r == Collect(ScanHits(traces, traces))
  {
    var errored := ErroredPaths(traces);
    var all: seq<Transfer> := [];
    PrependNothing([], Collect(ScanHits(traces, traces)));
    assert traces[0..] == traces;
    for i := 0 to |traces|
      invariant Collect(ScanHits(traces, traces)) == Prepend(all, Collect(ScanHits(traces[i..], traces)))
    {
      ScanStep(traces, i);
      var own := TraceTransfers(traces[i], errored, traces);
      CollectConcat(all, if Skipped(traces[i], traces) then []
          else ParityHits(traces[i]), ScanHits(traces[i + 1..], traces));
      match own {
        case None => return None;
        case Some(ts) => all := all + ts;
      }
    }
    PrependNothing(all, None);
    return Some(all);
  }

  /** The transfer of one trace of the list, unless the trace is the root, failed or was rolled back. */
  method TraceTransfers(t: ParityTrace, errored: seq<seq<nat>>, ghost traces: seq<ParityTrace>)
    returns (r: Option<seq<Transfer>>)
    requires Lists(errored, traces)
    ensures r == Collect(if Skipped(t, traces) then [] else ParityHits(t))
  {
    var below := HasErroredAncestor(t.traceAddress, errored);
    ErroredIsPruned(t.traceAddress, errored, traces);
    if t.traceAddress == [] || t.error != "" || below {
      return Some([]);
    }
    r := ParityToInternal(t);
  }

  lemma ScanStep(traces: seq<ParityTrace>, i: nat)
    requires i < |traces|
    ensures ScanHits(traces[i..], traces)
         == (if Skipped(traces[i], traces) then [] else ParityHits(traces[i])) + ScanHits(traces[i + 1..], traces)
  {
    assert traces[i..][1..] == traces[i + 1..];
  }

  lemma ErroredIsPruned(path: seq<nat>, errored: seq<seq<nat>>, traces: seq<ParityTrace>)
    requires Lists(errored, traces)
    ensures (exists e :: e in errored && e < path) <==> Pruned(path, traces)
  {
    if Pruned(path, traces) {
      var t :| t in traces && t.error != "" && t.traceAddress < path;
      assert t.traceAddress in errored;
    }
  }

  /** At most one transfer, or nothing when the value does not parse. */
  method ParityToInternal(t: ParityTrace) returns (r: Option<seq<Transfer>>)
    ensures r == Collect(ParityHits(t))
  {
    var from, to, value, callType, creation := "", "", "", "", false;
    match t.kind {
      case "call" =>
        if t.action.callType != "call" {
          return Some([]);
        }
        from, to, callType, value := t.action.from, t.action.to, "call", t.action.value;
      case "create" =>
        from, callType, creation, value := t.action.from, "create", true, t.action.value;
        if t.result.Some? {
          to := t.result.value;
        }
      case "suicide" =>
        from, to, callType, value := t.action.address, t.action.refundAddress, "selfdestruct", t.action.balance;
      case _ =>
        return Some([]);
    }
    match ParseHexValue(value)
    case None => return None;
    case Some(v) =>
      if v <= 0 {
        return Some([]);
      }
      var transfer := Transfer(t.txHash, t.traceAddress, from, to, v, callType, creation);
      CollectOne(transfer);
      return Some([transfer]);
  }

  /** The transfers of a block from its call trees. */
  method BlockLevelTraces(txs: seq<TxTrace>) returns (r: Option<seq<Transfer>>)
    ensures r == Collect(BlockHits(txs))
  {
    var all: seq<Transfer> := [];
    PrependNothing([], Collect(BlockHits(txs)));
    assert txs[0..] == txs;
    for i := 0 to |txs|
      invariant Collect(BlockHits(txs)) == Prepend(all, Collect(BlockHits(txs[i..])))
    {
      BlockStep(txs, i);
      var root := txs[i].root;
      if root.None? || root.value.error != "" {
        continue;
      }
      CollectConcat(all, TxHits(txs[i].txHash, root.value), BlockHits(txs[i + 1..]));
      var inner := WalkCallFrames(all, txs[i].txHash, [], root.value.calls);
      match inner {
        case None => return None;
        case Some(ts) => all := ts;
      }
    }
    PrependNothing(all, None);
    return Some(all);
  }

  lemma BlockStep(txs: seq<TxTrace>, i: nat)
    requires i < |txs|
    ensures BlockHits(txs[i..])
         == (if txs[i].root.None? then [] else TxHits(txs[i].txHash, txs[i].root.value)) + BlockHits(txs[i + 1..])
    ensures txs[i].root.None? || txs[i].root.value.error != "" ==> BlockHits(txs[i..]) == BlockHits(txs[i + 1..])
  {
    assert txs[i..][1..] == txs[i + 1..];
  }
}
