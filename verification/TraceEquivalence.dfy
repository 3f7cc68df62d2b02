/** Both trace shapes of the same execution give the same transfers. */
module TraceEquivalence {
  import opened Chain
  import opened Common
  import opened Traces

  /** A hit without the label the two shapes spell differently. */
  function Unlabelled(h: Hit): Hit {
    match h
    case Moves(t) => Moves(t.(callType := ""))
    case BadValue(p) => h
  }

  function Unlabel(hits: seq<Hit>): seq<Hit> {
    seq(|hits|, i requires 0 <= i < |hits| => Unlabelled(hits[i]))
  }

  lemma UnlabelConcat(a: seq<Hit>, b: seq<Hit>)
    ensures Unlabel(a + b) == Unlabel(a) + Unlabel(b)
  {
  }

  lemma {:induction false} ScanConcat(a: seq<ParityTrace>, b: seq<ParityTrace>, block: seq<ParityTrace>)
    ensures ScanHits(a + b, block) == ScanHits(a, block) + ScanHits(b, block)
  {
    if a == [] {
      assert a + b == b;
    } else {
      assert (a + b)[1..] == a[1..] + b;
      ScanConcat(a[1..], b, block);
    }
  }

  lemma {:induction false} AllSkipped(list: seq<ParityTrace>, block: seq<ParityTrace>)
    requires forall t :: t in list ==> Skipped(t, block)
    ensures ScanHits(list, block) == []
  {
    if list != [] {
      AllSkipped(list[1..], block);
    }
  }

  /** Upper and lower case agree on what a plain call is. */
  lemma CallCase(kind: string)
    ensures Fold(kind) == "call" <==> Upper(kind) == "CALL"
  {
    if Fold(kind) == "call" {
      assert |kind| == 4;
      forall i | 0 <= i < 4 ensures UpperChar(kind[i]) == "CALL"[i] {
        assert LowerChar(kind[i]) == Fold(kind)[i] == "call"[i];
      }
    }
    if Upper(kind) == "CALL" {
      forall i | 0 <= i < 4 ensures LowerChar(kind[i]) == "call"[i] {
        assert UpperChar(kind[i]) == Upper(kind)[i] == "CALL"[i];
      }
    }
  }

  /** A frame that did not revert contributes the same in both shapes, up to the label. */
  lemma SameHits(tx: string, path: seq<nat>, f: CallFrame)
    requires f.error == ""
    ensures Unlabel(ParityHits(ToParity(tx, path, f))) == Unlabel(FrameHits(tx, path, f))
  {
    CallCase(f.kind);
  }

  // ---- Paths in a flat list ----

  lemma {:induction false} FlattenPaths(tx: string, path: seq<nat>, f: CallFrame)
    ensures forall t :: t in Flatten(tx, path, f) ==> path <= t.traceAddress
    ensures forall t :: t in Flatten(tx, path, f) && t.traceAddress == path ==> t == ToParity(tx, path, f)
    decreases f, 1, 0
  {
    FlattenAllPaths(tx, path, f.calls, 0);
  }

  lemma {:induction false} FlattenAllPaths(tx: string, prefix: seq<nat>, frames: seq<CallFrame>, i: nat)
    requires i <= |frames|
    ensures forall t :: t in FlattenAll(tx, prefix, frames, i) ==>
      prefix < t.traceAddress && i <= t.traceAddress[|prefix|] < |frames|
    decreases frames, 0, |frames| - i
  {
    if i < |frames| {
      FlattenPaths(tx, prefix + [i], frames[i]);
      FlattenAllPaths(tx, prefix, frames, i + 1);
      forall t | t in FlattenAll(tx, prefix, frames, i)
        ensures prefix < t.traceAddress && i <= t.traceAddress[|prefix|] < |frames|
      {
        if t in Flatten(tx, prefix + [i], frames[i]) {
          assert (prefix + [i])[|prefix|] == i;
        }
      }
    }
  }

  /** The entries below child `j` of a flat list are that child's own. */
  lemma {:induction false} FlattenChild(tx: string, prefix: seq<nat>, frames: seq<CallFrame>, i: nat, j: nat,
      t: ParityTrace)
    requires i <= j < |frames|
    requires t in FlattenAll(tx, prefix, frames, i) && prefix + [j] <= t.traceAddress
    ensures t in Flatten(tx, prefix + [j], frames[j])
    decreases |frames| - i
  {
    assert t.traceAddress[|prefix|] == (prefix + [j])[|prefix|] == j;
    if i < j {
      FlattenPaths(tx, prefix + [i], frames[i]);
      if t in Flatten(tx, prefix + [i], frames[i]) {
        assert t.traceAddress[|prefix|] == (prefix + [i])[|prefix|] == i;
      }
      FlattenChild(tx, prefix, frames, i + 1, j, t);
    } else {
      FlattenAllPaths(tx, prefix, frames, i + 1);
    }
  }

  /** Every entry of a child is an entry of the list. */
  lemma {:induction false} ChildInFlatten(tx: string, prefix: seq<nat>, frames: seq<CallFrame>, i: nat, j: nat)
    requires i <= j < |frames|
    ensures forall t :: t in Flatten(tx, prefix + [j], frames[j]) ==> t in FlattenAll(tx, prefix, frames, i)
    decreases |frames| - i
  {
    if i < j {
      ChildInFlatten(tx, prefix, frames, i + 1, j);
    }
  }

  // ---- One transaction ----

  /** The failed traces of `block` at or below `prefix` are those of `list`, and none is above it. */
  ghost predicate Local(block: seq<ParityTrace>, prefix: seq<nat>, list: seq<ParityTrace>) {
    && (forall t :: t in list ==> t in block)
    && (forall t :: t in block && t.error != "" && prefix <= t.traceAddress ==> t in list)
    && (forall t :: t in block && t.error != "" ==> !(t.traceAddress <= prefix))
  }

  /** A surviving frame and its subtree, given that its calls already agree. */
  lemma SurvivorAgrees(tx: string, p: seq<nat>, f: CallFrame, block: seq<ParityTrace>)
    requires f.error == "" && !Skipped(ToParity(tx, p, f), block)
    requires Unlabel(ScanHits(FlattenAll(tx, p, f.calls, 0), block)) == Unlabel(WalkHits(tx, p, f.calls, 0))
    ensures Unlabel(ScanHits(Flatten(tx, p, f), block)) == Unlabel(FrameHits(tx, p, f) + WalkHits(tx, p, f.calls, 0))
  {
    var top, below := ToParity(tx, p, f), FlattenAll(tx, p, f.calls, 0);
    ScanConcat([top], below, block);
    assert ScanHits([top], block) == ParityHits(top) + ScanHits([], block) == ParityHits(top);
    SameHits(tx, p, f);
    UnlabelConcat(ParityHits(top), ScanHits(below, block));
    UnlabelConcat(FrameHits(tx, p, f), WalkHits(tx, p, f.calls, 0));
  }

  /** Below a prefix whose ancestors all survived, the scan finds what the walk finds. */
  lemma {:induction false} ScanIsWalk(tx: string, prefix: seq<nat>, frames: seq<CallFrame>, i: nat,
      block: seq<ParityTrace>)
    requires i <= |frames| && Local(block, prefix, FlattenAll(tx, prefix, frames, 0))
    ensures Unlabel(ScanHits(FlattenAll(tx, prefix, frames, i), block)) == Unlabel(WalkHits(tx, prefix, frames, i))
    decreases frames, |frames| - i
  {
    if i < |frames| {
      var p, f := prefix + [i], frames[i];
      var rest := WalkHits(tx, prefix, frames, i + 1);
      ScanConcat(Flatten(tx, p, f), FlattenAll(tx, prefix, frames, i + 1), block);
      UnlabelConcat(ScanHits(Flatten(tx, p, f), block), ScanHits(FlattenAll(tx, prefix, frames, i + 1), block));
      ScanIsWalk(tx, prefix, frames, i + 1, block);
      if f.error != "" {
        RevertedSubtree(tx, prefix, frames, i, block);
      } else {
        SurvivingSubtree(tx, prefix, frames, i, block);
        ScanIsWalk(tx, p, f.calls, 0, block);
        SurvivorAgrees(tx, p, f, block);
        UnlabelConcat(FrameHits(tx, p, f) + WalkHits(tx, p, f.calls, 0), rest);
      }
    }
  }

  lemma RevertedSubtree(tx: string, prefix: seq<nat>, frames: seq<CallFrame>, i: nat, block: seq<ParityTrace>)
    requires i < |frames| && frames[i].error != "" && Local(block, prefix, FlattenAll(tx, prefix, frames, 0))
    ensures ScanHits(Flatten(tx, prefix + [i], frames[i]), block) == []
  {
    var p, f := prefix + [i], frames[i];
    var top := ToParity(tx, p, f);
    ChildInFlatten(tx, prefix, frames, 0, i);
    assert top in Flatten(tx, p, f);
    assert top in block && top.error != "" && top.traceAddress == p;
    FlattenPaths(tx, p, f);
    AllSkipped(Flatten(tx, p, f), block);
  }

  lemma SurvivingSubtree(tx: string, prefix: seq<nat>, frames: seq<CallFrame>, i: nat, block: seq<ParityTrace>)
    requires i < |frames| && frames[i].error == "" && Local(block, prefix, FlattenAll(tx, prefix, frames, 0))
    ensures Local(block, prefix + [i], FlattenAll(tx, prefix + [i], frames[i].calls, 0))
    ensures !Skipped(ToParity(tx, prefix + [i], frames[i]), block)
  {
    var p, f := prefix + [i], frames[i];
    var mine := Flatten(tx, p, f);
    ChildInFlatten(tx, prefix, frames, 0, i);
    FlattenPaths(tx, p, f);
    forall t | t in block && t.error != "" && p <= t.traceAddress
      ensures t in FlattenAll(tx, p, f.calls, 0)
    {
      FlattenChild(tx, prefix, frames, 0, i, t);
    }
    FlattenAllPaths(tx, p, f.calls, 0);
    forall t | t in block && t.error != "" ensures !(t.traceAddress <= p) {
      assert t.traceAddress <= p ==> t.traceAddress == p || t.traceAddress <= prefix;
    }
  }

  /** One transaction: the flat list and the call tree give the same transfers in the same order. */
  lemma TxEquivalence(tx: string, root: CallFrame)
    ensures var flat := Flatten(tx, [], root);
            Unlabel(ScanHits(flat, flat)) == Unlabel(TxHits(tx, root))
  {
    var top, below := ToParity(tx, [], root), FlattenAll(tx, [], root.calls, 0);
    var flat := Flatten(tx, [], root);
    assert flat == [top] + below && top in flat;
    FlattenAllPaths(tx, [], root.calls, 0);
    if root.error != "" {
      AllSkipped(flat, flat);
    } else {
      ScanIsWalk(tx, [], root.calls, 0, flat);
      ScanConcat([top], below, flat);
      assert ScanHits([top], flat) == [];
    }
  }

  // ---- A block of transactions ----

  /** The hits that no failed trace of `block` lies above. */
  function Keep(hits: seq<Hit>, block: seq<ParityTrace>): seq<Hit> {
    if hits == [] then []
    else (if Pruned(hits[0].Path(), block) then [] else [hits[0]]) + Keep(hits[1..], block)
  }

  lemma {:induction false} KeepConcat(a: seq<Hit>, b: seq<Hit>, block: seq<ParityTrace>)
    ensures Keep(a + b, block) == Keep(a, block) + Keep(b, block)
  {
    if a == [] {
      assert a + b == b;
    } else {
      assert a + b == [a[0]] + (a[1..] + b) && a == [a[0]] + a[1..];
      KeepConcat(a[1..], b, block);
      KeepCons(a[0], a[1..] + b, block);
      KeepCons(a[0], a[1..], block);
      var head := if Pruned(a[0].Path(), block) then [] else [a[0]];
      assert head + (Keep(a[1..], block) + Keep(b, block)) == head + Keep(a[1..], block) + Keep(b, block);
    }
  }

  lemma KeepCons(h: Hit, rest: seq<Hit>, block: seq<ParityTrace>)
    ensures Keep([h] + rest, block) == (if Pruned(h.Path(), block) then [] else [h]) + Keep(rest, block)
  {
    assert ([h] + rest)[1..] == rest;
  }

  lemma {:induction false} KeepUnlabel(hits: seq<Hit>, block: seq<ParityTrace>)
    ensures Unlabel(Keep(hits, block)) == Keep(Unlabel(hits), block)
  {
    if hits != [] {
      var head := if Pruned(hits[0].Path(), block) then [] else [hits[0]];
      KeepUnlabel(hits[1..], block);
      UnlabelConcat(head, Keep(hits[1..], block));
      assert Unlabel(hits)[1..] == Unlabel(hits[1..]);
    }
  }

  lemma KeepOne(t: ParityTrace, block: seq<ParityTrace>)
    ensures Keep(ParityHits(t), block) == if Pruned(t.traceAddress, block) then [] else ParityHits(t)
  {
  }

  /** Scanning against more traces only prunes more. */
  lemma {:induction false} ScanPrunesMore(list: seq<ParityTrace>, part: seq<ParityTrace>, block: seq<ParityTrace>)
    requires forall t :: t in part ==> t in block
    ensures ScanHits(list, block) == Keep(ScanHits(list, part), block)
  {
    if list != [] {
      var t := list[0];
      var head := if Skipped(t, part) then [] else ParityHits(t);
      ScanPrunesMore(list[1..], part, block);
      KeepConcat(head, ScanHits(list[1..], part), block);
      KeepOne(t, block);
    }
  }

  /** The scan of a block keeps, of each transaction's transfers, those nothing in the block prunes. */
  lemma {:induction false} ScanOfBlock(txs: seq<TxTrace>, block: seq<ParityTrace>)
    requires forall t :: t in FlattenBlock(txs) ==> t in block
    ensures Unlabel(ScanHits(FlattenBlock(txs), block)) == Keep(Unlabel(BlockHits(txs)), block)
  {
    if txs != [] {
      var rest := FlattenBlock(txs[1..]);
      ScanOfBlock(txs[1..], block);
      if txs[0].root.Some? {
        var tx, root := txs[0].txHash, txs[0].root.value;
        var flat := Flatten(tx, [], root);
        ScanConcat(flat, rest, block);
        UnlabelConcat(ScanHits(flat, block), ScanHits(rest, block));
        ScanPrunesMore(flat, flat, block);
        KeepUnlabel(ScanHits(flat, flat), block);
        TxEquivalence(tx, root);
        UnlabelConcat(TxHits(tx, root), BlockHits(txs[1..]));
        KeepConcat(Unlabel(TxHits(tx, root)), Unlabel(BlockHits(txs[1..])), block);
      } else {
        assert FlattenBlock(txs) == rest && BlockHits(txs) == BlockHits(txs[1..]);
      }
    }
  }

  lemma {:induction false} KeepMeaning(hits: seq<Hit>, block: seq<ParityTrace>)
    ensures forall h :: h in Keep(hits, block) <==> h in hits && !Pruned(h.Path(), block)
    ensures |Keep(hits, block)| <= |hits|
    ensures |Keep(hits, block)| == |hits| <==> Keep(hits, block) == hits
    ensures Keep(hits, block) == hits <==> forall h :: h in hits ==> !Pruned(h.Path(), block)
  {
    if hits != [] {
      KeepMeaning(hits[1..], block);
      assert forall h :: h in hits <==> h == hits[0] || h in hits[1..];
      assert hits == [hits[0]] + hits[1..];
    }
  }

  /** What the two block-level backends report, up to the label. */
  function FromCallTrees(txs: seq<TxTrace>): Option<seq<Transfer>> {
    Collect(Unlabel(BlockHits(txs)))
  }

  function FromFlatList(traces: seq<ParityTrace>): Option<seq<Transfer>> {
    Collect(Unlabel(ScanHits(traces, traces)))
  }

  lemma {:induction false} CollectMeaning(hits: seq<Hit>)
    ensures Collect(hits).None? <==> exists h :: h in hits && h.BadValue?
    ensures Collect(hits).Some? ==>
      |Collect(hits).value| == |hits| && forall i :: 0 <= i < |hits| ==> hits[i] == Moves(Collect(hits).value[i])
  {
    if hits != [] {
      CollectMeaning(hits[1..]);
      assert forall h :: h in hits <==> h == hits[0] || h in hits[1..];
    }
  }

  /** Dropping hits leaves the result alone only if nothing was dropped, or a bad value remains. */
  lemma CollectIff(hits: seq<Hit>, kept: seq<Hit>)
    requires |kept| == |hits| ==> kept == hits
    requires forall h :: h in kept ==> h in hits
    ensures Collect(kept) == Collect(hits) <==> kept == hits || exists h :: h in kept && h.BadValue?
  {
    CollectMeaning(hits);
    CollectMeaning(kept);
  }

  /**
   * The backends agree on a block if and only if no failed trace lies above a surviving hit, or
   * some surviving value that nothing prunes fails to parse, so that both report an error.
   */
  lemma BackendsAgreeIff(txs: seq<TxTrace>)
    ensures var flat := FlattenBlock(txs);
            var hits := Unlabel(BlockHits(txs));
            FromFlatList(flat) == FromCallTrees(txs) <==>
              || (forall h :: h in hits ==> !Pruned(h.Path(), flat))
              || (exists h :: h in hits && h.BadValue? && !Pruned(h.Path(), flat))
  {
    var flat := FlattenBlock(txs);
    var hits := Unlabel(BlockHits(txs));
    var kept := Keep(hits, flat);
    ScanOfBlock(txs, flat);
    KeepMeaning(hits, flat);
    CollectIff(hits, kept);
  }

  /** A single transaction's backends always agree. */
  lemma OneTxAgrees(tx: string, root: CallFrame)
    ensures FromFlatList(Flatten(tx, [], root)) == Collect(Unlabel(TxHits(tx, root)))
  {
    TxEquivalence(tx, root);
  }

  /** A reverted root anywhere in the block makes the flat list report nothing at all. */
  lemma RevertedRootPrunesBlock(traces: seq<ParityTrace>, root: ParityTrace)
    requires root in traces && root.traceAddress == [] && root.error != ""
    ensures FromFlatList(traces) == Some([])
  {
    forall t | t in traces ensures Skipped(t, traces) {
      assert t.traceAddress != [] ==> root.traceAddress < t.traceAddress;
    }
    AllSkipped(traces, traces);
    var none: seq<Hit> := [];
    assert Unlabel(none) == none;
  }

  const PAYING: CallFrame := CallFrame("CALL", "a", "b", "0x1", "", [CallFrame("CALL", "b", "c", "0x5", "", [])])
  const FAILING: CallFrame := CallFrame("CALL", "a", "b", "0x1", "reverted", [])
  const PAYMENT: Transfer := Transfer("t2", [0], "b", "c", 5, Fold("CALL"), false)

  lemma PayingHits()
    ensures TxHits("t2", PAYING) == [Moves(PAYMENT)]
  {
    PlainCall();
    FiveWei();
    assert FrameHits("t2", [0], PAYING.calls[0]) == [Moves(PAYMENT)];
    assert [] + [0] == [0];
    assert WalkHits("t2", [0], [], 0) == [] && WalkHits("t2", [], PAYING.calls, 1) == [];
  }

  /** Two transactions, the first reverted: the call trees report the second's transfer, the flat list does not. */
  lemma PooledPruningExample()
    ensures var txs := [TxTrace("t1", Some(FAILING)), TxTrace("t2", Some(PAYING))];
            && FromFlatList(FlattenBlock(txs)) == Some([])
            && FromCallTrees(txs) == Some([PAYMENT.(callType := "")])
  {
    var second := [TxTrace("t2", Some(PAYING))];
    var txs := [TxTrace("t1", Some(FAILING)), TxTrace("t2", Some(PAYING))];
    var root := ToParity("t1", [], FAILING);
    assert FlattenBlock(txs)[0] == root;
    RevertedRootPrunesBlock(FlattenBlock(txs), root);
    PayingHits();
    assert second[1..] == [] && txs[1..] == second;
    assert BlockHits(second) == [Moves(PAYMENT)] + BlockHits([]);
    assert BlockHits(txs) == [] + BlockHits(second);
    var hits := Unlabel(BlockHits(txs));
    assert hits == [Moves(PAYMENT.(callType := ""))];
    CollectPayment();
  }

  lemma CollectPayment()
    ensures Collect([Moves(PAYMENT.(callType := ""))]) == Some([PAYMENT.(callType := "")])
  {
    var t := PAYMENT.(callType := "");
    assert [Moves(t)][1..] == [] && [t] + [] == [t];
  }

  lemma FiveWei()
    ensures ParseHexValue("0x5") == Some(5)
  {
    var s := "0x5";
    assert "0x" <= s && s[2..] == "5";
    assert TrimPrefix(s, "0x") == "5";
    assert !("0X" <= "5");
    assert HexNumber("5") == Some(5);
  }

  lemma PlainCall()
    ensures IsValueMovingCall("CALL") && !IsCreate("CALL")
  {
    assert Upper("CALL") == "CALL";
  }
}
