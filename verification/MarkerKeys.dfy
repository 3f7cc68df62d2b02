/** The deduplication keys of the reorg markers of one run. */
module MarkerKeys {
  import opened Common
  import opened Chain
  import opened Follower
  import opened Convergence
  import opened Rewind
  import opened Retraction
  import opened Seams
  import Joining
  import D = DedupKey

  /** A marker's record: the orphaned tip and the hash that is canonical there now, if it could be read. */
  function Envelope(chainId: int, d: ReorgData, emittedAt: string): D.Envelope {
    D.Envelope(D.Reorg, "reorg", chainId, d.toBlock, d.newHash, "", None, [], emittedAt)
  }

  function NewHash(p: Poll, tip: nat): Hash
    requires tip < |p.chain|
  {
    if p.tipOk then p.chain[tip] else ""
  }

  predicate CleanChain(p: Poll) {
    forall i :: 0 <= i < |p.chain| ==> Joining.Free(p.chain[i], '|')
  }

  /**
   * Two markers, of any two polls of a run, share a key if and only if they report the same tip and
   * the same new hash, whatever was replaced: the chain flipped back, or neither hash could be read.
   */
  lemma MarkersShareKeyIff(chainId: int, depth: nat, s: State, p: Poll, t: State, q: Poll, at: string, later: string)
    requires p.Valid() && q.Valid() && CleanChain(p) && CleanChain(q)
    requires Joining.Free(at, '|') && Joining.Free(later, '|')
    requires CheckFrontier(depth, s, p).Orphaned? && CheckFrontier(depth, t, q).Orphaned?
    ensures s.next > 0 && t.next > 0
    ensures var m, n := Frontier(s.next, p.Head()), Frontier(t.next, q.Head());
            D.DedupKey(Envelope(chainId, CheckFrontier(depth, s, p).data, at))
              == D.DedupKey(Envelope(chainId, CheckFrontier(depth, t, q).data, later))
            <==> m == n && NewHash(p, m) == NewHash(q, n)
  {
    CheckMeaning(depth, s, p);
    CheckMeaning(depth, t, q);
    D.SameKeyIff(Envelope(chainId, CheckFrontier(depth, s, p).data, at),
                 Envelope(chainId, CheckFrontier(depth, t, q).data, later));
  }

  // ---- A chain that flips back and forth ----

  const MIRROR: Record := Marker(ReorgData(1, 2, 2, 1, "b2", "a2", false))
  const FLIPPED: State := State(3, map[1 := "a1", 2 := "b2"], FOLLOWED.out + [MARK] + [Block(2, "b2")])
  const BACK: State := State(3, map[1 := "a1", 2 := "a2"], FLIPPED.out + [MIRROR] + [Block(2, "a2")])
  const AGAIN_FLIPPED: State := State(3, map[1 := "a1", 2 := "b2"], BACK.out + [MARK] + [Block(2, "b2")])

  lemma FlipSeen(s: State)
    requires s == FOLLOWED || s == BACK
    ensures CheckFrontier(8, s, Seen(SHORT, 9)) == Orphaned(MARK.data)
  {
    DifferentHashes();
    assert SearchFork(s.hashes, Seen(SHORT, 9), 2, 0) == Found(1);
  }

  lemma Flip(s: State, t: State)
    requires s == FOLLOWED || s == BACK
    requires t == State(3, map[1 := "a1", 2 := "b2"], s.out + [MARK] + [Block(2, "b2")])
    requires Reachable(8, 100, 1, s)
    ensures CheckFrontier(8, s, Seen(SHORT, 9)) == Orphaned(MARK.data) && Reachable(8, 100, 1, t)
  {
    FlipSeen(s);
    assert Blocks(SHORT, 2, 3) == [Block(2, "b2")];
    StepReachable(8, 100, 1, s, Seen(SHORT, 9), t);
  }

  lemma FlipBack()
    requires Reachable(8, 100, 1, FLIPPED)
    ensures Reachable(8, 100, 1, BACK)
  {
    DifferentHashes();
    assert SearchFork(FLIPPED.hashes, Seen(BEFORE, 9), 2, 0) == Found(1);
    assert Blocks(BEFORE, 2, 3) == [Block(2, "a2")];
    StepReachable(8, 100, 1, FLIPPED, Seen(BEFORE, 9), BACK);
  }

  /** The output without its last marker and block, and with the block but without the repeated marker. */
  lemma Withheld()
    ensures Holds(BACK.out + [Block(2, "b2")], 2, Fold("a2"))
    ensures !Holds(AGAIN_FLIPPED.out, 2, Fold("a2"))
  {
    var a2 := Fold("a2");
    HoldsSnoc(FLIPPED.out + [MIRROR], Block(2, "a2"), 2, a2);
    HoldsSnoc(BACK.out, Block(2, "b2"), 2, a2);
    HoldsSnoc(BACK.out, MARK, 2, a2);
    HoldsSnoc(BACK.out + [MARK], Block(2, "b2"), 2, a2);
    DifferentHashes();
  }

  /**
   * Block 2 is replaced, comes back and is replaced again: the first and the third marker are one
   * record. A consumer that drops the repetition keeps the orphaned block it asks to retract.
   */
  lemma FlipExample()
    ensures Reachable(8, 100, 1, AGAIN_FLIPPED) && AGAIN_FLIPPED.next == |SHORT|
    ensures AGAIN_FLIPPED.out == FOLLOWED.out + [MARK] + [Block(2, "b2")] + [MIRROR] + [Block(2, "a2")] + [MARK]
                                 + [Block(2, "b2")]
    ensures Holds(BACK.out + [Block(2, "b2")], 2, Fold("a2")) && !Holds(AGAIN_FLIPPED.out, 2, Fold("a2"))
  {
    Beginning(100);
    Following(100);
    Flip(FOLLOWED, FLIPPED);
    FlipBack();
    Flip(BACK, AGAIN_FLIPPED);
    Withheld();
  }
}
