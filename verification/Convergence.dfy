/**
 * Convergence: when what was last emitted for each height is what the node now says, for
 * polls over parent-linked snapshots; and what a reorg marker means.
 */
module Convergence {
  import opened Chain
  import opened Follower

  /** Everything last emitted below `bound` is the block of `c` at its height. */
  ghost predicate AgreesBelow(v: map<nat, Hash>, c: seq<Hash>, bound: nat)
    requires bound <= |c|
  {
    forall h: nat :: h < bound && h in v ==> SameHash(v[h], c[h])
  }

  ghost predicate Covers(v: map<nat, Hash>, lo: nat, hi: nat) {
    forall h: nat :: lo <= h < hi ==> h in v
  }

  /** Below `next` the view has no holes above its lowest height. */
  ghost predicate Upward(v: map<nat, Hash>, next: nat) {
    forall h: nat :: h in v && h + 1 < next ==> h + 1 in v
  }

  /** Below `next` the view has no holes above its lowest height and follows parent links. */
  ghost predicate LinkedView(parent: Hash -> Hash, v: map<nat, Hash>, next: nat) {
    && Upward(v, next)
    && (forall h: nat :: 0 < h < next && h in v && h - 1 in v ==> parent(Fold(v[h])) == Fold(v[h - 1]))
  }

  ghost predicate TrackedWithin(hashes: map<nat, Hash>, v: map<nat, Hash>, start: nat, next: nat) {
    forall h :: h in hashes ==> start <= h < next && h in v && v[h] == hashes[h]
  }

  /**
   * The tracked hashes were emitted, everything from the start was emitted and follows parent
   * links, and once something was processed the frontier is tracked.
   */
  ghost predicate ViewInv(parent: Hash -> Hash, start: nat, next: nat, hashes: map<nat, Hash>, v: map<nat, Hash>) {
    && start <= next
    && TrackedWithin(hashes, v, start, next)
    && Covers(v, start, next)
    && LinkedView(parent, v, next)
    && (start < next ==> next - 1 in hashes)
    && (start == next ==> forall h :: h in v ==> h >= next)
  }

  /** What every step of the run loop keeps, for a follower that started at height `start`. */
  ghost predicate Inv(parent: Hash -> Hash, start: nat, s: State) {
    ViewInv(parent, start, s.next, s.hashes, View(s.out))
  }

  /** Emitted heights that no reorg within `depth` can reach are still canonical. */
  ghost predicate FloorCanonical(depth: nat, s: State, p: Poll)
    requires p.Valid()
  {
    s.next > 0 ==>
      AgreesBelow(View(s.out), p.chain, Floor(Frontier(s.next, p.Head()), depth) + 1)
  }

  // ---- What a frontier check concludes ----

  /** An orphaned frontier was tracked and is not canonical; a fork that is not pinned was tracked and is. */
  lemma CheckMeaning(depth: nat, s: State, p: Poll)
    requires depth > 0 && p.Valid() && s.next > 0
    ensures var tip := Frontier(s.next, p.Head());
            match CheckFrontier(depth, s, p)
            case CheckFailed => tip in s.hashes
            case Canonical => tip in s.hashes ==> SameHash(p.chain[tip], s.hashes[tip])
            case Orphaned(d) =>
              && tip in s.hashes && !SameHash(p.chain[tip], s.hashes[tip])
              && d.toBlock == tip && d.fromBlock == d.forkBlock + 1 && d.oldHash == s.hashes[tip]
              && d.newHash == (if p.tipOk then p.chain[tip] else "")
              && d.forkBlock <= tip && d.depth == tip - d.forkBlock
              && (!d.depthExceeded ==> d.forkBlock < tip && d.forkBlock in s.hashes
                                       && SameHash(p.chain[d.forkBlock], s.hashes[d.forkBlock]))
              && (d.depthExceeded ==> d.forkBlock == (if tip > depth then tip - depth else 0)
                                      && forall m :: d.forkBlock <= m < tip && m in s.hashes
                                           ==> !SameHash(p.chain[m], s.hashes[m]))
  {
    var tip := Frontier(s.next, p.Head());
    SearchForkMeaning(s.hashes, p, tip, Floor(tip, depth));
  }

  /** The node's hash at the frontier is in the head's header, as its own or its parent's, or could be fetched. */
  predicate FrontierRead(p: Poll, tip: nat)
    requires p.chain != []
  {
    || (p.header.Header? && tip == p.Head() && p.header.hash != "")
    || (p.header.Header? && tip + 1 == p.Head() && p.header.parentHash != "")
    || p.frontierOk
  }

  /** Going down from `tip`, a header within the depth cannot be read before a fork is found. */
  ghost predicate ForkHidden(depth: nat, s: State, p: Poll, tip: nat)
    requires tip < |p.chain|
  {
    exists m: nat :: m < tip <= m + depth && m in s.hashes && m in p.dark && AllReplaced(s.hashes, p, m + 1, tip)
  }

  /** The verdict of the frontier check, as a function of what the node can show. */
  lemma CheckIff(depth: nat, s: State, p: Poll)
    requires depth > 0 && p.Valid() && s.next > 0
    ensures var tip := if s.next - 1 > p.Head() then p.Head() else s.next - 1;
            var k := CheckFrontier(depth, s, p);
            if tip !in s.hashes then k.Canonical?
            else if !FrontierRead(p, tip) then k.CheckFailed?
            else if SameHash(p.chain[tip], s.hashes[tip]) then k.Canonical?
            else if ForkHidden(depth, s, p, tip) then k.CheckFailed? else k.Orphaned?
  {
    var tip := Frontier(s.next, p.Head());
    var floor := Floor(tip, depth);
    SearchForkMeaning(s.hashes, p, tip, floor);
    if tip in s.hashes && ForkHidden(depth, s, p, tip) {
      var m: nat :| m < tip <= m + depth && m in s.hashes && m in p.dark && AllReplaced(s.hashes, p, m + 1, tip);
      assert floor <= m;
    }
  }

  /** With a depth of zero reorgs are not looked for. */
  lemma DepthZeroIsCanonical(s: State, p: Poll)
    requires p.Valid()
    ensures CheckFrontier(0, s, p).Canonical?
  {
  }

  /** Agreement at one height is agreement at every emitted height below it. */
  lemma {:induction false} AgreeDown(parent: Hash -> Hash, v: map<nat, Hash>, next: nat, c: seq<Hash>, n: nat, h: nat)
    requires LinkedView(parent, v, next) && Linked(parent, c)
    requires h <= n < next && n < |c| && n in v && h in v && SameHash(v[n], c[n])
    ensures SameHash(v[h], c[h])
    decreases n - h
  {
    if h < n {
      AgreeDown(parent, v, next, c, n, h + 1);
      assert parent(Fold(v[h + 1])) == Fold(v[h]);
      assert parent(Fold(c[h + 1])) == Fold(c[h]);
    }
  }

  lemma AgreeUpTo(parent: Hash -> Hash, v: map<nat, Hash>, next: nat, c: seq<Hash>, n: nat)
    requires LinkedView(parent, v, next) && Linked(parent, c)
    requires n < next && n < |c| && n in v && SameHash(v[n], c[n])
    ensures AgreesBelow(v, c, n + 1)
  {
    forall h: nat | h < n + 1 && h in v ensures SameHash(v[h], c[h]) {
      AgreeDown(parent, v, next, c, n, h);
    }
  }

  // ---- One poll ----

  /** A view that agrees with a linked chain up to its head is linked. */
  lemma AgreementLinks(parent: Hash -> Hash, v: map<nat, Hash>, c: seq<Hash>)
    requires Linked(parent, c) && AgreesBelow(v, c, |c|) && Upward(v, |c|)
    ensures LinkedView(parent, v, |c|)
  {
    forall h: nat | 0 < h < |c| && h in v && h - 1 in v ensures parent(Fold(v[h])) == Fold(v[h - 1]) {
      assert SameHash(v[h], c[h]) && SameHash(v[h - 1], c[h - 1]);
    }
  }

  lemma OverlaidAgrees(w: map<nat, Hash>, v: map<nat, Hash>, c: seq<Hash>, lo: nat)
    requires lo <= |c| && Overlaid(w, v, c, lo, |c|) && AgreesBelow(v, c, lo)
    ensures AgreesBelow(w, c, |c|)
  {
  }

  lemma OverlaidUpward(w: map<nat, Hash>, v: map<nat, Hash>, c: seq<Hash>, lo: nat)
    requires lo < |c| && Overlaid(w, v, c, lo, |c|) && Upward(v, lo)
    ensures Upward(w, |c|)
  {
    forall h: nat | h in w && h + 1 < |c| ensures h + 1 in w {
      if h + 1 < lo {
        assert h in v;
      }
    }
  }

  lemma RecordTracked(depth: nat, hashes: map<nat, Hash>, w: map<nat, Hash>, start: nat, head: nat, hash: Hash)
    requires depth > 0 && hash != "" && start <= head
    requires TrackedWithin(hashes, w, start, head) && head in w && w[head] == hash
    ensures TrackedWithin(RecordHash(depth, hashes, head, hash, head), w, start, head + 1)
    ensures head in RecordHash(depth, hashes, head, hash, head)
  {
  }

  lemma OverlaidTracked(hashes: map<nat, Hash>, w: map<nat, Hash>, v: map<nat, Hash>, c: seq<Hash>, start: nat, lo: nat)
    requires lo < |c| && Overlaid(w, v, c, lo, |c|) && TrackedWithin(hashes, v, start, lo)
    ensures TrackedWithin(hashes, w, start, |c| - 1)
  {
  }

  /** A state from which extending to the head of `c` makes the whole view agree with `c`. */
  ghost predicate Aligned(start: nat, s: State, c: seq<Hash>) {
    var v := View(s.out);
    && s.next < |c| && start < |c| && AgreesBelow(v, c, s.next) && Covers(v, start, s.next)
    && Upward(v, s.next) && TrackedWithin(s.hashes, v, start, s.next)
  }

  /** Once the view agrees below the resume height, extending to the head makes all of it agree. */
  lemma ExtendAgrees(parent: Hash -> Hash, depth: nat, chunk: nat, start: nat, s: State, p: Poll)
    requires depth > 0 && chunk > 0 && p.Valid() && Linked(parent, p.chain) && p.HeaderReadable()
    requires p.Head() < p.failAt && Aligned(start, s, p.chain)
    ensures var t := Extend(depth, chunk, s, p).0;
            t.next == |p.chain| && Inv(parent, start, t) && AgreesBelow(View(t.out), p.chain, |p.chain|)
  {
    var t := Extend(depth, chunk, s, p).0;
    var c, v, w := p.chain, View(s.out), View(t.out);
    ViewBlocks(s.out, c, s.next, |c|);
    OverlaidAgrees(w, v, c, s.next);
    OverlaidUpward(w, v, c, s.next);
    OverlaidTracked(s.hashes, w, v, c, start, s.next);
    RecordTracked(depth, s.hashes, w, start, p.Head(), p.header.hash);
    AgreementLinks(parent, w, c);
    assert Covers(w, start, |c|);
  }

  /** A canonical frontier vouches for everything emitted below it. */
  lemma CanonicalAligned(parent: Hash -> Hash, depth: nat, start: nat, s: State, p: Poll)
    requires depth > 0 && p.Valid() && Linked(parent, p.chain) && Inv(parent, start, s)
    requires CheckFrontier(depth, s, p).Canonical? && s.next <= |p.chain|
    ensures AgreesBelow(View(s.out), p.chain, s.next)
  {
    if start < s.next {
      CheckMeaning(depth, s, p);
      AgreeUpTo(parent, View(s.out), s.next, p.chain, s.next - 1);
    }
  }

  lemma ViewRewound(s: State, d: ReorgData)
    ensures View(Rewound(s, d).out) == View(s.out)
  {
    ViewAppend(s.out, Marker(d));
  }

  /** A fork that was found vouches for everything emitted up to it. */
  lemma ForkAgrees(parent: Hash -> Hash, depth: nat, start: nat, s: State, p: Poll)
    requires depth > 0 && p.Valid() && Linked(parent, p.chain) && Inv(parent, start, s) && s.next > 0
    requires var k := CheckFrontier(depth, s, p); k.Orphaned? && !k.data.depthExceeded
    ensures var d := CheckFrontier(depth, s, p).data;
            d.forkBlock < |p.chain| && AgreesBelow(View(s.out), p.chain, d.forkBlock + 1)
  {
    CheckMeaning(depth, s, p);
    AgreeUpTo(parent, View(s.out), s.next, p.chain, CheckFrontier(depth, s, p).data.forkBlock);
  }

  /** After a rewind to a fork below which everything agrees, the state is ready to extend. */
  lemma RewoundAligned(parent: Hash -> Hash, depth: nat, start: nat, s: State, p: Poll)
    requires depth > 0 && p.Valid() && Inv(parent, start, s) && s.next > 0
    requires CheckFrontier(depth, s, p).Orphaned?
    requires var d := CheckFrontier(depth, s, p).data;
             d.forkBlock < p.Head() && AgreesBelow(View(s.out), p.chain, d.forkBlock + 1)
    ensures Aligned(start, Rewound(s, CheckFrontier(depth, s, p).data), p.chain)
  {
    CheckMeaning(depth, s, p);
    ViewRewound(s, CheckFrontier(depth, s, p).data);
  }

  /** The emitted heights from the start to the head all carry the snapshot's blocks. */
  ghost predicate Converged(start: nat, s: State, c: seq<Hash>) {
    Covers(View(s.out), start, |c|) && forall h: nat :: start <= h < |c| ==> SameHash(View(s.out)[h], c[h])
  }

  /**
   * Polls that always converge: the head header was read, a rewind does not fail, and a fork is
   * pinned only over canonical blocks. Module Seams does without.
   */
  ghost predicate Tame(parent: Hash -> Hash, depth: nat, chunk: nat, s: State, p: Poll)
    requires chunk > 0
  {
    && p.Valid() && Linked(parent, p.chain) && p.HeaderReadable()
    && (Rewinds(depth, s, p) && CheckFrontier(depth, s, p).data.depthExceeded ==> FloorCanonical(depth, s, p))
    && (PollOnce(depth, chunk, s, p).1 || !Rewinds(depth, s, p))
  }

  /** A successful poll keeps the invariant, and converges whenever it ends just past the head. */
  lemma SuccessConverges(parent: Hash -> Hash, depth: nat, chunk: nat, start: nat, s: State, p: Poll)
    requires depth > 0 && chunk > 0 && Inv(parent, start, s) && Tame(parent, depth, chunk, s, p)
    requires PollOnce(depth, chunk, s, p).1
    ensures var t := PollOnce(depth, chunk, s, p).0;
            Inv(parent, start, t) && (t.next == |p.chain| ==> Converged(start, t, p.chain))
  {
    if s.next > 0 {
      CheckMeaning(depth, s, p);
    }
    match CheckFrontier(depth, s, p)
    case Canonical =>
      if s.next <= |p.chain| {
        CanonicalAligned(parent, depth, start, s, p);
        if s.next < |p.chain| && start < |p.chain| {
          ExtendAgrees(parent, depth, chunk, start, s, p);
        }
      }
    case Orphaned(d) =>
      assert d.forkBlock < p.Head() && AgreesBelow(View(s.out), p.chain, d.forkBlock + 1) by {
        if !d.depthExceeded {
          ForkAgrees(parent, depth, start, s, p);
        } else {
          assert d.toBlock > d.forkBlock;
        }
      }
      RewoundAligned(parent, depth, start, s, p);
      ExtendAgrees(parent, depth, chunk, start, Rewound(s, d), p);
  }

  /** Overlaying a suffix of `c` makes the whole agree exactly if the part below it did. */
  lemma OverlaidConvergesIff(w: map<nat, Hash>, v: map<nat, Hash>, c: seq<Hash>, start: nat, lo: nat, next: nat)
    requires lo <= |c| && Overlaid(w, v, c, lo, |c|) && Covers(v, start, next) && lo <= next
    ensures (Covers(w, start, |c|) && forall h: nat :: start <= h < |c| ==> SameHash(w[h], c[h]))
       <==> (forall h: nat :: start <= h < lo ==> SameHash(v[h], c[h]))
  {
    assert Covers(w, start, |c|);
    forall h: nat | start <= h < |c| ensures SameHash(w[h], c[h]) <==> (h < lo ==> SameHash(v[h], c[h])) {
    }
  }

  /** After its marker a successful poll emits the canonical blocks past the fork, once, in order. */
  lemma RewindReemits(depth: nat, chunk: nat, s: State, p: Poll)
    requires depth > 0 && chunk > 0 && s.next > 0 && p.Valid() && Rewinds(depth, s, p)
    requires PollOnce(depth, chunk, s, p).1
    ensures var d := CheckFrontier(depth, s, p).data;
            d.forkBlock < |p.chain|
            && PollOnce(depth, chunk, s, p).0.out
               == s.out + [Marker(d)] + Blocks(p.chain, d.forkBlock + 1, |p.chain|)
  {
    CheckMeaning(depth, s, p);
  }

  /** The view after a rewinding poll: the old view up to the fork, the node's blocks past it. */
  lemma RewindView(depth: nat, chunk: nat, s: State, p: Poll)
    requires depth > 0 && chunk > 0 && s.next > 0 && p.Valid() && Rewinds(depth, s, p)
    requires PollOnce(depth, chunk, s, p).1
    ensures var d := CheckFrontier(depth, s, p).data;
            d.forkBlock < |p.chain|
            && Overlaid(View(PollOnce(depth, chunk, s, p).0.out), View(s.out), p.chain, d.forkBlock + 1, |p.chain|)
  {
    var d := CheckFrontier(depth, s, p).data;
    RewindReemits(depth, chunk, s, p);
    ViewAppend(s.out, Marker(d));
    ViewBlocks(s.out + [Marker(d)], p.chain, d.forkBlock + 1, |p.chain|);
  }

  /**
   * What a state keeps even if its frontier is not tracked: the tracked hashes were emitted,
   * everything from the start was, and what lies below the head of `c` follows parent links.
   */
  ghost predicate Loose(parent: Hash -> Hash, start: nat, s: State, c: seq<Hash>) {
    && TrackedWithin(s.hashes, View(s.out), start, s.next)
    && Covers(View(s.out), start, s.next)
    && LinkedView(parent, View(s.out), if s.next < |c| then s.next else |c|)
  }

  /** What was last emitted at `h`, if `h` is not below the start, is the block of `c`. */
  ghost predicate Vouched(v: map<nat, Hash>, c: seq<Hash>, start: nat, h: nat) {
    start <= h ==> h < |c| && h in v && SameHash(v[h], c[h])
  }

  ghost predicate AllVouched(v: map<nat, Hash>, c: seq<Hash>, start: nat, top: nat) {
    forall h: nat :: h <= top ==> Vouched(v, c, start, h)
  }

  /** Should the fork be pinned to the floor of the window, everything emitted up to it is canonical. */
  ghost predicate FloorVouched(depth: nat, start: nat, s: State, p: Poll)
    requires p.Valid() && CheckFrontier(depth, s, p).Orphaned?
  {
    var d := CheckFrontier(depth, s, p).data;
    d.depthExceeded ==> AllVouched(View(s.out), p.chain, start, d.forkBlock)
  }

  /** Nothing below the resume height is left to vouch for, or its top height does. */
  ghost predicate TopVouched(v: map<nat, Hash>, c: seq<Hash>, start: nat, next: nat) {
    next > 0 ==> Vouched(v, c, start, next - 1)
  }

  lemma ExtendView(depth: nat, chunk: nat, s: State, p: Poll)
    requires chunk > 0 && p.Valid() && !Rewinds(depth, s, p)
    requires PollOnce(depth, chunk, s, p).1 && PollOnce(depth, chunk, s, p).0.next == |p.chain|
    ensures s.next <= |p.chain|
    ensures Overlaid(View(PollOnce(depth, chunk, s, p).0.out), View(s.out), p.chain, s.next, |p.chain|)
  {
    if s.next < |p.chain| {
      ViewBlocks(s.out, p.chain, s.next, |p.chain|);
    }
  }

  /** Below a resume height parent links carry the agreement at the top down to the start. */
  lemma OverlaidTop(parent: Hash -> Hash, w: map<nat, Hash>, v: map<nat, Hash>, c: seq<Hash>, start: nat, next: nat)
    requires next <= |c| && Overlaid(w, v, c, next, |c|) && Covers(v, start, next)
    requires LinkedView(parent, v, next) && Linked(parent, c)
    ensures (Covers(w, start, |c|) && forall h: nat :: start <= h < |c| ==> SameHash(w[h], c[h]))
       <==> TopVouched(v, c, start, next)
  {
    OverlaidConvergesIff(w, v, c, start, next, next);
    if start < next && SameHash(v[next - 1], c[next - 1]) {
      AgreeUpTo(parent, v, next, c, next - 1);
    }
  }

  lemma ExtendConvergesIff(parent: Hash -> Hash, depth: nat, chunk: nat, start: nat, s: State, p: Poll)
    requires chunk > 0 && p.Valid() && Linked(parent, p.chain) && Loose(parent, start, s, p.chain)
    requires PollOnce(depth, chunk, s, p).1 && PollOnce(depth, chunk, s, p).0.next == |p.chain|
    requires !Rewinds(depth, s, p)
    ensures Converged(start, PollOnce(depth, chunk, s, p).0, p.chain)
        <==> TopVouched(View(s.out), p.chain, start, s.next)
  {
    ExtendView(depth, chunk, s, p);
    OverlaidTop(parent, View(PollOnce(depth, chunk, s, p).0.out), View(s.out), p.chain, start, s.next);
  }

  lemma OverlaidUpTo(w: map<nat, Hash>, v: map<nat, Hash>, c: seq<Hash>, start: nat, fork: nat, next: nat)
    requires fork < |c| && fork < next && Overlaid(w, v, c, fork + 1, |c|) && Covers(v, start, next)
    ensures (Covers(w, start, |c|) && forall h: nat :: start <= h < |c| ==> SameHash(w[h], c[h]))
       <==> AllVouched(v, c, start, fork)
  {
    OverlaidConvergesIff(w, v, c, start, fork + 1, next);
    if AllVouched(v, c, start, fork) {
      forall h: nat | start <= h < fork + 1 ensures SameHash(v[h], c[h]) {
        assert Vouched(v, c, start, h);
      }
    }
  }

  /** After a rewind, exactly what lies up to the fork matters. */
  lemma RewindConvergesUpTo(depth: nat, chunk: nat, start: nat, s: State, p: Poll)
    requires depth > 0 && chunk > 0 && s.next > 0 && p.Valid() && Covers(View(s.out), start, s.next)
    requires PollOnce(depth, chunk, s, p).1 && Rewinds(depth, s, p)
    ensures Converged(start, PollOnce(depth, chunk, s, p).0, p.chain)
       <==> AllVouched(View(s.out), p.chain, start, CheckFrontier(depth, s, p).data.forkBlock)
  {
    var fork := CheckFrontier(depth, s, p).data.forkBlock;
    assert fork < s.next by {
      CheckMeaning(depth, s, p);
    }
    RewindView(depth, chunk, s, p);
    OverlaidUpTo(View(PollOnce(depth, chunk, s, p).0.out), View(s.out), p.chain, start, fork, s.next);
  }

  /** A fork that was found vouches for everything up to it. */
  lemma FoundVouches(parent: Hash -> Hash, depth: nat, start: nat, s: State, p: Poll)
    requires depth > 0 && s.next > 0 && p.Valid() && Linked(parent, p.chain) && Loose(parent, start, s, p.chain)
    requires CheckFrontier(depth, s, p).Orphaned? && !CheckFrontier(depth, s, p).data.depthExceeded
    ensures AllVouched(View(s.out), p.chain, start, CheckFrontier(depth, s, p).data.forkBlock)
  {
    CheckMeaning(depth, s, p);
    AgreeUpTo(parent, View(s.out), if s.next < |p.chain| then s.next else |p.chain|, p.chain,
              CheckFrontier(depth, s, p).data.forkBlock);
  }

  /**
   * Exactly when a poll that ends just past the head converges, whatever it finds: after a rewind
   * what lies below a pinned fork must be canonical, and without one the last block emitted below
   * the resume height must be.
   */
  lemma ConvergesIff(parent: Hash -> Hash, depth: nat, chunk: nat, start: nat, s: State, p: Poll)
    requires depth > 0 && chunk > 0 && p.Valid() && Linked(parent, p.chain) && Loose(parent, start, s, p.chain)
    requires PollOnce(depth, chunk, s, p).1 && PollOnce(depth, chunk, s, p).0.next == |p.chain|
    ensures Converged(start, PollOnce(depth, chunk, s, p).0, p.chain)
       <==> if Rewinds(depth, s, p) then FloorVouched(depth, start, s, p)
            else TopVouched(View(s.out), p.chain, start, s.next)
  {
    if Rewinds(depth, s, p) {
      RewindConvergesUpTo(depth, chunk, start, s, p);
      if !CheckFrontier(depth, s, p).data.depthExceeded {
        FoundVouches(parent, depth, start, s, p);
      }
    } else {
      ExtendConvergesIff(parent, depth, chunk, start, s, p);
    }
  }

  lemma InvIsLoose(parent: Hash -> Hash, start: nat, s: State, c: seq<Hash>)
    requires Inv(parent, start, s)
    ensures Loose(parent, start, s, c)
  {
  }

  /** With a tracked frontier only a fork pinned to the floor can go wrong, however deep the reorg. */
  lemma PollConvergesIff(parent: Hash -> Hash, depth: nat, chunk: nat, start: nat, s: State, p: Poll)
    requires depth > 0 && chunk > 0 && Inv(parent, start, s) && p.Valid() && Linked(parent, p.chain)
    requires PollOnce(depth, chunk, s, p).1 && PollOnce(depth, chunk, s, p).0.next == |p.chain|
    ensures Converged(start, PollOnce(depth, chunk, s, p).0, p.chain)
       <==> (Rewinds(depth, s, p) ==> FloorVouched(depth, start, s, p))
  {
    InvIsLoose(parent, start, s, p.chain);
    ConvergesIff(parent, depth, chunk, start, s, p);
    if !Rewinds(depth, s, p) && start < s.next {
      ExtendView(depth, chunk, s, p);
      CheckMeaning(depth, s, p);
    }
  }

  lemma OverlaidKeepsInv(
      parent: Hash -> Hash, start: nat, next: nat, hashes: map<nat, Hash>,
      w: map<nat, Hash>, v: map<nat, Hash>, c: seq<Hash>, hi: nat)
    requires next <= hi <= |c| && Overlaid(w, v, c, next, hi) && ViewInv(parent, start, next, hashes, v)
    ensures ViewInv(parent, start, next, hashes, w)
  {
    assert forall h: nat :: h < next ==> (h in w <==> h in v) && (h in w ==> w[h] == v[h]);
  }

  /** A failed poll that emitted no marker leaves the invariant alone. */
  lemma FailureKeepsInv(parent: Hash -> Hash, depth: nat, chunk: nat, start: nat, s: State, p: Poll)
    requires depth > 0 && chunk > 0 && p.Valid() && Inv(parent, start, s)
    requires !PollOnce(depth, chunk, s, p).1 && !Rewinds(depth, s, p)
    ensures Inv(parent, start, RunStep(depth, chunk, s, p))
  {
    var t := RunStep(depth, chunk, s, p);
    if t.out != s.out {
      var at := if p.failAt < s.next then s.next else p.failAt;
      ViewBlocks(s.out, p.chain, s.next, at);
      OverlaidKeepsInv(parent, start, s.next, s.hashes, View(t.out), View(s.out), p.chain, at);
    }
  }

  ghost predicate TameRun(parent: Hash -> Hash, depth: nat, chunk: nat, s: State, polls: seq<Poll>)
    requires chunk > 0
    decreases |polls|
  {
    polls == [] || (Tame(parent, depth, chunk, s, polls[0])
                    && TameRun(parent, depth, chunk, RunStep(depth, chunk, s, polls[0]), polls[1..]))
  }

  /** A run up to its last poll, and that last poll. */
  lemma {:induction false} TameRunSplit(parent: Hash -> Hash, depth: nat, chunk: nat, s: State, polls: seq<Poll>,
      p: Poll)
    requires chunk > 0 && TameRun(parent, depth, chunk, s, polls + [p])
    requires (forall q :: q in polls ==> q.Valid()) && p.Valid()
    ensures TameRun(parent, depth, chunk, s, polls)
    ensures Tame(parent, depth, chunk, Run(depth, chunk, s, polls), p)
    ensures Run(depth, chunk, s, polls + [p]) == RunStep(depth, chunk, Run(depth, chunk, s, polls), p)
    decreases |polls|
  {
    var all := polls + [p];
    if polls == [] {
      assert all == [p] && all[1..] == [];
    } else {
      assert all[0] == polls[0] && all[1..] == polls[1..] + [p];
      TameRunSplit(parent, depth, chunk, RunStep(depth, chunk, s, polls[0]), polls[1..], p);
    }
  }

  lemma StepKeepsInv(parent: Hash -> Hash, depth: nat, chunk: nat, start: nat, s: State, p: Poll)
    requires depth > 0 && chunk > 0 && Inv(parent, start, s) && Tame(parent, depth, chunk, s, p)
    ensures Inv(parent, start, RunStep(depth, chunk, s, p))
  {
    if PollOnce(depth, chunk, s, p).1 {
      SuccessConverges(parent, depth, chunk, start, s, p);
    } else {
      FailureKeepsInv(parent, depth, chunk, start, s, p);
    }
  }

  lemma {:induction false} RunKeepsInv(parent: Hash -> Hash, depth: nat, chunk: nat, start: nat, s: State,
      polls: seq<Poll>)
    requires depth > 0 && chunk > 0 && Inv(parent, start, s) && TameRun(parent, depth, chunk, s, polls)
    requires forall p :: p in polls ==> p.Valid()
    ensures Inv(parent, start, Run(depth, chunk, s, polls))
    decreases |polls|
  {
    if polls != [] {
      StepKeepsInv(parent, depth, chunk, start, s, polls[0]);
      RunKeepsInv(parent, depth, chunk, start, RunStep(depth, chunk, s, polls[0]), polls[1..]);
    }
  }

  function Fresh(start: nat): State {
    State(start, map[], [])
  }

  /**
   * Convergence over runs: from a fresh start, after any tame polls, a successful poll `p` that
   * ends just past its head leaves, for every height from the start, the node's current block as
   * the last emission. Polls may have failed on the way, but not after writing a marker.
   */
  lemma Convergence(parent: Hash -> Hash, depth: nat, chunk: nat, start: nat, polls: seq<Poll>, p: Poll)
    requires depth > 0 && chunk > 0
    requires (forall q :: q in polls ==> q.Valid()) && p.Valid()
    requires TameRun(parent, depth, chunk, Fresh(start), polls + [p])
    requires PollOnce(depth, chunk, Run(depth, chunk, Fresh(start), polls), p).1
    requires Run(depth, chunk, Fresh(start), polls + [p]).next == |p.chain|
    ensures Converged(start, Run(depth, chunk, Fresh(start), polls + [p]), p.chain)
  {
    TameRunSplit(parent, depth, chunk, Fresh(start), polls, p);
    RunKeepsInv(parent, depth, chunk, start, Fresh(start), polls);
    SuccessConverges(parent, depth, chunk, start, Run(depth, chunk, Fresh(start), polls), p);
  }

  // ---- What a marker means ----

  /** The fork and the end of a marker's range, against the view before the poll. */
  ghost predicate MarkerRange(v: map<nat, Hash>, c: seq<Hash>, d: ReorgData) {
    && d.forkBlock in v && d.forkBlock < |c| && SameHash(v[d.forkBlock], c[d.forkBlock])
    && d.toBlock in v && d.toBlock < |c| && !SameHash(v[d.toBlock], c[d.toBlock])
    && d.oldHash == v[d.toBlock] && d.depth == d.toBlock - d.fromBlock + 1
    && forall h: nat :: h in v && h <= d.toBlock && !SameHash(v[h], c[h]) ==> d.fromBlock <= h
  }

  /**
   * A marker that is not pinned to the floor names an emitted, still canonical fork and covers
   * every orphaned emission up to its end, however sparse the tracker.
   */
  lemma MarkerSound(parent: Hash -> Hash, depth: nat, start: nat, s: State, p: Poll)
    requires depth > 0 && p.Valid() && Linked(parent, p.chain) && Inv(parent, start, s)
    requires Rewinds(depth, s, p) && !CheckFrontier(depth, s, p).data.depthExceeded
    ensures MarkerRange(View(s.out), p.chain, CheckFrontier(depth, s, p).data)
  {
    CheckMeaning(depth, s, p);
    ForkAgrees(parent, depth, start, s, p);
  }

  /** A poll that could not write its marker, or could not resolve the fork, changes nothing. */
  lemma UnwrittenMarkerChangesNothing(depth: nat, chunk: nat, s: State, p: Poll)
    requires chunk > 0 && p.Valid() && !Rewinds(depth, s, p) && !CheckFrontier(depth, s, p).Canonical?
    ensures PollOnce(depth, chunk, s, p) == (s, false) && RunStep(depth, chunk, s, p) == s
  {
  }
}
