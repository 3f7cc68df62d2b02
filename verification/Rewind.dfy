/**
 * What becomes of a rewind when the poll that made it fails: exactly when resuming at the height
 * the poll returned converges, and when the run loop does, which resumes at the height from before.
 */
module Rewind {
  import opened Chain
  import opened Follower
  import opened Convergence

  /** The poll rewound to a fork that is still canonical, and then failed. */
  ghost predicate FailsRewound(depth: nat, chunk: nat, s: State, p: Poll)
    requires chunk > 0 && p.Valid()
  {
    && Rewinds(depth, s, p) && !PollOnce(depth, chunk, s, p).1
    && var d := CheckFrontier(depth, s, p).data;
       d.forkBlock < |p.chain| && AgreesBelow(View(s.out), p.chain, d.forkBlock + 1)
  }

  /** The first height past the fork that the failing poll did not emit. */
  ghost function Reached(depth: nat, s: State, p: Poll): nat
    requires p.Valid() && CheckFrontier(depth, s, p).Orphaned?
  {
    var fork := CheckFrontier(depth, s, p).data.forkBlock;
    if p.failAt < fork + 1 then fork + 1 else p.failAt
  }

  /** What a poll that fails after its rewind leaves behind. */
  lemma FailedRewind(depth: nat, chunk: nat, s: State, p: Poll)
    requires depth > 0 && chunk > 0 && s.next > 0 && p.Valid() && FailsRewound(depth, chunk, s, p)
    ensures var d := CheckFrontier(depth, s, p).data;
            var t := PollOnce(depth, chunk, s, p).0;
            var at := Reached(depth, s, p);
            && d.forkBlock + 1 <= t.next <= at < |p.chain|
            && t.hashes == ForgetAbove(s.hashes, d.forkBlock)
            && t.out == s.out + [Marker(d)] + Blocks(p.chain, d.forkBlock + 1, at)
  {
    ExtendMeaning(depth, chunk, Rewound(s, CheckFrontier(depth, s, p).data), p);
  }

  lemma FailedRewindView(depth: nat, chunk: nat, s: State, p: Poll)
    requires depth > 0 && chunk > 0 && s.next > 0 && p.Valid() && FailsRewound(depth, chunk, s, p)
    ensures var d := CheckFrontier(depth, s, p).data;
            var at := Reached(depth, s, p);
            d.forkBlock + 1 <= at < |p.chain|
            && Overlaid(View(PollOnce(depth, chunk, s, p).0.out), View(s.out), p.chain, d.forkBlock + 1, at)
  {
    var d := CheckFrontier(depth, s, p).data;
    FailedRewind(depth, chunk, s, p);
    ViewAppend(s.out, Marker(d));
    ViewBlocks(s.out + [Marker(d)], p.chain, d.forkBlock + 1, Reached(depth, s, p));
  }

  /** A successful poll without a rewind emits what lies between its height and the head. */
  lemma CanonicalSuccess(depth: nat, chunk: nat, s: State, p: Poll)
    requires chunk > 0 && p.Valid() && PollOnce(depth, chunk, s, p).1 && CheckFrontier(depth, s, p).Canonical?
    ensures var u := PollOnce(depth, chunk, s, p).0;
            if s.next < |p.chain|
            then u.next == |p.chain| && u.out == s.out + Blocks(p.chain, s.next, |p.chain|)
            else u == s
  {
  }

  /** At the returned height the next poll finds its frontier canonical. */
  lemma ResumedCanonical(depth: nat, chunk: nat, start: nat, s: State, p: Poll, q: Poll)
    requires depth > 0 && chunk > 0 && s.next > 0 && p.Valid() && q.Valid()
    requires TrackedWithin(s.hashes, View(s.out), start, s.next)
    requires FailsRewound(depth, chunk, s, p) && p.chain <= q.chain
    requires PollOnce(depth, chunk, PollOnce(depth, chunk, s, p).0, q).1
    ensures CheckFrontier(depth, PollOnce(depth, chunk, s, p).0, q).Canonical?
    ensures CheckFrontier(depth, s, p).data.forkBlock + 1 <= s.next
  {
    var t := PollOnce(depth, chunk, s, p).0;
    FailedRewind(depth, chunk, s, p);
    CheckMeaning(depth, s, p);
    CheckMeaning(depth, t, q);
  }

  /**
   * Nothing is lost at the returned height while the chain only grows: a later successful poll
   * there emits every block the failed poll still owed, and converges.
   */
  lemma ResumeAfterGrowth(depth: nat, chunk: nat, start: nat, s: State, p: Poll, q: Poll)
    requires depth > 0 && chunk > 0 && s.next > 0 && p.Valid() && q.Valid()
    requires TrackedWithin(s.hashes, View(s.out), start, s.next) && Covers(View(s.out), start, s.next)
    requires FailsRewound(depth, chunk, s, p) && p.chain <= q.chain
    requires PollOnce(depth, chunk, PollOnce(depth, chunk, s, p).0, q).1
    ensures var t := PollOnce(depth, chunk, s, p).0;
            var u := PollOnce(depth, chunk, t, q).0;
            && t.next <= |q.chain| && u.out == t.out + Blocks(q.chain, t.next, |q.chain|)
            && Converged(start, u, q.chain)
  {
    var d := CheckFrontier(depth, s, p).data;
    var t := PollOnce(depth, chunk, s, p).0;
    FailedRewind(depth, chunk, s, p);
    FailedRewindView(depth, chunk, s, p);
    ResumedCanonical(depth, chunk, start, s, p, q);
    CanonicalSuccess(depth, chunk, t, q);
    ViewBlocks(t.out, q.chain, t.next, |q.chain|);
    TwoOverlays(start, s.next, View(PollOnce(depth, chunk, t, q).0.out), View(t.out), View(s.out),
                p.chain, q.chain, d.forkBlock + 1, Reached(depth, s, p), t.next);
  }

  /** Two overlays that leave no hole between them, over a part that agrees, agree throughout. */
  lemma TwoOverlays(start: nat, next: nat, x: map<nat, Hash>, w: map<nat, Hash>, v: map<nat, Hash>,
                    c: seq<Hash>, e: seq<Hash>, lo: nat, at: nat, mid: nat)
    requires lo <= mid <= at <= |c| && c <= e && lo <= next
    requires AgreesBelow(v, c, lo) && Covers(v, start, next)
    requires Overlaid(w, v, c, lo, at) && Overlaid(x, w, e, mid, |e|)
    ensures Covers(x, start, |e|) && forall h: nat :: start <= h < |e| ==> SameHash(x[h], e[h])
  {
    forall h: nat | start <= h < |e| ensures h in x && SameHash(x[h], e[h]) {
      if h < lo {
        assert h in v && h in w;
      } else if h < mid {
        assert h in w && w[h] == c[h] == e[h];
      }
    }
  }

  lemma LinkedPrefix(parent: Hash -> Hash, c: seq<Hash>, n: nat)
    requires Linked(parent, c) && n <= |c|
    ensures Linked(parent, c[..n])
  {
  }

  /** The part of a rewound view below `mid` is as sound as the chain it was rewound to. */
  lemma RewoundPart(parent: Hash -> Hash, start: nat, next: nat, hashes: map<nat, Hash>,
                    w: map<nat, Hash>, v: map<nat, Hash>, c: seq<Hash>, fork: nat, mid: nat, at: nat)
    requires ViewInv(parent, start, next, hashes, v) && Linked(parent, c)
    requires fork < next && fork + 1 <= mid <= at <= |c| && Overlaid(w, v, c, fork + 1, at)
        && AgreesBelow(v, c, fork + 1)
    ensures TrackedWithin(ForgetAbove(hashes, fork), w, start, mid) && Covers(w, start, mid)
    ensures LinkedView(parent, w, mid) && AgreesBelow(w, c, mid)
  {
    LinkedPrefix(parent, c, mid);
    forall h: nat | h in w && h + 1 < mid ensures h + 1 in w {
      assert h < fork ==> h in v && h + 1 in v;
    }
    AgreementLinks(parent, w, c[..mid]);
  }

  /** What the failed poll leaves at the height it returns. */
  lemma ResumedLoose(parent: Hash -> Hash, depth: nat, chunk: nat, start: nat, s: State, p: Poll, c: seq<Hash>)
    requires depth > 0 && chunk > 0 && s.next > 0 && p.Valid() && Linked(parent, p.chain)
    requires Inv(parent, start, s) && FailsRewound(depth, chunk, s, p)
    ensures var t := PollOnce(depth, chunk, s, p).0;
            Loose(parent, start, t, c) && t.next < |p.chain| && AgreesBelow(View(t.out), p.chain, t.next)
  {
    var d := CheckFrontier(depth, s, p).data;
    var t := PollOnce(depth, chunk, s, p).0;
    FailedRewind(depth, chunk, s, p);
    FailedRewindView(depth, chunk, s, p);
    assert d.forkBlock < s.next by {
      CheckMeaning(depth, s, p);
    }
    RewoundPart(parent, start, s.next, s.hashes, View(t.out), View(s.out), p.chain, d.forkBlock, t.next,
        Reached(depth, s, p));
  }

  /**
   * Exactly when resuming at the returned height converges, whatever the chain did in between: a
   * reorg the next poll sees is handled, and one it does not see must lie above the returned height.
   */
  lemma ResumeConvergesIff(parent: Hash -> Hash, depth: nat, chunk: nat, start: nat, s: State, p: Poll, q: Poll)
    requires depth > 0 && chunk > 0 && s.next > 0 && p.Valid() && q.Valid()
    requires Linked(parent, p.chain) && Linked(parent, q.chain)
    requires Inv(parent, start, s) && FailsRewound(depth, chunk, s, p)
    requires var (u, ok) := PollOnce(depth, chunk, PollOnce(depth, chunk, s, p).0, q); ok && u.next == |q.chain|
    ensures var t := PollOnce(depth, chunk, s, p).0;
            0 < t.next < |p.chain|
            && (Converged(start, PollOnce(depth, chunk, t, q).0, q.chain)
                <==> if Rewinds(depth, t, q) then FloorVouched(depth, start, t, q)
                     else start < t.next ==> t.next <= |q.chain| && SameHash(p.chain[t.next - 1], q.chain[t.next - 1]))
  {
    var t := PollOnce(depth, chunk, s, p).0;
    FailedRewind(depth, chunk, s, p);
    ResumedLoose(parent, depth, chunk, start, s, p, q.chain);
    ConvergesIff(parent, depth, chunk, start, t, q);
    TopBlock(View(t.out), p.chain, q.chain, start, t.next);
  }

  /** The top height of a view that agrees with `c` is vouched for by `e` exactly if `c` and `e` agree there. */
  lemma TopBlock(v: map<nat, Hash>, c: seq<Hash>, e: seq<Hash>, start: nat, next: nat)
    requires 0 < next <= |c| && AgreesBelow(v, c, next) && Covers(v, start, next)
    ensures TopVouched(v, e, start, next)
       <==> (start < next ==> next <= |e| && SameHash(c[next - 1], e[next - 1]))
  {
    if start < next {
      assert next - 1 in v && SameHash(v[next - 1], c[next - 1]);
    }
  }

  // ---- The run loop as written ----

  /** The retry does not see the reorg: the rewind erased the frontier it would check. */
  lemma RetryIsBlind(depth: nat, chunk: nat, s: State, p: Poll, q: Poll)
    requires depth > 0 && chunk > 0 && s.next > 0 && p.Valid() && q.Valid()
    requires FailsRewound(depth, chunk, s, p) && |p.chain| <= |q.chain|
    requires var d := CheckFrontier(depth, s, p).data; d.forkBlock < d.toBlock
    ensures CheckFrontier(depth, RunStep(depth, chunk, s, p), q).Canonical?
  {
    FailedRewind(depth, chunk, s, p);
    CheckMeaning(depth, s, p);
  }

  /** What the retry, at the height the run loop kept, makes of the view. */
  lemma RetryView(depth: nat, chunk: nat, s: State, p: Poll, q: Poll)
    requires depth > 0 && chunk > 0 && s.next > 0 && p.Valid() && q.Valid()
    requires FailsRewound(depth, chunk, s, p) && |p.chain| <= |q.chain|
    requires var d := CheckFrontier(depth, s, p).data; d.forkBlock < d.toBlock
    requires PollOnce(depth, chunk, RunStep(depth, chunk, s, p), q).1
    ensures var w := View(RunStep(depth, chunk, s, p).out);
            var x := View(PollOnce(depth, chunk, RunStep(depth, chunk, s, p), q).0.out);
            if s.next < |q.chain| then Overlaid(x, w, q.chain, s.next, |q.chain|) else x == w
  {
    var r := RunStep(depth, chunk, s, p);
    RetryIsBlind(depth, chunk, s, p, q);
    CanonicalSuccess(depth, chunk, r, q);
    if s.next < |q.chain| {
      ViewBlocks(r.out, q.chain, s.next, |q.chain|);
    }
  }

  /** The range a failed rewind reported, and how much of it the poll emitted. */
  lemma OrphanedRange(depth: nat, chunk: nat, start: nat, s: State, p: Poll)
    requires depth > 0 && chunk > 0 && s.next > 0 && p.Valid()
    requires TrackedWithin(s.hashes, View(s.out), start, s.next) && FailsRewound(depth, chunk, s, p)
    ensures var d := CheckFrontier(depth, s, p).data;
            && d.forkBlock < d.toBlock < s.next && start <= d.toBlock < |p.chain|
            && (d.toBlock == s.next - 1 || d.toBlock == |p.chain| - 1)
            && d.toBlock in View(s.out) && !SameHash(View(s.out)[d.toBlock], p.chain[d.toBlock])
            && (Reached(depth, s, p) > d.toBlock <==> p.failAt > d.toBlock)
  {
    CheckMeaning(depth, s, p);
    assert Frontier(s.next, p.Head()) in s.hashes;
  }

  /**
   * The view `x` after the retry, `w` before it and `v` before the failed rewind: `tip` is the last
   * orphaned height, `fork` lies below the orphaned range, and heights before `at` were re-emitted.
   */
  ghost predicate RetryShape(start: nat, next: nat, x: map<nat, Hash>, w: map<nat, Hash>, v: map<nat, Hash>,
                             c: seq<Hash>, e: seq<Hash>, fork: nat, tip: nat, at: nat) {
    && fork < tip < next && fork < at < |c| && c <= e && start <= tip < |c|
    && (tip == next - 1 || tip == |c| - 1)
    && AgreesBelow(v, c, fork + 1) && Covers(v, start, next) && !SameHash(v[tip], c[tip])
    && Overlaid(w, v, c, fork + 1, at)
    && if next < |e| then Overlaid(x, w, e, next, |e|) else x == w
  }

  lemma RetryMaps(start: nat, next: nat, x: map<nat, Hash>, w: map<nat, Hash>, v: map<nat, Hash>,
                  c: seq<Hash>, e: seq<Hash>, fork: nat, tip: nat, at: nat)
    requires RetryShape(start, next, x, w, v, c, e, fork, tip, at)
    ensures (Covers(x, start, |e|) && forall h: nat :: start <= h < |e| ==> SameHash(x[h], e[h])) <==> at > tip
  {
    if at > tip {
      TwoOverlays(start, next, x, w, v, c, e, fork + 1, at, next);
    } else {
      assert tip in x && x[tip] == v[tip];
    }
  }

  /**
   * While the chain only grows, the retry of a failed rewind, at the height the run loop kept,
   * converges if and only if the failing poll got past the end of the orphaned range.
   */
  lemma RetryAfterGrowth(depth: nat, chunk: nat, start: nat, s: State, p: Poll, q: Poll)
    requires depth > 0 && chunk > 0 && s.next > 0 && p.Valid() && q.Valid()
    requires TrackedWithin(s.hashes, View(s.out), start, s.next) && Covers(View(s.out), start, s.next)
    requires FailsRewound(depth, chunk, s, p) && p.chain <= q.chain
    requires PollOnce(depth, chunk, RunStep(depth, chunk, s, p), q).1
    ensures Converged(start, PollOnce(depth, chunk, RunStep(depth, chunk, s, p), q).0, q.chain)
       <==> p.failAt > CheckFrontier(depth, s, p).data.toBlock
  {
    var d := CheckFrontier(depth, s, p).data;
    var w := View(RunStep(depth, chunk, s, p).out);
    var x := View(PollOnce(depth, chunk, RunStep(depth, chunk, s, p), q).0.out);
    OrphanedRange(depth, chunk, start, s, p);
    FailedRewindView(depth, chunk, s, p);
    RetryView(depth, chunk, s, p, q);
    RetryMaps(start, s.next, x, w, View(s.out), p.chain, q.chain, d.forkBlock, d.toBlock, Reached(depth, s, p));
  }

  /** Two linked chains that agree at a height agree below it. */
  lemma {:induction false} ChainsAgreeDown(parent: Hash -> Hash, c: seq<Hash>, e: seq<Hash>, n: nat, h: nat)
    requires Linked(parent, c) && Linked(parent, e) && h <= n < |c| && n < |e| && SameHash(c[n], e[n])
    ensures SameHash(c[h], e[h])
    decreases n - h
  {
    if h < n {
      ChainsAgreeDown(parent, c, e, n, h + 1);
      assert parent(Fold(c[h + 1])) == Fold(c[h]) && parent(Fold(e[h + 1])) == Fold(e[h]);
    }
  }

  /** The top of what a rewinding poll re-emitted below `next`, or the fork if it emitted nothing. */
  function Seam(next: nat, at: nat): nat
    requires next > 0 && at > 0
  {
    (if at < next then at else next) - 1
  }

  /**
   * Below `next` a view that was rewound in part is two linked stretches, `c` up to the seam and
   * the old view `v` above it: agreement at the top of both is agreement everywhere.
   */
  lemma SeamVouches(parent: Hash -> Hash, start: nat, next: nat, w: map<nat, Hash>, v: map<nat, Hash>,
                    c: seq<Hash>, e: seq<Hash>, fork: nat, at: nat)
    requires Linked(parent, c) && Linked(parent, e) && LinkedView(parent, v, next) && Covers(v, start, next)
    requires fork < next && fork + 1 <= at <= |c| && Overlaid(w, v, c, fork + 1, at) && AgreesBelow(v, c, fork + 1)
    requires next <= |e| && Vouched(w, e, start, next - 1) && Vouched(w, e, start, Seam(next, at))
    ensures forall h: nat :: start <= h < next ==> SameHash(w[h], e[h])
  {
    var k := Seam(next, at);
    forall h: nat | start <= h < next ensures SameHash(w[h], e[h]) {
      if h <= k {
        ChainsAgreeDown(parent, c, e, k, h);
      } else {
        assert w[next - 1] == v[next - 1] && w[h] == v[h];
        AgreeDown(parent, v, next, e, next - 1, h);
      }
    }
  }

  /** A retry that does not rewind converges exactly if the kept height and the seam are canonical. */
  lemma BlindRetryConvergesIff(parent: Hash -> Hash, depth: nat, chunk: nat, start: nat, s: State, p: Poll, q: Poll)
    requires depth > 0 && chunk > 0 && s.next > 0 && p.Valid() && q.Valid()
    requires Linked(parent, p.chain) && Linked(parent, q.chain)
    requires Inv(parent, start, s) && FailsRewound(depth, chunk, s, p)
        && !Rewinds(depth, RunStep(depth, chunk, s, p), q)
    requires var (u, ok) := PollOnce(depth, chunk, RunStep(depth, chunk, s, p), q); ok && u.next == |q.chain|
    ensures Converged(start, PollOnce(depth, chunk, RunStep(depth, chunk, s, p), q).0, q.chain)
       <==> SeamVouched(View(RunStep(depth, chunk, s, p).out), q.chain, start, s.next, Reached(depth, s, p))
  {
    var d := CheckFrontier(depth, s, p).data;
    var r := RunStep(depth, chunk, s, p);
    FailedRewindView(depth, chunk, s, p);
    ExtendView(depth, chunk, r, q);
    assert d.forkBlock < s.next by {
      CheckMeaning(depth, s, p);
    }
    SeamConvergesIff(parent, start, s.next, View(PollOnce(depth, chunk, r, q).0.out), View(r.out), View(s.out),
                     p.chain, q.chain, d.forkBlock, Reached(depth, s, p));
  }

  ghost predicate SeamVouched(w: map<nat, Hash>, e: seq<Hash>, start: nat, next: nat, at: nat)
    requires next > 0 && at > 0
  {
    Vouched(w, e, start, next - 1) && Vouched(w, e, start, Seam(next, at))
  }

  /** The same on views: `x` after the retry, `w` before it, `v` before the failed rewind. */
  lemma SeamConvergesIff(parent: Hash -> Hash, start: nat, next: nat, x: map<nat, Hash>, w: map<nat, Hash>,
                         v: map<nat, Hash>, c: seq<Hash>, e: seq<Hash>, fork: nat, at: nat)
    requires Linked(parent, c) && Linked(parent, e) && LinkedView(parent, v, next) && Covers(v, start, next)
    requires fork < next && fork + 1 <= at <= |c| && Overlaid(w, v, c, fork + 1, at) && AgreesBelow(v, c, fork + 1)
    requires next <= |e| && Overlaid(x, w, e, next, |e|)
    ensures (Covers(x, start, |e|) && forall h: nat :: start <= h < |e| ==> SameHash(x[h], e[h]))
       <==> SeamVouched(w, e, start, next, at)
  {
    OverlaidConvergesIff(x, w, e, start, next, next);
    if SeamVouched(w, e, start, next, at) {
      SeamVouches(parent, start, next, w, v, c, e, fork, at);
    }
  }

  /** A retry that does rewind looks only at the part of the view below the failed rewind's fork. */
  lemma SightedRetry(parent: Hash -> Hash, depth: nat, chunk: nat, start: nat, s: State, p: Poll, q: Poll)
    requires depth > 0 && chunk > 0 && s.next > 0 && p.Valid() && q.Valid()
    requires Inv(parent, start, s) && FailsRewound(depth, chunk, s, p)
    ensures var r := RunStep(depth, chunk, s, p);
            Rewinds(depth, r, q) ==> Loose(parent, start, r, q.chain)
  {
    var d := CheckFrontier(depth, s, p).data;
    var r := RunStep(depth, chunk, s, p);
    if Rewinds(depth, r, q) {
      OrphanedRange(depth, chunk, start, s, p);
      FailedRewind(depth, chunk, s, p);
      FailedRewindView(depth, chunk, s, p);
      SightsShortHead(depth, r, q, d.forkBlock);
      SightedLoose(parent, start, s.next, s.hashes, View(r.out), View(s.out), p.chain, d.forkBlock,
          Reached(depth, s, p), |q.chain|);
    }
  }

  /** A tracker that stops below the frontier sees a reorg only at a head no higher than it reaches. */
  lemma SightsShortHead(depth: nat, r: State, q: Poll, fork: nat)
    requires depth > 0 && q.Valid() && Rewinds(depth, r, q)
    requires fork + 1 < r.next && forall h: nat :: h in r.hashes ==> h <= fork
    ensures |q.chain| <= fork + 1
  {
    CheckMeaning(depth, r, q);
  }

  lemma SightedLoose(parent: Hash -> Hash, start: nat, next: nat, hashes: map<nat, Hash>, w: map<nat, Hash>,
                    v: map<nat, Hash>, c: seq<Hash>, fork: nat, at: nat, top: nat)
    requires ViewInv(parent, start, next, hashes, v) && fork < next && top <= fork + 1
    requires fork + 1 <= at <= |c| && Overlaid(w, v, c, fork + 1, at)
    ensures TrackedWithin(ForgetAbove(hashes, fork), w, start, next) && Covers(w, start, next)
        && LinkedView(parent, w, top)
  {
  }

  /**
   * Exactly when the retry of a failed rewind, at the height the run loop kept, converges, whatever
   * the chain did in between. If it sees no reorg, the last block emitted below the kept height and
   * the last one the failed poll re-emitted below it must both be canonical.
   */
  lemma RetryConvergesIff(parent: Hash -> Hash, depth: nat, chunk: nat, start: nat, s: State, p: Poll, q: Poll)
    requires depth > 0 && chunk > 0 && s.next > 0 && p.Valid() && q.Valid()
    requires Linked(parent, p.chain) && Linked(parent, q.chain)
    requires Inv(parent, start, s) && FailsRewound(depth, chunk, s, p)
    requires var (u, ok) := PollOnce(depth, chunk, RunStep(depth, chunk, s, p), q); ok && u.next == |q.chain|
    ensures var r := RunStep(depth, chunk, s, p);
            (Converged(start, PollOnce(depth, chunk, r, q).0, q.chain)
             <==> if Rewinds(depth, r, q) then FloorVouched(depth, start, r, q)
                  else SeamVouched(View(r.out), q.chain, start, s.next, Reached(depth, s, p)))
  {
    FailedRewind(depth, chunk, s, p);
    if Rewinds(depth, RunStep(depth, chunk, s, p), q) {
      SightedRetry(parent, depth, chunk, start, s, p, q);
      ConvergesIff(parent, depth, chunk, start, RunStep(depth, chunk, s, p), q);
    } else {
      BlindRetryConvergesIff(parent, depth, chunk, start, s, p, q);
    }
  }

  /** Snapshots that only ever extend `c`. */
  ghost predicate Ascending(c: seq<Hash>, polls: seq<Poll>)
    decreases |polls|
  {
    polls == [] || (polls[0].Valid() && c <= polls[0].chain && Ascending(polls[0].chain, polls[1..]))
  }

  /** The tracker agrees with `c`, and `h` lies below the resume height and was last emitted as `stale`. */
  ghost predicate Skipped(s: State, c: seq<Hash>, h: nat, stale: Hash) {
    && h < s.next && h in View(s.out) && View(s.out)[h] == stale
    && forall k :: k in s.hashes ==> k < |c| && SameHash(s.hashes[k], c[k])
  }

  /** A poll that sees no reorg leaves the view below its resume height alone. */
  lemma NoReorgStep(depth: nat, chunk: nat, s: State, p: Poll, h: nat)
    requires chunk > 0 && p.Valid() && !CheckFrontier(depth, s, p).Orphaned?
    requires h < s.next && h in View(s.out)
    ensures var t := RunStep(depth, chunk, s, p);
            && s.next <= t.next && h in View(t.out) && View(t.out)[h] == View(s.out)[h]
            && (t.hashes == s.hashes
                || t.hashes == RecordHash(depth, s.hashes, p.Head(), p.header.hash, p.Head()))
  {
    if p.headKnown && CheckFrontier(depth, s, p).Canonical? {
      ExtendMeaning(depth, chunk, s, p);
      if s.next <= p.Head() {
        ViewBlocks(s.out, p.chain, s.next, Reach(s.next, p));
      }
    }
  }

  lemma SkippedSeesNoReorg(depth: nat, s: State, c: seq<Hash>, p: Poll, h: nat, stale: Hash)
    requires depth > 0 && p.Valid() && c <= p.chain && Skipped(s, c, h, stale)
    ensures !CheckFrontier(depth, s, p).Orphaned?
  {
    CheckMeaning(depth, s, p);
  }

  lemma StepStaysSkipped(depth: nat, chunk: nat, s: State, c: seq<Hash>, p: Poll, h: nat, stale: Hash)
    requires depth > 0 && chunk > 0 && p.Valid() && c <= p.chain && Skipped(s, c, h, stale)
    ensures Skipped(RunStep(depth, chunk, s, p), p.chain, h, stale)
  {
    SkippedSeesNoReorg(depth, s, c, p, h, stale);
    NoReorgStep(depth, chunk, s, p, h);
  }

  lemma {:induction false} RunStaysSkipped(depth: nat, chunk: nat, s: State, c: seq<Hash>, polls: seq<Poll>, h: nat,
      stale: Hash)
    requires depth > 0 && chunk > 0 && Ascending(c, polls) && Skipped(s, c, h, stale)
    requires forall p :: p in polls ==> p.Valid()
    ensures h in View(Run(depth, chunk, s, polls).out) && View(Run(depth, chunk, s, polls).out)[h] == stale
    decreases |polls|
  {
    if polls != [] {
      StepStaysSkipped(depth, chunk, s, c, polls[0], h, stale);
      RunStaysSkipped(depth, chunk, RunStep(depth, chunk, s, polls[0]), polls[0].chain, polls[1..], h, stale);
    }
  }

  /**
   * When the failing poll did not get past the orphaned range, the loss is permanent: however
   * long the chain grows, the orphaned block stays the last emission at its height.
   */
  lemma SkippedForever(depth: nat, chunk: nat, start: nat, s: State, p: Poll, polls: seq<Poll>)
    requires depth > 0 && chunk > 0 && s.next > 0 && p.Valid()
    requires TrackedWithin(s.hashes, View(s.out), start, s.next)
    requires FailsRewound(depth, chunk, s, p) && p.failAt <= CheckFrontier(depth, s, p).data.toBlock
    requires Ascending(p.chain, polls) && forall q :: q in polls ==> q.Valid()
    ensures var tip := CheckFrontier(depth, s, p).data.toBlock;
            var v := View(Run(depth, chunk, RunStep(depth, chunk, s, p), polls).out);
            tip < |p.chain| && tip in v && !SameHash(v[tip], p.chain[tip])
  {
    var d := CheckFrontier(depth, s, p).data;
    CheckMeaning(depth, s, p);
    FailedRewind(depth, chunk, s, p);
    FailedRewindView(depth, chunk, s, p);
    RunStaysSkipped(depth, chunk, RunStep(depth, chunk, s, p), p.chain, polls, d.toBlock, View(s.out)[d.toBlock]);
  }

  // ---- A concrete loss ----

  function Seen(chain: seq<Hash>, failAt: nat): Poll
    requires |chain| > 1
  {
    Poll(true, chain, Header(chain[|chain| - 1], chain[|chain| - 2]), true, true, {}, true, failAt)
  }

  const BEFORE: seq<Hash> := ["g", "a1", "a2"]
  const AFTER: seq<Hash> := ["g", "a1", "b2", "b3"]
  const MARK: Record := Marker(ReorgData(1, 2, 2, 1, "a2", "b2", false))
  const FOLLOWED: State := State(3, map[1 := "a1", 2 := "a2"], [Block(1, "a1"), Block(2, "a2")])
  const BLINDED: State := State(3, map[1 := "a1"], [Block(1, "a1"), Block(2, "a2"), MARK])
  const LOST: State := State(4, map[1 := "a1", 3 := "b3"], [Block(1, "a1"), Block(2, "a2"), MARK, Block(3, "b3")])

  /** Some run from a fresh start leads to `t`. */
  ghost predicate Reachable(depth: nat, chunk: nat, start: nat, t: State)
    requires chunk > 0
  {
    exists polls: seq<Poll> :: (forall p :: p in polls ==> p.Valid()) && Run(depth, chunk, Fresh(start), polls) == t
  }

  lemma {:induction false} RunSnoc(depth: nat, chunk: nat, s: State, polls: seq<Poll>, p: Poll)
    requires chunk > 0 && (forall q :: q in polls ==> q.Valid()) && p.Valid()
    ensures Run(depth, chunk, s, polls + [p]) == RunStep(depth, chunk, Run(depth, chunk, s, polls), p)
    decreases |polls|
  {
    var all := polls + [p];
    if polls == [] {
      assert all == [p] && all[1..] == [];
    } else {
      assert all[0] == polls[0] && all[1..] == polls[1..] + [p];
      RunSnoc(depth, chunk, RunStep(depth, chunk, s, polls[0]), polls[1..], p);
    }
  }

  lemma FreshReachable(depth: nat, chunk: nat, start: nat)
    requires chunk > 0
    ensures Reachable(depth, chunk, start, Fresh(start))
  {
    assert Run(depth, chunk, Fresh(start), []) == Fresh(start);
  }

  lemma StepReachable(depth: nat, chunk: nat, start: nat, s: State, p: Poll, t: State)
    requires chunk > 0 && Reachable(depth, chunk, start, s) && p.Valid() && RunStep(depth, chunk, s, p) == t
    ensures Reachable(depth, chunk, start, t)
  {
    var polls: seq<Poll> :| (forall q :: q in polls ==> q.Valid()) && Run(depth, chunk, Fresh(start), polls) == s;
    RunSnoc(depth, chunk, Fresh(start), polls, p);
    assert forall q :: q in polls + [p] ==> q.Valid();
  }

  const BEGUN: State := State(2, map[1 := "a1"], [Block(1, "a1")])

  lemma Beginning(chunk: nat)
    requires chunk > 0
    ensures Reachable(8, chunk, 1, BEGUN)
  {
    assert Blocks(BEFORE[..2], 1, 2) == [Block(1, "a1")];
    FreshReachable(8, chunk, 1);
    StepReachable(8, chunk, 1, Fresh(1), Seen(BEFORE[..2], 9), BEGUN);
  }

  lemma Following(chunk: nat)
    requires chunk > 0 && Reachable(8, chunk, 1, BEGUN)
    ensures Reachable(8, chunk, 1, FOLLOWED)
  {
    assert Blocks(BEFORE, 2, 3) == [Block(2, "a2")];
    StepReachable(8, chunk, 1, BEGUN, Seen(BEFORE, 9), FOLLOWED);
  }

  lemma DifferentHashes()
    ensures !SameHash("b2", "a2")
  {
    assert Fold("b2")[0] != Fold("a2")[0];
  }

  lemma Blinding()
    requires Reachable(8, 100, 1, FOLLOWED)
    ensures Reachable(8, 100, 1, BLINDED)
  {
    DifferentHashes();
    assert SearchFork(FOLLOWED.hashes, Seen(AFTER, 2), 2, 0) == Found(1);
    assert FOLLOWED.out + [MARK] + Blocks(AFTER, 2, 2) == BLINDED.out;
    StepReachable(8, 100, 1, FOLLOWED, Seen(AFTER, 2), BLINDED);
  }

  lemma Losing()
    requires Reachable(8, 100, 1, BLINDED)
    ensures Reachable(8, 100, 1, LOST)
  {
    assert Blocks(AFTER, 3, 4) == [Block(3, "b3")];
    StepReachable(8, 100, 1, BLINDED, Seen(AFTER, 9), LOST);
  }

  lemma LostView()
    ensures 2 in View(LOST.out) && View(LOST.out)[2] == "a2"
  {
    var emitted := [Block(1, "a1")] + [Block(2, "a2")];
    ViewAppend([Block(1, "a1")], Block(2, "a2"));
    ViewAppend(emitted, MARK);
    ViewAppend(emitted + [MARK], Block(3, "b3"));
    assert LOST.out == emitted + [MARK] + [Block(3, "b3")];
  }

  /**
   * A fresh follower over two good polls; then block 2 is replaced, processing the replacement
   * fails once, and the next poll succeeds. It ends just past the head, with the orphaned block as
   * the last emission at its height.
   */
  lemma LossExample()
    ensures Reachable(8, 100, 1, LOST) && LOST.next == |AFTER| && !Converged(1, LOST, AFTER)
  {
    Beginning(100);
    Following(100);
    Blinding();
    Losing();
    LostView();
    DifferentHashes();
  }

  // ---- A second reorg that nothing sees ----

  const AGAIN: seq<Hash> := ["g", "a1", "c2", "c3", "c4"]
  const HALFWAY: State := State(3, map[1 := "a1"], [Block(1, "a1"), Block(2, "a2"), MARK, Block(2, "b2")])
  const MISSED: State :=
    State(5, map[1 := "a1", 4 := "c4"], [Block(1, "a1"), Block(2, "a2"), MARK, Block(2, "b2"), Block(3, "c3"),
        Block(4, "c4")])

  /** The new block 2 goes out and block 3 fails: the height returned is the height kept. */
  lemma Half()
    requires Reachable(8, 1, 1, FOLLOWED)
    ensures PollOnce(8, 1, FOLLOWED, Seen(AFTER, 3)) == (HALFWAY, false)
    ensures Reachable(8, 1, 1, HALFWAY)
  {
    DifferentHashes();
    assert SearchFork(FOLLOWED.hashes, Seen(AFTER, 3), 2, 0) == Found(1);
    assert Blocks(AFTER, 2, 3) == [Block(2, "b2")];
    assert FOLLOWED.out + [MARK] + [Block(2, "b2")] == HALFWAY.out;
    StepReachable(8, 1, 1, FOLLOWED, Seen(AFTER, 3), HALFWAY);
  }

  lemma Missing()
    requires Reachable(8, 1, 1, HALFWAY)
    ensures PollOnce(8, 1, HALFWAY, Seen(AGAIN, 9)) == (MISSED, true)
    ensures Reachable(8, 1, 1, MISSED)
  {
    assert Blocks(AGAIN, 3, 5) == [Block(3, "c3"), Block(4, "c4")];
    assert HALFWAY.out + [Block(3, "c3"), Block(4, "c4")] == MISSED.out;
    assert Extend(8, 1, HALFWAY, Seen(AGAIN, 9)).0.out == MISSED.out;
    StepReachable(8, 1, 1, HALFWAY, Seen(AGAIN, 9), MISSED);
  }

  lemma MissedView()
    ensures 2 in View(MISSED.out) && View(MISSED.out)[2] == "b2"
  {
    var emitted := [Block(1, "a1"), Block(2, "a2"), MARK] + [Block(2, "b2")];
    ViewAppend([Block(1, "a1"), Block(2, "a2"), MARK], Block(2, "b2"));
    ViewAppend(emitted, Block(3, "c3"));
    ViewAppend(emitted + [Block(3, "c3")], Block(4, "c4"));
    assert MISSED.out == emitted + [Block(3, "c3")] + [Block(4, "c4")];
  }

  /**
   * Resuming at the returned height does lose a block when the chain is rewritten again: block 2 was
   * re-emitted but is not tracked, so its second replacement goes unseen. The failing poll had
   * passed the orphaned range, and the run loop keeps the same height and fares no better.
   */
  lemma SecondReorgExample()
    ensures Reachable(8, 1, 1, FOLLOWED) && Reachable(8, 1, 1, MISSED)
    ensures MISSED.next == |AGAIN| && !Converged(1, MISSED, AGAIN)
  {
    Beginning(1);
    Following(1);
    Half();
    Missing();
    MissedView();
    assert Fold("b2")[0] != Fold("c2")[0];
  }
}
