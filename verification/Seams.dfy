/**
 * Convergence without conditions on the run. Below the resume height what was last emitted follows
 * parent links except at its seams, and the seams say exactly when a poll converges.
 */
module Seams {
  import opened Chain
  import opened Follower
  import opened Convergence
  import opened Rewind

  /** Where the poll starts to emit. */
  function From(depth: nat, s: State, p: Poll): nat
    requires p.Valid()
  {
    match CheckFrontier(depth, s, p)
    case Orphaned(d) => d.forkBlock + 1
    case _ => s.next
  }

  /** The poll gets as far as processing blocks. */
  predicate Proceeds(depth: nat, s: State, p: Poll)
    requires p.Valid()
  {
    p.headKnown
    && match CheckFrontier(depth, s, p)
       case CheckFailed => false
       case Canonical => true
       case Orphaned(_) => p.markerOk
  }

  /**
   * After the blocks of `c` from `lo` up to, but not including, `hi` went over the view `v`: whether
   * what is at `h` may not be the parent of what is at `h + 1`.
   */
  predicate Broken(v: map<nat, Hash>, c: seq<Hash>, lo: nat, hi: nat, seams: set<nat>, h: nat)
    requires lo <= hi <= |c|
  {
    if lo == hi || h + 1 < lo || hi <= h then h in seams
    else if h + 1 == lo then h in v && !SameHash(v[h], c[h])
    else h + 1 == hi
  }

  function Restitch(v: map<nat, Hash>, c: seq<Hash>, lo: nat, hi: nat, next: nat, seams: set<nat>): set<nat>
    requires lo <= hi <= |c|
  {
    set h: nat | h < next && h + 1 < next && Broken(v, c, lo, hi, seams, h)
  }

  /** The seams after one iteration of the run loop. */
  function SeamsAfter(depth: nat, chunk: nat, s: State, seams: set<nat>, p: Poll): set<nat>
    requires p.Valid() && chunk > 0
  {
    if !Proceeds(depth, s, p) || From(depth, s, p) > p.Head() then seams
    else
      var lo := From(depth, s, p);
      Restitch(View(s.out), p.chain, lo, Reach(lo, p), RunStep(depth, chunk, s, p).next, seams)
  }

  function RunSeams(depth: nat, chunk: nat, s: State, seams: set<nat>, polls: seq<Poll>): set<nat>
    requires chunk > 0 && forall p :: p in polls ==> p.Valid()
    decreases |polls|
  {
    if polls == [] then seams
    else RunSeams(depth, chunk, RunStep(depth, chunk, s, polls[0]), SeamsAfter(depth, chunk, s, seams, polls[0]),
        polls[1..])
  }

  /** Off the seams the view has no holes below `next` and follows parent links. */
  ghost predicate Stitched(parent: Hash -> Hash, v: map<nat, Hash>, next: nat, seams: set<nat>) {
    forall h: nat :: h in v && h + 1 < next && h !in seams
      ==> h + 1 in v && parent(Fold(v[h + 1])) == Fold(v[h])
  }

  /** What every iteration of the run loop keeps, whatever the poll met. */
  ghost predicate Kept(parent: Hash -> Hash, start: nat, s: State, seams: set<nat>) {
    && start <= s.next
    && TrackedWithin(s.hashes, View(s.out), start, s.next)
    && Covers(View(s.out), start, s.next)
    && Stitched(parent, View(s.out), s.next, seams)
  }

  // ---- One poll ----

  lemma OverlayStitches(parent: Hash -> Hash, w: map<nat, Hash>, v: map<nat, Hash>, c: seq<Hash>, lo: nat, hi: nat,
                        next: nat, after: nat, seams: set<nat>)
    requires Stitched(parent, v, next, seams) && Linked(parent, c)
    requires lo <= hi <= |c| && lo <= next && Overlaid(w, v, c, lo, hi) && (after <= next || after == hi)
    ensures Stitched(parent, w, after, Restitch(v, c, lo, hi, after, seams))
  {
    forall h: nat | h in w && h + 1 < after && h !in Restitch(v, c, lo, hi, after, seams)
      ensures h + 1 in w && parent(Fold(w[h + 1])) == Fold(w[h])
    {
      assert !Broken(v, c, lo, hi, seams, h);
      if lo <= h + 1 < hi {
        assert w[h + 1] == c[h + 1] && SameHash(w[h], c[h]);
      }
    }
  }

  /** The output before the poll's blocks: a marker is added if it rewinds. */
  function Announced(depth: nat, s: State, p: Poll): seq<Record>
    requires p.Valid()
  {
    match CheckFrontier(depth, s, p)
    case Orphaned(d) => s.out + [Marker(d)]
    case _ => s.out
  }

  lemma AnnouncedView(depth: nat, s: State, p: Poll)
    requires p.Valid()
    ensures View(Announced(depth, s, p)) == View(s.out)
  {
    if CheckFrontier(depth, s, p).Orphaned? {
      ViewAppend(s.out, Marker(CheckFrontier(depth, s, p).data));
    }
  }

  /** The stretch a poll emits, whether or not it rewinds or fails, lies at or below the resume height. */
  lemma FromBounds(depth: nat, s: State, p: Poll)
    requires p.Valid()
    ensures From(depth, s, p) <= s.next && From(depth, s, p) <= Reach(From(depth, s, p), p)
    ensures From(depth, s, p) <= p.Head() ==> Reach(From(depth, s, p), p) <= |p.chain|
  {
    if CheckFrontier(depth, s, p).Orphaned? {
      CheckMeaning(depth, s, p);
    }
  }

  /** What a poll that processes blocks emits. */
  lemma ProceedsOut(depth: nat, chunk: nat, s: State, p: Poll)
    requires chunk > 0 && p.Valid() && Proceeds(depth, s, p)
    ensures var lo := From(depth, s, p);
            var t := RunStep(depth, chunk, s, p);
            if lo > p.Head()
            then t.out == Announced(depth, s, p) && t.next == lo
            else lo <= Reach(lo, p) <= |p.chain|
                 && t.out == Announced(depth, s, p) + Blocks(p.chain, lo, Reach(lo, p))
                 && t.next == if p.failAt > p.Head() then |p.chain| else s.next
  {
    FromBounds(depth, s, p);
  }

  lemma ProceedsView(depth: nat, chunk: nat, s: State, p: Poll)
    requires chunk > 0 && p.Valid() && Proceeds(depth, s, p) && From(depth, s, p) <= p.Head()
    ensures var lo := From(depth, s, p);
            var hi := Reach(lo, p);
            lo <= hi <= |p.chain| && Overlaid(View(RunStep(depth, chunk, s, p).out), View(s.out), p.chain, lo, hi)
  {
    var lo := From(depth, s, p);
    ProceedsOut(depth, chunk, s, p);
    AnnouncedView(depth, s, p);
    ViewBlocks(Announced(depth, s, p), p.chain, lo, Reach(lo, p));
  }

  /** What a poll still tracks before it processes blocks: a rewind forgets what is past the fork. */
  function Remembered(depth: nat, s: State, p: Poll): map<nat, Hash>
    requires p.Valid()
  {
    match CheckFrontier(depth, s, p)
    case Orphaned(d) => ForgetAbove(s.hashes, d.forkBlock)
    case _ => s.hashes
  }

  /** The tracker after one iteration: what was remembered, and the head if it was reached and its header read. */
  lemma ProceedsHashes(depth: nat, chunk: nat, s: State, p: Poll)
    requires chunk > 0 && p.Valid() && Proceeds(depth, s, p)
    ensures var t := RunStep(depth, chunk, s, p);
            t.hashes == Remembered(depth, s, p)
            || (From(depth, s, p) <= p.Head() && t.next == |p.chain| && depth > 0 && p.chain[p.Head()] != ""
                && t.hashes == RecordHash(depth, Remembered(depth, s, p), p.Head(), p.chain[p.Head()], p.Head()))
  {
  }

  lemma RememberedTracked(depth: nat, start: nat, s: State, p: Poll)
    requires p.Valid() && start <= s.next && TrackedWithin(s.hashes, View(s.out), start, s.next)
    ensures TrackedWithin(Remembered(depth, s, p), View(s.out), start, From(depth, s, p))
    ensures From(depth, s, p) <= p.Head() ==> start <= p.Head()
  {
    if CheckFrontier(depth, s, p).Orphaned? {
      CheckMeaning(depth, s, p);
    }
  }

  /** Tracked heights stay tracked under an overlay from their upper end on, and its last height may join them. */
  lemma OverlaidStaysTracked(depth: nat, hashes: map<nat, Hash>, kept: map<nat, Hash>, w: map<nat, Hash>,
                             v: map<nat, Hash>, c: seq<Hash>, start: nat, lo: nat, hi: nat, next: nat)
    requires TrackedWithin(kept, v, start, lo) && lo <= hi <= |c| && Overlaid(w, v, c, lo, hi) && lo <= next
    requires hashes == kept
        || (lo < hi == |c| == next && start < |c| && depth > 0 && c[|c| - 1] != ""
            && hashes == RecordHash(depth, kept, |c| - 1, c[|c| - 1], |c| - 1))
    ensures TrackedWithin(hashes, w, start, next)
  {
    assert TrackedWithin(kept, w, start, lo);
    if hashes != kept {
      RecordTracked(depth, kept, w, start, |c| - 1, c[|c| - 1]);
    }
  }

  lemma ProceedsTracked(depth: nat, chunk: nat, start: nat, s: State, p: Poll)
    requires chunk > 0 && p.Valid() && Proceeds(depth, s, p) && start <= s.next
    requires TrackedWithin(s.hashes, View(s.out), start, s.next) && From(depth, s, p) <= p.Head()
    ensures var t := RunStep(depth, chunk, s, p);
            start <= t.next && TrackedWithin(t.hashes, View(t.out), start, t.next)
  {
    var lo := From(depth, s, p);
    var t := RunStep(depth, chunk, s, p);
    FromBounds(depth, s, p);
    ProceedsOut(depth, chunk, s, p);
    ProceedsView(depth, chunk, s, p);
    ProceedsHashes(depth, chunk, s, p);
    RememberedTracked(depth, start, s, p);
    OverlaidStaysTracked(depth, t.hashes, Remembered(depth, s, p), View(t.out), View(s.out), p.chain, start, lo,
                         Reach(lo, p), t.next);
  }

  /** One iteration keeps everything but the link at the seams it leaves. */
  lemma StepKeeps(parent: Hash -> Hash, depth: nat, chunk: nat, start: nat, s: State, seams: set<nat>, p: Poll)
    requires chunk > 0 && p.Valid() && Linked(parent, p.chain) && Kept(parent, start, s, seams)
    ensures Kept(parent, start, RunStep(depth, chunk, s, p), SeamsAfter(depth, chunk, s, seams, p))
  {
    if Proceeds(depth, s, p) {
      var lo := From(depth, s, p);
      var t := RunStep(depth, chunk, s, p);
      ProceedsOut(depth, chunk, s, p);
      FromBounds(depth, s, p);
      if lo <= p.Head() {
        ProceedsTracked(depth, chunk, start, s, p);
        ProceedsView(depth, chunk, s, p);
        OverlayStitches(parent, View(t.out), View(s.out), p.chain, lo, Reach(lo, p), s.next, t.next, seams);
      } else {
        StandsStill(parent, depth, chunk, start, s, seams, p);
      }
    }
  }

  /** A poll that finds nothing to process. */
  lemma StandsStill(parent: Hash -> Hash, depth: nat, chunk: nat, start: nat, s: State, seams: set<nat>, p: Poll)
    requires chunk > 0 && p.Valid() && Kept(parent, start, s, seams)
    requires Proceeds(depth, s, p) && From(depth, s, p) > p.Head()
    ensures Kept(parent, start, RunStep(depth, chunk, s, p), seams)
  {
    ProceedsOut(depth, chunk, s, p);
    AnnouncedView(depth, s, p);
    FromBounds(depth, s, p);
    ProceedsHashes(depth, chunk, s, p);
    if CheckFrontier(depth, s, p).Orphaned? {
      CheckMeaning(depth, s, p);
    }
  }

  // ---- When a poll converges ----

  /** What was last emitted at `top`, and at every seam below it, is the block of `c`. */
  ghost predicate SeamsVouched(v: map<nat, Hash>, c: seq<Hash>, start: nat, seams: set<nat>, top: nat) {
    forall h: nat :: h <= top && (h == top || h in seams) ==> Vouched(v, c, start, h)
  }

  /** Agreement at the top of each stitched stretch is agreement everywhere. */
  lemma {:induction false} VouchedDown(parent: Hash -> Hash, v: map<nat, Hash>, c: seq<Hash>, start: nat, next: nat,
                                       seams: set<nat>, top: nat, h: nat)
    requires Stitched(parent, v, next, seams) && Covers(v, start, next) && Linked(parent, c)
    requires h <= top < next && SeamsVouched(v, c, start, seams, top)
    ensures Vouched(v, c, start, h)
    decreases top - h
  {
    if h < top && h !in seams && start <= h {
      VouchedDown(parent, v, c, start, next, seams, top, h + 1);
      assert parent(Fold(v[h + 1])) == Fold(v[h]) && parent(Fold(c[h + 1])) == Fold(c[h]);
    }
  }

  lemma AllVouchedIff(parent: Hash -> Hash, v: map<nat, Hash>, c: seq<Hash>, start: nat, next: nat, seams: set<nat>,
                      top: nat)
    requires Stitched(parent, v, next, seams) && Covers(v, start, next) && Linked(parent, c) && top < next
    ensures AllVouched(v, c, start, top) <==> SeamsVouched(v, c, start, seams, top)
  {
    if SeamsVouched(v, c, start, seams, top) {
      forall h: nat | h <= top ensures Vouched(v, c, start, h) {
        VouchedDown(parent, v, c, start, next, seams, top, h);
      }
    }
  }

  /** Everything emitted below the stretch the poll writes is canonical, or there is nothing below it. */
  ghost predicate BaseVouched(depth: nat, start: nat, s: State, seams: set<nat>, p: Poll)
    requires p.Valid()
  {
    From(depth, s, p) > 0 ==> SeamsVouched(View(s.out), p.chain, start, seams, From(depth, s, p) - 1)
  }

  lemma BaseConvergesIff(w: map<nat, Hash>, v: map<nat, Hash>, c: seq<Hash>, start: nat, lo: nat, next: nat)
    requires lo <= |c| && Overlaid(w, v, c, lo, |c|) && Covers(v, start, next) && lo <= next
    ensures (Covers(w, start, |c|) && forall h: nat :: start <= h < |c| ==> SameHash(w[h], c[h]))
       <==> (lo > 0 ==> AllVouched(v, c, start, lo - 1))
  {
    OverlaidConvergesIff(w, v, c, start, lo, next);
    if lo > 0 && AllVouched(v, c, start, lo - 1) {
      forall h: nat | start <= h < lo ensures SameHash(v[h], c[h]) {
        assert Vouched(v, c, start, h);
      }
    }
  }

  /** A successful poll that ends just past the head went from its base to the head. */
  lemma SuccessOverlays(depth: nat, chunk: nat, s: State, p: Poll)
    requires chunk > 0 && p.Valid()
    requires PollOnce(depth, chunk, s, p).1 && PollOnce(depth, chunk, s, p).0.next == |p.chain|
    ensures From(depth, s, p) <= s.next && From(depth, s, p) <= |p.chain|
    ensures Overlaid(View(PollOnce(depth, chunk, s, p).0.out), View(s.out), p.chain, From(depth, s, p), |p.chain|)
  {
    FromBounds(depth, s, p);
    ProceedsOut(depth, chunk, s, p);
    if From(depth, s, p) <= p.Head() {
      ProceedsView(depth, chunk, s, p);
    } else {
      AnnouncedView(depth, s, p);
    }
  }

  /** Exactly when one poll converges, from any state a run can leave behind. */
  lemma StepConvergesIff(parent: Hash -> Hash, depth: nat, chunk: nat, start: nat, s: State, seams: set<nat>, p: Poll)
    requires chunk > 0 && p.Valid() && Linked(parent, p.chain) && Kept(parent, start, s, seams)
    requires PollOnce(depth, chunk, s, p).1 && PollOnce(depth, chunk, s, p).0.next == |p.chain|
    ensures Converged(start, PollOnce(depth, chunk, s, p).0, p.chain) <==> BaseVouched(depth, start, s, seams, p)
  {
    var lo := From(depth, s, p);
    SuccessOverlays(depth, chunk, s, p);
    BaseConvergesIff(View(PollOnce(depth, chunk, s, p).0.out), View(s.out), p.chain, start, lo, s.next);
    if lo > 0 {
      AllVouchedIff(parent, View(s.out), p.chain, start, s.next, seams, lo - 1);
    }
  }

  // ---- Whole runs ----

  ghost predicate AllLinked(parent: Hash -> Hash, polls: seq<Poll>) {
    forall p :: p in polls ==> p.Valid() && Linked(parent, p.chain)
  }

  lemma {:induction false} RunKeeps(parent: Hash -> Hash, depth: nat, chunk: nat, start: nat, s: State, seams: set<nat>,
      polls: seq<Poll>)
    requires chunk > 0 && Kept(parent, start, s, seams) && AllLinked(parent, polls)
    ensures Kept(parent, start, Run(depth, chunk, s, polls), RunSeams(depth, chunk, s, seams, polls))
    decreases |polls|
  {
    if polls != [] {
      StepKeeps(parent, depth, chunk, start, s, seams, polls[0]);
      RunKeeps(parent, depth, chunk, start, RunStep(depth, chunk, s, polls[0]),
               SeamsAfter(depth, chunk, s, seams, polls[0]), polls[1..]);
    }
  }

  /**
   * Exactly when a follower converges. After any run from a fresh start, a successful poll that
   * ends just past its head leaves the node's block as the last emission at every height if and
   * only if, below the stretch it emits, the top block and the block at every seam are canonical.
   */
  lemma RunConvergesIff(parent: Hash -> Hash, depth: nat, chunk: nat, start: nat, polls: seq<Poll>, p: Poll)
    requires chunk > 0 && AllLinked(parent, polls) && p.Valid() && Linked(parent, p.chain)
    requires var (t, ok) := PollOnce(depth, chunk, Run(depth, chunk, Fresh(start), polls), p); ok && t.next == |p.chain|
    ensures var s := Run(depth, chunk, Fresh(start), polls);
            (Converged(start, PollOnce(depth, chunk, s, p).0, p.chain)
             <==> BaseVouched(depth, start, s, RunSeams(depth, chunk, Fresh(start), {}, polls), p))
  {
    RunKeeps(parent, depth, chunk, start, Fresh(start), {}, polls);
    StepConvergesIff(parent, depth, chunk, start, Run(depth, chunk, Fresh(start), polls),
                     RunSeams(depth, chunk, Fresh(start), {}, polls), p);
  }

  /** A restart forgets the tracked hashes and may resume lower; the rest is kept. */
  lemma RestartKeeps(parent: Hash -> Hash, start: nat, s: State, seams: set<nat>, next: nat)
    requires Kept(parent, start, s, seams) && start <= next <= s.next
    ensures Kept(parent, start, State(next, map[], s.out), seams)
  {
  }

  // ---- Runs in which no rewind fails ----

  ghost predicate NoRewindFails(depth: nat, chunk: nat, s: State, polls: seq<Poll>)
    requires chunk > 0 && forall p :: p in polls ==> p.Valid()
    decreases |polls|
  {
    polls == []
    || ((Rewinds(depth, s, polls[0]) ==> PollOnce(depth, chunk, s, polls[0]).1)
        && NoRewindFails(depth, chunk, RunStep(depth, chunk, s, polls[0]), polls[1..]))
  }

  /**
   * If the poll succeeds: the top of what was emitted is canonical, unless the poll rewinds or the
   * chain does not reach it; and a fork that is pinned is pinned over canonical blocks.
   */
  ghost predicate SeesTruly(depth: nat, chunk: nat, start: nat, s: State, p: Poll)
    requires chunk > 0 && p.Valid()
  {
    PollOnce(depth, chunk, s, p).1 ==>
      if Rewinds(depth, s, p) then FloorVouched(depth, start, s, p)
      else s.next <= |p.chain| ==> TopVouched(View(s.out), p.chain, start, s.next)
  }

  ghost predicate EverySeesTruly(depth: nat, chunk: nat, start: nat, s: State, polls: seq<Poll>)
    requires chunk > 0 && forall p :: p in polls ==> p.Valid()
    decreases |polls|
  {
    polls == []
    || (SeesTruly(depth, chunk, start, s, polls[0])
        && EverySeesTruly(depth, chunk, start, RunStep(depth, chunk, s, polls[0]), polls[1..]))
  }

  /** If the poll succeeds and ends just past the head, it converges. */
  ghost predicate Converges(depth: nat, chunk: nat, start: nat, s: State, p: Poll)
    requires chunk > 0 && p.Valid()
  {
    var (t, ok) := PollOnce(depth, chunk, s, p);
    ok && t.next == |p.chain| ==> Converged(start, t, p.chain)
  }

  ghost predicate EveryConverges(depth: nat, chunk: nat, start: nat, s: State, polls: seq<Poll>)
    requires chunk > 0 && forall p :: p in polls ==> p.Valid()
    decreases |polls|
  {
    polls == []
    || (Converges(depth, chunk, start, s, polls[0])
        && EveryConverges(depth, chunk, start, RunStep(depth, chunk, s, polls[0]), polls[1..]))
  }

  /** No seam lies between the start and the resume height. */
  ghost predicate Seamless(start: nat, next: nat, seams: set<nat>) {
    forall h: nat :: h in seams ==> h < start || h + 1 >= next
  }

  /** A fork that was found is tracked, so it is vouched for. */
  lemma FoundForkVouched(depth: nat, start: nat, s: State, p: Poll)
    requires p.Valid() && TrackedWithin(s.hashes, View(s.out), start, s.next)
    requires CheckFrontier(depth, s, p).Orphaned?
    ensures var d := CheckFrontier(depth, s, p).data;
            d.forkBlock < s.next && (!d.depthExceeded ==> Vouched(View(s.out), p.chain, start, d.forkBlock))
  {
    CheckMeaning(depth, s, p);
  }

  lemma BaseIsTop(parent: Hash -> Hash, depth: nat, start: nat, s: State, seams: set<nat>, p: Poll)
    requires p.Valid() && Linked(parent, p.chain) && Kept(parent, start, s, seams) && Seamless(start, s.next, seams)
    requires Proceeds(depth, s, p)
    ensures BaseVouched(depth, start, s, seams, p)
       <==> if Rewinds(depth, s, p) then FloorVouched(depth, start, s, p)
            else TopVouched(View(s.out), p.chain, start, s.next)
  {
    if Rewinds(depth, s, p) {
      FoundForkVouched(depth, start, s, p);
      AllVouchedIff(parent, View(s.out), p.chain, start, s.next, seams, CheckFrontier(depth, s, p).data.forkBlock);
    }
  }

  lemma StepConverges(parent: Hash -> Hash, depth: nat, chunk: nat, start: nat, s: State, seams: set<nat>, p: Poll)
    requires chunk > 0 && p.Valid() && Linked(parent, p.chain)
    requires Kept(parent, start, s, seams) && Seamless(start, s.next, seams)
    ensures Converges(depth, chunk, start, s, p) <==> SeesTruly(depth, chunk, start, s, p)
  {
    if PollOnce(depth, chunk, s, p).1 {
      ProceedsOut(depth, chunk, s, p);
      if PollOnce(depth, chunk, s, p).0.next == |p.chain| {
        FromBounds(depth, s, p);
        BaseIsTop(parent, depth, start, s, seams, p);
        StepConvergesIff(parent, depth, chunk, start, s, seams, p);
        SuccessOverlays(depth, chunk, s, p);
      }
    }
  }

  /** Canonical blocks over a canonical top leave no seam, and neither do blocks past the resume height. */
  lemma RestitchSeamless(v: map<nat, Hash>, c: seq<Hash>, start: nat, lo: nat, hi: nat, next: nat, after: nat,
                         seams: set<nat>)
    requires lo <= hi <= |c| && lo <= next && Seamless(start, next, seams)
    requires (lo == next && after == next) || (after == hi && (lo > 0 ==> Vouched(v, c, start, lo - 1)))
        || (lo == hi && after <= next)
    ensures Seamless(start, after, Restitch(v, c, lo, hi, after, seams))
  {
    forall h: nat | h in Restitch(v, c, lo, hi, after, seams) ensures h < start || h + 1 >= after {
      assert Broken(v, c, lo, hi, seams, h);
    }
  }

  lemma BaseTopVouched(depth: nat, start: nat, s: State, seams: set<nat>, p: Poll)
    requires p.Valid() && BaseVouched(depth, start, s, seams, p) && From(depth, s, p) > 0
    ensures Vouched(View(s.out), p.chain, start, From(depth, s, p) - 1)
  {
  }

  lemma StepStaysSeamless(parent: Hash -> Hash, depth: nat, chunk: nat, start: nat, s: State, seams: set<nat>, p: Poll)
    requires chunk > 0 && p.Valid() && Linked(parent, p.chain)
    requires Kept(parent, start, s, seams) && Seamless(start, s.next, seams)
    requires SeesTruly(depth, chunk, start, s, p) && (Rewinds(depth, s, p) ==> PollOnce(depth, chunk, s, p).1)
    ensures Seamless(start, RunStep(depth, chunk, s, p).next, SeamsAfter(depth, chunk, s, seams, p))
  {
    FromBounds(depth, s, p);
    if Proceeds(depth, s, p) {
      var lo := From(depth, s, p);
      var after := RunStep(depth, chunk, s, p).next;
      ProceedsOut(depth, chunk, s, p);
      if lo <= p.Head() {
        if p.failAt > p.Head() {
          BaseIsTop(parent, depth, start, s, seams, p);
          if lo > 0 {
            BaseTopVouched(depth, start, s, seams, p);
          }
        }
        RestitchSeamless(View(s.out), p.chain, start, lo, Reach(lo, p), s.next, after, seams);
      }
    }
  }

  /**
   * Over any run in which no rewind fails, every successful poll that ends just past its head
   * converges if and only if every successful poll sees truly.
   */
  lemma {:induction false} EveryConvergesIff(parent: Hash -> Hash, depth: nat, chunk: nat, start: nat, s: State,
      seams: set<nat>, polls: seq<Poll>)
    requires chunk > 0 && AllLinked(parent, polls) && NoRewindFails(depth, chunk, s, polls)
    requires Kept(parent, start, s, seams) && Seamless(start, s.next, seams)
    ensures EveryConverges(depth, chunk, start, s, polls) <==> EverySeesTruly(depth, chunk, start, s, polls)
    decreases |polls|
  {
    if polls != [] {
      StepConverges(parent, depth, chunk, start, s, seams, polls[0]);
      if SeesTruly(depth, chunk, start, s, polls[0]) {
        StepKeeps(parent, depth, chunk, start, s, seams, polls[0]);
        StepStaysSeamless(parent, depth, chunk, start, s, seams, polls[0]);
        EveryConvergesIff(parent, depth, chunk, start, RunStep(depth, chunk, s, polls[0]),
                          SeamsAfter(depth, chunk, s, seams, polls[0]), polls[1..]);
      }
    }
  }

  // ---- A head header that could not be read ----

  const UNTRACKED: State := State(3, map[1 := "a1"], [Block(1, "a1"), Block(2, "a2")])
  const STALE: State := State(4, map[1 := "a1", 3 := "b3"], [Block(1, "a1"), Block(2, "a2"), Block(3, "b3")])

  /** The poll succeeds without the header of its head. */
  function Headless(chain: seq<Hash>): Poll
    requires |chain| > 1
  {
    Seen(chain, 9).(header := Unreadable)
  }

  lemma Untracking()
    requires Reachable(8, 100, 1, BEGUN)
    ensures PollOnce(8, 100, BEGUN, Headless(BEFORE)) == (UNTRACKED, true) && Reachable(8, 100, 1, UNTRACKED)
  {
    assert Blocks(BEFORE, 2, 3) == [Block(2, "a2")];
    StepReachable(8, 100, 1, BEGUN, Headless(BEFORE), UNTRACKED);
  }

  lemma Passing()
    requires Reachable(8, 100, 1, UNTRACKED)
    ensures PollOnce(8, 100, UNTRACKED, Seen(AFTER, 9)) == (STALE, true) && Reachable(8, 100, 1, STALE)
  {
    assert Blocks(AFTER, 3, 4) == [Block(3, "b3")];
    StepReachable(8, 100, 1, UNTRACKED, Seen(AFTER, 9), STALE);
  }

  lemma StaleView()
    ensures 2 in View(STALE.out) && View(STALE.out)[2] == "a2"
  {
    ViewAppend([Block(1, "a1")], Block(2, "a2"));
    ViewAppend([Block(1, "a1")] + [Block(2, "a2")], Block(3, "b3"));
    assert STALE.out == [Block(1, "a1")] + [Block(2, "a2")] + [Block(3, "b3")];
  }

  /**
   * Three successful polls, the second without the header of its head: the height it processed is
   * not tracked, the replacement of its block goes unseen, and the run ends just past the head with
   * a stale block 2.
   */
  lemma UnreadableHeaderExample()
    ensures Reachable(8, 100, 1, STALE) && STALE.next == |AFTER| && !Converged(1, STALE, AFTER)
  {
    Beginning(100);
    Untracking();
    Passing();
    StaleView();
    DifferentHashes();
  }
}
