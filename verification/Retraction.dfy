/**
 * What a consumer that acts on reorg markers is left with: it keeps the blocks it receives and, at a
 * marker, drops what it holds at the heights of the marker's range.
 */
module Retraction {
  import opened Chain
  import opened Follower
  import opened Convergence
  import opened Rewind
  import opened Seams

  /** The consumer holds the block with this hash, given in lower case, at height `n`. */
  predicate Holds(out: seq<Record>, n: nat, hash: Hash) {
    out != []
    && var before := Holds(out[..|out| - 1], n, hash);
       match out[|out| - 1]
       case Block(m, h) => before || (m == n && Fold(h) == hash)
       case Marker(d) => before && !(d.fromBlock <= n <= d.toBlock)
  }

  // ---- What one marker covers ----

  /** Emitted below the resume height, and not the node's block at its height. */
  ghost predicate Orphan(s: State, c: seq<Hash>, h: nat) {
    h < s.next && h in View(s.out) && !(h < |c| && SameHash(View(s.out)[h], c[h]))
  }

  /**
   * A marker that is not pinned covers every orphaned emission below the resume height if and only
   * if the chain still reaches the last processed height.
   */
  lemma MarkerCoversIff(parent: Hash -> Hash, depth: nat, start: nat, s: State, p: Poll)
    requires depth > 0 && p.Valid() && Linked(parent, p.chain) && Inv(parent, start, s)
    requires Rewinds(depth, s, p) && !CheckFrontier(depth, s, p).data.depthExceeded
    ensures var d := CheckFrontier(depth, s, p).data;
            (forall h: nat :: Orphan(s, p.chain, h) ==> d.fromBlock <= h <= d.toBlock) <==> s.next <= |p.chain|
  {
    MarkerSound(parent, depth, start, s, p);
    CheckMeaning(depth, s, p);
    if s.next > |p.chain| {
      assert Orphan(s, p.chain, s.next - 1);
    }
  }

  // ---- What the consumer holds ----

  lemma HoldsSnoc(out: seq<Record>, r: Record, n: nat, hash: Hash)
    ensures Holds(out + [r], n, hash)
       <==> match r
            case Block(m, h) => Holds(out, n, hash) || (m == n && Fold(h) == hash)
            case Marker(d) => Holds(out, n, hash) && !(d.fromBlock <= n <= d.toBlock)
  {
    assert (out + [r])[..|out|] == out;
  }

  lemma {:induction false} HoldsBlocks(out: seq<Record>, c: seq<Hash>, lo: nat, hi: nat, n: nat, hash: Hash)
    requires lo <= hi <= |c|
    ensures Holds(out + Blocks(c, lo, hi), n, hash) <==> Holds(out, n, hash) || (lo <= n < hi && Fold(c[n]) == hash)
    decreases hi
  {
    if lo == hi {
      assert out + Blocks(c, lo, hi) == out;
    } else {
      BlocksSnoc(c, lo, hi);
      assert out + Blocks(c, lo, hi) == out + Blocks(c, lo, hi - 1) + [Block(hi - 1, c[hi - 1])];
      HoldsSnoc(out + Blocks(c, lo, hi - 1), Block(hi - 1, c[hi - 1]), n, hash);
      HoldsBlocks(out, c, lo, hi - 1, n, hash);
    }
  }

  /** Only what was emitted is held. */
  lemma {:induction false} HeldWasEmitted(out: seq<Record>, n: nat, hash: Hash)
    requires Holds(out, n, hash)
    ensures n in View(out)
    decreases |out|
  {
    var before := out[..|out| - 1];
    if Holds(before, n, hash) {
      HeldWasEmitted(before, n, hash);
    }
  }

  type Held = set<(nat, Hash)>

  function BlockSet(c: seq<Hash>, lo: nat, hi: nat): Held
    requires lo <= hi <= |c|
  {
    set n | lo <= n < hi :: (n, Fold(c[n]))
  }

  /** What was last emitted, and not retracted since, from `lo` up to, but not including, `hi`. */
  function ViewSet(v: map<nat, Hash>, lo: nat, hi: nat, gone: set<nat>): Held {
    set n | lo <= n < hi && n in v && n !in gone :: (n, Fold(v[n]))
  }

  function Uncovered(held: Held, d: ReorgData): Held {
    set x | x in held && !(d.fromBlock <= x.0 <= d.toBlock)
  }

  /** Where the consumer differs from the last emissions below the resume height. */
  datatype Drift = Drift(
    strays: Held,      // blocks it holds besides: written at or above a resume height, or above a marker's range
    gone: set<nat>)    // heights a marker retracted and nothing was written to since

  /** Blocks past the resume height that a failed poll wrote. */
  function Ahead(c: seq<Hash>, next: nat, hi: nat): Held
    requires hi <= |c|
  {
    if next < hi then BlockSet(c, next, hi) else {}
  }

  /** Gone after a rewind retracted the heights from `lo` to `tip` and wrote those before `hi` again. */
  predicate Lost(gone: set<nat>, lo: nat, hi: nat, tip: nat, n: nat) {
    if n < lo || tip < n then n in gone else hi <= n
  }

  /** After a rewind that failed when it had written the heights before `hi`. */
  function FailedDrift(b: Drift, c: seq<Hash>, d: ReorgData, next: nat, hi: nat): Drift
    requires hi <= |c|
  {
    Drift(Uncovered(b.strays, d) + Ahead(c, next, hi),
          set n: nat | n < next && Lost(b.gone, d.fromBlock, hi, d.toBlock, n))
  }

  /** After a rewind that reached the head. */
  function RewoundDrift(b: Drift, v: map<nat, Hash>, d: ReorgData, next: nat): Drift {
    Drift(Uncovered(b.strays, d) + ViewSet(v, d.toBlock + 1, next, b.gone), set n | n in b.gone && n < d.fromBlock)
  }

  /** The drift after one iteration of the run loop. */
  function DriftAfter(depth: nat, s: State, b: Drift, p: Poll): Drift
    requires p.Valid()
  {
    if !Proceeds(depth, s, p) then b
    else
      var lo := From(depth, s, p);
      var fails := lo <= p.Head() && p.failAt <= p.Head();
      match CheckFrontier(depth, s, p)
      case CheckFailed => b
      case Canonical => if fails then b.(strays := b.strays + Ahead(p.chain, s.next, Reach(lo, p))) else b
      case Orphaned(d) =>
        if fails then FailedDrift(b, p.chain, d, s.next, Reach(lo, p)) else RewoundDrift(b, View(s.out), d, s.next)
  }

  function RunDrift(depth: nat, chunk: nat, s: State, b: Drift, polls: seq<Poll>): Drift
    requires chunk > 0 && forall p :: p in polls ==> p.Valid()
    decreases |polls|
  {
    if polls == [] then b
    else RunDrift(depth, chunk, RunStep(depth, chunk, s, polls[0]), DriftAfter(depth, s, b, polls[0]), polls[1..])
  }

  /** Held because it was last emitted below the resume height and not retracted. */
  ghost predicate Standing(v: map<nat, Hash>, next: nat, gone: set<nat>, n: nat, hash: Hash) {
    n < next && n in v && n !in gone && hash == Fold(v[n])
  }

  /** The consumer holds what was last emitted at each height below `next` that is not gone, and the strays. */
  ghost predicate Accounted(out: seq<Record>, next: nat, b: Drift) {
    && (forall n: nat :: n in b.gone ==> n < next)
    && forall n: nat, hash ::
         Holds(out, n, hash) <==> Standing(View(out), next, b.gone, n, hash) || (n, hash) in b.strays
  }

  // ---- One poll ----

  /** Without a marker, what is written past the resume height joins the strays, or the resume height moves past it. */
  lemma PlainAccounts(depth: nat, chunk: nat, s: State, p: Poll, b: Drift)
    requires chunk > 0 && p.Valid() && Accounted(s.out, s.next, b)
    requires Proceeds(depth, s, p) && !Rewinds(depth, s, p)
    ensures var t := RunStep(depth, chunk, s, p);
            Accounted(t.out, t.next, DriftAfter(depth, s, b, p))
  {
    var t, e := RunStep(depth, chunk, s, p), DriftAfter(depth, s, b, p);
    ProceedsOut(depth, chunk, s, p);
    if s.next <= p.Head() {
      var hi := Reach(s.next, p);
      ViewBlocks(s.out, p.chain, s.next, hi);
      forall n: nat, hash
        ensures Holds(t.out, n, hash) <==> Standing(View(t.out), t.next, e.gone, n, hash) || (n, hash) in e.strays
      {
        HoldsBlocks(s.out, p.chain, s.next, hi, n, hash);
      }
    }
  }

  /** A marker for the heights from `lo` to `tip`, then the blocks of `c` from `lo` up to, but not including, `hi`. */
  lemma MarkerHolds(out: seq<Record>, c: seq<Hash>, d: ReorgData, hi: nat, n: nat, hash: Hash)
    requires d.fromBlock <= hi <= |c|
    ensures Holds(out + [Marker(d)] + Blocks(c, d.fromBlock, hi), n, hash)
       <==> (Holds(out, n, hash) && !(d.fromBlock <= n <= d.toBlock)) || (d.fromBlock <= n < hi && Fold(c[n]) == hash)
  {
    HoldsSnoc(out, Marker(d), n, hash);
    HoldsBlocks(out + [Marker(d)], c, d.fromBlock, hi, n, hash);
  }

  /** A rewind that fails: what its marker covers and its blocks do not replace is gone. */
  lemma FailedMarkerAccounts(out: seq<Record>, next: nat, b: Drift, c: seq<Hash>, d: ReorgData, hi: nat)
    requires Accounted(out, next, b)
    requires d.fromBlock <= hi < |c| && d.fromBlock <= next && d.fromBlock <= d.toBlock + 1
    requires d.toBlock == if next - 1 > |c| - 1 then |c| - 1 else next - 1
    ensures Accounted(out + [Marker(d)] + Blocks(c, d.fromBlock, hi), next,
                      FailedDrift(b, c, d, next, hi))
  {
    var all := out + [Marker(d)] + Blocks(c, d.fromBlock, hi);
    var e := FailedDrift(b, c, d, next, hi);
    ViewAppend(out, Marker(d));
    ViewBlocks(out + [Marker(d)], c, d.fromBlock, hi);
    forall n: nat, hash
      ensures Holds(all, n, hash) <==> Standing(View(all), next, e.gone, n, hash) || (n, hash) in e.strays
    {
      MarkerHolds(out, c, d, hi, n, hash);
    }
  }

  /** A rewind that succeeds: nothing past the fork is gone, and what lies above the marker's range is left over. */
  lemma MarkerAccounts(out: seq<Record>, next: nat, b: Drift, c: seq<Hash>, d: ReorgData)
    requires Accounted(out, next, b)
    requires d.fromBlock <= |c| && d.fromBlock <= d.toBlock + 1 && d.toBlock < next && d.toBlock < |c|
    ensures Accounted(out + [Marker(d)] + Blocks(c, d.fromBlock, |c|), |c|,
                      RewoundDrift(b, View(out), d, next))
  {
    var all := out + [Marker(d)] + Blocks(c, d.fromBlock, |c|);
    var e := RewoundDrift(b, View(out), d, next);
    ViewAppend(out, Marker(d));
    ViewBlocks(out + [Marker(d)], c, d.fromBlock, |c|);
    forall n: nat, hash
      ensures Holds(all, n, hash) <==> Standing(View(all), |c|, e.gone, n, hash) || (n, hash) in e.strays
    {
      MarkerHolds(out, c, d, |c|, n, hash);
    }
  }

  /** Where the range of a marker lies. */
  lemma RangeBounds(depth: nat, s: State, p: Poll)
    requires p.Valid() && CheckFrontier(depth, s, p).Orphaned?
    ensures var d := CheckFrontier(depth, s, p).data;
            && d.fromBlock == From(depth, s, p) <= s.next && d.fromBlock <= d.toBlock + 1
            && d.toBlock == if s.next - 1 > p.Head() then p.Head() else s.next - 1
  {
    CheckMeaning(depth, s, p);
  }

  lemma RewindAccounts(depth: nat, chunk: nat, s: State, p: Poll, b: Drift)
    requires chunk > 0 && p.Valid() && Accounted(s.out, s.next, b) && Rewinds(depth, s, p)
    ensures var t := RunStep(depth, chunk, s, p);
            Accounted(t.out, t.next, DriftAfter(depth, s, b, p))
  {
    var d := CheckFrontier(depth, s, p).data;
    var lo := From(depth, s, p);
    RangeBounds(depth, s, p);
    RewindOut(depth, chunk, s, p);
    if lo <= p.Head() && p.failAt <= p.Head() {
      FailedMarkerAccounts(s.out, s.next, b, p.chain, d, Reach(lo, p));
    } else {
      MarkerAccounts(s.out, s.next, b, p.chain, d);
    }
  }

  /** A rewind writes its marker and the blocks past the fork, as far as it gets. */
  lemma RewindOut(depth: nat, chunk: nat, s: State, p: Poll)
    requires chunk > 0 && p.Valid() && Rewinds(depth, s, p)
    ensures var lo := From(depth, s, p);
            var d := CheckFrontier(depth, s, p).data;
            var t := RunStep(depth, chunk, s, p);
            if lo <= p.Head() && p.failAt <= p.Head()
            then lo <= Reach(lo, p) < |p.chain| && t.next == s.next
                 && t.out == s.out + [Marker(d)] + Blocks(p.chain, lo, Reach(lo, p))
            else lo <= |p.chain| == t.next && t.out == s.out + [Marker(d)] + Blocks(p.chain, lo, |p.chain|)
  {
    var d := CheckFrontier(depth, s, p).data;
    RangeBounds(depth, s, p);
    ProceedsOut(depth, chunk, s, p);
    assert s.out + [Marker(d)] + Blocks(p.chain, |p.chain|, |p.chain|) == s.out + [Marker(d)];
  }

  lemma StepAccounts(depth: nat, chunk: nat, s: State, p: Poll, b: Drift)
    requires chunk > 0 && p.Valid() && Accounted(s.out, s.next, b)
    ensures var t := RunStep(depth, chunk, s, p);
            Accounted(t.out, t.next, DriftAfter(depth, s, b, p))
  {
    if Rewinds(depth, s, p) {
      RewindAccounts(depth, chunk, s, p, b);
    } else if Proceeds(depth, s, p) {
      PlainAccounts(depth, chunk, s, p, b);
    }
  }

  lemma {:induction false} RunAccounts(depth: nat, chunk: nat, s: State, b: Drift, polls: seq<Poll>)
    requires chunk > 0 && (forall p :: p in polls ==> p.Valid()) && Accounted(s.out, s.next, b)
    ensures var t := Run(depth, chunk, s, polls);
            Accounted(t.out, t.next, RunDrift(depth, chunk, s, b, polls))
    decreases |polls|
  {
    if polls != [] {
      StepAccounts(depth, chunk, s, polls[0], b);
      RunAccounts(depth, chunk, RunStep(depth, chunk, s, polls[0]), DriftAfter(depth, s, b, polls[0]), polls[1..]);
    }
  }

  // ---- A whole run ----

  /** The consumer holds exactly the blocks of `c` at the heights that were ever emitted. */
  ghost predicate Exact(out: seq<Record>, c: seq<Hash>) {
    forall n: nat, hash :: Holds(out, n, hash) <==> n < |c| && n in View(out) && hash == Fold(c[n])
  }

  predicate AllCanonical(held: Held, c: seq<Hash>) {
    forall x :: x in held ==> x.0 < |c| && x.1 == Fold(c[x.0])
  }

  /** Each emitted height is canonical, or was retracted and a stray supplies its block. */
  ghost predicate Supplied(v: map<nat, Hash>, c: seq<Hash>, b: Drift) {
    forall n: nat :: n < |c| && n in v ==> if n in b.gone then (n, Fold(c[n])) in b.strays else SameHash(v[n], c[n])
  }

  lemma ExactNeeds(out: seq<Record>, c: seq<Hash>, b: Drift)
    requires Accounted(out, |c|, b) && Exact(out, c)
    ensures AllCanonical(b.strays, c) && Supplied(View(out), c, b)
  {
    forall x | x in b.strays ensures x.0 < |c| && x.1 == Fold(c[x.0]) {
      assert (x.0, x.1) in b.strays;
      assert Holds(out, x.0, x.1);
    }
    forall n: nat | n < |c| && n in View(out)
      ensures if n in b.gone then (n, Fold(c[n])) in b.strays else SameHash(View(out)[n], c[n])
    {
      assert Holds(out, n, Fold(c[n]));
      if n !in b.gone {
        assert Standing(View(out), |c|, b.gone, n, Fold(View(out)[n]));
        assert Holds(out, n, Fold(View(out)[n]));
      }
    }
  }

  lemma ExactFollows(out: seq<Record>, c: seq<Hash>, b: Drift)
    requires Accounted(out, |c|, b) && AllCanonical(b.strays, c) && Supplied(View(out), c, b)
    ensures Exact(out, c)
  {
    forall n: nat, hash ensures Holds(out, n, hash) <==> n < |c| && n in View(out) && hash == Fold(c[n]) {
      if Holds(out, n, hash) {
        HeldWasEmitted(out, n, hash);
        assert (n, hash) in b.strays ==> (n, hash).0 < |c| && (n, hash).1 == Fold(c[n]);
      }
    }
  }

  const NO_DRIFT := Drift({}, {})

  /**
   * Exactly when a consumer that applies blocks and retracts by markers ends with the canonical
   * blocks, over any run whatever: every stray is canonical, a stray stands in wherever a failed
   * rewind retracted a block for good, and everything else was last emitted as the canonical block.
   */
  lemma ConsumerExactIff(depth: nat, chunk: nat, start: nat, polls: seq<Poll>, c: seq<Hash>)
    requires chunk > 0 && (forall p :: p in polls ==> p.Valid())
    requires Run(depth, chunk, Fresh(start), polls).next == |c|
    ensures var b := RunDrift(depth, chunk, Fresh(start), NO_DRIFT, polls);
            var out := Run(depth, chunk, Fresh(start), polls).out;
            Exact(out, c) <==> AllCanonical(b.strays, c) && Supplied(View(out), c, b)
  {
    var b := RunDrift(depth, chunk, Fresh(start), NO_DRIFT, polls);
    var out := Run(depth, chunk, Fresh(start), polls).out;
    RunAccounts(depth, chunk, Fresh(start), NO_DRIFT, polls);
    if Exact(out, c) {
      ExactNeeds(out, c, b);
    }
    if AllCanonical(b.strays, c) && Supplied(View(out), c, b) {
      ExactFollows(out, c, b);
    }
  }

  // ---- Runs in which no rewind fails ----

  lemma {:induction false} NothingGone(depth: nat, chunk: nat, s: State, b: Drift, polls: seq<Poll>)
    requires chunk > 0 && (forall p :: p in polls ==> p.Valid())
    requires NoRewindFails(depth, chunk, s, polls) && b.gone == {}
    ensures RunDrift(depth, chunk, s, b, polls).gone == {}
    decreases |polls|
  {
    if polls != [] {
      NothingGone(depth, chunk, RunStep(depth, chunk, s, polls[0]), DriftAfter(depth, s, b, polls[0]), polls[1..]);
    }
  }

  /** If no rewind fails, every last emission and every stray must be canonical, and that is enough. */
  lemma IntactConsumerExactIff(depth: nat, chunk: nat, start: nat, polls: seq<Poll>, c: seq<Hash>)
    requires chunk > 0 && (forall p :: p in polls ==> p.Valid()) && NoRewindFails(depth, chunk, Fresh(start), polls)
    requires Run(depth, chunk, Fresh(start), polls).next == |c|
    ensures var out := Run(depth, chunk, Fresh(start), polls).out;
            Exact(out, c) <==> AllCanonical(RunDrift(depth, chunk, Fresh(start), NO_DRIFT, polls).strays, c)
                               && AgreesBelow(View(out), c, |c|)
  {
    ConsumerExactIff(depth, chunk, start, polls, c);
    NothingGone(depth, chunk, Fresh(start), NO_DRIFT, polls);
  }

  lemma EndAgrees(parent: Hash -> Hash, start: nat, t: State, c: seq<Hash>)
    requires Inv(parent, start, t) && Linked(parent, c) && t.next == |c| && Converged(start, t, c)
    ensures AgreesBelow(View(t.out), c, |c|)
  {
    if start < |c| {
      AgreeUpTo(parent, View(t.out), t.next, c, |c| - 1);
    }
  }

  lemma {:induction false} TameRewindsSucceed(parent: Hash -> Hash, depth: nat, chunk: nat, s: State, polls: seq<Poll>)
    requires chunk > 0 && (forall p :: p in polls ==> p.Valid()) && TameRun(parent, depth, chunk, s, polls)
    ensures NoRewindFails(depth, chunk, s, polls)
    decreases |polls|
  {
    if polls != [] {
      TameRewindsSucceed(parent, depth, chunk, RunStep(depth, chunk, s, polls[0]), polls[1..]);
    }
  }

  /** If besides every head header was read, the last emissions are canonical and only the strays matter. */
  lemma TameConsumerExactIff(parent: Hash -> Hash, depth: nat, chunk: nat, start: nat, polls: seq<Poll>, p: Poll)
    requires depth > 0 && chunk > 0
    requires (forall q :: q in polls ==> q.Valid()) && p.Valid()
    requires TameRun(parent, depth, chunk, Fresh(start), polls + [p])
    requires PollOnce(depth, chunk, Run(depth, chunk, Fresh(start), polls), p).1
    requires Run(depth, chunk, Fresh(start), polls + [p]).next == |p.chain|
    ensures forall q :: q in polls + [p] ==> q.Valid()
    ensures Exact(Run(depth, chunk, Fresh(start), polls + [p]).out, p.chain)
       <==> AllCanonical(RunDrift(depth, chunk, Fresh(start), NO_DRIFT, polls + [p]).strays, p.chain)
  {
    var t := Run(depth, chunk, Fresh(start), polls + [p]);
    Convergence.Convergence(parent, depth, chunk, start, polls, p);
    RunKeepsInv(parent, depth, chunk, start, Fresh(start), polls + [p]);
    TameRunSplit(parent, depth, chunk, Fresh(start), polls, p);
    TameRewindsSucceed(parent, depth, chunk, Fresh(start), polls + [p]);
    EndAgrees(parent, start, t, p.chain);
    IntactConsumerExactIff(depth, chunk, start, polls + [p], p.chain);
  }

  /** No poll failed after writing anything, and no marker went out while the chain was short. */
  ghost predicate Orderly(depth: nat, chunk: nat, s: State, polls: seq<Poll>)
    requires chunk > 0 && forall p :: p in polls ==> p.Valid()
    decreases |polls|
  {
    polls == []
    || (&& (!PollOnce(depth, chunk, s, polls[0]).1 ==> RunStep(depth, chunk, s, polls[0]).out == s.out)
        && (Rewinds(depth, s, polls[0]) ==> s.next <= |polls[0].chain|)
        && Orderly(depth, chunk, RunStep(depth, chunk, s, polls[0]), polls[1..]))
  }

  lemma OrderlyStep(depth: nat, chunk: nat, s: State, p: Poll)
    requires chunk > 0 && p.Valid()
    requires !PollOnce(depth, chunk, s, p).1 ==> RunStep(depth, chunk, s, p).out == s.out
    requires Rewinds(depth, s, p) ==> s.next <= |p.chain|
    ensures DriftAfter(depth, s, NO_DRIFT, p) == NO_DRIFT
    ensures Rewinds(depth, s, p) ==> PollOnce(depth, chunk, s, p).1
  {
    if Proceeds(depth, s, p) {
      ProceedsOut(depth, chunk, s, p);
      if CheckFrontier(depth, s, p).Orphaned? {
        RangeBounds(depth, s, p);
      } else {
        FromBounds(depth, s, p);
      }
    }
  }

  lemma {:induction false} OrderlyKeepsPace(depth: nat, chunk: nat, s: State, polls: seq<Poll>)
    requires chunk > 0 && (forall p :: p in polls ==> p.Valid()) && Orderly(depth, chunk, s, polls)
    ensures RunDrift(depth, chunk, s, NO_DRIFT, polls) == NO_DRIFT && NoRewindFails(depth, chunk, s, polls)
    decreases |polls|
  {
    if polls != [] {
      OrderlyStep(depth, chunk, s, polls[0]);
      OrderlyKeepsPace(depth, chunk, RunStep(depth, chunk, s, polls[0]), polls[1..]);
    }
  }

  /** An orderly run leaves no strays, so the consumer is exact if and only if the last emissions are canonical. */
  lemma OrderlyConsumerExactIff(depth: nat, chunk: nat, start: nat, polls: seq<Poll>, c: seq<Hash>)
    requires chunk > 0 && (forall p :: p in polls ==> p.Valid()) && Orderly(depth, chunk, Fresh(start), polls)
    requires Run(depth, chunk, Fresh(start), polls).next == |c|
    ensures var out := Run(depth, chunk, Fresh(start), polls).out;
            Exact(out, c) <==> AgreesBelow(View(out), c, |c|)
  {
    OrderlyKeepsPace(depth, chunk, Fresh(start), polls);
    IntactConsumerExactIff(depth, chunk, start, polls, c);
  }

  /** An orderly run whose head headers were all read leaves the consumer with exactly the canonical blocks. */
  lemma OrderlyConsumerExact(parent: Hash -> Hash, depth: nat, chunk: nat, start: nat, polls: seq<Poll>, p: Poll)
    requires depth > 0 && chunk > 0
    requires (forall q :: q in polls ==> q.Valid()) && p.Valid()
    requires TameRun(parent, depth, chunk, Fresh(start), polls + [p])
    requires PollOnce(depth, chunk, Run(depth, chunk, Fresh(start), polls), p).1
    requires Run(depth, chunk, Fresh(start), polls + [p]).next == |p.chain|
    requires Orderly(depth, chunk, Fresh(start), polls + [p])
    ensures Exact(Run(depth, chunk, Fresh(start), polls + [p]).out, p.chain)
  {
    TameConsumerExactIff(parent, depth, chunk, start, polls, p);
    OrderlyKeepsPace(depth, chunk, Fresh(start), polls + [p]);
  }

  // ---- A block that is never retracted ----

  const GROWN: seq<Hash> := ["g", "a1", "a2", "a3"]
  const SHORT: seq<Hash> := ["g", "a1", "b2"]
  const TALL: State := State(4, map[1 := "a1", 2 := "a2", 3 := "a3"], [Block(1, "a1"), Block(2, "a2"), Block(3, "a3")])
  const CUT: State := State(3, map[1 := "a1", 2 := "b2"], TALL.out + [MARK] + [Block(2, "b2")])
  const CLIMBED: State := State(4, map[1 := "a1", 2 := "b2", 3 := "b3"], CUT.out + [Block(3, "b3")])

  lemma Growing()
    requires Reachable(8, 100, 1, FOLLOWED)
    ensures Reachable(8, 100, 1, TALL)
  {
    assert Blocks(GROWN, 3, 4) == [Block(3, "a3")];
    StepReachable(8, 100, 1, FOLLOWED, Seen(GROWN, 9), TALL);
  }

  lemma ShorteningSeen()
    ensures CheckFrontier(8, TALL, Seen(SHORT, 9)) == Orphaned(MARK.data)
  {
    DifferentHashes();
    assert SearchFork(TALL.hashes, Seen(SHORT, 9), 2, 0) == Found(1);
  }

  lemma Shortening()
    requires Reachable(8, 100, 1, TALL)
    ensures Reachable(8, 100, 1, CUT)
  {
    ShorteningSeen();
    assert Blocks(SHORT, 2, 3) == [Block(2, "b2")];
    StepReachable(8, 100, 1, TALL, Seen(SHORT, 9), CUT);
  }

  lemma Climbing()
    requires Reachable(8, 100, 1, CUT)
    ensures Reachable(8, 100, 1, CLIMBED)
  {
    assert Blocks(AFTER, 3, 4) == [Block(3, "b3")];
    StepReachable(8, 100, 1, CUT, Seen(AFTER, 9), CLIMBED);
  }

  lemma StillHeld()
    ensures Holds(CLIMBED.out, 3, Fold("a3"))
  {
    HoldsSnoc([Block(1, "a1"), Block(2, "a2")], Block(3, "a3"), 3, Fold("a3"));
    assert TALL.out == [Block(1, "a1"), Block(2, "a2")] + [Block(3, "a3")];
    HoldsSnoc(TALL.out, MARK, 3, Fold("a3"));
    HoldsSnoc(TALL.out + [MARK], Block(2, "b2"), 3, Fold("a3"));
    HoldsSnoc(CUT.out, Block(3, "b3"), 3, Fold("a3"));
  }

  /**
   * The chain shortens below block 3 and climbs back: the run ends just past the head, every last
   * emission is canonical, and the consumer still holds the orphaned block 3.
   */
  lemma ShortHeadExample()
    ensures Reachable(8, 100, 1, CLIMBED) && CLIMBED.next == |AFTER|
    ensures Holds(CLIMBED.out, 3, Fold("a3")) && !Exact(CLIMBED.out, AFTER)
  {
    Beginning(100);
    Following(100);
    Growing();
    Shortening();
    Climbing();
    StillHeld();
    assert Fold("a3")[0] != Fold("b3")[0];
  }

  // ---- A block that is retracted and never comes back ----

  /** Some run from a fresh start leads to `t` with the drift `b`. */
  ghost predicate ReachableWith(depth: nat, chunk: nat, start: nat, t: State, b: Drift)
    requires chunk > 0
  {
    exists polls: seq<Poll> :: (forall p :: p in polls ==> p.Valid()) && Run(depth, chunk, Fresh(start), polls) == t
      && RunDrift(depth, chunk, Fresh(start), NO_DRIFT, polls) == b
  }

  lemma {:induction false} DriftSnoc(depth: nat, chunk: nat, s: State, b: Drift, polls: seq<Poll>, p: Poll)
    requires chunk > 0 && (forall q :: q in polls ==> q.Valid()) && p.Valid()
    ensures RunDrift(depth, chunk, s, b, polls + [p])
         == DriftAfter(depth, Run(depth, chunk, s, polls), RunDrift(depth, chunk, s, b, polls), p)
    decreases |polls|
  {
    var all := polls + [p];
    if polls == [] {
      assert all == [p] && all[1..] == [];
    } else {
      assert all[0] == polls[0] && all[1..] == polls[1..] + [p];
      DriftSnoc(depth, chunk, RunStep(depth, chunk, s, polls[0]), DriftAfter(depth, s, b, polls[0]), polls[1..], p);
    }
  }

  lemma StepReachableWith(depth: nat, chunk: nat, start: nat, s: State, b: Drift, p: Poll, t: State, e: Drift)
    requires chunk > 0 && ReachableWith(depth, chunk, start, s, b) && p.Valid()
    requires RunStep(depth, chunk, s, p) == t && DriftAfter(depth, s, b, p) == e
    ensures ReachableWith(depth, chunk, start, t, e)
  {
    var polls: seq<Poll> :| (forall q :: q in polls ==> q.Valid()) && Run(depth, chunk, Fresh(start), polls) == s
      && RunDrift(depth, chunk, Fresh(start), NO_DRIFT, polls) == b;
    RunSnoc(depth, chunk, Fresh(start), polls, p);
    DriftSnoc(depth, chunk, Fresh(start), NO_DRIFT, polls, p);
    assert forall q :: q in polls + [p] ==> q.Valid();
  }

  lemma BeginningWith()
    ensures ReachableWith(8, 100, 1, BEGUN, NO_DRIFT)
  {
    assert Run(8, 100, Fresh(1), []) == Fresh(1) && RunDrift(8, 100, Fresh(1), NO_DRIFT, []) == NO_DRIFT;
    assert Blocks(BEFORE[..2], 1, 2) == [Block(1, "a1")];
    StepReachableWith(8, 100, 1, Fresh(1), NO_DRIFT, Seen(BEFORE[..2], 9), BEGUN, NO_DRIFT);
  }

  lemma FollowingWith()
    requires ReachableWith(8, 100, 1, BEGUN, NO_DRIFT)
    ensures ReachableWith(8, 100, 1, FOLLOWED, NO_DRIFT)
  {
    assert Blocks(BEFORE, 2, 3) == [Block(2, "a2")];
    StepReachableWith(8, 100, 1, BEGUN, NO_DRIFT, Seen(BEFORE, 9), FOLLOWED, NO_DRIFT);
  }

  lemma BlindingWith()
    requires ReachableWith(8, 100, 1, FOLLOWED, NO_DRIFT)
    ensures ReachableWith(8, 100, 1, BLINDED, Drift({}, {2}))
  {
    DifferentHashes();
    var p := Seen(AFTER, 2);
    assert SearchFork(FOLLOWED.hashes, p, 2, 0) == Found(1);
    assert CheckFrontier(8, FOLLOWED, p) == Orphaned(MARK.data);
    assert FOLLOWED.out + [MARK] + Blocks(AFTER, 2, 2) == BLINDED.out;
    RetractedTwo();
    StepReachableWith(8, 100, 1, FOLLOWED, NO_DRIFT, p, BLINDED, Drift({}, {2}));
  }

  lemma RetractedTwo()
    ensures FailedDrift(NO_DRIFT, AFTER, MARK.data, 3, 2) == Drift({}, {2})
  {
    var lost := set n: nat | n < 3 && Lost({}, 2, 2, 2, n);
    forall n: nat ensures n in lost <==> n in {2} {
    }
    assert lost == {2};
  }

  lemma LosingWith()
    requires ReachableWith(8, 100, 1, BLINDED, Drift({}, {2}))
    ensures ReachableWith(8, 100, 1, LOST, Drift({}, {2}))
  {
    assert Blocks(AFTER, 3, 4) == [Block(3, "b3")];
    StepReachableWith(8, 100, 1, BLINDED, Drift({}, {2}), Seen(AFTER, 9), LOST, Drift({}, {2}));
  }

  /**
   * The run of Rewind.LossExample: no stray is left and every poll but the failed rewind succeeds,
   * but the consumer retracted block 2 and holds no block 2 at all.
   */
  lemma HoleExample()
    ensures ReachableWith(8, 100, 1, LOST, Drift({}, {2})) && LOST.next == |AFTER|
    ensures (forall hash :: !Holds(LOST.out, 2, hash)) && !Exact(LOST.out, AFTER)
  {
    BeginningWith();
    FollowingWith();
    BlindingWith();
    LosingWith();
    LostView();
    forall hash ensures !Holds(LOST.out, 2, hash) {
      assert LOST.out == FOLLOWED.out + [MARK] + [Block(3, "b3")];
      HoldsSnoc(FOLLOWED.out, MARK, 2, hash);
      HoldsSnoc(FOLLOWED.out + [MARK], Block(3, "b3"), 2, hash);
    }
    assert !Holds(LOST.out, 2, Fold(AFTER[2]));
  }
}
