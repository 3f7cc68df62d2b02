/** Which heights the follower tracks after a run, and how far back it therefore finds a fork. */
module Window {
  import opened Chain
  import opened Follower
  import opened Convergence
  import opened Seams

  /** The poll reached the head of its chain and had read the head's header. */
  predicate Records(depth: nat, s: State, p: Poll)
    requires p.Valid()
  {
    && depth > 0 && Proceeds(depth, s, p) && From(depth, s, p) <= p.Head() < p.failAt
    && p.header.Header? && p.header.hash != ""
  }

  /** The poll does not rewind below `h`, and does not record a head more than the depth above it. */
  ghost predicate Spares(depth: nat, s: State, p: Poll, h: nat)
    requires p.Valid()
  {
    && (Rewinds(depth, s, p) ==> h <= CheckFrontier(depth, s, p).data.forkBlock)
    && (Records(depth, s, p) ==> p.Head() <= h + depth)
  }

  ghost predicate AllSpare(depth: nat, chunk: nat, s: State, polls: seq<Poll>, h: nat)
    requires chunk > 0 && forall p :: p in polls ==> p.Valid()
    decreases |polls|
  {
    polls == []
    || (Spares(depth, s, polls[0], h) && AllSpare(depth, chunk, RunStep(depth, chunk, s, polls[0]), polls[1..], h))
  }

  /** Some poll of the run recorded `h`, and every later one spared it. */
  ghost predicate RecordedAndSpared(depth: nat, chunk: nat, s: State, polls: seq<Poll>, h: nat)
    requires chunk > 0 && forall p :: p in polls ==> p.Valid()
    decreases |polls|
  {
    polls != []
    && var t := RunStep(depth, chunk, s, polls[0]);
       || (Records(depth, s, polls[0]) && polls[0].Head() == h && AllSpare(depth, chunk, t, polls[1..], h))
       || RecordedAndSpared(depth, chunk, t, polls[1..], h)
  }

  /** One poll tracks its head if it records it, and besides it exactly the tracked heights it spares. */
  lemma StepTracksIff(depth: nat, chunk: nat, s: State, p: Poll, h: nat)
    requires chunk > 0 && p.Valid()
    ensures var t := RunStep(depth, chunk, s, p);
            && (h in t.hashes <==> (h in s.hashes && Spares(depth, s, p, h)) || (Records(depth, s, p) && p.Head() == h))
            && (h in t.hashes ==>
                  t.hashes[h] == if Records(depth, s, p) && p.Head() == h then p.chain[h] else s.hashes[h])
  {
  }

  /**
   * What a run tracks: the heights it began with that every poll spared, and those some poll
   * recorded and every later one spared. Nothing else, and nothing within reach is forgotten.
   */
  lemma {:induction false} RunTracksIff(depth: nat, chunk: nat, s: State, polls: seq<Poll>, h: nat)
    requires chunk > 0 && forall p :: p in polls ==> p.Valid()
    ensures h in Run(depth, chunk, s, polls).hashes
       <==> (h in s.hashes && AllSpare(depth, chunk, s, polls, h)) || RecordedAndSpared(depth, chunk, s, polls, h)
    decreases |polls|
  {
    if polls != [] {
      StepTracksIff(depth, chunk, s, polls[0], h);
      RunTracksIff(depth, chunk, RunStep(depth, chunk, s, polls[0]), polls[1..], h);
    }
  }

  /** No tracked height lies more than the depth below the last recorded head. */
  lemma RecordedWindow(depth: nat, chunk: nat, start: nat, s: State, p: Poll, h: nat)
    requires chunk > 0 && p.Valid() && Records(depth, s, p)
    requires TrackedWithin(s.hashes, View(s.out), start, s.next) && h in RunStep(depth, chunk, s, p).hashes
    ensures p.Head() <= h + depth && h <= p.Head()
  {
    StepTracksIff(depth, chunk, s, p, h);
    FromBounds(depth, s, p);
  }

  // ---- How far back a fork is found ----

  ghost predicate NoneRewinds(depth: nat, chunk: nat, s: State, polls: seq<Poll>)
    requires chunk > 0 && forall p :: p in polls ==> p.Valid()
    decreases |polls|
  {
    polls == []
    || (!Rewinds(depth, s, polls[0]) && NoneRewinds(depth, chunk, RunStep(depth, chunk, s, polls[0]), polls[1..]))
  }

  /** A poll that does not rewind never lowers the resume height, and records only at or above the old one. */
  lemma ClimbingStep(depth: nat, chunk: nat, s: State, p: Poll)
    requires chunk > 0 && p.Valid() && !Rewinds(depth, s, p)
    ensures s.next <= RunStep(depth, chunk, s, p).next
    ensures Records(depth, s, p) ==> s.next <= p.Head() < RunStep(depth, chunk, s, p).next
  {
    if Proceeds(depth, s, p) {
      ProceedsOut(depth, chunk, s, p);
    }
  }

  /** Without a rewind, a tracked height within the depth of the resume height stays tracked, with its hash. */
  lemma {:induction false} StaysTracked(depth: nat, chunk: nat, s: State, polls: seq<Poll>, h: nat)
    requires chunk > 0 && (forall p :: p in polls ==> p.Valid()) && NoneRewinds(depth, chunk, s, polls)
    requires h in s.hashes && h < s.next && Run(depth, chunk, s, polls).next <= h + depth + 1
    ensures h in Run(depth, chunk, s, polls).hashes && Run(depth, chunk, s, polls).hashes[h] == s.hashes[h]
    ensures s.next <= Run(depth, chunk, s, polls).next
    decreases |polls|
  {
    if polls != [] {
      var t := RunStep(depth, chunk, s, polls[0]);
      ClimbingStep(depth, chunk, s, polls[0]);
      RunClimbs(depth, chunk, t, polls[1..]);
      StepTracksIff(depth, chunk, s, polls[0], h);
      StaysTracked(depth, chunk, t, polls[1..], h);
    }
  }

  lemma {:induction false} RunClimbs(depth: nat, chunk: nat, s: State, polls: seq<Poll>)
    requires chunk > 0 && (forall p :: p in polls ==> p.Valid()) && NoneRewinds(depth, chunk, s, polls)
    ensures s.next <= Run(depth, chunk, s, polls).next
    decreases |polls|
  {
    if polls != [] {
      ClimbingStep(depth, chunk, s, polls[0]);
      RunClimbs(depth, chunk, RunStep(depth, chunk, s, polls[0]), polls[1..]);
    }
  }

  /** A tracked, still canonical height within the depth below the orphaned one bounds the fork from below. */
  lemma TrackedBoundsFork(depth: nat, s: State, p: Poll, h: nat)
    requires p.Valid() && CheckFrontier(depth, s, p).Orphaned?
    requires h in s.hashes && h < CheckFrontier(depth, s, p).data.toBlock <= h + depth
    requires h < |p.chain| && SameHash(p.chain[h], s.hashes[h])
    ensures var d := CheckFrontier(depth, s, p).data;
            !d.depthExceeded && h <= d.forkBlock
  {
    var tip := Frontier(s.next, p.Head());
    SearchForkMeaning(s.hashes, p, tip, Floor(tip, depth));
  }

  /**
   * A head the follower recorded is found again: if poll `q` recorded its head, no poll since
   * rewound, what was processed since reaches no more than the depth above that head and the node
   * still has that block, then an orphaned block above it gives a fork at that head or higher, and
   * not one that is pinned.
   */
  lemma RecentHeadFound(depth: nat, chunk: nat, s: State, q: Poll, later: seq<Poll>, p: Poll)
    requires chunk > 0 && q.Valid() && p.Valid() && Records(depth, s, q)
    requires (forall r :: r in later ==> r.Valid())
    requires NoneRewinds(depth, chunk, RunStep(depth, chunk, s, q), later)
    requires var t := Run(depth, chunk, RunStep(depth, chunk, s, q), later);
             && t.next <= q.Head() + depth + 1 && CheckFrontier(depth, t, p).Orphaned?
             && q.Head() < CheckFrontier(depth, t, p).data.toBlock
             && q.Head() < |p.chain| && SameHash(p.chain[q.Head()], q.chain[q.Head()])
    ensures var d := CheckFrontier(depth, Run(depth, chunk, RunStep(depth, chunk, s, q), later), p).data;
            !d.depthExceeded && q.Head() <= d.forkBlock
  {
    var m := q.Head();
    var r := RunStep(depth, chunk, s, q);
    var t := Run(depth, chunk, r, later);
    StepTracksIff(depth, chunk, s, q, m);
    ProceedsOut(depth, chunk, s, q);
    StaysTracked(depth, chunk, r, later, m);
    CheckMeaning(depth, t, p);
    TrackedBoundsFork(depth, t, p, m);
  }
}
