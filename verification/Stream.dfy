/** The follower as the program runs it: a tracker, a poll loop and a cursor, updated in place. */
module Stream {
  import opened Chain
  import opened Common
  import F = Follower
  import opened Checkpoint
  import R = Resume

  /** Recent canonical hashes by height. A missing tracker means reorg handling is off. */
  class ReorgTracker {
    const depth: nat
    var hashes: map<nat, Hash>

    constructor (depth: nat)
      ensures this.depth == depth && hashes == map[]
    {
      this.depth := depth;
      hashes := map[];
    }

    method RecordHash(n: nat, hash: Hash, head: nat)
      modifies this
      ensures hashes == F.RecordHash(depth, old(hashes), n, hash, head)
    {
      if hash == "" {
        return;
      }
      hashes := hashes[n := hash];
      if head >= depth {
        Prune(set k | k in hashes && k < head - depth);
      }
    }

    method Recorded(n: nat) returns (hash: Hash, ok: bool)
      ensures ok <==> n in hashes
      ensures ok ==> hash == hashes[n]
    {
      if n in hashes {
        return hashes[n], true;
      }
      return "", false;
    }

    method ForgetAbove(n: nat)
      modifies this
      ensures hashes == F.ForgetAbove(old(hashes), n)
    {
      Prune(set k | k in hashes && k > n);
    }

    /** Deletes the given heights one at a time. */
    method Prune(heights: set<nat>)
      modifies this
      ensures hashes == old(hashes) - heights
    {
      var todo := heights;
      while todo != {}
        invariant todo <= heights
        invariant hashes == old(hashes) - (heights - todo)
        decreases todo
      {
        var k :| k in todo;
        hashes := hashes - {k};
        todo := todo - {k};
      }
    }
  }

  class Stream {
    const depth: nat
    const chunk: nat
    const reorg: ReorgTracker?
    var out: seq<F.Record>
    var lastHead: nat

    ghost predicate Valid()
      reads this
    {
      && chunk > 0
      && (reorg == null <==> depth == 0)
      && (reorg != null ==> reorg.depth == depth)
    }

    /** The follower's state when the next unprocessed height is `next`. */
    ghost function State(next: nat): F.State
      reads this, reorg
    {
      F.State(next, if reorg == null then map[] else reorg.hashes, out)
    }

    constructor (depth: nat, chunk: nat)
      requires chunk > 0
      ensures Valid() && this.depth == depth && this.chunk == chunk
      ensures forall next: nat :: State(next) == F.State(next, map[], [])
      ensures reorg != null ==> fresh(reorg)
    {
      this.depth := depth;
      this.chunk := chunk;
      if depth == 0 {
        reorg := null;
      } else {
        var tracker := new ReorgTracker(depth);
        reorg := tracker;
      }
      out := [];
      lastHead := 0;
    }

    /** The node's hash at `n`, or "" when the best-effort fetch fails. */
    method CanonicalHashAt(p: F.Poll, n: nat) returns (hash: Hash)
      requires n < |p.chain|
      ensures hash == if p.tipOk then p.chain[n] else ""
    {
      hash := if p.tipOk then p.chain[n] else "";
    }

    method ResolveFork(p: F.Poll, tip: nat, tipHash: Hash) returns (data: Option<F.ReorgData>)
      requires Valid() && reorg != null && tip < |p.chain| && tip in reorg.hashes && tipHash == reorg.hashes[tip]
      ensures match F.ResolveFork(depth, reorg.hashes, p, tip)
              case Orphaned(d) => data == Some(d)
              case _ => data == None
    {
      var floor := if tip > reorg.depth then tip - reorg.depth else 0;
      var newHash := CanonicalHashAt(p, tip);
      var n := tip;
      while n > floor
        invariant floor <= n <= tip
        invariant F.SearchFork(reorg.hashes, p, tip, floor) == F.SearchFork(reorg.hashes, p, n, floor)
      {
        n := n - 1;
        var recordedHash, ok := reorg.Recorded(n);
        if !ok {
          continue;
        }
        if n in p.dark {
          return None;
        }
        if SameHash(p.chain[n], recordedHash) {
          return Some(F.ReorgData(n, n + 1, tip, tip - n, tipHash, newHash, false));
        }
      }
      return Some(F.ReorgData(floor, floor + 1, tip, tip - floor, tipHash, newHash, true));
    }

    method EmitReorg(p: F.Poll, data: F.ReorgData) returns (ok: bool)
      modifies this`out
      ensures ok == p.markerOk
      ensures out == if ok then old(out) + [F.Marker(data)] else old(out)
    {
      if p.markerOk {
        out := out + [F.Marker(data)];
      }
      return p.markerOk;
    }

    /** Checks the frontier and, if it was orphaned, reports it and rewinds. */
    method HandleReorgIfAny(next: nat, p: F.Poll) returns (rewound: nat, ok: bool)
      requires Valid() && p.Valid()
      modifies this`out, reorg
      ensures match F.CheckFrontier(depth, old(State(next)), p)
              case Canonical => ok && State(rewound) == old(State(next))
              case CheckFailed => !ok && State(next) == old(State(next))
              case Orphaned(d) =>
                (ok == p.markerOk
                 && (if ok then State(rewound) == F.Rewound(old(State(next)), d) else State(next) == old(State(next))))
    {
      if reorg == null || next == 0 {
        return next, true;
      }
      var head := p.Head();
      var frontier := next - 1;
      if frontier > head {
        frontier := head;
      }
      var recordedHash, tracked := reorg.Recorded(frontier);
      if !tracked {
        return next, true;
      }
      var nodeHash;
      if p.header.Header? && head == frontier && p.header.hash != "" {
        nodeHash := p.header.hash;
      } else if p.header.Header? && head == frontier + 1 && p.header.parentHash != "" {
        nodeHash := p.header.parentHash;
      } else {
        if !p.frontierOk {
          return next, false;
        }
        nodeHash := p.chain[frontier];
      }
      assert nodeHash == p.chain[frontier];
      if SameHash(nodeHash, recordedHash) {
        return next, true;
      }
      var data := ResolveFork(p, frontier, recordedHash);
      if data == None {
        return next, false;
      }
      var emitted := EmitReorg(p, data.value);
      if !emitted {
        return next, false;
      }
      reorg.ForgetAbove(data.value.forkBlock);
      return data.value.forkBlock + 1, true;
    }

    /** Emits the blocks of one chunk until the first height whose processing fails. */
    method ProcessRange(p: F.Poll, from: nat, end: nat) returns (ok: bool)
      requires from <= end < |p.chain|
      modifies this`out
      ensures ok == (p.failAt > end)
      ensures var reached := if ok then end + 1 else if p.failAt < from then from else p.failAt;
              out == old(out) + F.Blocks(p.chain, from, reached)
    {
      var n := from;
      while n <= end
        invariant from <= n <= end + 1
        invariant n > from ==> p.failAt >= n
        invariant out == old(out) + F.Blocks(p.chain, from, n)
      {
        if p.failAt <= n {
          return false;
        }
        F.BlocksSnoc(p.chain, from, n + 1);
        out := out + [F.Block(n, p.chain[n])];
        n := n + 1;
      }
      return true;
    }

    /** One poll: refines the follower's poll function. */
    method PollOnce(next: nat, p: F.Poll) returns (resume: nat, ok: bool)
      requires Valid() && p.Valid()
      modifies this, reorg
      ensures Valid()
      ensures (State(resume), ok) == F.PollOnce(depth, chunk, old(State(next)), p)
      ensures p.headKnown ==> lastHead == p.Head()
    {
      if !p.headKnown {
        return next, false;
      }
      var head := p.Head();
      lastHead := head;
      var cur, checked := HandleReorgIfAny(next, p);
      if !checked {
        return next, false;
      }
      if cur > head {
        return cur, true;
      }
      resume, ok := Extend(cur, p);
    }

    /** Processes everything from `from` to the head in chunks, and tracks the head. */
    method Extend(from: nat, p: F.Poll) returns (cur: nat, ok: bool)
      requires Valid() && p.Valid() && from <= p.Head()
      modifies this`out, reorg
      ensures (State(cur), ok) == F.Extend(depth, chunk, old(State(from)), p)
    {
      var head := p.Head();
      cur := from;
      assert OnBoundary(from, cur, chunk);
      while cur <= head
        invariant from <= cur <= head + 1
        invariant cur == head + 1 || OnBoundary(from, cur, chunk)
        invariant cur > from ==> p.failAt >= cur
        invariant out == old(out) + F.Blocks(p.chain, from, cur)
        invariant State(cur).hashes == old(State(from).hashes)
      {
        var end := cur + chunk - 1;
        if end > head {
          end := head;
        }
        var processed := ProcessRange(p, cur, end);
        if !processed {
          var at := if p.failAt < cur then cur else p.failAt;
          BlocksJoin(p.chain, from, cur, at);
          assert out == old(out) + F.Blocks(p.chain, from, at);
          ExtendFails(depth, chunk, old(State(from)), p, cur);
          return cur, false;
        }
        BlocksJoin(p.chain, from, cur, end + 1);
        NextChunk(from, cur, chunk);
        cur := end + 1;
      }
      if p.header.Header? && reorg != null {
        reorg.RecordHash(head, p.header.hash, head);
      }
      return cur, true;
    }

    /** The run loop after its start height is resolved: polls, and saves the cursor when it moved. */
    method Run(cfg: R.Config, store: Store, from: nat, script: seq<(F.Poll, SaveFault)>)
        returns (next: nat, lastSaved: nat)
      requires Valid() && depth == cfg.depth && chunk == cfg.chunk
      requires forall e :: e in script ==> e.0.Valid()
      modifies this, reorg, store
      ensures R.Process(State(next), lastSaved, Saved(store), from)
           == R.Steps(cfg, old(R.Process(State(from), from, Saved(store), from)), EventsOf(script))
    {
      next, lastSaved := from, from;
      var i := 0;
      while i < |script|
        invariant 0 <= i <= |script| && Valid()
        invariant R.Steps(cfg, R.Process(State(next), lastSaved, Saved(store), from), EventsOf(script[i..]))
               == R.Steps(cfg, old(R.Process(State(from), from, Saved(store), from)), EventsOf(script))
      {
        var (p, fault) := script[i];
        assert EventsOf(script[i..])[0] == R.Polled(p, fault == NoFault);
        assert EventsOf(script[i..])[1..] == EventsOf(script[i + 1..]);
        var resume, ok := PollOnce(next, p);
        if ok {
          next := resume;
          if next > 0 && next != lastSaved {
            var saved := store.Save(Cursor(cfg.chainId, next - 1), fault);
            if saved {
              lastSaved := next;
            }
          }
        }
        i := i + 1;
      }
    }
  }

  /** The cursor a restart would load; a file that does not parse counts as none. */
  ghost function Saved(store: Store): Option<Cursor>
    reads store
  {
    if store.file.Whole? then Some(store.file.cursor) else None
  }

  function EventsOf(script: seq<(F.Poll, SaveFault)>): (es: seq<R.Event>)
    requires forall e :: e in script ==> e.0.Valid()
    ensures |es| == |script| && forall e :: e in es ==> e.Polled? && e.p.Valid()
  {
    seq(|script|, i requires 0 <= i < |script| => R.Polled(script[i].0, script[i].1 == NoFault))
  }

  lemma BlocksJoin(c: seq<Hash>, lo: nat, mid: nat, hi: nat)
    requires lo <= mid <= hi <= |c|
    ensures F.Blocks(c, lo, hi) == F.Blocks(c, lo, mid) + F.Blocks(c, mid, hi)
  {
  }

  /** A chunk starts at `cur`, if the first starts at `from`. */
  predicate OnBoundary(from: nat, cur: nat, chunk: nat) {
    chunk > 0 && from <= cur && F.ChunkStart(from, cur, chunk) == cur
  }

  /** A height less than a chunk past a chunk boundary lies in the chunk that starts there. */
  lemma {:induction false} ChunkOf(from: nat, cur: nat, n: nat, chunk: nat)
    requires from <= cur <= n < cur + chunk && OnBoundary(from, cur, chunk)
    ensures F.ChunkStart(from, n, chunk) == cur
    decreases cur - from
  {
    if cur >= from + chunk {
      ChunkOf(from + chunk, cur, n, chunk);
    }
  }

  /** A failure in the chunk at `cur` is the failure of the whole extension. */
  lemma ExtendFails(depth: nat, chunk: nat, s: F.State, p: F.Poll, cur: nat)
    requires p.Valid() && OnBoundary(s.next, cur, chunk) && (cur > s.next ==> p.failAt >= cur)
    requires p.failAt < cur + chunk && p.failAt <= p.Head() && cur <= p.Head()
    ensures var at := if p.failAt < cur then cur else p.failAt;
            F.Extend(depth, chunk, s, p) == (F.State(cur, s.hashes, s.out + F.Blocks(p.chain, s.next, at)), false)
  {
    ChunkOf(s.next, cur, if p.failAt < cur then cur else p.failAt, chunk);
  }

  lemma {:induction false} NextChunk(from: nat, cur: nat, chunk: nat)
    requires OnBoundary(from, cur, chunk)
    ensures OnBoundary(from, cur + chunk, chunk)
    decreases cur - from
  {
    if cur >= from + chunk {
      NextChunk(from + chunk, cur, chunk);
    }
  }
}
