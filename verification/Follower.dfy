/**
 * What one poll of evm-stream does, as a function of the follower's state and of
 * everything the node and the output do during that poll.
 */
module Follower {
  import opened Chain

  datatype ReorgData = ReorgData(
    forkBlock: nat, fromBlock: nat, toBlock: nat, depth: nat,
    oldHash: Hash, newHash: Hash, depthExceeded: bool)

  /** An output record: all records of one block, or a reorg marker. */
  datatype Record = Block(height: nat, hash: Hash) | Marker(data: ReorgData)

  /** `next` is the next unprocessed height, `hashes` the tracked tips, `out` everything emitted. */
  datatype State = State(next: nat, hashes: map<nat, Hash>, out: seq<Record>)

  datatype Header = Unreadable | Header(hash: Hash, parentHash: Hash)

  /**
   * One poll's environment: the node's snapshot (head = |chain| - 1) and every
   * outcome that the poll does not choose.
   */
  datatype Poll = Poll(
    headKnown: bool,       // eth_blockNumber answers
    chain: seq<Hash>,
    header: Header,        // the best-effort head header
    frontierOk: bool,      // fetching the frontier header succeeds, when it is fetched at all
    tipOk: bool,           // the best-effort fetch of the new hash at the orphaned tip succeeds
    dark: set<nat>,        // heights whose header cannot be fetched while walking to the fork
    markerOk: bool,        // emitting a reorg marker succeeds
    failAt: nat)           // first height whose processing fails; past the head when none does
  {
    ghost predicate Valid() {
      && chain != []
      && (header.Header? && header.hash != "" ==> header.hash == chain[|chain| - 1])
      && (header.Header? && header.parentHash != "" && |chain| > 1 ==> header.parentHash == chain[|chain| - 2])
      && forall i :: 0 <= i < |chain| ==> chain[i] != ""
    }

    function Head(): nat
      requires chain != []
    {
      |chain| - 1
    }

    predicate HeaderReadable() {
      header.Header? && header.hash != ""
    }
  }

  /** The last hash emitted for each height. */
  function View(out: seq<Record>): map<nat, Hash> {
    if out == [] then map[]
    else
      var v := View(out[..|out| - 1]);
      match out[|out| - 1]
      case Block(n, h) => v[n := h]
      case Marker(_) => v
  }

  /** The records of the canonical blocks from `lo` up to, but not including, `hi`. */
  function Blocks(c: seq<Hash>, lo: nat, hi: nat): seq<Record>
    requires lo <= hi <= |c|
  {
    seq(hi - lo, i requires 0 <= i < hi - lo => Block(lo + i, c[lo + i]))
  }

  /** The highest height still known to the node at which processed blocks can be checked. */
  function Frontier(next: nat, head: nat): nat
    requires next > 0
  {
    if next - 1 > head then head else next - 1
  }

  /** The lowest height the walk to the fork visits. */
  function Floor(tip: nat, depth: nat): nat {
    if tip > depth then tip - depth else 0
  }

  datatype ForkSearch = Found(n: nat) | Exhausted | Failed

  /** Walks down from just below `n` to `floor` for a tracked height the node still agrees with. */
  function SearchFork(hashes: map<nat, Hash>, p: Poll, n: nat, floor: nat): (r: ForkSearch)
    requires n <= |p.chain|
    ensures r.Found? ==> floor <= r.n < n
  {
    if n <= floor then Exhausted
    else if n - 1 !in hashes then SearchFork(hashes, p, n - 1, floor)
    else if n - 1 in p.dark then Failed
    else if SameHash(p.chain[n - 1], hashes[n - 1]) then Found(n - 1)
    else SearchFork(hashes, p, n - 1, floor)
  }

  datatype Check = Canonical | Orphaned(data: ReorgData) | CheckFailed

  function CheckFrontier(depth: nat, s: State, p: Poll): Check
    requires p.Valid()
  {
    if depth == 0 || s.next == 0 then Canonical
    else
      var tip := Frontier(s.next, p.Head());
      if tip !in s.hashes then Canonical
      else if NeedsFetch(p, tip) && !p.frontierOk then CheckFailed
      else if SameHash(p.chain[tip], s.hashes[tip]) then Canonical
      else ResolveFork(depth, s.hashes, p, tip)
  }

  /** The frontier hash is not in the head header, neither as its hash nor as its parent hash. */
  predicate NeedsFetch(p: Poll, tip: nat)
    requires p.chain != []
  {
    !(p.header.Header? && p.Head() == tip && p.header.hash != "")
    && !(p.header.Header? && p.Head() == tip + 1 && p.header.parentHash != "")
  }

  function ResolveFork(depth: nat, hashes: map<nat, Hash>, p: Poll, tip: nat): Check
    requires tip < |p.chain| && tip in hashes
  {
    var floor := Floor(tip, depth);
    var newHash := if p.tipOk then p.chain[tip] else "";
    match SearchFork(hashes, p, tip, floor)
    case Failed => CheckFailed
    case Found(n) => Orphaned(ReorgData(n, n + 1, tip, tip - n, hashes[tip], newHash, false))
    case Exhausted => Orphaned(ReorgData(floor, floor + 1, tip, tip - floor, hashes[tip], newHash, true))
  }

  function ForgetAbove(hashes: map<nat, Hash>, n: nat): map<nat, Hash> {
    map k | k in hashes && k <= n :: hashes[k]
  }

  function RecordHash(depth: nat, hashes: map<nat, Hash>, n: nat, hash: Hash, head: nat): map<nat, Hash> {
    if hash == "" then hashes
    else
      var added := hashes[n := hash];
      if head >= depth then map k | k in added && k >= head - depth :: added[k] else added
  }

  /** The state after an orphaned frontier was reported: rewound to just past the fork. */
  function Rewound(s: State, data: ReorgData): State {
    State(data.forkBlock + 1, ForgetAbove(s.hashes, data.forkBlock), s.out + [Marker(data)])
  }

  /** The first height of the chunk (of `chunk` blocks, counted from `from`) that holds height `n`. */
  function ChunkStart(from: nat, n: nat, chunk: nat): nat
    requires from <= n && chunk > 0
    decreases n - from
  {
    if n < from + chunk then from else ChunkStart(from + chunk, n, chunk)
  }

  /** Processes every height from `s.next` to the head, in chunks. */
  function Extend(depth: nat, chunk: nat, s: State, p: Poll): (State, bool)
    requires p.Valid() && chunk > 0
  {
    var head := p.Head();
    if s.next > head then (s, true)
    else if p.failAt <= head then
      // Records already written stay written; the resume height is the failing chunk's start.
      var at := if p.failAt < s.next then s.next else p.failAt;
      (s.(next := ChunkStart(s.next, at, chunk), out := s.out + Blocks(p.chain, s.next, at)), false)
    else
      var tracked := if depth > 0 && p.header.Header? then RecordHash(depth, s.hashes, head, p.header.hash, head)
          else s.hashes;
      (State(head + 1, tracked, s.out + Blocks(p.chain, s.next, head + 1)), true)
  }

  /** One poll: the height and state it leaves behind, and whether it succeeded. */
  function PollOnce(depth: nat, chunk: nat, s: State, p: Poll): (State, bool)
    requires p.Valid() && chunk > 0
  {
    if !p.headKnown then (s, false)
    else
      match CheckFrontier(depth, s, p)
      case CheckFailed => (s, false)
      case Canonical => Extend(depth, chunk, s, p)
      case Orphaned(data) => if p.markerOk then Extend(depth, chunk, Rewound(s, data), p) else (s, false)
  }

  /** One iteration of the run loop: a failed poll's records and tracker stay, its height does not. */
  function RunStep(depth: nat, chunk: nat, s: State, p: Poll): State
    requires p.Valid() && chunk > 0
  {
    var (t, ok) := PollOnce(depth, chunk, s, p);
    if ok then t else t.(next := s.next)
  }

  /** Any number of iterations of the run loop. */
  function Run(depth: nat, chunk: nat, s: State, polls: seq<Poll>): State
    requires chunk > 0 && forall p :: p in polls ==> p.Valid()
    decreases |polls|
  {
    if polls == [] then s else Run(depth, chunk, RunStep(depth, chunk, s, polls[0]), polls[1..])
  }

  /** The marker this poll emits, if it emits one. */
  ghost predicate Rewinds(depth: nat, s: State, p: Poll)
    requires p.Valid()
  {
    p.headKnown && p.markerOk && CheckFrontier(depth, s, p).Orphaned?
  }

  /** The first height an extension does not emit. */
  function Reach(next: nat, p: Poll): nat
    requires p.chain != []
  {
    if next > p.Head() then next
    else if p.failAt > p.Head() then p.Head() + 1
    else if p.failAt < next then next
    else p.failAt
  }

  // ---- What the definitions mean ----

  /** So many blocks are some number of whole chunks. */
  predicate WholeChunks(blocks: nat, chunk: nat)
    requires chunk > 0
    decreases blocks
  {
    blocks == 0 || (blocks >= chunk && WholeChunks(blocks - chunk, chunk))
  }

  /** The chunk that holds a height starts whole chunks after the first, and no higher than that height. */
  lemma {:induction false} ChunkStartBounds(from: nat, n: nat, chunk: nat)
    requires from <= n && chunk > 0
    ensures from <= ChunkStart(from, n, chunk) <= n < ChunkStart(from, n, chunk) + chunk
    ensures WholeChunks(ChunkStart(from, n, chunk) - from, chunk)
    decreases n - from
  {
    if n >= from + chunk {
      ChunkStartBounds(from + chunk, n, chunk);
    }
  }

  /** An extension emits a contiguous stretch, and tracks the head only if it reached it. */
  lemma ExtendMeaning(depth: nat, chunk: nat, s: State, p: Poll)
    requires p.Valid() && chunk > 0
    ensures var (t, ok) := Extend(depth, chunk, s, p);
            var hi := Reach(s.next, p);
            && s.next <= hi
            && (ok ==> t.next == hi)
            && (!ok ==> s.next <= t.next <= hi < t.next + chunk && WholeChunks(t.next - s.next, chunk)
                        && hi <= p.Head() && t.hashes == s.hashes)
            && (if s.next > p.Head() then t == s
                else hi <= |p.chain| && t.out == s.out + Blocks(p.chain, s.next, hi))
            && (t.hashes == s.hashes || (ok && t.hashes == RecordHash(depth, s.hashes, p.Head(), p.header.hash,
                p.Head())))
  {
    if s.next <= p.Head() && p.failAt <= p.Head() {
      ChunkStartBounds(s.next, Reach(s.next, p), chunk);
    }
  }

  lemma ViewAppend(out: seq<Record>, r: Record)
    ensures View(out + [r]) == match r case Block(n, h) => View(out)[n := h] case Marker(_) => View(out)
  {
    assert (out + [r])[..|out|] == out;
  }

  /** The view `v` after the blocks of `c` from `lo` up to, but not including, `hi` went out. */
  function Overlay(v: map<nat, Hash>, c: seq<Hash>, lo: nat, hi: nat): map<nat, Hash>
    requires lo <= hi <= |c|
    decreases hi
  {
    if lo == hi then v else Overlay(v, c, lo, hi - 1)[hi - 1 := c[hi - 1]]
  }

  lemma {:induction false} OverlayAt(v: map<nat, Hash>, c: seq<Hash>, lo: nat, hi: nat, n: nat)
    requires lo <= hi <= |c|
    ensures n in Overlay(v, c, lo, hi) <==> n in v || lo <= n < hi
    ensures n in Overlay(v, c, lo, hi) ==> Overlay(v, c, lo, hi)[n] == if lo <= n < hi then c[n] else v[n]
    decreases hi
  {
    if lo < hi {
      OverlayAt(v, c, lo, hi - 1, n);
    }
  }

  lemma BlocksSnoc(c: seq<Hash>, lo: nat, hi: nat)
    requires lo < hi <= |c|
    ensures Blocks(c, lo, hi) == Blocks(c, lo, hi - 1) + [Block(hi - 1, c[hi - 1])]
  {
  }

  lemma ViewSnoc(out: seq<Record>, c: seq<Hash>, lo: nat, hi: nat)
    requires lo < hi <= |c|
    ensures View(out + Blocks(c, lo, hi)) == View(out + Blocks(c, lo, hi - 1))[hi - 1 := c[hi - 1]]
  {
    BlocksSnoc(c, lo, hi);
    assert out + Blocks(c, lo, hi) == out + Blocks(c, lo, hi - 1) + [Block(hi - 1, c[hi - 1])];
    ViewAppend(out + Blocks(c, lo, hi - 1), Block(hi - 1, c[hi - 1]));
  }

  lemma {:induction false} ViewOverlay(out: seq<Record>, c: seq<Hash>, lo: nat, hi: nat)
    requires lo <= hi <= |c|
    ensures View(out + Blocks(c, lo, hi)) == Overlay(View(out), c, lo, hi)
    decreases hi
  {
    if lo == hi {
      assert out + Blocks(c, lo, hi) == out;
    } else {
      ViewSnoc(out, c, lo, hi);
      ViewOverlay(out, c, lo, hi - 1);
    }
  }

  /** `w` is `v` with exactly the heights from `lo` up to, but not including, `hi` taken from `c`. */
  ghost predicate Overlaid(w: map<nat, Hash>, v: map<nat, Hash>, c: seq<Hash>, lo: nat, hi: nat)
    requires lo <= hi <= |c|
  {
    && (forall n: nat :: n in w <==> n in v || lo <= n < hi)
    && (forall n: nat :: n in w ==> w[n] == if lo <= n < hi then c[n] else v[n])
  }

  /** Emitting blocks overwrites exactly their heights in the view. */
  lemma ViewBlocks(out: seq<Record>, c: seq<Hash>, lo: nat, hi: nat)
    requires lo <= hi <= |c|
    ensures Overlaid(View(out + Blocks(c, lo, hi)), View(out), c, lo, hi)
  {
    var w := View(out + Blocks(c, lo, hi));
    ViewOverlay(out, c, lo, hi);
    forall n: nat
      ensures n in w <==> n in View(out) || lo <= n < hi
      ensures n in w ==> w[n] == if lo <= n < hi then c[n] else View(out)[n]
    {
      OverlayAt(View(out), c, lo, hi, n);
    }
  }

  /** The node's header at this tracked height can be read, and is not the tracked one. */
  predicate Replaced(hashes: map<nat, Hash>, p: Poll, m: nat)
    requires m in hashes && m < |p.chain|
  {
    m !in p.dark && !SameHash(p.chain[m], hashes[m])
  }

  /** Every tracked height from `lo` up to, but not including, `hi` was read and found replaced. */
  ghost predicate AllReplaced(hashes: map<nat, Hash>, p: Poll, lo: nat, hi: nat)
    requires hi <= |p.chain|
  {
    forall m: nat :: lo <= m < hi && m in hashes ==> Replaced(hashes, p, m)
  }

  /**
   * The search stops at the first tracked height, going down, that is not replaced: that is the fork
   * if its header can be read and a failure if not. It is exhausted if there is none down to the floor.
   */
  lemma {:induction false} SearchForkMeaning(hashes: map<nat, Hash>, p: Poll, n: nat, floor: nat)
    requires n <= |p.chain|
    ensures match SearchFork(hashes, p, n, floor)
            case Found(m) =>
              && floor <= m < n && m in hashes && m !in p.dark && SameHash(p.chain[m], hashes[m])
              && AllReplaced(hashes, p, m + 1, n)
            case Exhausted => AllReplaced(hashes, p, floor, n)
            case Failed =>
              exists m: nat :: floor <= m < n && m in hashes && m in p.dark && AllReplaced(hashes, p, m + 1, n)
  {
    if n > floor {
      var top := n - 1;
      if top !in hashes || Replaced(hashes, p, top) {
        SearchForkMeaning(hashes, p, top, floor);
        assert SearchFork(hashes, p, n, floor) == SearchFork(hashes, p, top, floor);
        if SearchFork(hashes, p, n, floor).Failed? {
          var m: nat :| floor <= m < top && m in hashes && m in p.dark && AllReplaced(hashes, p, m + 1, top);
          assert AllReplaced(hashes, p, m + 1, n);
        }
      } else if top in p.dark {
        assert AllReplaced(hashes, p, top + 1, n);
      }
    }
  }
}
