/** Where a follower starts: what its first successful poll emits. */
module StartHeight {
  import opened Checkpoint
  import opened Common
  import opened Follower
  import opened Convergence
  import opened Resume

  /** The first block emitted is number `n`, and with it every block up to the head, once and in order. */
  ghost predicate StartsAt(cfg: Config, r: Process, n: nat)
    requires cfg.chunk > 0
  {
    forall p: Poll, saveOk: bool :: p.Valid() && p.headKnown && p.Head() < p.failAt ==>
      var t := Step(cfg, r, Polled(p, saveOk));
      t.s.out == r.s.out + if n <= p.Head() then Blocks(p.chain, n, |p.chain|) else []
  }

  /** A follower without tracked heights processes from its resume height to the head. */
  lemma UntrackedStart(cfg: Config, r: Process)
    requires cfg.chunk > 0 && r.s.hashes == map[]
    ensures StartsAt(cfg, r, r.s.next)
  {
    forall p: Poll, saveOk: bool | p.Valid() && p.headKnown && p.Head() < p.failAt
      ensures Step(cfg, r, Polled(p, saveOk)).s.out
           == r.s.out + if r.s.next <= p.Head() then Blocks(p.chain, r.s.next, |p.chain|) else []
    {
      assert r.s.out + [] == r.s.out;
      assert CheckFrontier(cfg.depth, r.s, p).Canonical?;
    }
  }

  /** With a readable cursor of this chain, or of none, the stream starts with the block after it. */
  lemma CursorContinues(cfg: Config, c: Cursor, head: nat)
    requires cfg.chunk > 0 && (c.chainId == 0 || c.chainId == cfg.chainId)
    ensures StartsAt(cfg, Launch(cfg, Some(c), true, head), c.lastBlock + 1)
  {
    UntrackedStart(cfg, Launch(cfg, Some(c), true, head));
  }

  /** Without a cursor, or with one that is unreadable or of another chain, it starts with the configured block. */
  lemma ConfiguredStarts(cfg: Config, file: Option<Cursor>, loadOk: bool, head: nat, n: nat)
    requires cfg.chunk > 0 && cfg.fromBlock == Height(n)
    requires !loadOk || file.None? || (file.value.chainId != 0 && file.value.chainId != cfg.chainId)
    ensures StartsAt(cfg, Launch(cfg, file, loadOk, head), n)
  {
    UntrackedStart(cfg, Launch(cfg, file, loadOk, head));
  }

  /** Configured to start at the latest block, it starts with the first block that did not exist yet. */
  lemma LatestStarts(cfg: Config, file: Option<Cursor>, loadOk: bool, head: nat)
    requires cfg.chunk > 0 && cfg.fromBlock == Latest
    requires !loadOk || file.None? || (file.value.chainId != 0 && file.value.chainId != cfg.chainId)
    ensures StartsAt(cfg, Launch(cfg, file, loadOk, head), head + 1)
  {
    UntrackedStart(cfg, Launch(cfg, file, loadOk, head));
  }

  /** After a crash the stream continues with the block after its cursor, whatever it had emitted past it. */
  lemma RestartContinues(cfg: Config, r: Process, c: Cursor, head: nat)
    requires cfg.chunk > 0 && r.file == Some(c) && (c.chainId == 0 || c.chainId == cfg.chainId)
    ensures StartsAt(cfg, Relaunch(cfg, r, true, head), c.lastBlock + 1)
    ensures Relaunch(cfg, r, true, head).s.out == r.s.out
  {
    UntrackedStart(cfg, Relaunch(cfg, r, true, head));
  }

  /** A saved cursor is the last block below the resume height, on this chain. */
  lemma SavedCursor(cfg: Config, r: Process, p: Poll)
    requires cfg.chunk > 0 && p.Valid() && PollOnce(cfg.depth, cfg.chunk, r.s, p).1
    ensures var next := PollOnce(cfg.depth, cfg.chunk, r.s, p).0.next;
            var t := Step(cfg, r, Polled(p, true));
            if next > 0 && next != r.lastSaved
            then t.file.Some? && t.file.value.lastBlock + 1 == next && t.file.value.chainId == cfg.chainId
            else t.file == r.file
  {
  }

  /** A poll that fails, or whose save does, leaves the cursor alone. */
  lemma UnsavedCursor(cfg: Config, r: Process, p: Poll, saveOk: bool)
    requires cfg.chunk > 0 && p.Valid() && (!saveOk || !PollOnce(cfg.depth, cfg.chunk, r.s, p).1)
    ensures Step(cfg, r, Polled(p, saveOk)).file == r.file
  {
  }

  /** A process that has just started and finds nothing to process does not touch the cursor. */
  lemma IdleSavesNothing(cfg: Config, file: Option<Cursor>, loadOk: bool, head: nat, p: Poll, saveOk: bool)
    requires cfg.chunk > 0 && p.Valid() && Launch(cfg, file, loadOk, head).s.next > p.Head()
    ensures Step(cfg, Launch(cfg, file, loadOk, head), Polled(p, saveOk)).file == file
  {
    assert CheckFrontier(cfg.depth, Launch(cfg, file, loadOk, head).s, p).Canonical?;
  }
}
