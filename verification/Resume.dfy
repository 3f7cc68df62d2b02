/** The durable cursor: what is guaranteed emitted across failures, crashes and restarts. */
module Resume {
  import opened Common
  import opened Follower
  import opened Convergence
  import opened Checkpoint

  datatype FromBlock = Latest | Height(n: nat)

  datatype Config = Config(chainId: int, fromBlock: FromBlock, depth: nat, chunk: nat)

  /**
   * A running process and its cursor file. `origin` is the height the first run on this cursor
   * started from; it exists only to state what must have been emitted.
   */
  datatype Process = Process(s: State, lastSaved: nat, file: Option<Cursor>, origin: nat)

  datatype Event =
    | Polled(p: Poll, saveOk: bool)
    | Restarted(loadOk: bool, head: nat)

  /** A cursor of another chain is ignored; chain id 0 marks a cursor without one. */
  predicate Usable(cfg: Config, file: Option<Cursor>) {
    file.Some? && (file.value.chainId == 0 || file.value.chainId == cfg.chainId)
  }

  function ResolveStart(cfg: Config, file: Option<Cursor>, loadOk: bool, head: nat): nat {
    if loadOk && Usable(cfg, file) then file.value.lastBlock + 1
    else if cfg.fromBlock.Height? then cfg.fromBlock.n
    else head + 1
  }

  predicate ShouldSave(next: nat, lastSaved: nat) {
    next > 0 && next != lastSaved
  }

  function Launch(cfg: Config, file: Option<Cursor>, loadOk: bool, head: nat): Process {
    var start := ResolveStart(cfg, file, loadOk, head);
    Process(Fresh(start), start, file, start)
  }

  /** A crash forgets the tracker and the height; the emitted records and the file remain. */
  function Relaunch(cfg: Config, r: Process, loadOk: bool, head: nat): Process {
    var start := ResolveStart(cfg, r.file, loadOk, head);
    Process(State(start, map[], r.s.out), start, r.file,
            if loadOk && Usable(cfg, r.file) then r.origin else start)
  }

  /** The cursor is rewritten whenever the frontier of a successful poll moved, up or down. */
  function Checkpointed(cfg: Config, r: Process, ok: bool, saveOk: bool): Process {
    if ok && ShouldSave(r.s.next, r.lastSaved) && saveOk
    then r.(file := Some(Cursor(cfg.chainId, r.s.next - 1)), lastSaved := r.s.next)
    else r
  }

  function Step(cfg: Config, r: Process, e: Event): Process
    requires cfg.chunk > 0 && (e.Polled? ==> e.p.Valid())
  {
    match e
    case Polled(p, saveOk) =>
      Checkpointed(cfg, r.(s := RunStep(cfg.depth, cfg.chunk, r.s, p)), PollOnce(cfg.depth, cfg.chunk, r.s, p).1,
          saveOk)
    case Restarted(loadOk, head) => Relaunch(cfg, r, loadOk, head)
  }

  ghost predicate Events(es: seq<Event>) {
    forall e :: e in es ==> (e.Polled? ==> e.p.Valid()) && (e.Restarted? ==> e.loadOk)
  }

  function Steps(cfg: Config, r: Process, es: seq<Event>): Process
    requires cfg.chunk > 0 && forall e :: e in es ==> (e.Polled? ==> e.p.Valid())
    decreases |es|
  {
    if es == [] then r else Steps(cfg, Step(cfg, r, es[0]), es[1..])
  }

  /** Everything from the origin to the resume height was emitted, and so was all the cursor claims. */
  ghost predicate ResumeInv(cfg: Config, r: Process) {
    && Covers(View(r.s.out), r.origin, r.s.next)
    && (Usable(cfg, r.file) ==>
          && Covers(View(r.s.out), r.origin, r.file.value.lastBlock + 1)
          && r.lastSaved == r.file.value.lastBlock + 1)
  }

  /** An extension unemits nothing, and emits what lies between the two resume heights if it succeeds. */
  lemma ExtendEmits(depth: nat, chunk: nat, s: State, p: Poll, h: nat)
    requires chunk > 0 && p.Valid()
    ensures var (t, ok) := Extend(depth, chunk, s, p);
            (h in View(s.out) || (ok && s.next <= h < t.next)) ==> h in View(t.out)
  {
    ExtendMeaning(depth, chunk, s, p);
    if s.next <= p.Head() {
      ViewBlocks(s.out, p.chain, s.next, Reach(s.next, p));
    }
  }

  /** So does a poll, from the height it rewound to if it did. */
  lemma RunStepEmits(depth: nat, chunk: nat, s: State, p: Poll, origin: nat, h: nat)
    requires chunk > 0 && p.Valid() && Covers(View(s.out), origin, s.next)
    ensures var t := RunStep(depth, chunk, s, p);
            (h in View(s.out) || origin <= h < t.next) ==> h in View(t.out)
  {
    if depth > 0 && s.next > 0 {
      CheckMeaning(depth, s, p);
    }
    if p.headKnown && CheckFrontier(depth, s, p).Canonical? {
      ExtendEmits(depth, chunk, s, p, h);
    } else if Rewinds(depth, s, p) {
      ViewRewound(s, CheckFrontier(depth, s, p).data);
      ExtendEmits(depth, chunk, Rewound(s, CheckFrontier(depth, s, p).data), p, h);
    }
  }

  /** Nothing emitted is ever unemitted, and a poll covers what lies below its resume height. */
  lemma RunStepCovers(depth: nat, chunk: nat, s: State, p: Poll, origin: nat)
    requires chunk > 0 && p.Valid() && Covers(View(s.out), origin, s.next)
    ensures var t := RunStep(depth, chunk, s, p);
            && Covers(View(t.out), origin, t.next)
            && forall h: nat :: h in View(s.out) ==> h in View(t.out)
  {
    forall h: nat
      ensures (h in View(s.out) || origin <= h < RunStep(depth, chunk, s, p).next)
              ==> h in View(RunStep(depth, chunk, s, p).out)
    {
      RunStepEmits(depth, chunk, s, p, origin, h);
    }
  }

  lemma StepKeepsResumeInv(cfg: Config, r: Process, e: Event)
    requires cfg.chunk > 0 && ResumeInv(cfg, r) && (e.Polled? ==> e.p.Valid()) && (e.Restarted? ==> e.loadOk)
    ensures ResumeInv(cfg, Step(cfg, r, e))
  {
    if e.Polled? {
      RunStepCovers(cfg.depth, cfg.chunk, r.s, e.p, r.origin);
    }
  }

  /**
   * Resume coverage: across any polls, failures, crashes and restarts with a readable cursor,
   * every height from the origin to the cursor was emitted, and the last saved height is always
   * the one after the cursor.
   */
  lemma {:induction false} ResumeCoverage(cfg: Config, r: Process, es: seq<Event>)
    requires cfg.chunk > 0 && ResumeInv(cfg, r) && Events(es)
    ensures ResumeInv(cfg, Steps(cfg, r, es))
    decreases |es|
  {
    if es != [] {
      assert es[0] in es;
      StepKeepsResumeInv(cfg, r, es[0]);
      ResumeCoverage(cfg, Step(cfg, r, es[0]), es[1..]);
    }
  }

  /**
   * Once a cursor exists, a saved successful poll leaves the cursor just below the resume height,
   * also when a reorg moved that height down.
   */
  lemma CursorFollowsFrontier(cfg: Config, r: Process, p: Poll)
    requires cfg.chunk > 0 && p.Valid() && ResumeInv(cfg, r) && Usable(cfg, r.file)
    requires PollOnce(cfg.depth, cfg.chunk, r.s, p).1 && PollOnce(cfg.depth, cfg.chunk, r.s, p).0.next > 0
    ensures var t := Step(cfg, r, Polled(p, true));
            && t.s.next == PollOnce(cfg.depth, cfg.chunk, r.s, p).0.next == t.lastSaved
            && Usable(cfg, t.file) && t.file.value.lastBlock + 1 == t.s.next
  {
  }

  /** The first launch satisfies the invariant, whatever readable cursor it finds. */
  lemma LaunchCovers(cfg: Config, file: Option<Cursor>, head: nat)
    ensures ResumeInv(cfg, Launch(cfg, file, true, head))
  {
  }

  /**
   * A restart at any point resumes at the last saved height, and every height from the origin
   * up to there has been emitted: nothing is skipped.
   */
  lemma RestartResumesGapFree(cfg: Config, file: Option<Cursor>, head: nat, es: seq<Event>, again: nat)
    requires cfg.chunk > 0 && Events(es)
    ensures var r := Steps(cfg, Launch(cfg, file, true, head), es);
            Usable(cfg, r.file) ==>
              var t := Relaunch(cfg, r, true, again);
              && t.origin == r.origin && t.s.next == r.lastSaved
              && Covers(View(t.s.out), t.origin, t.s.next)
  {
    LaunchCovers(cfg, file, head);
    ResumeCoverage(cfg, Launch(cfg, file, true, head), es);
  }
}
