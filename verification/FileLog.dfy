/**
 * The rotating record file over a faulty disk: what one write, and the sink's retries around it,
 * do to the active file and to the directory of rotated segments.
 */
module FileLog {

  datatype Err = Fine | DiskFull | Broken

  /** How an append goes: in full, or cut after `n` bytes with an error and then rolled back. */
  datatype Append = Full | Short(n: nat, err: Err, rollback: Err)

  /** Every outcome of one write that the writer does not choose, and the clocks it reads. */
  datatype Faults = Faults(
    now: nat, stamp: nat, mod: nat, gzipped: bool,
    close: Err, rename: Err, reopen: Err, append: Append, sync: Err)

  /** A segment's name: its time stamp, and a number that keeps names within one stamp apart. */
  datatype Name = Name(stamp: nat, k: nat)

  /** A rotated segment: its bytes (after decompression) and its modification time. */
  datatype Segment = Segment(bytes: string, mod: nat, gzipped: bool)

  datatype Config = Config(maxSize: nat, maxAge: nat, maxBackups: nat, compress: bool, fsync: bool)

  /**
   * The writer and its directory. The last four fields are history: the lines of the active file,
   * the segments' names and lines in rotation order, the lines pruned, and all lines ever appended.
   */
  datatype Log = Log(
    active: string, size: nat, open: bool, openedAt: nat, dir: map<Name, Segment>,
    lines: seq<string>, order: seq<Name>, held: seq<seq<string>>, pruned: seq<string>, all: seq<string>)

  datatype Result = Wrote | Failed(transient: bool)

  function Concat(held: seq<seq<string>>): seq<string> {
    if held == [] then [] else held[0] + Concat(held[1..])
  }

  /** A writer on an empty path in an empty directory. */
  function Empty(now: nat): Log {
    Log("", 0, true, now, map[], [], [], [], [], [])
  }

  function Fail(e: Err): Result {
    Failed(e == DiskFull)
  }

  predicate ShouldRotate(cfg: Config, w: Log, need: nat, now: nat) {
    w.size > 0 && ((cfg.maxSize > 0 && w.size + need > cfg.maxSize)
                   || (cfg.maxAge > 0 && now >= w.openedAt + cfg.maxAge))
  }

  /** The first free name for a stamp. */
  function RotatedName(dir: map<Name, Segment>, stamp: nat, k: nat): (n: Name)
    ensures n !in dir && n.stamp == stamp
    decreases set n | n in dir && n.stamp == stamp && n.k >= k
  {
    if Name(stamp, k) !in dir then Name(stamp, k)
    else
      assert (set n | n in dir && n.stamp == stamp && n.k >= k + 1)
          <= (set n | n in dir && n.stamp == stamp && n.k >= k) - {Name(stamp, k)};
      assert Name(stamp, k) in set n | n in dir && n.stamp == stamp && n.k >= k;
      RotatedName(dir, stamp, k + 1)
  }

  /** Renames the active file to a new segment. */
  function Renamed(cfg: Config, w: Log, f: Faults): Log {
    var name := RotatedName(w.dir, f.stamp, 0);
    w.(active := "", open := false, lines := [],
       dir := w.dir[name := Segment(w.active, f.mod, cfg.compress && f.gzipped)],
       order := w.order + [name], held := w.held + [w.lines])
  }

  function KeepNames(dir: map<Name, Segment>, names: seq<Name>): map<Name, Segment> {
    map name | name in dir && name in names :: dir[name]
  }

  /** Drops the oldest segments beyond the limit. */
  function Pruned(cfg: Config, w: Log): Log {
    if cfg.maxBackups == 0 || |w.order| <= cfg.maxBackups || |w.held| != |w.order| then w
    else
      var n := |w.order| - cfg.maxBackups;
      w.(dir := KeepNames(w.dir, w.order[n..]),
         order := w.order[n..], held := w.held[n..], pruned := w.pruned + Concat(w.held[..n]))
  }

  /** A closed file cannot be closed again, so a rotation that failed once fails for good. */
  function Rotate(cfg: Config, w: Log, f: Faults): (Log, Result) {
    if !w.open then (w, Failed(false))
    else if f.close != Fine then (w.(open := false), Fail(f.close))
    else if f.rename != Fine then (w.(open := false), Fail(f.rename))
    else
      var r := Renamed(cfg, w, f);
      if f.reopen != Fine then (r, Fail(f.reopen))
      else (Pruned(cfg, r.(open := true, size := 0, openedAt := f.now)), Wrote)
  }

  /** Appends the line and its newline in one call, rolling a short write back by truncation. */
  function AppendLine(cfg: Config, w: Log, line: string, f: Faults): (Log, Result) {
    if !w.open then (w, Failed(false))
    else
      match f.append
      case Full =>
        var t := w.(active := w.active + line + "\n", size := w.size + |line| + 1,
                    lines := w.lines + [line], all := w.all + [line]);
        (t, if cfg.fsync && f.sync != Fine then Fail(f.sync) else Wrote)
      case Short(n, err, rollback) =>
        var torn := w.active + (line + "\n")[..if n <= |line| then n else |line|];
        if n == 0 then (w, Fail(err))
        else if rollback != Fine || w.size > |torn| then (w.(active := torn), Fail(rollback))
        else (w.(active := torn[..w.size]), Fail(err))
  }

  function Write(cfg: Config, w: Log, line: string, f: Faults): (Log, Result) {
    if ShouldRotate(cfg, w, |line| + 1, f.now) then
      var (r, rotated) := Rotate(cfg, w, f);
      if rotated == Wrote then AppendLine(cfg, r, line, f) else (r, rotated)
    else AppendLine(cfg, w, line, f)
  }

  // ---- The sink around the writer ----

  datatype Outcome = Confirmed | CleanStop | Fatal

  /** A run of the sink ends when its input does, or with a write that was not confirmed. */
  datatype End = Drained | Stopped(o: Outcome)

  /** Retries transient failures until the write is confirmed; an exhausted script is a cancellation. */
  function WriteWithRetry(cfg: Config, w: Log, line: string, script: seq<Faults>): (Log, Outcome)
    decreases |script|
  {
    if script == [] then (w, CleanStop)
    else
      match Write(cfg, w, line, script[0])
      case (t, Wrote) => (t, Confirmed)
      case (t, Failed(transient)) => if transient then WriteWithRetry(cfg, t, line, script[1..]) else (t, Fatal)
  }

  /** A record and the faults its write attempts meet. */
  datatype Job = Job(line: string, script: seq<Faults>)

  /** Writes records in order; the next one is read only after the last was confirmed. */
  function Sink(cfg: Config, w: Log, jobs: seq<Job>): (Log, End)
    decreases |jobs|
  {
    if jobs == [] then (w, Drained)
    else
      match WriteWithRetry(cfg, w, jobs[0].line, jobs[0].script)
      case (t, Confirmed) => Sink(cfg, t, jobs[1..])
      case (t, o) => (t, Stopped(o))
  }
}
