/** No torn lines, no lost lines, and what rotation and retention keep. */
module FileLogProofs {
  import opened FileLog
  import opened Lines

  /** Rollbacks succeed, a failing short write reports an error, and segment times keep increasing. */
  ghost predicate Fair(w: Log, f: Faults) {
    && (f.append.Short? ==> f.append.rollback == Fine && f.append.err != Fine)
    && (forall n :: n in w.dir ==> w.dir[n].mod < f.mod)
  }

  type Dir = map<Name, Segment>

  ghost predicate Listed(dir: Dir, order: seq<Name>) {
    forall n :: n in dir <==> n in order
  }

  ghost predicate Increasing(dir: Dir, order: seq<Name>)
    requires Listed(dir, order)
  {
    forall i, j :: 0 <= i < j < |order| ==> dir[order[i]].mod < dir[order[j]].mod
  }

  ghost predicate Holds(dir: Dir, order: seq<Name>, held: seq<seq<string>>)
    requires Listed(dir, order)
  {
    |held| == |order|
    && forall i :: 0 <= i < |order| ==> held[i] != [] && dir[order[i]].bytes == Encode(held[i])
  }

  /** The directory holds the rotated segments, none empty, with times increasing in rotation order. */
  ghost predicate Directory(dir: Dir, order: seq<Name>, held: seq<seq<string>>) {
    Listed(dir, order) && Increasing(dir, order) && Holds(dir, order, held)
  }

  lemma DirectoryAdd(dir: Dir, order: seq<Name>, held: seq<seq<string>>, name: Name, seg: Segment, lines: seq<string>)
    requires Directory(dir, order, held) && name !in dir
    requires forall n :: n in dir ==> dir[n].mod < seg.mod
    requires lines != [] && seg.bytes == Encode(lines)
    ensures Directory(dir[name := seg], order + [name], held + [lines])
  {
    var d, o, h := dir[name := seg], order + [name], held + [lines];
    assert Listed(d, o);
    forall i | 0 <= i < |o| ensures h[i] != [] && d[o[i]].bytes == Encode(h[i]) {
      assert i < |order| ==> o[i] == order[i] && h[i] == held[i] && order[i] in dir;
    }
    forall i, j | 0 <= i < j < |o| ensures d[o[i]].mod < d[o[j]].mod {
      assert o[i] == order[i] && order[i] in dir;
    }
  }

  /** Keeping the last segments in rotation order is dropping the oldest ones by time. */
  lemma DirectoryDrop(dir: Dir, order: seq<Name>, held: seq<seq<string>>, n: nat)
    requires Directory(dir, order, held) && n <= |order|
    ensures Directory(KeepNames(dir, order[n..]), order[n..], held[n..])
  {
    var d := KeepNames(dir, order[n..]);
    assert Listed(d, order[n..]);
    forall i | 0 <= i < |order[n..]| ensures order[n..][i] == order[n + i] && held[n..][i] == held[n + i] {
    }
  }

  /** Every line ever appended is, in order, pruned, in a segment or in the active file. */
  ghost predicate History(cfg: Config, all: seq<string>, pruned: seq<string>, held: seq<seq<string>>,
      lines: seq<string>) {
    all == pruned + Concat(held) + lines && (cfg.maxBackups == 0 ==> pruned == [])
  }

  lemma HistoryRenamed(cfg: Config, all: seq<string>, pruned: seq<string>, held: seq<seq<string>>, lines: seq<string>)
    requires History(cfg, all, pruned, held, lines)
    ensures History(cfg, all, pruned, held + [lines], [])
  {
    ConcatSnoc(held, lines);
    assert pruned + (Concat(held) + lines) + [] == pruned + Concat(held) + lines;
  }

  lemma HistoryPruned(cfg: Config, all: seq<string>, pruned: seq<string>, held: seq<seq<string>>, lines: seq<string>,
      n: nat)
    requires History(cfg, all, pruned, held, lines) && n <= |held| && cfg.maxBackups > 0
    ensures History(cfg, all, pruned + Concat(held[..n]), held[n..], lines)
  {
    ConcatSplit(held, n);
    assert pruned + (Concat(held[..n]) + Concat(held[n..])) == pruned + Concat(held[..n]) + Concat(held[n..]);
  }

  lemma HistoryAppended(cfg: Config, all: seq<string>, pruned: seq<string>, held: seq<seq<string>>,
      lines: seq<string>, line: string)
    requires History(cfg, all, pruned, held, lines)
    ensures History(cfg, all + [line], pruned, held, lines + [line])
  {
    assert pruned + Concat(held) + lines + [line] == pruned + Concat(held) + (lines + [line]);
  }

  /** The active file is whole lines, and every line is somewhere in its place. */
  ghost predicate Sound(cfg: Config, w: Log) {
    && w.active == Encode(w.lines)
    && Directory(w.dir, w.order, w.held)
    && History(cfg, w.all, w.pruned, w.held, w.lines)
  }

  /** An open writer also knows the size of its file and has pruned to the limit. */
  ghost predicate Inv(cfg: Config, w: Log) {
    Sound(cfg, w) && (w.open ==> w.size == |w.active| && (cfg.maxBackups > 0 ==> |w.order| <= cfg.maxBackups))
  }

  lemma {:induction false} ConcatSnoc(held: seq<seq<string>>, last: seq<string>)
    ensures Concat(held + [last]) == Concat(held) + last
  {
    if held == [] {
      assert held + [last] == [last] && [last][1..] == [];
    } else {
      assert (held + [last])[1..] == held[1..] + [last];
      ConcatSnoc(held[1..], last);
    }
  }

  lemma {:induction false} ConcatSplit(held: seq<seq<string>>, n: nat)
    requires n <= |held|
    ensures Concat(held) == Concat(held[..n]) + Concat(held[n..])
  {
    if n > 0 {
      ConcatSplit(held[1..], n - 1);
      assert held[..n][1..] == held[1..][..n - 1] && held[n..] == held[1..][n - 1..];
    }
  }

  lemma {:induction false} EncodeEmpty(lines: seq<string>)
    ensures Encode(lines) == "" <==> lines == []
  {
  }

  lemma RenamedKeeps(cfg: Config, w: Log, f: Faults)
    requires Inv(cfg, w) && Fair(w, f) && w.open && w.size > 0
    ensures Inv(cfg, Renamed(cfg, w, f)) && |Renamed(cfg, w, f).order| == |w.order| + 1
    ensures Renamed(cfg, w, f).all == w.all
  {
    var name := RotatedName(w.dir, f.stamp, 0);
    EncodeEmpty(w.lines);
    DirectoryAdd(w.dir, w.order, w.held, name, Segment(w.active, f.mod, cfg.compress && f.gzipped), w.lines);
    HistoryRenamed(cfg, w.all, w.pruned, w.held, w.lines);
  }

  lemma DropOldestKeeps(cfg: Config, w: Log)
    requires Sound(cfg, w) && 0 < cfg.maxBackups < |w.order|
    ensures Sound(cfg, Pruned(cfg, w))
  {
    var n := |w.order| - cfg.maxBackups;
    DirectoryDrop(w.dir, w.order, w.held, n);
    HistoryPruned(cfg, w.all, w.pruned, w.held, w.lines, n);
  }

  lemma PrunedKeeps(cfg: Config, w: Log)
    requires Sound(cfg, w)
    ensures Sound(cfg, Pruned(cfg, w)) && Pruned(cfg, w).all == w.all
    ensures cfg.maxBackups > 0 ==> |Pruned(cfg, w).order| <= cfg.maxBackups
  {
    if 0 < cfg.maxBackups < |w.order| {
      DropOldestKeeps(cfg, w);
    }
  }

  lemma RotateKeeps(cfg: Config, w: Log, f: Faults)
    requires Inv(cfg, w) && Fair(w, f) && w.size > 0
    ensures var (t, r) := Rotate(cfg, w, f);
            && Inv(cfg, t) && t.all == w.all
            && (r == Wrote ==> t.open && t.size == 0 && t.lines == [])
            && (r != Wrote ==> !t.open)
  {
    if w.open && f.close == Fine && f.rename == Fine {
      RenamedKeeps(cfg, w, f);
      var r := Renamed(cfg, w, f);
      PrunedKeeps(cfg, r.(open := true, size := 0, openedAt := f.now));
    }
  }

  lemma FullAppendKeeps(cfg: Config, w: Log, line: string, f: Faults)
    requires Inv(cfg, w) && w.open && f.append.Full?
    ensures var t := AppendLine(cfg, w, line, f).0;
            Inv(cfg, t) && t.open && t.all == w.all + [line] && t.lines == w.lines + [line]
  {
    EncodeSnoc(w.lines, line);
    HistoryAppended(cfg, w.all, w.pruned, w.held, w.lines, line);
  }

  /** A short write that is rolled back leaves no trace. */
  lemma ShortAppendKeeps(cfg: Config, w: Log, line: string, f: Faults)
    requires Inv(cfg, w) && f.append.Short? && f.append.rollback == Fine && f.append.err != Fine
    ensures AppendLine(cfg, w, line, f).0 == w && AppendLine(cfg, w, line, f).1 != Wrote
  {
    if w.open {
      var cut := (line + "\n")[..if f.append.n <= |line| then f.append.n else |line|];
      assert (w.active + cut)[..w.size] == w.active;
    }
  }

  lemma AppendKeeps(cfg: Config, w: Log, line: string, f: Faults)
    requires Inv(cfg, w) && (f.append.Short? ==> f.append.rollback == Fine && f.append.err != Fine)
    ensures var (t, r) := AppendLine(cfg, w, line, f);
            && Inv(cfg, t) && t.open == w.open
            && (if w.open && f.append.Full? then t.all == w.all + [line] && t.lines == w.lines + [line]
                else r != Wrote && t == w)
  {
    if f.append.Short? {
      ShortAppendKeeps(cfg, w, line, f);
    } else if w.open {
      FullAppendKeeps(cfg, w, line, f);
    }
  }

  lemma InitKeeps(cfg: Config, now: nat)
    ensures Inv(cfg, Empty(now))
  {
  }

  /** One write, whatever goes wrong: the invariant holds, and the line was appended once or not at all. */
  lemma WriteKeeps(cfg: Config, w: Log, line: string, f: Faults)
    requires Inv(cfg, w) && Fair(w, f)
    ensures var (t, r) := Write(cfg, w, line, f);
            && Inv(cfg, t)
            && (t.all == w.all || t.all == w.all + [line])
            && (r == Wrote ==> t.all == w.all + [line])
            && (r != Wrote && t.all != w.all ==> cfg.fsync && r == Fail(f.sync))
  {
    if ShouldRotate(cfg, w, |line| + 1, f.now) {
      RotateKeeps(cfg, w, f);
      var (r, rotated) := Rotate(cfg, w, f);
      AppendKeeps(cfg, r, line, f);
    } else {
      AppendKeeps(cfg, w, line, f);
    }
  }

  /** The active file is within its limit or holds one line. */
  predicate Bounded(cfg: Config, w: Log) {
    |w.active| <= cfg.maxSize || |w.lines| == 1
  }

  /** A write that appends leaves the active file within its limit or with that line alone; no write exceeds it. */
  lemma WriteBounds(cfg: Config, w: Log, line: string, f: Faults)
    requires Inv(cfg, w) && Fair(w, f) && cfg.maxSize > 0
    ensures var t := Write(cfg, w, line, f).0;
            && (t.all != w.all ==> |t.active| <= cfg.maxSize || t.lines == [line])
            && (Bounded(cfg, w) ==> Bounded(cfg, t))
  {
    if ShouldRotate(cfg, w, |line| + 1, f.now) {
      RotateBounds(cfg, w, line, f);
    } else {
      AppendBounds(cfg, w, line, f);
    }
  }

  lemma AppendBounds(cfg: Config, w: Log, line: string, f: Faults)
    requires Inv(cfg, w) && cfg.maxSize > 0 && (f.append.Short? ==> f.append.rollback == Fine && f.append.err != Fine)
    requires w.size == 0 || w.size + |line| + 1 <= cfg.maxSize
    ensures var t := AppendLine(cfg, w, line, f).0;
            if t.all == w.all then t == w else |t.active| <= cfg.maxSize || t.lines == [line]
  {
    AppendKeeps(cfg, w, line, f);
    if w.open && f.append.Full? && w.size == 0 {
      EncodeEmpty(w.lines);
      assert [] + [line] == [line];
    }
  }

  lemma RotateBounds(cfg: Config, w: Log, line: string, f: Faults)
    requires Inv(cfg, w) && Fair(w, f) && cfg.maxSize > 0 && ShouldRotate(cfg, w, |line| + 1, f.now)
    ensures var t := Write(cfg, w, line, f).0;
            && (t.all != w.all ==> |t.active| <= cfg.maxSize || t.lines == [line])
            && (Bounded(cfg, w) ==> Bounded(cfg, t))
  {
    RotateKeeps(cfg, w, f);
    var (r, rotated) := Rotate(cfg, w, f);
    if rotated == Wrote {
      AppendBounds(cfg, r, line, f);
    }
  }

  // ---- A rotation that fails ----

  /** Once the file is closed, every write fails for good and changes nothing. */
  lemma ClosedForGood(cfg: Config, w: Log, line: string, f: Faults)
    requires !w.open
    ensures Write(cfg, w, line, f) == (w, Failed(false))
  {
  }

  predicate Faultless(f: Faults) {
    f.close == Fine && f.rename == Fine && f.reopen == Fine && f.append == Full && f.sync == Fine
  }

  /** The write failed while rotating. */
  predicate FailsRotating(cfg: Config, w: Log, line: string, f: Faults) {
    ShouldRotate(cfg, w, |line| + 1, f.now) && Rotate(cfg, w, f).1 != Wrote
  }

  /** An open writer meets no fault, so its write succeeds. */
  lemma FaultlessWrites(cfg: Config, w: Log, line: string, g: Faults)
    requires Inv(cfg, w) && Fair(w, g) && w.open && Faultless(g)
    ensures Write(cfg, w, line, g).1 == Wrote
  {
    if ShouldRotate(cfg, w, |line| + 1, g.now) {
      RotateKeeps(cfg, w, g);
    }
  }

  /** A failed write leaves the writer open unless it failed while rotating. */
  lemma OpenAfter(cfg: Config, w: Log, line: string, f: Faults)
    requires Inv(cfg, w) && Fair(w, f) && w.open && Write(cfg, w, line, f).1 != Wrote
    ensures Write(cfg, w, line, f).0.open <==> !FailsRotating(cfg, w, line, f)
  {
    if ShouldRotate(cfg, w, |line| + 1, f.now) {
      RotateKeeps(cfg, w, f);
      AppendKeeps(cfg, Rotate(cfg, w, f).0, line, f);
    } else {
      AppendKeeps(cfg, w, line, f);
    }
  }

  /**
   * Blocking on a full disk and retrying resumes once there is space if and only if the write did
   * not meet the full disk while rotating.
   */
  lemma FullDiskRecoversIff(cfg: Config, w: Log, line: string, f: Faults, g: Faults)
    requires Inv(cfg, w) && Fair(w, f) && w.open && Write(cfg, w, line, f).1 == Failed(true)
    requires Fair(Write(cfg, w, line, f).0, g) && Faultless(g)
    ensures Write(cfg, Write(cfg, w, line, f).0, line, g).1 == Wrote <==> !FailsRotating(cfg, w, line, f)
  {
    var t := Write(cfg, w, line, f).0;
    WriteKeeps(cfg, w, line, f);
    OpenAfter(cfg, w, line, f);
    if t.open {
      FaultlessWrites(cfg, t, line, g);
    } else {
      ClosedForGood(cfg, t, line, g);
    }
  }

  // ---- The sink ----

  /** The attempt left the line on disk, confirmed or not. */
  predicate Landed(cfg: Config, w: Log, line: string, f: Faults) {
    |Write(cfg, w, line, f).0.all| > |w.all|
  }

  ghost predicate FairRetries(cfg: Config, w: Log, line: string, script: seq<Faults>)
    decreases |script|
  {
    script != [] ==> Fair(w, script[0]) && FairRetries(cfg, Write(cfg, w, line, script[0]).0, line, script[1..])
  }

  /** Attempts whose append succeeded and whose fsync then failed with a full disk. */
  function Repeats(cfg: Config, w: Log, line: string, script: seq<Faults>): nat
    decreases |script|
  {
    if script == [] then 0
    else
      match Write(cfg, w, line, script[0])
      case (t, Wrote) => 0
      case (t, Failed(transient)) =>
        (if Landed(cfg, w, line, script[0]) then 1 else 0) + (if transient then Repeats(cfg, t, line, script[1..])
            else 0)
  }

  function Copies(line: string, n: nat): seq<string> {
    if n == 0 then [] else [line] + Copies(line, n - 1)
  }

  lemma AddCopy(all: seq<string>, line: string, n: nat)
    ensures all + [line] + Copies(line, n) == all + Copies(line, n + 1)
    ensures all + Copies(line, 0) == all && all + Copies(line, 1) == all + [line]
  {
  }

  /** What retrying amounts to: `n` counts the repeats. */
  ghost predicate Retried(cfg: Config, w: Log, line: string, t: Log, o: Outcome, n: nat) {
    && Inv(cfg, t)
    && t.all == w.all + Copies(line, n + (if o == Confirmed then 1 else 0))
    && (!cfg.fsync ==> n == 0)
  }

  /** The last attempt of a retry: it confirms the write, or ends it. */
  lemma LastAttempt(cfg: Config, w: Log, line: string, f: Faults)
    requires Inv(cfg, w) && Fair(w, f)
    ensures var (t, r) := Write(cfg, w, line, f);
            if r == Wrote then Retried(cfg, w, line, t, Confirmed, 0)
            else Retried(cfg, w, line, t, Fatal, if Landed(cfg, w, line, f) then 1 else 0)
  {
    WriteKeeps(cfg, w, line, f);
    AddCopy(w.all, line, 0);
  }

  lemma OneMoreAttempt(cfg: Config, w: Log, line: string, u: Log, t: Log, o: Outcome, m: nat, n: nat)
    requires Retried(cfg, w, line, u, Fatal, m) && m <= 1 && Retried(cfg, u, line, t, o, n)
    ensures Retried(cfg, w, line, t, o, m + n)
  {
    var k := n + (if o == Confirmed then 1 else 0);
    AddCopy(w.all, line, k);
  }

  /**
   * Retrying a write: the line ends up on disk once if confirmed, plus once for every append
   * whose fsync failed; without fsync it is there exactly once or not at all.
   */
  lemma {:induction false} RetryMeaning(cfg: Config, w: Log, line: string, script: seq<Faults>)
    requires Inv(cfg, w) && FairRetries(cfg, w, line, script)
    ensures var (t, o) := WriteWithRetry(cfg, w, line, script);
            Retried(cfg, w, line, t, o, Repeats(cfg, w, line, script))
    decreases |script|
  {
    if script == [] {
      AddCopy(w.all, line, 0);
    } else {
      LastAttempt(cfg, w, line, script[0]);
      var (u, r) := Write(cfg, w, line, script[0]);
      if r == Failed(true) {
        RetryMeaning(cfg, u, line, script[1..]);
        var (t, o) := WriteWithRetry(cfg, u, line, script[1..]);
        OneMoreAttempt(cfg, w, line, u, t, o, if Landed(cfg, w, line, script[0]) then 1 else 0,
                       Repeats(cfg, u, line, script[1..]));
      }
    }
  }

  /** A rotation that failed on a full disk is not survived by any retry. */
  lemma NoRetryAfterRotation(cfg: Config, w: Log, line: string, f: Faults, script: seq<Faults>)
    requires Inv(cfg, w) && Fair(w, f) && w.open && Write(cfg, w, line, f).1 == Failed(true)
        && FailsRotating(cfg, w, line, f)
    ensures WriteWithRetry(cfg, w, line, [f] + script).1 == if script == [] then CleanStop else Fatal
  {
    var t := Write(cfg, w, line, f).0;
    OpenAfter(cfg, w, line, f);
    assert ([f] + script)[1..] == script;
    if script != [] {
      ClosedForGood(cfg, t, line, script[0]);
    }
  }

  /** An attempt at time `t` that meets no fault. */
  function Calm(t: nat): Faults {
    Faults(t, t, t, false, Fine, Fine, Fine, Full, Fine)
  }

  /**
   * Two lines, the second of which rotates and finds the disk full when it reopens; the next
   * attempt meets no fault.
   */
  lemma FullDiskExample()
    ensures var cfg := Config(2, 0, 0, false, false);
            var jobs := [Job("a", [Calm(1)]), Job("b", [Calm(2).(reopen := DiskFull), Calm(3)])];
            FairJobs(cfg, Empty(0), jobs) && Sink(cfg, Empty(0), jobs).1 == Stopped(Fatal)
  {
    var cfg := Config(2, 0, 0, false, false);
    var first, second := [Calm(1)], [Calm(2).(reopen := DiskFull), Calm(3)];
    var jobs := [Job("a", first), Job("b", second)];
    var (u, r) := Write(cfg, Empty(0), "a", Calm(1));
    assert r == Wrote && u.size == 2 && u.dir == map[] && u.open;
    assert first[1..] == [] && jobs[1..] == [Job("b", second)] && second[1..] == [Calm(3)];
    assert FairRetries(cfg, Empty(0), "a", first);
    assert WriteWithRetry(cfg, Empty(0), "a", first) == (u, Confirmed);
    var (t, e) := Write(cfg, u, "b", second[0]);
    assert e == Failed(true) && !t.open && forall n :: n in t.dir ==> t.dir[n].mod == 2;
    assert Write(cfg, t, "b", Calm(3)) == (t, Failed(false));
    assert FairRetries(cfg, u, "b", second) by {
      assert FairRetries(cfg, t, "b", [Calm(3)]) by {
        assert [Calm(3)][1..] == [];
      }
    }
    assert WriteWithRetry(cfg, t, "b", [Calm(3)]) == (t, Fatal);
    assert WriteWithRetry(cfg, u, "b", second) == (t, Fatal);
  }

  ghost predicate FairJobs(cfg: Config, w: Log, jobs: seq<Job>)
    decreases |jobs|
  {
    jobs != [] ==>
      && FairRetries(cfg, w, jobs[0].line, jobs[0].script)
      && var (t, o) := WriteWithRetry(cfg, w, jobs[0].line, jobs[0].script);
         o == Confirmed ==> FairJobs(cfg, t, jobs[1..])
  }

  /** For each record the sink took up, how often its line was appended. */
  function Counts(cfg: Config, w: Log, jobs: seq<Job>): seq<nat>
    decreases |jobs|
  {
    if jobs == [] then []
    else
      var again := Repeats(cfg, w, jobs[0].line, jobs[0].script);
      match WriteWithRetry(cfg, w, jobs[0].line, jobs[0].script)
      case (t, Confirmed) => [again + 1] + Counts(cfg, t, jobs[1..])
      case _ => [again]
  }

  /** The lines of `jobs`, each as often as counted. */
  function Expand(jobs: seq<Job>, counts: seq<nat>): seq<string> {
    if jobs == [] || counts == [] then []
    else Copies(jobs[0].line, counts[0]) + Expand(jobs[1..], counts[1..])
  }

  /**
   * Every record the sink took up is on disk, except perhaps the last if the sink was cancelled or
   * failed; without fsync no record is there twice.
   */
  ghost predicate Complete(cfg: Config, jobs: seq<Job>, counts: seq<nat>, e: End) {
    && |counts| <= |jobs|
    && (forall i :: 0 <= i < |counts| - 1 ==> counts[i] >= 1)
    && (e == Stopped(Fatal) ==> counts != [])
    && (e == Drained ==> |counts| == |jobs| && forall i :: 0 <= i < |counts| ==> counts[i] >= 1)
    && (!cfg.fsync ==> forall i :: 0 <= i < |counts| ==> counts[i] <= 1)
  }

  lemma CompleteCons(cfg: Config, jobs: seq<Job>, n: nat, rest: seq<nat>, e: End)
    requires jobs != [] && n >= 1 && (!cfg.fsync ==> n == 1) && Complete(cfg, jobs[1..], rest, e)
    ensures Complete(cfg, jobs, [n] + rest, e)
  {
    assert forall i :: 0 < i < |rest| + 1 ==> ([n] + rest)[i] == rest[i - 1];
  }

  lemma ExpandCons(all: seq<string>, jobs: seq<Job>, n: nat, rest: seq<nat>)
    requires jobs != []
    ensures all + Copies(jobs[0].line, n) + Expand(jobs[1..], rest) == all + Expand(jobs, [n] + rest)
  {
    assert ([n] + rest)[1..] == rest;
  }

  /** What a run of the sink amounts to. */
  ghost predicate Sunk(cfg: Config, w: Log, jobs: seq<Job>, t: Log, e: End, counts: seq<nat>) {
    Inv(cfg, t) && Complete(cfg, jobs, counts, e) && t.all == w.all + Expand(jobs, counts)
  }

  lemma SunkCons(cfg: Config, w: Log, jobs: seq<Job>, u: Log, t: Log, e: End, n: nat, rest: seq<nat>)
    requires jobs != [] && Retried(cfg, w, jobs[0].line, u, Confirmed, n) && Sunk(cfg, u, jobs[1..], t, e, rest)
    ensures Sunk(cfg, w, jobs, t, e, [n + 1] + rest)
  {
    CompleteCons(cfg, jobs, n + 1, rest, e);
    ExpandCons(w.all, jobs, n + 1, rest);
  }

  lemma SunkLast(cfg: Config, w: Log, jobs: seq<Job>, t: Log, o: Outcome, n: nat)
    requires jobs != [] && o != Confirmed && Retried(cfg, w, jobs[0].line, t, o, n)
    ensures Sunk(cfg, w, jobs, t, Stopped(o), [n])
  {
    ExpandCons(w.all, jobs, n, []);
    assert [n] + [] == [n];
    assert w.all + Copies(jobs[0].line, n) + Expand(jobs[1..], []) == w.all + Copies(jobs[0].line, n);
  }

  /** What the sink promises about the run over `jobs`. */
  ghost predicate SinkSound(cfg: Config, w: Log, jobs: seq<Job>) {
    Sunk(cfg, w, jobs, Sink(cfg, w, jobs).0, Sink(cfg, w, jobs).1, Counts(cfg, w, jobs))
  }

  lemma SinkUnfold(cfg: Config, w: Log, jobs: seq<Job>, u: Log)
    requires jobs != [] && WriteWithRetry(cfg, w, jobs[0].line, jobs[0].script) == (u, Confirmed)
    ensures Sink(cfg, w, jobs) == Sink(cfg, u, jobs[1..])
    ensures Counts(cfg, w, jobs) == [Repeats(cfg, w, jobs[0].line, jobs[0].script) + 1] + Counts(cfg, u, jobs[1..])
  {
  }

  lemma SinkFirst(cfg: Config, w: Log, jobs: seq<Job>, u: Log, t: Log, e: End, n: nat, rest: seq<nat>)
    requires jobs != [] && WriteWithRetry(cfg, w, jobs[0].line, jobs[0].script) == (u, Confirmed)
    requires n == Repeats(cfg, w, jobs[0].line, jobs[0].script)
    requires rest == Counts(cfg, u, jobs[1..]) && (t, e) == Sink(cfg, u, jobs[1..])
    requires Sunk(cfg, w, jobs, t, e, [n + 1] + rest)
    ensures SinkSound(cfg, w, jobs)
  {
    SinkUnfold(cfg, w, jobs, u);
  }

  lemma SinkConfirmed(cfg: Config, w: Log, jobs: seq<Job>)
    requires Inv(cfg, w) && FairJobs(cfg, w, jobs) && jobs != []
    requires WriteWithRetry(cfg, w, jobs[0].line, jobs[0].script).1 == Confirmed
    requires SinkSound(cfg, WriteWithRetry(cfg, w, jobs[0].line, jobs[0].script).0, jobs[1..])
    ensures SinkSound(cfg, w, jobs)
  {
    var u := WriteWithRetry(cfg, w, jobs[0].line, jobs[0].script).0;
    var n := Repeats(cfg, w, jobs[0].line, jobs[0].script);
    var (t, e) := Sink(cfg, u, jobs[1..]);
    RetryMeaning(cfg, w, jobs[0].line, jobs[0].script);
    SunkCons(cfg, w, jobs, u, t, e, n, Counts(cfg, u, jobs[1..]));
    SinkFirst(cfg, w, jobs, u, t, e, n, Counts(cfg, u, jobs[1..]));
  }

  lemma SinkEnds(cfg: Config, w: Log, jobs: seq<Job>)
    requires Inv(cfg, w) && FairJobs(cfg, w, jobs)
    requires jobs != [] ==> WriteWithRetry(cfg, w, jobs[0].line, jobs[0].script).1 != Confirmed
    ensures SinkSound(cfg, w, jobs)
  {
    if jobs == [] {
      assert w.all + [] == w.all;
    } else {
      var (u, o) := WriteWithRetry(cfg, w, jobs[0].line, jobs[0].script);
      RetryMeaning(cfg, w, jobs[0].line, jobs[0].script);
      SunkLast(cfg, w, jobs, u, o, Repeats(cfg, w, jobs[0].line, jobs[0].script));
    }
  }

  /**
   * No torn and no lost lines, for any script of partial writes, full disks, failed fsyncs and
   * failed rotations: the lines on disk are the records in order, and the active file is whole.
   */
  lemma {:induction false} SinkMeaning(cfg: Config, w: Log, jobs: seq<Job>)
    requires Inv(cfg, w) && FairJobs(cfg, w, jobs)
    ensures SinkSound(cfg, w, jobs)
    decreases |jobs|
  {
    if jobs != [] && WriteWithRetry(cfg, w, jobs[0].line, jobs[0].script).1 == Confirmed {
      RetryMeaning(cfg, w, jobs[0].line, jobs[0].script);
      SinkMeaning(cfg, WriteWithRetry(cfg, w, jobs[0].line, jobs[0].script).0, jobs[1..]);
      SinkConfirmed(cfg, w, jobs);
    } else {
      SinkEnds(cfg, w, jobs);
    }
  }

  /** What the directory and the active file hold, against all lines `all` ever appended. */
  ghost predicate Retained(cfg: Config, t: Log, all: seq<string>) {
    && all == t.pruned + (Concat(t.held) + t.lines)
    && (cfg.maxBackups == 0 ==> t.pruned == [])
    && (t.open && cfg.maxBackups > 0 ==> |t.dir| <= cfg.maxBackups)
    && t.active == Encode(t.lines)
    && Directory(t.dir, t.order, t.held)
  }

  lemma InvRetains(cfg: Config, t: Log)
    requires Inv(cfg, t)
    ensures Retained(cfg, t, t.all)
  {
    assert t.pruned + (Concat(t.held) + t.lines) == t.pruned + Concat(t.held) + t.lines;
    DirectorySize(t.dir, t.order);
  }

  /**
   * Retention: from an empty directory, what the retained segments and then the active file hold
   * is the end of everything appended, all of it when nothing is ever pruned; no segment is empty
   * or overwritten, and there are no more of them than allowed.
   */
  lemma Retention(cfg: Config, now: nat, jobs: seq<Job>)
    requires FairJobs(cfg, Empty(now), jobs)
    ensures Retained(cfg, Sink(cfg, Empty(now), jobs).0, Expand(jobs, Counts(cfg, Empty(now), jobs)))
  {
    InitKeeps(cfg, now);
    SinkMeaning(cfg, Empty(now), jobs);
    var lines := Expand(jobs, Counts(cfg, Empty(now), jobs));
    assert [] + lines == lines;
    InvRetains(cfg, Sink(cfg, Empty(now), jobs).0);
  }

  lemma DirectorySize(dir: Dir, order: seq<Name>)
    requires Listed(dir, order)
    ensures |dir| <= |order|
  {
    assert dir.Keys == set k | k in order;
    SetOfSeq(order);
    assert |dir.Keys| == |dir|;
  }

  lemma {:induction false} SetOfSeq(order: seq<Name>)
    ensures |set k | k in order| <= |order|
    decreases |order|
  {
    if order != [] {
      var o := order[..|order| - 1];
      SetOfSeq(o);
      assert (set k | k in order) == (set k | k in o) + {order[|order| - 1]};
    }
  }

  lemma {:induction false} RetryBounds(cfg: Config, w: Log, line: string, script: seq<Faults>)
    requires Inv(cfg, w) && FairRetries(cfg, w, line, script) && cfg.maxSize > 0 && Bounded(cfg, w)
    ensures Bounded(cfg, WriteWithRetry(cfg, w, line, script).0)
    decreases |script|
  {
    if script != [] {
      WriteKeeps(cfg, w, line, script[0]);
      WriteBounds(cfg, w, line, script[0]);
      RetryBounds(cfg, Write(cfg, w, line, script[0]).0, line, script[1..]);
    }
  }

  /** Whatever a run met, its active file is within the limit or holds one line. */
  lemma {:induction false} SinkBounds(cfg: Config, w: Log, jobs: seq<Job>)
    requires Inv(cfg, w) && FairJobs(cfg, w, jobs) && cfg.maxSize > 0 && Bounded(cfg, w)
    ensures Bounded(cfg, Sink(cfg, w, jobs).0)
    decreases |jobs|
  {
    if jobs != [] {
      RetryMeaning(cfg, w, jobs[0].line, jobs[0].script);
      RetryBounds(cfg, w, jobs[0].line, jobs[0].script);
      var (t, o) := WriteWithRetry(cfg, w, jobs[0].line, jobs[0].script);
      if o == Confirmed {
        SinkBounds(cfg, t, jobs[1..]);
      }
    }
  }
}
