/** The rotating writer and the sink loop as the program runs them. */
module Writer {
  import opened L = FileLog
  import opened P = FileLogProofs

  class RotatingWriter {
    const cfg: Config
    var active: string
    var size: nat
    var open: bool
    var openedAt: nat
    var dir: map<Name, Segment>
    ghost var log: Log

    /** The fields are those of the log, which also keeps the history. */
    ghost predicate Current()
      reads this
    {
      active == log.active && size == log.size && open == log.open && openedAt == log.openedAt && dir == log.dir
    }

    ghost predicate Valid()
      reads this
    {
      Current() && Inv(cfg, log)
    }

    /** Opens an active file that does not exist yet, in an empty directory. */
    constructor (cfg: Config, now: nat)
      ensures this.cfg == cfg && log == Empty(now) && Valid()
    {
      this.cfg := cfg;
      active, size, open, openedAt, dir := "", 0, true, now, map[];
      log := Empty(now);
      new;
      InitKeeps(cfg, now);
    }

    method RotatedName(stamp: nat) returns (name: Name)
      ensures name == L.RotatedName(dir, stamp, 0)
    {
      name := Name(stamp, 0);
      while name in dir
        invariant name.stamp == stamp && L.RotatedName(dir, stamp, name.k) == L.RotatedName(dir, stamp, 0)
        decreases set n | n in dir && n.stamp == stamp && n.k >= name.k
      {
        ghost var left := set n | n in dir && n.stamp == stamp && n.k >= name.k;
        assert (set n | n in dir && n.stamp == stamp && n.k >= name.k + 1) <= left - {name};
        assert name in left;
        name := Name(stamp, name.k + 1);
      }
    }

    /** A segment with the least modification time. */
    method Oldest() returns (oldest: Name)
      requires dir != map[]
      ensures IsOldest(dir, oldest)
    {
      var todo := dir.Keys;
      oldest :| oldest in todo;
      todo := todo - {oldest};
      while todo != {}
        invariant todo <= dir.Keys && oldest in dir
        invariant forall n :: n in dir && n !in todo ==> dir[oldest].mod <= dir[n].mod
        decreases todo
      {
        var n :| n in todo;
        if dir[n].mod < dir[oldest].mod {
          oldest := n;
        }
        todo := todo - {n};
      }
    }

    /** Removes the oldest segments, by modification time, until at most `limit` are left. */
    method RemoveOldest(limit: nat, ghost order: seq<Name>, ghost held: seq<seq<string>>)
      requires Directory(dir, order, held) && limit > 0
      modifies this`dir
      ensures dir == if |order| <= limit then old(dir) else KeepNames(old(dir), order[|order| - limit..])
    {
      ghost var n := 0;
      KeepAll(dir, order, held);
      assert order[0..] == order;
      while |dir| > limit
        invariant n <= |order| && |dir| == |order| - n
        invariant n == 0 || |dir| >= limit
        invariant dir == KeepNames(old(dir), order[n..])
        decreases |dir|
      {
        var oldest := Oldest();
        assert n < |order| && |dir - {oldest}| == |order| - n - 1
            && dir - {oldest} == KeepNames(old(dir), order[n + 1..]) by {
          DirectoryDrop(old(dir), order, held, n);
          RemoveFirst(dir, order[n..], held[n..], oldest);
          KeepTail(old(dir), order, n);
        }
        dir := dir - {oldest};
        n := n + 1;
      }
    }

    method Prune()
      requires Current() && Sound(cfg, log)
      modifies this`dir, this`log
      ensures Current() && log == Pruned(cfg, old(log))
    {
      log := Pruned(cfg, log);
      if cfg.maxBackups > 0 {
        RemoveOldest(cfg.maxBackups, old(log).order, old(log).held);
      }
    }

    /** Renames the active file to a segment with a free name. */
    method RenameActive(f: Faults)
      requires Current()
      modifies this
      ensures Current() && log == Renamed(cfg, old(log), f)
    {
      var name := RotatedName(f.stamp);
      dir := dir[name := Segment(active, f.mod, cfg.compress && f.gzipped)];
      active, open := "", false;
      log := Renamed(cfg, log, f);
    }

    /** Opens a fresh active file after a rename, and prunes. */
    method Reopen(now: nat)
      requires Current() && Sound(cfg, log)
      modifies this
      ensures Current() && log == Pruned(cfg, old(log).(open := true, size := 0, openedAt := now))
    {
      open, size, openedAt := true, 0, now;
      log := log.(open := true, size := 0, openedAt := now);
      Prune();
    }

    method Rotate(f: Faults) returns (r: Result)
      requires Valid() && Fair(log, f) && size > 0
      modifies this
      ensures Current() && (log, r) == L.Rotate(cfg, old(log), f)
    {
      if !open {
        return Failed(false);
      }
      if f.close != Fine || f.rename != Fine {
        open, log := false, log.(open := false);
        return Fail(if f.close != Fine then f.close else f.rename);
      }
      RenamedKeeps(cfg, log, f);
      RenameActive(f);
      if f.reopen != Fine {
        return Fail(f.reopen);
      }
      Reopen(f.now);
      return Wrote;
    }

    method Write(line: string, f: Faults) returns (r: Result)
      requires Valid() && Fair(log, f)
      modifies this
      ensures Valid() && (log, r) == L.Write(cfg, old(log), line, f)
    {
      WriteKeeps(cfg, log, line, f);
      var need := |line| + 1;
      if size > 0 && ((cfg.maxSize > 0 && size + need > cfg.maxSize)
          || (cfg.maxAge > 0 && f.now >= openedAt + cfg.maxAge)) {
        r := Rotate(f);
        if r != Wrote {
          return;
        }
      }
      r := AppendLine(line, f);
    }

    method AppendLine(line: string, f: Faults) returns (r: Result)
      requires Current()
      modifies this
      ensures Current() && (log, r) == L.AppendLine(cfg, old(log), line, f)
    {
      if !open {
        return Failed(false);
      }
      log := L.AppendLine(cfg, log, line, f).0;
      match f.append
      case Full =>
        active, size := active + line + "\n", size + |line| + 1;
        if cfg.fsync && f.sync != Fine {
          return Fail(f.sync);
        }
        return Wrote;
      case Short(n, err, rollback) =>
        if n > 0 {
          active := active + (line + "\n")[..if n <= |line| then n else |line|];
          if rollback != Fine || size > |active| {
            return Fail(rollback);
          }
          active := active[..size];
        }
        return Fail(err);
    }

    /** Appends one record, blocking on a full disk until it is written or the run is cancelled. */
    method WriteWithRetry(line: string, script: seq<Faults>) returns (o: Outcome)
      requires Valid() && FairRetries(cfg, log, line, script)
      modifies this
      ensures Valid() && (log, o) == L.WriteWithRetry(cfg, old(log), line, script)
    {
      var i := 0;
      while i < |script|
        invariant 0 <= i <= |script| && Valid() && FairRetries(cfg, log, line, script[i..])
        invariant L.WriteWithRetry(cfg, log, line, script[i..]) == L.WriteWithRetry(cfg, old(log), line, script)
      {
        RetryStep(cfg, log, line, script, i);
        var r := Write(line, script[i]);
        if r == Wrote {
          return Confirmed;
        }
        if r == Failed(false) {
          return Fatal;
        }
        i := i + 1;
      }
      return CleanStop;
    }

    /** Reads records one at a time, and the next one only once the last was confirmed. */
    method Run(jobs: seq<Job>) returns (e: End)
      requires Valid() && FairJobs(cfg, log, jobs)
      modifies this
      ensures Valid() && (log, e) == Sink(cfg, old(log), jobs)
    {
      var i := 0;
      while i < |jobs|
        invariant 0 <= i <= |jobs| && Valid() && FairJobs(cfg, log, jobs[i..])
        invariant Sink(cfg, log, jobs[i..]) == Sink(cfg, old(log), jobs)
      {
        assert jobs[i..][1..] == jobs[i + 1..];
        var o := WriteWithRetry(jobs[i].line, jobs[i].script);
        if o != Confirmed {
          return Stopped(o);
        }
        i := i + 1;
      }
      return Drained;
    }
  }

  // ---- The oldest segment is the one rotated out first ----

  /** No segment has an earlier modification time. */
  ghost predicate IsOldest(dir: Dir, oldest: Name) {
    oldest in dir && forall n :: n in dir ==> dir[oldest].mod <= dir[n].mod
  }

  lemma DirectoryExact(dir: Dir, order: seq<Name>, held: seq<seq<string>>)
    requires Directory(dir, order, held)
    ensures |dir| == |order|
  {
    assert dir.Keys == set k | k in order;
    forall i, j | 0 <= i < j < |order| ensures order[i] != order[j] {
      assert dir[order[i]].mod < dir[order[j]].mod;
    }
    DistinctSize(order);
    assert |dir.Keys| == |dir|;
  }

  lemma {:induction false} DistinctSize(order: seq<Name>)
    requires forall i, j :: 0 <= i < j < |order| ==> order[i] != order[j]
    ensures |set k | k in order| == |order|
    decreases |order|
  {
    if order != [] {
      var o, last := order[..|order| - 1], order[|order| - 1];
      DistinctSize(o);
      assert (set k | k in order) == (set k | k in o) + {last};
    }
  }

  lemma FirstIsOldest(dir: Dir, order: seq<Name>, held: seq<seq<string>>, i: nat)
    requires Directory(dir, order, held) && i < |order|
    ensures order[0] in dir && order[i] in dir && (dir[order[i]].mod <= dir[order[0]].mod ==> i == 0)
  {
    assert order[0] in order && order[i] in order;
  }

  lemma OldestIsFirst(dir: Dir, order: seq<Name>, held: seq<seq<string>>, oldest: Name)
    requires Directory(dir, order, held) && IsOldest(dir, oldest)
    ensures order != [] && order[0] == oldest
  {
    assert oldest in order;
    var i :| 0 <= i < |order| && order[i] == oldest;
    FirstIsOldest(dir, order, held, i);
  }

  lemma FirstNotLater(dir: Dir, order: seq<Name>, held: seq<seq<string>>)
    requires Directory(dir, order, held) && order != []
    ensures order[0] !in order[1..]
  {
    forall i | 0 < i < |order| ensures order[i] != order[0] {
      assert dir[order[0]].mod < dir[order[i]].mod;
    }
  }

  lemma KeepAll(dir: Dir, order: seq<Name>, held: seq<seq<string>>)
    requires Directory(dir, order, held)
    ensures |dir| == |order| && KeepNames(dir, order) == dir
  {
    DirectoryExact(dir, order, held);
  }

  lemma KeepLess(dir: Dir, first: Name, rest: seq<Name>)
    requires first !in rest
    ensures KeepNames(dir, [first] + rest) - {first} == KeepNames(dir, rest)
  {
  }

  lemma KeepTail(dir: Dir, order: seq<Name>, n: nat)
    requires n < |order|
    ensures KeepNames(KeepNames(dir, order[n..]), order[n..][1..]) == KeepNames(dir, order[n + 1..])
  {
    assert order[n..] == [order[n]] + order[n + 1..];
  }

  /** Removing a segment with the least time leaves the later ones of the rotation order. */
  lemma RemoveFirst(dir: Dir, order: seq<Name>, held: seq<seq<string>>, oldest: Name)
    requires Directory(dir, order, held) && IsOldest(dir, oldest)
    ensures order != [] && dir - {oldest} == KeepNames(dir, order[1..]) && |dir - {oldest}| == |order| - 1
  {
    OldestIsFirst(dir, order, held, oldest);
    FirstNotLater(dir, order, held);
    KeepAll(dir, order, held);
    assert order == [oldest] + order[1..];
    KeepLess(dir, oldest, order[1..]);
    DirectorySmaller(dir, oldest);
  }

  lemma DirectorySmaller(dir: Dir, name: Name)
    requires name in dir
    ensures |dir - {name}| == |dir| - 1
  {
    assert (dir - {name}).Keys == dir.Keys - {name};
    assert |dir.Keys| == |dir| && |(dir - {name}).Keys| == |dir - {name}|;
  }

  lemma RetryStep(cfg: Config, w: Log, line: string, script: seq<Faults>, i: nat)
    requires i < |script|
    ensures L.WriteWithRetry(cfg, w, line, script[i..])
         == match L.Write(cfg, w, line, script[i])
            case (t, Wrote) => (t, Confirmed)
            case (t, Failed(transient)) =>
              if transient then L.WriteWithRetry(cfg, t, line, script[i + 1..]) else (t, Fatal)
    ensures FairRetries(cfg, w, line, script[i..]) ==>
      Fair(w, script[i]) && FairRetries(cfg, L.Write(cfg, w, line, script[i]).0, line, script[i + 1..])
  {
    assert script[i..][1..] == script[i + 1..];
  }
}
