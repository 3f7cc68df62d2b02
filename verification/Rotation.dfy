/** When a file is rotated, what that leaves behind, and which failures are worth a retry. */
module Rotation {
  import opened FileLog
  import opened FileLogProofs
  import opened Lines

  /** The file has reached its age, or the line does not fit it. */
  predicate Due(cfg: Config, w: Log, line: string, now: nat) {
    || (cfg.maxAge > 0 && now - w.openedAt >= cfg.maxAge)
    || (cfg.maxSize > 0 && |w.active| + |line| + 1 > cfg.maxSize)
  }

  /** The file was set aside as one more segment and a new one, opened now, holds the line alone. */
  ghost predicate Rotated(cfg: Config, w: Log, t: Log, line: string, f: Faults) {
    && t.lines == [line] && t.openedAt == f.now
    && t.order != [] && |t.held| == |t.order| && t.held[|t.held| - 1] == w.lines
    && var name := t.order[|t.order| - 1];
       && name !in w.dir && name.stamp == f.stamp && (forall k :: 0 <= k < name.k ==> Name(f.stamp, k) in w.dir)
       && name in t.dir && t.dir[name] == Segment(Encode(w.lines), f.mod, cfg.compress && f.gzipped)
  }

  /** Of the names with one stamp the first that is free is chosen. */
  lemma {:induction false} FirstFree(dir: map<Name, Segment>, stamp: nat, k: nat)
    ensures var name := RotatedName(dir, stamp, k);
            name !in dir && name.stamp == stamp && k <= name.k && forall j :: k <= j < name.k ==> Name(stamp, j) in dir
    decreases set n | n in dir && n.stamp == stamp && n.k >= k
  {
    if Name(stamp, k) in dir {
      assert (set n | n in dir && n.stamp == stamp && n.k >= k + 1)
          <= (set n | n in dir && n.stamp == stamp && n.k >= k) - {Name(stamp, k)};
      assert Name(stamp, k) in set n | n in dir && n.stamp == stamp && n.k >= k;
      FirstFree(dir, stamp, k + 1);
    }
  }

  lemma PrunedKeepsLast(cfg: Config, w: Log)
    requires Sound(cfg, w) && w.order != []
    ensures var t := Pruned(cfg, w);
            && t.order != [] && t.order[|t.order| - 1] == w.order[|w.order| - 1]
            && |t.held| == |t.order| && t.held[|t.held| - 1] == w.held[|w.held| - 1]
            && w.order[|w.order| - 1] in t.dir && t.dir[w.order[|w.order| - 1]] == w.dir[w.order[|w.order| - 1]]
            && t.lines == w.lines && t.openedAt == w.openedAt && t.open == w.open
  {
    var last := w.order[|w.order| - 1];
    assert last in w.order;
    if 0 < cfg.maxBackups < |w.order| {
      assert last == w.order[|w.order| - cfg.maxBackups..][cfg.maxBackups - 1];
    }
  }

  /** Renaming sets the file aside under the first free name of its stamp. */
  lemma RenamedSetsAside(cfg: Config, w: Log, f: Faults)
    requires Inv(cfg, w) && Fair(w, f) && w.open && w.size > 0
    ensures var r := Renamed(cfg, w, f).(open := true, size := 0, openedAt := f.now);
            && Sound(cfg, r) && r.lines == [] && r.order != [] && |r.held| == |r.order|
            && r.held[|r.held| - 1] == w.lines
            && var name := r.order[|r.order| - 1];
               && name !in w.dir && name.stamp == f.stamp
               && (forall k :: 0 <= k < name.k ==> Name(f.stamp, k) in w.dir)
               && name in r.dir && r.dir[name] == Segment(Encode(w.lines), f.mod, cfg.compress && f.gzipped)
  {
    RenamedKeeps(cfg, w, f);
    FirstFree(w.dir, f.stamp, 0);
  }

  lemma RotateSetsAside(cfg: Config, w: Log, line: string, f: Faults)
    requires Inv(cfg, w) && Fair(w, f) && w.open && w.size > 0 && Faultless(f)
    ensures var (r, rotated) := Rotate(cfg, w, f);
            rotated == Wrote && r.open && Rotated(cfg, w, AppendLine(cfg, r, line, f).0, line, f)
  {
    RenamedSetsAside(cfg, w, f);
    var r := Renamed(cfg, w, f).(open := true, size := 0, openedAt := f.now);
    PrunedKeepsLast(cfg, r);
    assert Pruned(cfg, r).lines == [] && [] + [line] == [line];
  }

  /**
   * A nonempty file is rotated exactly when it has reached its age or the line does not fit it;
   * otherwise the line joins the file, and neither the segments nor the file's age change.
   */
  lemma RotatesIffDue(cfg: Config, w: Log, line: string, f: Faults)
    requires Inv(cfg, w) && Fair(w, f) && w.open && Faultless(f)
    ensures var (t, r) := Write(cfg, w, line, f);
            && r == Wrote
            && if w.lines != [] && Due(cfg, w, line, f.now) then Rotated(cfg, w, t, line, f)
               else t.lines == w.lines + [line] && t.order == w.order && t.dir == w.dir && t.openedAt == w.openedAt
  {
    EncodeEmpty(w.lines);
    if w.size > 0 {
      RotateSetsAside(cfg, w, line, f);
    }
  }

  // ---- Failures ----

  /** How the steps of a write end, in the order in which they are taken. */
  function Endings(cfg: Config, w: Log, line: string, f: Faults): seq<Err> {
    (if w.lines != [] && Due(cfg, w, line, f.now) then [f.close, f.rename, f.reopen] else [])
    + [if f.append.Short? then f.append.err else Fine]
    + [if cfg.fsync then f.sync else Fine]
  }

  function FirstError(errs: seq<Err>): Err {
    if errs == [] then Fine else if errs[0] != Fine then errs[0] else FirstError(errs[1..])
  }

  lemma FirstErrorCons(e: Err, rest: seq<Err>)
    ensures FirstError([e] + rest) == if e != Fine then e else FirstError(rest)
  {
    assert ([e] + rest)[1..] == rest;
  }

  lemma TwoErrors(a: Err, b: Err)
    ensures FirstError([a] + [b]) == if a != Fine then a else b
  {
    FirstErrorCons(a, [b]);
    FirstErrorCons(b, []);
    assert [b] + [] == [b];
  }

  lemma FiveErrors(a: Err, b: Err, c: Err, d: Err, e: Err)
    ensures FirstError([a, b, c] + [d] + [e])
         == if a != Fine then a else if b != Fine then b else if c != Fine then c else if d != Fine then d else e
  {
    TwoErrors(d, e);
    FirstErrorCons(c, [d] + [e]);
    FirstErrorCons(b, [c] + ([d] + [e]));
    FirstErrorCons(a, [b] + ([c] + ([d] + [e])));
    assert [a, b, c] + [d] + [e] == [a] + ([b] + ([c] + ([d] + [e])));
  }

  lemma AppendOutcome(cfg: Config, w: Log, line: string, f: Faults)
    requires w.open && w.size <= |w.active| && (f.append.Short? ==> f.append.rollback == Fine && f.append.err != Fine)
    ensures var e := FirstError([if f.append.Short? then f.append.err else Fine]
                                + [if cfg.fsync then f.sync else Fine]);
            AppendLine(cfg, w, line, f).1 == if e == Fine then Wrote else Failed(e == DiskFull)
  {
    TwoErrors(if f.append.Short? then f.append.err else Fine, if cfg.fsync then f.sync else Fine);
  }

  lemma EndingsMeaning(cfg: Config, w: Log, line: string, f: Faults)
    ensures var last := FirstError([if f.append.Short? then f.append.err else Fine]
                                   + [if cfg.fsync then f.sync else Fine]);
            FirstError(Endings(cfg, w, line, f)) ==
            if !(w.lines != [] && Due(cfg, w, line, f.now)) then last
            else if f.close != Fine then f.close
            else if f.rename != Fine then f.rename
            else if f.reopen != Fine then f.reopen
            else last
  {
    var d, e := if f.append.Short? then f.append.err else Fine, if cfg.fsync then f.sync else Fine;
    FiveErrors(f.close, f.rename, f.reopen, d, e);
    TwoErrors(d, e);
    assert [] + [d] + [e] == [d] + [e];
  }

  /** A write succeeds exactly if every step does, and is worth a retry exactly if the first error is a full disk. */
  lemma OutcomeIsFirstError(cfg: Config, w: Log, line: string, f: Faults)
    requires Inv(cfg, w) && Fair(w, f) && w.open
    ensures var e := FirstError(Endings(cfg, w, line, f));
            Write(cfg, w, line, f).1 == if e == Fine then Wrote else Failed(e == DiskFull)
  {
    EncodeEmpty(w.lines);
    EndingsMeaning(cfg, w, line, f);
    if w.size > 0 {
      RotateKeeps(cfg, w, f);
      if Rotate(cfg, w, f).1 == Wrote {
        AppendOutcome(cfg, Rotate(cfg, w, f).0, line, f);
      }
    }
    AppendOutcome(cfg, w, line, f);
  }

  /**
   * A short write that cannot be rolled back is never a success: what was written of the line stays
   * behind the old contents, nothing counts as appended, and the rollback's error is reported. If
   * nothing was written there is nothing to roll back.
   */
  lemma UnrolledAppend(cfg: Config, w: Log, line: string, f: Faults)
    requires Inv(cfg, w) && w.open && f.append.Short? && f.append.rollback != Fine
    ensures var (t, r) := AppendLine(cfg, w, line, f);
            var n := f.append.n;
            && t.lines == w.lines && t.all == w.all && t.size == w.size && t.dir == w.dir
            && if n == 0 then t == w && r == Failed(f.append.err == DiskFull)
               else && t.active == w.active + (line + "\n")[..if n <= |line| then n else |line|]
                    && r == Failed(f.append.rollback == DiskFull)
  {
  }

  /**
   * A rollback that itself meets a full disk is retried like any other full disk, and the retry then
   * appends the whole line after the piece that stayed behind: the file is no longer whole lines.
   */
  lemma TornRetry(cfg: Config, w: Log, line: string, f: Faults, g: Faults)
    requires Inv(cfg, w) && w.open && !Due(cfg, w, line, f.now) && !Due(cfg, w, line, g.now) && Faultless(g)
    requires f.append.Short? && 0 < f.append.n <= |line| && f.append.rollback == DiskFull
    ensures var (t, r) := Write(cfg, w, line, f);
            var (u, q) := Write(cfg, t, line, g);
            && r == Failed(true) && q == Wrote
            && u.active == w.active + line[..f.append.n] + line + "\n" && u.active != Encode(u.lines)
  {
    var t := Write(cfg, w, line, f).0;
    assert (line + "\n")[..f.append.n] == line[..f.append.n];
    assert t.active == w.active + line[..f.append.n] && t.size == w.size && t.lines == w.lines;
    EncodeSnoc(w.lines, line);
  }
}
