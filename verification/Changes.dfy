/** What counts as a change, and what replaying the records tells a consumer. */
module Changes {
  import opened Chain
  import opened ChangeDetection
  import opened Common

  /** Both are amounts and differ, or both are owners and differ in more than the case of letters. */
  predicate Differ(a: Value, b: Value) {
    || (a.Amount? && b.Amount? && a.n != b.n)
    || (a.Owner? && b.Owner? && !EqualButCase(a.address, b.address))
  }

  /** The same amount, or the same owner but for the case of letters. */
  predicate Match(a: Value, b: Value) {
    || (a.Amount? && b.Amount? && a.n == b.n)
    || (a.Owner? && b.Owner? && EqualButCase(a.address, b.address))
  }

  lemma SameMeaning(a: Value, b: Value)
    ensures Same(a, b) <==> Match(a, b)
  {
    if a.Owner? && b.Owner? {
      FoldIff(a.address, b.address);
    }
  }

  /**
   * Over any ticks and reloads, with any failed reads and refused writes: a target has a baseline
   * exactly if replaying the records gives a value for it, and that value is the baseline, an
   * amount exactly and an owner's address up to the case of letters.
   */
  lemma ReplayGivesBaselines(out: Output, sts: seq<Step>, k: Key)
    ensures var s := Steps(out, Start(), sts);
            var seen := Replay(s.log, k);
            && (k in s.prior <==> seen.Some?)
            && (k in s.prior ==> Match(s.prior[k], seen.value))
  {
    var s := Steps(out, Start(), sts);
    ChangeChain(out, sts);
    assert Agree(s.prior, Replay(s.log, k), k);
    if k in s.prior {
      SameMeaning(s.prior[k], Replay(s.log, k).value);
    }
  }

  /** Every change really is one, and starts from what the records before it say. */
  lemma ChangesDiffer(out: Output, sts: seq<Step>, i: nat)
    requires i < |Steps(out, Start(), sts).log| && Steps(out, Start(), sts).log[i].Change?
    ensures var log := Steps(out, Start(), sts).log;
            var seen := Replay(log[..i], log[i].key);
            seen.Some? && Match(log[i].prev, seen.value) && !Match(log[i].prev, log[i].cur)
  {
    var log := Steps(out, Start(), sts).log;
    ChangeChain(out, sts);
    SameMeaning(log[i].prev, Replay(log[..i], log[i].key).value);
    SameMeaning(log[i].prev, log[i].cur);
  }

  /** Of two consecutive changes of a target, the later starts where the earlier ended. */
  lemma ChangesJoinUp(out: Output, sts: seq<Step>, i: nat, j: nat)
    requires var log := Steps(out, Start(), sts).log;
             && i < j < |log| && log[i].Change? && log[j].Change? && log[i].key == log[j].key
             && Quiet(log, i + 1, j, log[i].key)
    ensures var log := Steps(out, Start(), sts).log;
            Match(log[j].prev, log[i].cur)
  {
    var log := Steps(out, Start(), sts).log;
    ConsecutiveChanges(out, sts, i, j);
    SameMeaning(log[j].prev, log[i].cur);
  }

  /**
   * With every write accepted, a reading of a target with a baseline of the reading's kind emits
   * its sample and then a change exactly if the two differ; either way it becomes the baseline.
   */
  lemma ChangeIff(out: Output, s: State, r: Reading)
    requires out(s.attempts) && out(s.attempts + 1)
    requires r.key in s.prior && (s.prior[r.key].Owner? <==> r.value.Owner?)
    ensures var (t, ok) := Apply(out, s, r);
            && ok && t.prior == s.prior[r.key := r.value]
            && t.log == s.log + [Sample(r.key, r.value)]
                        + (if Differ(s.prior[r.key], r.value) then [Change(r.key, s.prior[r.key], r.value)] else [])
  {
    SameMeaning(s.prior[r.key], r.value);
    assert s.log + [Sample(r.key, r.value)] + [] == s.log + [Sample(r.key, r.value)];
  }

  /** The first observation of a target is never a change. */
  lemma FirstIsNoChange(out: Output, s: State, r: Reading)
    requires out(s.attempts) && r.key !in s.prior
    ensures var (t, ok) := Apply(out, s, r);
            ok && t.prior == s.prior[r.key := r.value] && t.log == s.log + [Sample(r.key, r.value)]
  {
  }

  // ---- One tick ----

  /** The records of one tick: each reading's sample, followed by its change if it differs from the baseline. */
  function Records(prior: map<Key, Value>, rs: seq<Reading>): seq<Event>
    decreases |rs|
  {
    if rs == [] then []
    else
      var k, v := rs[0].key, rs[0].value;
      [Sample(k, v)] + (if k in prior && !Match(prior[k], v) then [Change(k, prior[k], v)] else [])
      + Records(prior[k := v], rs[1..])
  }

  function Baselines(prior: map<Key, Value>, rs: seq<Reading>): map<Key, Value>
    decreases |rs|
  {
    if rs == [] then prior else Baselines(prior[rs[0].key := rs[0].value], rs[1..])
  }

  lemma ApplyAccepted(out: Output, s: State, r: Reading)
    requires out(s.attempts) && out(s.attempts + 1)
    ensures var (t, ok) := Apply(out, s, r);
            && ok && s.attempts <= t.attempts && t.prior == s.prior[r.key := r.value]
            && t.log == s.log + ([Sample(r.key, r.value)]
                                 + if r.key in s.prior && !Match(s.prior[r.key], r.value)
                                   then [Change(r.key, s.prior[r.key], r.value)] else [])
  {
    if r.key in s.prior {
      SameMeaning(s.prior[r.key], r.value);
    }
    assert s.log + ([Sample(r.key, r.value)] + []) == s.log + [Sample(r.key, r.value)];
  }

  /** With every write accepted a tick emits exactly the records of its readings, and takes them as baselines. */
  lemma {:induction false} TickRecords(out: Output, s: State, rs: seq<Reading>)
    requires forall n: nat :: n >= s.attempts ==> out(n)
    ensures var (t, ok) := ApplyAll(out, s, rs);
            ok && t.log == s.log + Records(s.prior, rs) && t.prior == Baselines(s.prior, rs)
    decreases |rs|
  {
    if rs != [] {
      ApplyAccepted(out, s, rs[0]);
      var t := Apply(out, s, rs[0]).0;
      TickRecords(out, t, rs[1..]);
      assert t.log + Records(t.prior, rs[1..]) == s.log + Records(s.prior, rs);
    }
  }

  /** `t` follows `s` by writes that were all accepted, but for a last one that was refused unless `ok`. */
  ghost predicate WroteUpTo(out: Output, s: State, t: State, ok: bool) {
    var taken := if ok then t.attempts else t.attempts - 1;
    && s.attempts <= taken && s.log <= t.log && |t.log| - |s.log| == taken - s.attempts
    && (forall n: nat :: s.attempts <= n < taken ==> out(n))
    && (!ok ==> !out(t.attempts - 1))
  }

  /** A tick stops at the first write that is refused, and succeeds exactly if none is. */
  lemma {:induction false} TickStops(out: Output, s: State, rs: seq<Reading>)
    ensures var (t, ok) := ApplyAll(out, s, rs); WroteUpTo(out, s, t, ok)
    decreases |rs|
  {
    if rs != [] {
      var (t, ok) := Apply(out, s, rs[0]);
      assert WroteUpTo(out, s, t, ok);
      if ok {
        TickStops(out, t, rs[1..]);
      }
    }
  }

  /** A tick in which a read failed changes nothing; any other does what its readings say. */
  lemma TickIff(out: Output, s: State, readOk: bool, rs: seq<Reading>)
    ensures !readOk ==> DoStep(out, s, Ticked(readOk, rs)) == s
    ensures readOk && (forall n: nat :: n >= s.attempts ==> out(n)) ==>
      var t := DoStep(out, s, Ticked(readOk, rs));
      t.log == s.log + Records(s.prior, rs) && t.prior == Baselines(s.prior, rs)
  {
    if readOk && forall n: nat :: n >= s.attempts ==> out(n) {
      TickRecords(out, s, rs);
    }
  }
}
