/**
 * Change detection in evm-balance: a value is compared with the last committed one, and committed
 * only after its records went out.
 */
module ChangeDetection {
  import opened Chain
  import opened Common

  datatype Kind = Native | ERC20 | ERC721Balance | ERC721Ownership | ContractNative | ContractSupply | ContractTransfers

  datatype Key = Key(kind: Kind, name: string)

  datatype Value = Amount(n: int) | Owner(address: string)

  /** Amounts compare exactly, owners without regard to case. */
  predicate Same(a: Value, b: Value) {
    if a.Owner? && b.Owner? then Fold(a.address) == Fold(b.address) else a == b
  }

  datatype Reading = Reading(key: Key, value: Value)

  /** What a downstream sees in order; Forgot marks a reload that dropped a target. */
  datatype Event = Sample(key: Key, value: Value) | Change(key: Key, prev: Value, cur: Value) | Forgot(key: Key)

  /** `attempts` counts writes to the output so far; write number n succeeds if the output takes it. */
  datatype State = State(prior: map<Key, Value>, log: seq<Event>, attempts: nat)

  type Output = nat -> bool

  function Emit(out: Output, s: State, e: Event): (State, bool) {
    if out(s.attempts)
    then (s.(log := s.log + [e], attempts := s.attempts + 1), true)
    else (s.(attempts := s.attempts + 1), false)
  }

  predicate Moved(s: State, r: Reading) {
    r.key in s.prior && !Same(s.prior[r.key], r.value)
  }

  /** Emits a reading's sample and, if the value moved, its change; then commits the value. */
  function Apply(out: Output, s: State, r: Reading): (State, bool) {
    var (t, sampled) := Emit(out, s, Sample(r.key, r.value));
    if !sampled then (t, false)
    else if !Moved(s, r) then (t.(prior := t.prior[r.key := r.value]), true)
    else
      var (u, changed) := Emit(out, t, Change(r.key, s.prior[r.key], r.value));
      if !changed then (u, false) else (u.(prior := u.prior[r.key := r.value]), true)
  }

  function ApplyAll(out: Output, s: State, rs: seq<Reading>): (State, bool)
    decreases |rs|
  {
    if rs == [] then (s, true)
    else
      var (t, ok) := Apply(out, s, rs[0]);
      if ok then ApplyAll(out, t, rs[1..]) else (t, false)
  }

  /** A tick whose reads failed applies nothing; a reload forgets the keys of removed targets. */
  datatype Step = Ticked(readOk: bool, readings: seq<Reading>) | Reloaded(removed: seq<Key>)

  function Drop(s: State, removed: seq<Key>): State
    decreases |removed|
  {
    if removed == [] then s
    else Drop(s.(prior := s.prior - {removed[0]}, log := s.log + [Forgot(removed[0])]), removed[1..])
  }

  function DoStep(out: Output, s: State, st: Step): State {
    match st
    case Ticked(readOk, rs) => if readOk then ApplyAll(out, s, rs).0 else s
    case Reloaded(removed) => Drop(s, removed)
  }

  function Steps(out: Output, s: State, sts: seq<Step>): State
    decreases |sts|
  {
    if sts == [] then s else Steps(out, DoStep(out, s, sts[0]), sts[1..])
  }

  // ---- Replaying the records ----

  /** A consumer's idea of the value: the first sample it saw, and then every change. */
  function Replay(log: seq<Event>, k: Key): Option<Value> {
    if log == [] then None
    else
      var before := Replay(log[..|log| - 1], k);
      match log[|log| - 1]
      case Sample(key, v) => if key == k && before.None? then Some(v) else before
      case Change(key, p, c) => if key == k then Some(c) else before
      case Forgot(key) => if key == k then None else before
  }

  lemma ReplaySnoc(log: seq<Event>, e: Event, k: Key)
    ensures var before := Replay(log, k);
            Replay(log + [e], k) ==
              match e
              case Sample(key, v) => if key == k && before.None? then Some(v) else before
              case Change(key, p, c) => if key == k then Some(c) else before
              case Forgot(key) => if key == k then None else before
  {
    assert (log + [e])[..|log|] == log;
  }

  predicate Agree(prior: map<Key, Value>, seen: Option<Value>, k: Key) {
    if k in prior then seen.Some? && Same(prior[k], seen.value) else seen.None?
  }

  /** Replaying the records gives the committed baselines. */
  ghost predicate Synced(s: State) {
    forall k :: Agree(s.prior, Replay(s.log, k), k)
  }

  /** Every change starts from what replaying the records before it gives, and really is a change. */
  ghost predicate Chained(log: seq<Event>) {
    forall i :: 0 <= i < |log| && log[i].Change? ==>
      var seen := Replay(log[..i], log[i].key);
      seen.Some? && Same(log[i].prev, seen.value) && !Same(log[i].prev, log[i].cur)
  }

  ghost predicate Inv(s: State) {
    Synced(s) && Chained(s.log)
  }

  lemma ChainedSnoc(log: seq<Event>, e: Event)
    requires Chained(log)
    requires e.Change? ==> var seen := Replay(log, e.key);
                           seen.Some? && Same(e.prev, seen.value) && !Same(e.prev, e.cur)
    ensures Chained(log + [e])
  {
    assert (log + [e])[..|log|] == log;
    assert forall i :: 0 <= i < |log| ==> (log + [e])[..i] == log[..i];
  }

  /** A sample alone changes nothing a consumer knows, unless it is the first. */
  lemma SampleKeeps(s: State, r: Reading)
    requires Inv(s)
    ensures Chained(s.log + [Sample(r.key, r.value)])
    ensures forall k :: Replay(s.log + [Sample(r.key, r.value)], k)
                     == if k == r.key && k !in s.prior then Some(r.value) else Replay(s.log, k)
  {
    ChainedSnoc(s.log, Sample(r.key, r.value));
    forall k ensures Replay(s.log + [Sample(r.key, r.value)], k)
                  == if k == r.key && k !in s.prior then Some(r.value) else Replay(s.log, k)
    {
      ReplaySnoc(s.log, Sample(r.key, r.value), k);
      assert Agree(s.prior, Replay(s.log, k), k);
    }
  }

  /** The state after a sample and its commit, when the value did not move. */
  lemma UnmovedKeeps(s: State, r: Reading, n: nat)
    requires Inv(s) && !Moved(s, r)
    ensures Inv(State(s.prior[r.key := r.value], s.log + [Sample(r.key, r.value)], n))
  {
    SampleKeeps(s, r);
    var t := State(s.prior[r.key := r.value], s.log + [Sample(r.key, r.value)], n);
    forall k ensures Agree(t.prior, Replay(t.log, k), k) {
      assert Agree(s.prior, Replay(s.log, k), k);
    }
  }

  /** The state after a sample whose change was refused: nothing is committed. */
  lemma RefusedKeeps(s: State, r: Reading, n: nat)
    requires Inv(s) && Moved(s, r)
    ensures Inv(State(s.prior, s.log + [Sample(r.key, r.value)], n))
  {
    SampleKeeps(s, r);
    var t := State(s.prior, s.log + [Sample(r.key, r.value)], n);
    forall k ensures Agree(t.prior, Replay(t.log, k), k) {
      assert Agree(s.prior, Replay(s.log, k), k);
    }
  }

  /** The state after a sample, its change and the commit. */
  lemma MovedKeeps(s: State, r: Reading, n: nat)
    requires Inv(s) && Moved(s, r)
    ensures Inv(State(s.prior[r.key := r.value],
                      s.log + [Sample(r.key, r.value)] + [Change(r.key, s.prior[r.key], r.value)], n))
  {
    var e := Change(r.key, s.prior[r.key], r.value);
    var sampled := s.log + [Sample(r.key, r.value)];
    SampleKeeps(s, r);
    assert Agree(s.prior, Replay(s.log, r.key), r.key);
    ChainedSnoc(sampled, e);
    forall k ensures Agree(s.prior[r.key := r.value], Replay(sampled + [e], k), k) {
      ReplaySnoc(sampled, e, k);
      assert Agree(s.prior, Replay(s.log, k), k);
    }
  }

  lemma ApplyKeeps(out: Output, s: State, r: Reading)
    requires Inv(s)
    ensures Inv(Apply(out, s, r).0)
  {
    var t := Apply(out, s, r).0;
    if out(s.attempts) {
      if !Moved(s, r) {
        UnmovedKeeps(s, r, t.attempts);
      } else if out(s.attempts + 1) {
        MovedKeeps(s, r, t.attempts);
      } else {
        RefusedKeeps(s, r, t.attempts);
      }
    }
  }

  lemma {:induction false} ApplyAllKeeps(out: Output, s: State, rs: seq<Reading>)
    requires Inv(s)
    ensures Inv(ApplyAll(out, s, rs).0)
    decreases |rs|
  {
    if rs != [] {
      ApplyKeeps(out, s, rs[0]);
      if Apply(out, s, rs[0]).1 {
        ApplyAllKeeps(out, Apply(out, s, rs[0]).0, rs[1..]);
      }
    }
  }

  lemma {:induction false} DropKeeps(s: State, removed: seq<Key>)
    requires Inv(s)
    ensures Inv(Drop(s, removed))
    decreases |removed|
  {
    if removed != [] {
      var e := Forgot(removed[0]);
      var t := s.(prior := s.prior - {removed[0]}, log := s.log + [e]);
      ChainedSnoc(s.log, e);
      forall k ensures Agree(t.prior, Replay(t.log, k), k) {
        ReplaySnoc(s.log, e, k);
        assert Agree(s.prior, Replay(s.log, k), k);
      }
      DropKeeps(t, removed[1..]);
    }
  }

  function Start(): State {
    State(map[], [], 0)
  }

  lemma {:induction false} StepsKeep(out: Output, s: State, sts: seq<Step>)
    requires Inv(s)
    ensures Inv(Steps(out, s, sts))
    decreases |sts|
  {
    if sts != [] {
      match sts[0] {
        case Ticked(readOk, rs) => ApplyAllKeeps(out, s, rs);
        case Reloaded(removed) => DropKeeps(s, removed);
      }
      StepsKeep(out, DoStep(out, s, sts[0]), sts[1..]);
    }
  }

  /**
   * The change chain: over any ticks and reloads, with any failed reads and any refused writes,
   * each change starts from the last value a consumer knows, and replaying the records from the
   * first sample gives the committed baseline of every target until a reload drops it.
   */
  lemma ChangeChain(out: Output, sts: seq<Step>)
    ensures Synced(Steps(out, Start(), sts)) && Chained(Steps(out, Start(), sts).log)
  {
    StepsKeep(out, Start(), sts);
  }

  /** A change carries the committed value and the new one, and the new one is then committed. */
  lemma ChangeIsExact(out: Output, s: State, r: Reading)
    requires Moved(s, r)
    ensures var (t, ok) := Apply(out, s, r);
            && (ok ==> t.log == s.log + [Sample(r.key, r.value), Change(r.key, s.prior[r.key], r.value)]
                       && t.prior == s.prior[r.key := r.value])
            && (!ok ==> t.prior == s.prior && (t.log == s.log || t.log == s.log + [Sample(r.key, r.value)]))
  {
  }

  /** Nothing about `k` between two positions of the log is a change or a reload. */
  ghost predicate Quiet(log: seq<Event>, i: nat, j: nat, k: Key)
    requires i <= j <= |log|
  {
    forall m :: i <= m < j && log[m].key == k ==> log[m].Sample?
  }

  lemma {:induction false} QuietReplay(log: seq<Event>, i: nat, j: nat, k: Key)
    requires i < j <= |log| && log[i].Change? && log[i].key == k && Quiet(log, i + 1, j, k)
    ensures Replay(log[..j], k) == Some(log[i].cur)
    decreases j
  {
    assert log[..j][..j - 1] == log[..j - 1];
    if i + 1 < j {
      QuietReplay(log, i, j - 1, k);
    }
  }

  /** Consecutive changes of an amount join up: the later starts exactly where the earlier ended. */
  lemma ConsecutiveChanges(out: Output, sts: seq<Step>, i: nat, j: nat)
    requires var log := Steps(out, Start(), sts).log;
             && i < j < |log| && log[i].Change? && log[j].Change? && log[i].key == log[j].key
             && Quiet(log, i + 1, j, log[i].key)
    ensures var log := Steps(out, Start(), sts).log;
            Same(log[j].prev, log[i].cur) && (log[j].prev.Amount? ==> log[j].prev == log[i].cur)
  {
    ChangeChain(out, sts);
    QuietReplay(Steps(out, Start(), sts).log, i, j, Steps(out, Start(), sts).log[i].key);
  }
}
