/** The poller as the program runs it: baselines, emissions and reloads, updated in place. */
module Poller {
  import opened Common
  import opened Changes
  import opened D = ChangeDetection
  import opened Reload

  /** One read task's outcome. */
  datatype Read = Got(readings: seq<Reading>) | Failed(permanent: bool)

  function Readings(results: seq<Read>): seq<Reading>
    requires forall r :: r in results ==> r.Got?
  {
    if results == [] then [] else results[0].readings + Readings(results[1..])
  }

  /** The readings of a tick are those of its reads, in order. */
  lemma {:induction false} ReadingsConcat(a: seq<Read>, b: seq<Read>)
    requires ReadOk(a) && ReadOk(b)
    ensures ReadOk(a + b) && Readings(a + b) == Readings(a) + Readings(b)
    decreases |a|
  {
    if a == [] {
      assert a + b == b;
    } else {
      assert (a + b)[0] == a[0] && (a + b)[1..] == a[1..] + b;
      ReadingsConcat(a[1..], b);
    }
  }

  lemma OneRead(rs: seq<Reading>)
    ensures Readings([Got(rs)]) == rs
  {
    assert [Got(rs)][1..] == [] && rs + [] == rs;
  }

  /** One round of the interval loop: the target sets staged since the last one, and what its reads come to. */
  datatype Round = Round(staged: seq<Watch>, results: seq<Read>)

  predicate ReadOk(results: seq<Read>) {
    forall r :: r in results ==> r.Got?
  }

  function Last(w: Watch, staged: seq<Watch>): Watch {
    if staged == [] then w else staged[|staged| - 1]
  }

  function Tick(results: seq<Read>): Step {
    Ticked(ReadOk(results), if ReadOk(results) then Readings(results) else [])
  }

  function Reloading(w: Watch, staged: seq<Watch>): seq<Step> {
    if staged == [] then [] else [Reloaded(RemovedKeys(w, Last(w, staged)))]
  }

  /** The steps of a round: the last target set staged before the tick is the one that is applied. */
  function RoundSteps(w: Watch, round: Round): seq<Step> {
    Reloading(w, round.staged) + [Tick(round.results)]
  }

  function StepsOf(w: Watch, rounds: seq<Round>): seq<Step>
    decreases |rounds|
  {
    if rounds == [] then [] else RoundSteps(w, rounds[0]) + StepsOf(Last(w, rounds[0].staged), rounds[1..])
  }

  lemma {:induction false} StepsConcat(out: Output, s: D.State, a: seq<Step>, b: seq<Step>)
    ensures Steps(out, s, a + b) == Steps(out, Steps(out, s, a), b)
    decreases |a|
  {
    if a == [] {
      assert a + b == b;
    } else {
      assert (a + b)[0] == a[0] && (a + b)[1..] == a[1..] + b;
      StepsConcat(out, DoStep(out, s, a[0]), a[1..], b);
    }
  }

  lemma RoundMeaning(out: Output, s: D.State, w: Watch, round: Round)
    ensures Steps(out, s, RoundSteps(w, round)) == DoStep(out, Steps(out, s, Reloading(w, round.staged)),
                                                          Tick(round.results))
  {
    StepsConcat(out, s, Reloading(w, round.staged), [Tick(round.results)]);
    OneStep(out, Steps(out, s, Reloading(w, round.staged)), Tick(round.results));
  }

  lemma OneStep(out: Output, s: D.State, st: Step)
    ensures Steps(out, s, [st]) == DoStep(out, s, st)
  {
    assert [st][1..] == [];
  }

  class Poller {
    const out: Output
    var prior: map<Key, Value>
    var attempts: nat
    var watch: Watch
    var pending: Option<Watch>
    ghost var log: seq<Event>

    constructor (out: Output, watch: Watch)
      ensures this.out == out && this.watch == watch && pending == None && State() == Start()
    {
      this.out := out;
      this.watch := watch;
      prior, attempts, pending, log := map[], 0, None, [];
    }

    ghost function State(): D.State
      reads this
    {
      D.State(prior, log, attempts)
    }

    /** Whether the value moved from the committed one, without committing it. */
    method PeekChanged(key: Key, cur: Value) returns (moved: bool, prev: Value)
      ensures moved == Moved(State(), Reading(key, cur))
      ensures moved <==> key in prior && !Match(prior[key], cur)
      ensures moved ==> prev == prior[key]
    {
      if key in prior {
        SameMeaning(prior[key], cur);
      }
      if key !in prior {
        return false, cur;
      }
      return !Same(prior[key], cur), prior[key];
    }

    method EmitEnv(e: Event) returns (ok: bool)
      modifies this`attempts, this`log
      ensures (State(), ok) == Emit(out, old(State()), e)
    {
      ok := out(attempts);
      attempts := attempts + 1;
      if ok {
        log := log + [e];
      }
    }

    /** Emits one reading's records, and commits its value once they are out. */
    method ApplyReading(r: Reading) returns (ok: bool)
      modifies this`attempts, this`log, this`prior
      ensures (State(), ok) == Apply(out, old(State()), r)
    {
      ok := EmitEnv(Sample(r.key, r.value));
      if !ok {
        return;
      }
      var moved, prev := PeekChanged(r.key, r.value);
      if moved {
        ok := EmitEnv(Change(r.key, prev, r.value));
        if !ok {
          return;
        }
      }
      prior := prior[r.key := r.value];
    }

    /** A permanent failure outranks any transient one; none means every read succeeded. */
    method SelectError(results: seq<Read>) returns (worst: Option<Read>)
      ensures worst == None <==> forall r :: r in results ==> r.Got?
      ensures worst.Some? ==> worst.value in results && worst.value.Failed?
      ensures worst.Some? ==> (worst.value.permanent <==> exists r :: r in results && r.Failed? && r.permanent)
    {
      worst := None;
      for i := 0 to |results|
        invariant worst == None <==> forall k :: 0 <= k < i ==> results[k].Got?
        invariant worst.Some? ==> worst.value in results && worst.value == Failed(false)
        invariant forall k :: 0 <= k < i ==> results[k] != Failed(true)
      {
        if results[i].Failed? {
          assert results[i] in results;
          if results[i].permanent {
            return Some(results[i]);
          }
          if worst == None {
            worst := Some(results[i]);
          }
        }
      }
    }

    /** One tick: nothing at all if some read failed, and otherwise every reading in order until a write fails. */
    method SampleAll(results: seq<Read>) returns (ok: bool)
      modifies this`attempts, this`log, this`prior
      ensures var readOk := forall r :: r in results ==> r.Got?;
              && State() == DoStep(out, old(State()), Ticked(readOk, if readOk then Readings(results) else []))
              && (ok <==> readOk && ApplyAll(out, old(State()), Readings(results)).1)
    {
      var worst := SelectError(results);
      if worst.Some? {
        return false;
      }
      var all := [];
      for i := 0 to |results|
        invariant Readings(results) == all + Readings(results[i..])
      {
        assert results[i..][1..] == results[i + 1..];
        all := all + results[i].readings;
      }
      assert all == Readings(results);
      for i := 0 to |all|
        invariant ApplyAll(out, State(), all[i..]) == ApplyAll(out, old(State()), all)
      {
        assert all[i..][1..] == all[i + 1..];
        ok := ApplyReading(all[i]);
        if !ok {
          return;
        }
      }
      return true;
    }

    /** Stages a target set; one that was staged before and not applied yet is dropped. */
    method QueueReload(ws: Watch)
      modifies this`pending
      ensures pending == Some(ws)
    {
      pending := Some(ws);
    }

    /** Swaps in a staged target set and drops the baselines of removed targets. */
    method ApplyPendingReload()
      modifies this
      ensures pending == None && watch == (if old(pending).Some? then old(pending).value else old(watch))
      ensures State() == if old(pending).Some?
                         then DoStep(out, old(State()), Reloaded(RemovedKeys(old(watch), old(pending).value)))
                         else old(State())
    {
      if pending == None {
        return;
      }
      var ws := pending.value;
      pending := None;
      ghost var s := State();
      ghost var a, b := RemovedNames(watch.native, ws.native, [Native]), RemovedNames(watch.erc20, ws.erc20, [ERC20]);
      ghost var c := RemovedNames(watch.contracts, ws.contracts, CONTRACT_KINDS);
      ghost var d := RemovedNames(watch.nftBalances, ws.nftBalances, [ERC721Balance]);
      DropConcat(s, a, b);
      DropConcat(s, a + b, c);
      DropConcat(s, a + b + c, d);
      DropConcat(s, a + b + c + d, RemovedNames(watch.nftOwners, ws.nftOwners, [ERC721Ownership]));
      ResetRemoved(watch.native, ws.native, [Native]);
      ResetRemoved(watch.erc20, ws.erc20, [ERC20]);
      ResetRemoved(watch.contracts, ws.contracts, CONTRACT_KINDS);
      ResetRemoved(watch.nftBalances, ws.nftBalances, [ERC721Balance]);
      ResetRemoved(watch.nftOwners, ws.nftOwners, [ERC721Ownership]);
      watch := ws;
    }

    /** Deletes the baselines, of the given kinds, of every name that is no longer configured. */
    method ResetRemoved(was: seq<string>, now: seq<string>, kinds: seq<Kind>)
      modifies this`prior, this`log
      ensures State() == Drop(old(State()), RemovedNames(was, now, kinds))
    {
      for i := 0 to |was|
        invariant Drop(State(), RemovedNames(was[i..], now, kinds)) == Drop(old(State()), RemovedNames(was, now, kinds))
      {
        RemovedStep(was, now, kinds, i);
        if was[i] !in now {
          DropConcat(State(), KeysOf(was[i], kinds), RemovedNames(was[i + 1..], now, kinds));
          Delete(KeysOf(was[i], kinds));
        }
      }
    }

    method Delete(keys: seq<Key>)
      modifies this`prior, this`log
      ensures State() == Drop(old(State()), keys)
    {
      for i := 0 to |keys|
        invariant Drop(State(), keys[i..]) == Drop(old(State()), keys)
      {
        DropOne(State(), keys, i);
        prior := prior - {keys[i]};
        log := log + [Forgot(keys[i])];
      }
    }

    /** The interval loop, over any rounds: before each tick the target set staged last is applied. */
    method Run(rounds: seq<Round>)
      requires pending == None
      modifies this
      ensures pending == None && State() == Steps(out, old(State()), StepsOf(old(watch), rounds))
      ensures old(State()) == Start() ==> Synced(State()) && Chained(log)
    {
      for i := 0 to |rounds|
        invariant pending == None
        invariant Steps(out, State(), StepsOf(watch, rounds[i..]))
               == Steps(out, old(State()), StepsOf(old(watch), rounds))
      {
        assert rounds[i..][0] == rounds[i] && rounds[i..][1..] == rounds[i + 1..];
        StepsConcat(out, State(), RoundSteps(watch, rounds[i]),
                    StepsOf(Last(watch, rounds[i].staged), rounds[i + 1..]));
        DoRound(rounds[i]);
      }
      ChangeChain(out, StepsOf(old(watch), rounds));
    }

    method DoRound(round: Round)
      requires pending == None
      modifies this
      ensures pending == None && watch == Last(old(watch), round.staged)
      ensures State() == Steps(out, old(State()), RoundSteps(old(watch), round))
    {
      RoundMeaning(out, State(), watch, round);
      if round.staged != [] {
        OneStep(out, State(), Reloaded(RemovedKeys(watch, Last(watch, round.staged))));
      }
      for i := 0 to |round.staged|
        invariant pending == if i == 0 then None else Some(round.staged[i - 1])
        invariant watch == old(watch) && State() == old(State())
      {
        QueueReload(round.staged[i]);
      }
      ApplyPendingReload();
      var ok := SampleAll(round.results);
    }
  }
}
