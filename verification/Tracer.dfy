/** The trace selection as the program keeps it: one cached choice, updated in place. */
module Tracer {
  import opened B = TraceBackend

  class Tracer {
    var backend: Backend
    ghost var calls: seq<Call>
    const node: Node
    var asked: nat

    constructor (node: Node)
      ensures this.node == node && Valid() && Abs() == State(Unknown, [])
    {
      this.node := node;
      backend, calls, asked := Unknown, [], 0;
    }

    ghost predicate Valid()
      reads this
    {
      asked == |calls|
    }

    ghost function Abs(): State
      reads this
    {
      State(backend, calls)
    }

    method Fetch(b: Backend) returns (o: Outcome)
      requires Valid()
      modifies this`calls, this`asked
      ensures Valid() && (Abs(), o) == B.Fetch(node, old(Abs()), b)
    {
      o := node.outcome(asked);
      asked, calls := asked + 1, calls + [Call(b, o)];
    }

    method Select(hasTxs: bool) returns (o: Outcome)
      requires Valid()
      modifies this
      ensures Valid() && (Abs(), o) == B.Select(node, old(Abs()), hasTxs)
    {
      var candidates := [BlockLevel, Parity];
      if hasTxs {
        candidates := candidates + [PerTx];
      }
      assert candidates == Candidates(hasTxs);
      for i := 0 to |candidates|
        invariant Valid() && backend == old(backend)
        invariant B.Probe(node, old(Abs()), candidates) == B.Probe(node, Abs(), candidates[i..])
      {
        assert candidates[i..][1..] == candidates[i + 1..];
        o := Fetch(candidates[i]);
        if o == Served {
          backend := candidates[i];
          return;
        }
        if o != Unsupported {
          return;
        }
      }
      if hasTxs {
        backend := Disabled;
      }
      return Served;
    }

    method FetchTraces(hasTxs: bool) returns (o: Outcome)
      requires Valid()
      modifies this
      ensures Valid() && (Abs(), o) == B.FetchTraces(node, old(Abs()), hasTxs)
    {
      if Cached(backend) {
        o := Fetch(backend);
      } else {
        o := Select(hasTxs);
      }
    }

    static predicate SameEnd(a: Traced, b: Traced) {
      a.s == b.s && a.done == b.done
    }

    /** What is left of the block after one round with outcome `o`, if it goes on. */
    static lemma RoundGoesOn(node: Node, s: State, hasTxs: bool, attempt: nat, t: State, o: Outcome)
      requires (t, o) == B.FetchTraces(node, s, hasTxs) && o != Served && o != Cancelled
      requires (Cached(t.backend) && o == Unsupported) || (attempt < MAX_TRACE_ATTEMPTS && node.wakes(|t.calls|))
      ensures Cached(t.backend) ==> Cached(s.backend)
      ensures Cached(s.backend) ==> t.backend == s.backend
      ensures var next := if Cached(t.backend) && o == Unsupported then t.(backend := Unknown) else t;
              SameEnd(B.TraceBlock(node, s, hasTxs, attempt), B.TraceBlock(node, next, hasTxs, attempt + 1))
    {
      FetchBackend(node, s, hasTxs);
    }

    static lemma RoundEnds(node: Node, s: State, hasTxs: bool, attempt: nat, t: State, o: Outcome, done: Outcome)
      requires (t, o) == B.FetchTraces(node, s, hasTxs)
      requires if o == Served || o == Cancelled then done == o
               else !(Cached(t.backend) && o == Unsupported)
                    && if attempt >= MAX_TRACE_ATTEMPTS then done == Transient
                        else !node.wakes(|t.calls|) && done == Cancelled
      ensures SameEnd(B.TraceBlock(node, s, hasTxs, attempt), Traced(t, done, 0, 0))
    {
    }

    /** Retries one block's traces a bounded number of times. */
    method TraceBlockInternal(hasTxs: bool) returns (done: Outcome)
      requires Valid()
      modifies this
      ensures Valid()
      ensures var r := B.TraceBlock(node, old(Abs()), hasTxs, 1); Abs() == r.s && done == r.done
    {
      var attempt := 1;
      ghost var traced := B.TraceBlock(node, Abs(), hasTxs, 1);
      while true
        invariant Valid()
        invariant SameEnd(traced, B.TraceBlock(node, Abs(), hasTxs, attempt))
        decreases Cached(backend), if attempt > MAX_TRACE_ATTEMPTS then 0 else MAX_TRACE_ATTEMPTS - attempt
      {
        ghost var s := Abs();
        done := FetchTraces(hasTxs);
        ghost var t := Abs();
        if done == Served || done == Cancelled {
          RoundEnds(node, s, hasTxs, attempt, t, done, done);
          return;
        }
        if Cached(backend) && done == Unsupported {
          RoundGoesOn(node, s, hasTxs, attempt, t, done);
          backend := Unknown;
          attempt := attempt + 1;
          continue;
        }
        if attempt >= MAX_TRACE_ATTEMPTS {
          RoundEnds(node, s, hasTxs, attempt, t, done, Transient);
          return Transient;
        }
        if !node.wakes(asked) {
          RoundEnds(node, s, hasTxs, attempt, t, done, Cancelled);
          return Cancelled;
        }
        RoundGoesOn(node, s, hasTxs, attempt, t, done);
        attempt := attempt + 1;
      }
    }

    method EmitInternalTransfers(hasTxs: bool)
      requires Valid()
      modifies this
      ensures Valid() && Abs() == B.EmitInternal(node, old(Abs()), hasTxs)
    {
      if backend != Disabled {
        var _ := TraceBlockInternal(hasTxs);
      }
    }
  }
}
