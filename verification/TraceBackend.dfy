/** Which trace method a node serves: probed once, cached, re-probed when it stops being served. */
module TraceBackend {

  datatype Backend = Unknown | BlockLevel | Parity | PerTx | Disabled

  /** The outcome of one backend's fetch of one block. */
  datatype Outcome = Served | Unsupported | Transient | Cancelled

  /** The outcome of each fetch in order, and whether the backoff after that many fetches runs to its end. */
  datatype Node = Node(outcome: nat -> Outcome, wakes: nat -> bool)

  datatype Call = Call(backend: Backend, outcome: Outcome)

  datatype State = State(backend: Backend, calls: seq<Call>)

  const MAX_TRACE_ATTEMPTS: nat := 4

  predicate Cached(b: Backend) {
    b != Unknown && b != Disabled
  }

  function Fetch(node: Node, s: State, b: Backend): (State, Outcome) {
    var o := node.outcome(|s.calls|);
    (s.(calls := s.calls + [Call(b, o)]), o)
  }

  /** Tries the methods in order until one is served or fails otherwise than by being unsupported. */
  function Probe(node: Node, s: State, candidates: seq<Backend>): (State, Outcome)
    decreases candidates
  {
    if candidates == [] then (s, Unsupported)
    else
      var (t, o) := Fetch(node, s, candidates[0]);
      if o == Served then (t.(backend := candidates[0]), Served)
      else if o != Unsupported then (t, o)
      else Probe(node, t, candidates[1..])
  }

  /** The per-transaction method is tried only on a block with transactions. */
  function Candidates(hasTxs: bool): seq<Backend> {
    if hasTxs then [BlockLevel, Parity, PerTx] else [BlockLevel, Parity]
  }

  /** When every method is unsupported the block counts as traced; one with transactions disables tracing. */
  function Select(node: Node, s: State, hasTxs: bool): (State, Outcome) {
    var (t, o) := Probe(node, s, Candidates(hasTxs));
    if o != Unsupported then (t, o)
    else (if hasTxs then t.(backend := Disabled) else t, Served)
  }

  function FetchTraces(node: Node, s: State, hasTxs: bool): (State, Outcome) {
    if Cached(s.backend) then Fetch(node, s, s.backend) else Select(node, s, hasTxs)
  }

  /** How tracing one block ends, and how many rounds and re-selections it took. */
  datatype Traced = Traced(s: State, done: Outcome, rounds: nat, resets: nat)

  function TraceBlock(node: Node, s: State, hasTxs: bool, attempt: nat): Traced
    decreases Cached(s.backend), if attempt > MAX_TRACE_ATTEMPTS then 0 else MAX_TRACE_ATTEMPTS - attempt
  {
    FetchBackend(node, s, hasTxs);
    var (t, o) := FetchTraces(node, s, hasTxs);
    if o == Served || o == Cancelled then Traced(t, o, 1, 0)
    else if Cached(t.backend) && o == Unsupported then
      var r := TraceBlock(node, t.(backend := Unknown), hasTxs, attempt + 1);
      r.(rounds := r.rounds + 1, resets := r.resets + 1)
    else if attempt >= MAX_TRACE_ATTEMPTS then Traced(t, Transient, 1, 0)
    else if !node.wakes(|t.calls|) then Traced(t, Cancelled, 1, 0)
    else
      var r := TraceBlock(node, t, hasTxs, attempt + 1);
      r.(rounds := r.rounds + 1)
  }

  /** Tracing of one block as part of a run: nothing once disabled. */
  function EmitInternal(node: Node, s: State, hasTxs: bool): State {
    if s.backend == Disabled then s else TraceBlock(node, s, hasTxs, 1).s
  }

  /** A run over blocks, each with or without transactions. */
  function TraceAll(node: Node, s: State, blocks: seq<bool>): State
    decreases |blocks|
  {
    if blocks == [] then s else TraceAll(node, EmitInternal(node, s, blocks[0]), blocks[1..])
  }

  // ---- Bounds and the meaning of disabled ----

  /** A probe that serves caches a candidate; any other leaves the choice alone. */
  lemma {:induction false} ProbeBackend(node: Node, s: State, candidates: seq<Backend>)
    requires forall b :: b in candidates ==> Cached(b)
    ensures var (t, o) := Probe(node, s, candidates);
            if o == Served then Cached(t.backend) else t.backend == s.backend
    decreases candidates
  {
    if candidates != [] {
      var (t, o) := Fetch(node, s, candidates[0]);
      if o == Unsupported {
        ProbeBackend(node, t, candidates[1..]);
      }
    }
  }

  function Answer(node: Node, n: nat, i: nat): Outcome {
    node.outcome(n + i)
  }

  /** The first `k` candidates, each with what the node answers when it is asked after `n` calls. */
  function Asked(node: Node, n: nat, candidates: seq<Backend>, k: nat): seq<Call>
    requires k <= |candidates|
  {
    seq(k, i requires 0 <= i < k => Call(candidates[i], Answer(node, n, i)))
  }

  /**
   * What a probe that asked `k` candidates did: it asked them in order, all but the last were
   * unsupported, it caches the last if that served, and it gives up only when none is left.
   */
  ghost predicate Probed(node: Node, s: State, candidates: seq<Backend>, k: nat, t: State, o: Outcome) {
    && k <= |candidates| && t.calls == s.calls + Asked(node, |s.calls|, candidates, k)
    && (forall i :: 0 <= i < k - 1 ==> Answer(node, |s.calls|, i) == Unsupported)
    && (if k > 0 then o == Answer(node, |s.calls|, k - 1) else o == Unsupported)
    && (o == Unsupported ==> k == |candidates|)
    && t.backend == (if o == Served then candidates[k - 1] else s.backend)
  }

  lemma {:induction false} ProbeMeaning(node: Node, s: State, candidates: seq<Backend>) returns (k: nat)
    ensures Probed(node, s, candidates, k, Probe(node, s, candidates).0, Probe(node, s, candidates).1)
    decreases candidates
  {
    if candidates == [] {
      k := 0;
    } else {
      var (t, o) := Fetch(node, s, candidates[0]);
      if o == Unsupported {
        var r := Probe(node, t, candidates[1..]);
        k := ProbeMeaning(node, t, candidates[1..]);
        ProbedCons(node, s, candidates, t, k, r.0, r.1);
        k := k + 1;
      } else {
        k := 1;
        assert s.calls + [Call(candidates[0], o)] == s.calls + Asked(node, |s.calls|, candidates, 1);
      }
    }
  }

  lemma ProbedCons(node: Node, s: State, candidates: seq<Backend>, mid: State, k: nat, t: State, o: Outcome)
    requires candidates != [] && Fetch(node, s, candidates[0]) == (mid, Unsupported)
    requires Probed(node, mid, candidates[1..], k, t, o)
    ensures Probed(node, s, candidates, k + 1, t, o)
  {
    var n := |s.calls|;
    forall i: nat ensures i > 0 ==> Answer(node, n, i) == Answer(node, n + 1, i - 1) {
    }
    assert Asked(node, n, candidates, k + 1)
        == [Call(candidates[0], Answer(node, n, 0))] + Asked(node, n + 1, candidates[1..], k);
  }

  /** A cached method is the one that is asked, once, and what it answers is the outcome. */
  lemma CachedIsAsked(node: Node, s: State, hasTxs: bool)
    requires Cached(s.backend)
    ensures var (t, o) := FetchTraces(node, s, hasTxs);
            t == s.(calls := s.calls + [Call(s.backend, o)]) && o == node.outcome(|s.calls|)
  {
  }

  /**
   * A selection probes block-level, flat and, on a block with transactions, per-transaction tracing,
   * in this order; if all are unsupported the block counts as traced, and tracing ends if it had any.
   */
  lemma SelectMeaning(node: Node, s: State, hasTxs: bool) returns (k: nat, u: State, a: Outcome)
    requires !Cached(s.backend)
    ensures Probed(node, s, if hasTxs then [BlockLevel, Parity, PerTx] else [BlockLevel, Parity], k, u, a)
    ensures FetchTraces(node, s, hasTxs)
         == if a != Unsupported then (u, a) else (if hasTxs then u.(backend := Disabled) else u, Served)
  {
    var r := Probe(node, s, Candidates(hasTxs));
    u, a := r.0, r.1;
    k := ProbeMeaning(node, s, Candidates(hasTxs));
  }

  /** A cached method has served. */
  ghost predicate Earned(s: State) {
    Cached(s.backend) ==> Call(s.backend, Served) in s.calls
  }

  lemma FetchEarned(node: Node, s: State, hasTxs: bool)
    requires Earned(s)
    ensures Earned(FetchTraces(node, s, hasTxs).0)
  {
    if !Cached(s.backend) {
      var candidates := Candidates(hasTxs);
      var (u, a) := Probe(node, s, candidates);
      var k := ProbeMeaning(node, s, candidates);
      if a == Served {
        assert u.calls[|s.calls| + k - 1] == Call(u.backend, Served);
      }
    }
  }

  lemma {:induction false} TraceBlockEarned(node: Node, s: State, hasTxs: bool, attempt: nat)
    requires Earned(s)
    ensures Earned(TraceBlock(node, s, hasTxs, attempt).s)
    decreases Cached(s.backend), if attempt > MAX_TRACE_ATTEMPTS then 0 else MAX_TRACE_ATTEMPTS - attempt
  {
    var (t, o) := FetchTraces(node, s, hasTxs);
    FetchEarned(node, s, hasTxs);
    FetchBackend(node, s, hasTxs);
    if o == Unsupported || o == Transient {
      if Cached(t.backend) && o == Unsupported {
        TraceBlockEarned(node, t.(backend := Unknown), hasTxs, attempt + 1);
      } else if attempt < MAX_TRACE_ATTEMPTS {
        TraceBlockEarned(node, t, hasTxs, attempt + 1);
      }
    }
  }

  /** Over any blocks, the cached method is one that has served. */
  lemma {:induction false} RunEarned(node: Node, s: State, blocks: seq<bool>)
    requires Earned(s)
    ensures Earned(TraceAll(node, s, blocks))
    decreases |blocks|
  {
    if blocks != [] {
      TraceBlockEarned(node, s, blocks[0], 1);
      RunEarned(node, EmitInternal(node, s, blocks[0]), blocks[1..]);
    }
  }

  lemma FetchBackend(node: Node, s: State, hasTxs: bool)
    ensures var (t, o) := FetchTraces(node, s, hasTxs);
            && (Cached(s.backend) ==> t.backend == s.backend)
            && (Cached(t.backend) && o != Served ==> Cached(s.backend))
            && (t.backend == Disabled && s.backend != Disabled ==> o == Served)
  {
    ProbeBackend(node, s, Candidates(hasTxs));
  }

  /** From attempt `attempt` on: the remaining attempts, plus one if a cached choice can still be dropped. */
  lemma {:induction false} TraceBlockBounds(node: Node, s: State, hasTxs: bool, attempt: nat)
    ensures var r := TraceBlock(node, s, hasTxs, attempt);
            && r.rounds <= (if attempt >= MAX_TRACE_ATTEMPTS then 1 else MAX_TRACE_ATTEMPTS + 1 - attempt)
                           + (if Cached(s.backend) then 1 else 0)
            && r.resets <= (if Cached(s.backend) then 1 else 0)
    decreases Cached(s.backend), if attempt > MAX_TRACE_ATTEMPTS then 0 else MAX_TRACE_ATTEMPTS - attempt
  {
    var (t, o) := FetchTraces(node, s, hasTxs);
    FetchBackend(node, s, hasTxs);
    if o == Unsupported || o == Transient {
      if Cached(t.backend) && o == Unsupported {
        TraceBlockBounds(node, t.(backend := Unknown), hasTxs, attempt + 1);
      } else if attempt < MAX_TRACE_ATTEMPTS {
        TraceBlockBounds(node, t, hasTxs, attempt + 1);
      }
    }
  }

  /** One block takes at most one round more than the allowed attempts, and re-selects at most once. */
  lemma OneBlockBounds(node: Node, s: State, hasTxs: bool)
    ensures TraceBlock(node, s, hasTxs, 1).rounds <= MAX_TRACE_ATTEMPTS + 1
    ensures TraceBlock(node, s, hasTxs, 1).resets <= 1
  {
    TraceBlockBounds(node, s, hasTxs, 1);
  }

  /**
   * How tracing a block ends: served, or given up after all attempts, or cancelled by the node or
   * in a backoff. From attempt `attempt` on, giving up takes no fewer rounds than are left.
   */
  lemma {:induction false} TraceBlockEnds(node: Node, s: State, hasTxs: bool, attempt: nat)
    ensures var r := TraceBlock(node, s, hasTxs, attempt);
            && r.done in {Served, Transient, Cancelled}
            && (r.done == Transient && attempt <= MAX_TRACE_ATTEMPTS ==> r.rounds >= MAX_TRACE_ATTEMPTS + 1 - attempt)
            && (r.done == Cancelled ==>
                  |r.s.calls| > 0 && (r.s.calls[|r.s.calls| - 1].outcome == Cancelled || !node.wakes(|r.s.calls|)))
            && (r.done != Served ==> |r.s.calls| > 0 && r.s.calls[|r.s.calls| - 1].outcome != Served)
    decreases Cached(s.backend), if attempt > MAX_TRACE_ATTEMPTS then 0 else MAX_TRACE_ATTEMPTS - attempt
  {
    var (t, o) := FetchTraces(node, s, hasTxs);
    FetchBackend(node, s, hasTxs);
    LastOutcome(node, s, hasTxs);
    if o == Unsupported || o == Transient {
      if Cached(t.backend) && o == Unsupported {
        TraceBlockEnds(node, t.(backend := Unknown), hasTxs, attempt + 1);
      } else if attempt < MAX_TRACE_ATTEMPTS {
        TraceBlockEnds(node, t, hasTxs, attempt + 1);
      }
    }
  }

  /** A fetch that did not serve asked something, and the last answer is its outcome. */
  lemma LastOutcome(node: Node, s: State, hasTxs: bool)
    ensures var (t, o) := FetchTraces(node, s, hasTxs);
            o != Served ==> |t.calls| > 0 && t.calls[|t.calls| - 1].outcome == o
  {
    if !Cached(s.backend) {
      var k := ProbeMeaning(node, s, Candidates(hasTxs));
    }
  }

  /** The last three calls are one cascade in which every method was rejected. */
  ghost predicate AllRejected(calls: seq<Call>) {
    var n := |calls|;
    && n >= 3
    && calls[n - 3] == Call(BlockLevel, Unsupported)
    && calls[n - 2] == Call(Parity, Unsupported)
    && calls[n - 1] == Call(PerTx, Unsupported)
  }

  /** The next three calls find their methods unsupported. */
  predicate NoneSupported(node: Node, n: nat) {
    node.outcome(n) == Unsupported && node.outcome(n + 1) == Unsupported && node.outcome(n + 2) == Unsupported
  }

  /** A probe of all three methods ends unsupported exactly when each in turn is. */
  lemma ProbeRejectsIff(node: Node, s: State)
    ensures var (t, o) := Probe(node, s, [BlockLevel, Parity, PerTx]);
            && (o == Unsupported <==> NoneSupported(node, |s.calls|))
            && (o == Unsupported ==> AllRejected(t.calls))
  {
    assert [BlockLevel, Parity, PerTx][1..] == [Parity, PerTx] && [Parity, PerTx][1..] == [PerTx] && [PerTx][1..] == [];
    var n := |s.calls|;
    var (s1, o1) := Fetch(node, s, BlockLevel);
    if o1 == Unsupported {
      var (s2, o2) := Fetch(node, s1, Parity);
      assert Probe(node, s, [BlockLevel, Parity, PerTx]) == Probe(node, s1, [Parity, PerTx]);
      if o2 == Unsupported {
        var (s3, o3) := Fetch(node, s2, PerTx);
        assert Probe(node, s1, [Parity, PerTx]) == Probe(node, s2, [PerTx]);
        assert o3 == Unsupported ==> Probe(node, s2, [PerTx]) == (s3, Unsupported);
      }
    }
  }

  /** A selection disables tracing exactly on a block with transactions when the node supports none of the methods. */
  lemma SelectDisablesIff(node: Node, s: State, hasTxs: bool)
    requires s.backend == Unknown
    ensures FetchTraces(node, s, hasTxs).0.backend == Disabled
       <==> hasTxs && NoneSupported(node, |s.calls|)
  {
    ProbeBackend(node, s, Candidates(hasTxs));
    ProbeRejectsIff(node, s);
  }

  lemma FetchDisables(node: Node, s: State, hasTxs: bool)
    requires s.backend != Disabled
    ensures var (t, o) := FetchTraces(node, s, hasTxs);
            t.backend == Disabled ==> o == Served && hasTxs && AllRejected(t.calls)
  {
    FetchBackend(node, s, hasTxs);
    if FetchTraces(node, s, hasTxs).0.backend == Disabled {
      ProbeBackend(node, s, Candidates(hasTxs));
      ProbeRejectsIff(node, s);
    }
  }

  /** Tracing ends disabled only after a full rejection on a block with transactions. */
  lemma {:induction false} DisabledMeansRejected(node: Node, s: State, hasTxs: bool, attempt: nat)
    requires s.backend != Disabled
    ensures var t := TraceBlock(node, s, hasTxs, attempt).s;
            t.backend == Disabled ==> hasTxs && AllRejected(t.calls)
    decreases Cached(s.backend), if attempt > MAX_TRACE_ATTEMPTS then 0 else MAX_TRACE_ATTEMPTS - attempt
  {
    var (t, o) := FetchTraces(node, s, hasTxs);
    FetchDisables(node, s, hasTxs);
    FetchBackend(node, s, hasTxs);
    if o == Unsupported || o == Transient {
      if Cached(t.backend) && o == Unsupported {
        DisabledMeansRejected(node, t.(backend := Unknown), hasTxs, attempt + 1);
      } else if attempt < MAX_TRACE_ATTEMPTS {
        DisabledMeansRejected(node, t, hasTxs, attempt + 1);
      }
    }
  }

  lemma {:induction false} StaysDisabled(node: Node, s: State, blocks: seq<bool>)
    requires s.backend == Disabled
    ensures TraceAll(node, s, blocks) == s
    decreases |blocks|
  {
    if blocks != [] {
      StaysDisabled(node, s, blocks[1..]);
    }
  }

  /**
   * Over a whole run: a node that ends disabled rejected all three methods in one cascade on a
   * block with transactions, and was asked nothing after that.
   */
  lemma {:induction false} RunDisabledMeansRejected(node: Node, s: State, blocks: seq<bool>)
    requires s.backend != Disabled
    ensures var t := TraceAll(node, s, blocks);
            t.backend == Disabled ==> true in blocks && AllRejected(t.calls)
    decreases |blocks|
  {
    if blocks != [] {
      var t := EmitInternal(node, s, blocks[0]);
      DisabledMeansRejected(node, s, blocks[0], 1);
      if t.backend == Disabled {
        StaysDisabled(node, t, blocks[1..]);
      } else {
        RunDisabledMeansRejected(node, t, blocks[1..]);
      }
    }
  }
}
