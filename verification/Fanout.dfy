/**
 * The fan-out writer as interleaved steps: consumers join, die and receive, one producer writes,
 * and shutdown may come at any point. Every critical section of the program is one step.
 */
module Fanout {
  import opened Lines

  /** One connection: how many writes had begun when it joined, and what it fully accepted since. */
  datatype Consumer = Consumer(joined: nat, first: nat, got: seq<Rec>)
  {
    function End(): nat {
      first + |got|
    }

    predicate Took(i: nat) {
      got != [] && first <= i < End()
    }
  }

  /** Where the producer's Write call is: not running, about to take a snapshot, or in a round. */
  datatype Phase = Idle | Waiting | Writing(todo: set<nat>, dead: set<nat>, delivered: nat)

  /** `sent` holds the record of every Write so far, `results` whether each finished call succeeded. */
  datatype Fan = Fan(
    blockUntil: bool, closed: bool, conns: set<nat>, consumers: map<nat, Consumer>,
    sent: seq<Rec>, results: seq<bool>, phase: Phase)

  datatype Event =
    | Accept(c: nat)              // a new connection reaches the accept loop
    | Begin(r: Rec)               // the producer calls Write
    | Round                       // Write takes the lock and its snapshot, or reports the close
    | Deliver(c: nat, ok: bool)   // Write writes the record to one connection of the snapshot
    | Finish                      // Write drops the dead, then returns or retries
    | Shutdown

  function Init(blockUntil: bool): Fan {
    Fan(blockUntil, false, {}, map[], [], [], Idle)
  }

  /** One step; an event that cannot happen in `s` changes nothing. */
  function Next(s: Fan, e: Event): Fan {
    match e
    case Accept(c) => if c in s.consumers || s.closed then s else Accepted(s, c)
    case Begin(r) => if s.phase.Idle? then s.(sent := s.sent + [r], phase := Waiting) else s
    case Round =>
      if !s.phase.Waiting? then s
      else if s.closed then s.(results := s.results + [false], phase := Idle)
      else if s.conns == {} && s.blockUntil then s
      else s.(phase := Writing(s.conns, {}, 0))
    case Deliver(c, ok) => if s.phase.Writing? && c in s.phase.todo then Delivered(s, c, ok) else s
    case Finish => if s.phase.Writing? && s.phase.todo == {} then Finished(s) else s
    case Shutdown => s.(closed := true, conns := {})
  }

  function Accepted(s: Fan, c: nat): Fan {
    s.(conns := s.conns + {c}, consumers := s.consumers[c := Consumer(|s.sent|, 0, [])])
  }

  /** A connection that was closed meanwhile refuses the record. */
  function Delivered(s: Fan, c: nat, ok: bool): Fan
    requires s.phase.Writing?
  {
    if ok && c in s.conns && c in s.consumers && s.sent != [] then
      s.(consumers := s.consumers[c := Received(s.consumers[c], s.sent)],
         phase := Writing(s.phase.todo - {c}, s.phase.dead, s.phase.delivered + 1))
    else
      s.(phase := Writing(s.phase.todo - {c}, s.phase.dead + {c}, s.phase.delivered))
  }

  function Received(k: Consumer, sent: seq<Rec>): Consumer
    requires sent != []
  {
    k.(first := if k.got == [] then |sent| - 1 else k.first, got := k.got + [sent[|sent| - 1]])
  }

  function Finished(s: Fan): Fan
    requires s.phase.Writing?
  {
    if s.phase.delivered == 0 && s.blockUntil
    then s.(conns := s.conns - s.phase.dead, phase := Waiting)
    else s.(conns := s.conns - s.phase.dead, results := s.results + [true], phase := Idle)
  }

  function Run(s: Fan, es: seq<Event>): Fan
    decreases |es|
  {
    if es == [] then s else Run(Next(s, es[0]), es[1..])
  }

  // ---- The invariant ----

  /** The connection is open and has not failed in the current round. */
  ghost predicate Alive(s: Fan, c: nat) {
    c in s.conns && !(s.phase.Writing? && c in s.phase.dead)
  }

  /** The record in flight is still to be offered to this connection. */
  ghost predicate Owed(s: Fan, c: nat) {
    s.phase.Waiting? || (s.phase.Writing? && c in s.phase.todo)
  }

  /**
   * What a consumer got is a stretch of the producer's records that starts with the first one
   * offered after it joined and, while it lives, reaches up to the record it is owed.
   */
  ghost predicate ConsumerOk(k: Consumer, sent: seq<Rec>, alive: bool, owed: bool) {
    var upTo := if owed then |sent| - 1 else |sent|;
    && k.joined <= |sent|
    && (k.got != [] ==> k.joined - 1 <= k.first <= k.joined && k.End() <= |sent| && k.got == sent[k.first..k.End()])
    && (alive ==> if k.got != [] then k.End() == upTo else k.joined >= upTo)
  }

  ghost predicate Consumers(s: Fan) {
    forall c :: c in s.consumers ==> ConsumerOk(s.consumers[c], s.sent, Alive(s, c), Owed(s, c))
  }

  ghost predicate Shape(s: Fan) {
    && s.conns <= s.consumers.Keys
    && (s.closed ==> s.conns == {})
    && |s.sent| == |s.results| + (if s.phase.Idle? then 0 else 1)
    && (s.phase.Writing? ==> s.phase.todo !! s.phase.dead)
  }

  ghost predicate SomeTook(s: Fan, i: nat) {
    exists c :: c in s.consumers && s.consumers[c].Took(i)
  }

  ghost predicate Outcomes(s: Fan) {
    && (forall i :: 0 <= i < |s.results| && s.results[i] && s.blockUntil ==> SomeTook(s, i))
    && (forall i :: 0 <= i < |s.results| && !s.results[i] ==> s.closed && !SomeTook(s, i))
    && (s.phase.Waiting? ==> !SomeTook(s, |s.results|))
    && (s.phase.Writing? ==> (s.phase.delivered > 0 <==> SomeTook(s, |s.results|)))
  }

  ghost predicate Inv(s: Fan) {
    Shape(s) && Consumers(s) && Outcomes(s)
  }

  lemma ReceivedOk(k: Consumer, sent: seq<Rec>)
    requires sent != [] && ConsumerOk(k, sent, true, true)
    ensures ConsumerOk(Received(k, sent), sent, true, false)
    ensures forall i: nat :: Received(k, sent).Took(i) <==> k.Took(i) || i == |sent| - 1
  {
    var r := Received(k, sent);
    if k.got != [] {
      assert sent[k.first..|sent|] == sent[k.first..|sent| - 1] + [sent[|sent| - 1]];
    } else {
      assert sent[|sent| - 1..|sent|] == [sent[|sent| - 1]];
      assert r.got == [sent[|sent| - 1]];
    }
  }

  lemma BeginOk(k: Consumer, sent: seq<Rec>, alive: bool, r: Rec)
    requires ConsumerOk(k, sent, alive, false)
    ensures ConsumerOk(k, sent + [r], alive, true)
  {
    if k.got != [] {
      assert (sent + [r])[k.first..k.End()] == sent[k.first..k.End()];
    }
  }

  /** Which records were taken depends only on the consumers' stretches. */
  lemma TookPreserved(s: Fan, t: Fan, i: nat)
    requires s.consumers.Keys <= t.consumers.Keys
    requires forall c :: c in s.consumers ==> (s.consumers[c].Took(i) <==> t.consumers[c].Took(i))
    requires forall c :: c in t.consumers && c !in s.consumers ==> !t.consumers[c].Took(i)
    ensures SomeTook(s, i) <==> SomeTook(t, i)
  {
    if SomeTook(s, i) {
      var c :| c in s.consumers && s.consumers[c].Took(i);
      assert t.consumers[c].Took(i);
    }
  }

  lemma DeliverKeeps(s: Fan, c: nat, ok: bool)
    requires Inv(s) && s.phase.Writing? && c in s.phase.todo
    ensures Inv(Delivered(s, c, ok))
  {
    var t := Delivered(s, c, ok);
    if ok && c in s.conns {
      ReceivedOk(s.consumers[c], s.sent);
      forall d | d in t.consumers ensures ConsumerOk(t.consumers[d], t.sent, Alive(t, d), Owed(t, d)) {
        assert d != c ==> t.consumers[d] == s.consumers[d];
      }
      assert t.consumers[c].Took(|s.results|);
      forall i | 0 <= i < |s.results| ensures SomeTook(s, i) <==> SomeTook(t, i) {
        TookPreserved(s, t, i);
      }
    } else {
      assert forall i: nat :: SomeTook(s, i) <==> SomeTook(t, i);
    }
  }

  lemma FinishKeeps(s: Fan)
    requires Inv(s) && s.phase.Writing? && s.phase.todo == {}
    ensures Inv(Finished(s))
  {
    var t := Finished(s);
    assert forall i: nat :: SomeTook(s, i) <==> SomeTook(t, i);
    if t.phase.Waiting? {
      forall d | d in t.consumers ensures ConsumerOk(t.consumers[d], t.sent, Alive(t, d), true) {
        assert !s.consumers[d].Took(|s.results|);
      }
    }
  }

  lemma AcceptKeeps(s: Fan, c: nat)
    requires Inv(s) && c !in s.consumers && !s.closed
    ensures Inv(Accepted(s, c))
  {
    var t := Accepted(s, c);
    forall i: nat ensures SomeTook(s, i) <==> SomeTook(t, i) {
      TookPreserved(s, t, i);
    }
  }

  lemma BeginKeeps(s: Fan, r: Rec)
    requires Inv(s) && s.phase.Idle?
    ensures Inv(s.(sent := s.sent + [r], phase := Waiting))
  {
    var t := s.(sent := s.sent + [r], phase := Waiting);
    forall d | d in t.consumers ensures ConsumerOk(t.consumers[d], t.sent, Alive(t, d), true) {
      BeginOk(s.consumers[d], s.sent, Alive(s, d), r);
    }
    assert forall i: nat :: SomeTook(s, i) <==> SomeTook(t, i);
  }

  lemma NextKeeps(s: Fan, e: Event)
    requires Inv(s)
    ensures Inv(Next(s, e))
  {
    match e
    case Accept(c) => if c !in s.consumers && !s.closed { AcceptKeeps(s, c); }
    case Begin(r) => if s.phase.Idle? { BeginKeeps(s, r); }
    case Round => RoundKeeps(s);
    case Deliver(c, ok) => if s.phase.Writing? && c in s.phase.todo { DeliverKeeps(s, c, ok); }
    case Finish => if s.phase.Writing? && s.phase.todo == {} { FinishKeeps(s); }
    case Shutdown => assert forall i: nat :: SomeTook(s, i) <==> SomeTook(Next(s, e), i);
  }

  lemma RoundKeeps(s: Fan)
    requires Inv(s)
    ensures Inv(Next(s, Round))
  {
    var t := Next(s, Round);
    assert forall i: nat :: SomeTook(s, i) <==> SomeTook(t, i);
  }

  lemma {:induction false} RunKeeps(s: Fan, es: seq<Event>)
    requires Inv(s)
    ensures Inv(Run(s, es))
    decreases |es|
  {
    if es != [] {
      NextKeeps(s, es[0]);
      RunKeeps(Next(s, es[0]), es[1..]);
    }
  }

  // ---- The promises ----

  /**
   * Over every interleaving, what one consumer fully accepted is a contiguous stretch of the
   * producer's records, starting with the first one offered after it joined.
   */
  lemma ContiguousDelivery(blockUntil: bool, es: seq<Event>, c: nat)
    requires c in Run(Init(blockUntil), es).consumers
    ensures var s := Run(Init(blockUntil), es);
            var k := s.consumers[c];
            k.got != [] ==> k.joined - 1 <= k.first <= k.joined && k.End() <= |s.sent|
                            && k.got == s.sent[k.first..k.End()]
  {
    RunKeeps(Init(blockUntil), es);
  }

  /** The consumer has every record since it joined: `got` is the end of what was sent, or nothing was sent since. */
  predicate UpToDate(k: Consumer, sent: seq<Rec>) {
    if k.got == [] then k.joined == |sent| else k.first <= k.End() == |sent| && k.got == sent[k.first..k.End()]
  }

  /** A connection that is still open between two writes has received everything since it joined. */
  lemma NoGapWhileOpen(blockUntil: bool, es: seq<Event>, c: nat)
    ensures var s := Run(Init(blockUntil), es);
            s.phase.Idle? && c in s.conns && c in s.consumers ==> UpToDate(s.consumers[c], s.sent)
  {
    RunKeeps(Init(blockUntil), es);
  }

  /**
   * A Write that returned an error met a writer that was shut down and was accepted by nobody;
   * with block-until-consumer a Write that succeeded was accepted by somebody.
   */
  lemma WriteOutcome(blockUntil: bool, es: seq<Event>, i: nat)
    requires i < |Run(Init(blockUntil), es).results|
    ensures var s := Run(Init(blockUntil), es);
            && (!s.results[i] ==> s.closed && !SomeTook(s, i))
            && (blockUntil ==> (s.results[i] <==> SomeTook(s, i)))
  {
    RunKeeps(Init(blockUntil), es);
    RunSetting(Init(blockUntil), es);
  }

  lemma {:induction false} RunSetting(s: Fan, es: seq<Event>)
    ensures Run(s, es).blockUntil == s.blockUntil
    decreases |es|
  {
    if es != [] {
      RunSetting(Next(s, es[0]), es[1..]);
    }
  }

  // ---- One connection after another ----

  /** Only known connections are to be offered the record. */
  ghost predicate Known(s: Fan) {
    s.phase.Writing? ==> s.phase.todo <= s.consumers.Keys
  }

  /** Record `i` was taken, and `c` neither has it nor is to be offered it. */
  ghost predicate Past(s: Fan, c: nat, i: nat) {
    && i < |s.sent| && SomeTook(s, i)
    && (s.phase.Writing? && |s.sent| == i + 1 ==> c !in s.phase.todo)
    && (c in s.consumers && s.consumers[c].got != [] ==> i < s.consumers[c].first)
  }

  lemma NextTook(s: Fan, e: Event, i: nat)
    requires SomeTook(s, i)
    ensures SomeTook(Next(s, e), i)
  {
    var c :| c in s.consumers && s.consumers[c].Took(i);
    assert Next(s, e).consumers[c].Took(i);
  }

  lemma NextKeepsPast(s: Fan, e: Event, c: nat, i: nat)
    requires Inv(s) && Known(s) && Past(s, c, i)
    ensures Known(Next(s, e)) && Past(Next(s, e), c, i)
  {
    NextTook(s, e, i);
  }

  lemma {:induction false} RunKeepsPast(s: Fan, es: seq<Event>, c: nat, i: nat)
    requires Inv(s) && Known(s) && Past(s, c, i)
    ensures Past(Run(s, es), c, i)
    decreases |es|
  {
    if es != [] {
      NextKeeps(s, es[0]);
      NextKeepsPast(s, es[0], c, i);
      RunKeepsPast(Next(s, es[0]), es[1..], c, i);
    }
  }

  lemma NextKeepsKnown(s: Fan, e: Event)
    requires Inv(s) && Known(s)
    ensures Known(Next(s, e))
  {
  }

  lemma {:induction false} RunKeepsKnown(s: Fan, es: seq<Event>)
    requires Inv(s) && Known(s)
    ensures Known(Run(s, es))
    decreases |es|
  {
    if es != [] {
      NextKeeps(s, es[0]);
      NextKeepsKnown(s, es[0]);
      RunKeepsKnown(Next(s, es[0]), es[1..]);
    }
  }

  /**
   * A connection made after another took record `i` starts later than `i`: what a sink reads over
   * one connection after another never repeats a record nor goes back.
   */
  lemma LaterConnectionLater(blockUntil: bool, es: seq<Event>, more: seq<Event>, b: nat, c: nat, i: nat)
    requires var s := Run(Init(blockUntil), es);
             b in s.consumers && s.consumers[b].Took(i) && c !in s.consumers
    ensures var t := Run(Run(Init(blockUntil), es), more);
            c in t.consumers && t.consumers[c].got != [] ==> i < t.consumers[c].first
  {
    var s := Run(Init(blockUntil), es);
    RunKeeps(Init(blockUntil), es);
    RunKeepsKnown(Init(blockUntil), es);
    RunKeepsPast(s, more, c, i);
  }
}
