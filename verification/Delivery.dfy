/** What one Write of the fan-out writer does with each connection, and when it succeeds. */
module Delivery {
  import opened Fanout

  /** The consumer accepted the record in flight. */
  predicate TookLast(s: Fan, c: nat) {
    c in s.consumers && s.sent != [] && s.consumers[c].Took(|s.sent| - 1)
  }

  /**
   * Inside a round: whoever is still to be offered the record, or failed, does not have it; every
   * other open connection has it, unless it joined after the record was sent.
   */
  ghost predicate InRound(s: Fan) {
    s.phase.Writing? ==>
      && s.phase.todo + s.phase.dead <= s.consumers.Keys
      && (forall c :: c in s.phase.todo + s.phase.dead ==> !TookLast(s, c))
      && (forall c :: c in s.conns && c !in s.phase.todo + s.phase.dead && c in s.consumers
            ==> TookLast(s, c) || s.consumers[c].joined == |s.sent|)
  }

  lemma NextKeepsRound(s: Fan, e: Event)
    requires Fanout.Inv(s) && InRound(s)
    ensures InRound(Next(s, e))
  {
    match e
    case Round =>
      if s.phase.Waiting? {
        assert !SomeTook(s, |s.sent| - 1);
      }
    case _ =>
  }

  lemma {:induction false} RunKeepsRound(s: Fan, es: seq<Event>)
    requires Fanout.Inv(s) && InRound(s)
    ensures Fanout.Inv(Run(s, es)) && InRound(Run(s, es))
    decreases |es|
  {
    if es != [] {
      NextKeeps(s, es[0]);
      NextKeepsRound(s, es[0]);
      RunKeepsRound(Next(s, es[0]), es[1..]);
    }
  }

  /** A record offered to a connection is taken exactly if writing it succeeds and the connection is still open. */
  lemma TakesIff(blockUntil: bool, es: seq<Event>, c: nat, ok: bool)
    ensures var s := Run(Init(blockUntil), es);
            s.phase.Writing? && c in s.phase.todo ==> (TookLast(Next(s, Deliver(c, ok)), c) <==> ok && c in s.conns)
  {
    RunKeepsRound(Init(blockUntil), es);
  }

  /**
   * A round keeps the open connections that took the record and drops those that were there before
   * it was sent and did not take it; besides, only connections made since may stay.
   */
  lemma RoundKeepsTakers(blockUntil: bool, es: seq<Event>, c: nat)
    ensures var s := Run(Init(blockUntil), es);
            var t := Next(s, Finish);
            s.phase.Writing? && s.phase.todo == {} && c in s.conns ==>
              && c in s.consumers
              && (TookLast(s, c) ==> c in t.conns)
              && (!TookLast(s, c) && s.consumers[c].joined < |s.sent| ==> c !in t.conns)
  {
    RunKeepsRound(Init(blockUntil), es);
  }

  /** Nothing else closes a connection but a shutdown, which closes all of them. */
  lemma ClosedBy(s: Fan, e: Event)
    ensures !e.Shutdown? && !e.Finish? ==> s.conns <= Next(s, e).conns
    ensures e.Finish? ==> Next(s, e).conns <= s.conns
    ensures e.Shutdown? ==> Next(s, e).conns == {} && Next(s, e).closed
    ensures s.closed ==> Next(s, e).closed
  {
  }

  lemma {:induction false} StaysClosed(s: Fan, es: seq<Event>)
    ensures Run(s, es).closed <==> s.closed || Shutdown in es
    decreases |es|
  {
    if es != [] {
      StaysClosed(Next(s, es[0]), es[1..]);
      assert Shutdown in es <==> es[0] == Shutdown || Shutdown in es[1..];
    }
  }

  /** The writer is closed exactly if it was shut down. */
  lemma ClosedIff(blockUntil: bool, es: seq<Event>)
    ensures Run(Init(blockUntil), es).closed <==> Shutdown in es
  {
    StaysClosed(Init(blockUntil), es);
  }

  /** A new connection is open, and waits for the next record, unless the writer was shut down. */
  lemma AcceptOpens(blockUntil: bool, es: seq<Event>, c: nat)
    ensures var s := Run(Init(blockUntil), es);
            c !in s.consumers ==>
              if s.closed then Next(s, Accept(c)) == s
              else c in Next(s, Accept(c)).conns && Next(s, Accept(c)).consumers[c].got == []
  {
  }

  // ---- When a Write returns ----

  /** A Write that has its snapshot returns success, whatever happens next, if it returns at all. */
  lemma {:induction false} RoundSucceeds(s: Fan, es: seq<Event>)
    requires s.phase.Writing? && (s.blockUntil ==> s.phase.delivered > 0)
    requires |s.sent| == |s.results| + 1
    ensures var t := Run(s, es);
            s.results <= t.results && (|t.results| > |s.results| ==> t.results[|s.results|])
    decreases |es|
  {
    if es != [] {
      var t := Next(s, es[0]);
      if t.phase.Writing? {
        RoundSucceeds(t, es[1..]);
      } else {
        ResultsGrow(t, es[1..]);
      }
    }
  }

  lemma {:induction false} ResultsGrow(s: Fan, es: seq<Event>)
    ensures s.results <= Run(s, es).results
    decreases |es|
  {
    if es != [] {
      ResultsGrow(Next(s, es[0]), es[1..]);
    }
  }

  /**
   * Without block-until-consumer, a Write that starts its round before shutdown succeeds, with or
   * without consumers, and whatever becomes of them.
   */
  lemma BestEffortSucceeds(es: seq<Event>, more: seq<Event>)
    requires var s := Run(Init(false), es); s.phase.Waiting? && !s.closed
    ensures var s := Run(Init(false), es);
            var t := Run(Next(s, Round), more);
            s.results <= t.results && (|t.results| > |s.results| ==> t.results[|s.results|])
  {
    RunKeeps(Init(false), es);
    RunSetting(Init(false), es);
    RoundSucceeds(Next(Run(Init(false), es), Round), more);
  }

  /** With no consumer at all the record is dropped and the Write succeeds at once. */
  lemma DroppedSucceeds(es: seq<Event>)
    requires var s := Run(Init(false), es); s.phase.Waiting? && !s.closed && s.conns == {}
    ensures var s := Run(Init(false), es);
            Next(Next(s, Round), Finish) == s.(results := s.results + [true], phase := Idle)
  {
    RunSetting(Init(false), es);
  }

  /** A Write that has not started its round fails exactly if the writer was shut down. */
  lemma FailsIff(blockUntil: bool, es: seq<Event>)
    requires Run(Init(blockUntil), es).phase.Waiting?
    ensures var s := Run(Init(blockUntil), es);
            if s.closed then Next(s, Round) == s.(results := s.results + [false], phase := Idle)
            else Next(s, Round).results == s.results && !Next(s, Round).phase.Idle?
  {
  }

  /** With block-until-consumer, a Write waits exactly while nobody is connected and nobody shuts it down. */
  lemma WaitsIff(es: seq<Event>)
    requires Run(Init(true), es).phase.Waiting?
    ensures var s := Run(Init(true), es);
            Next(s, Round) == s <==> s.conns == {} && !s.closed
  {
    RunSetting(Init(true), es);
  }

  /** A round that reached somebody ends the Write with success; one that reached nobody starts over. */
  lemma BlockedRetriesIff(es: seq<Event>)
    requires var s := Run(Init(true), es); s.phase.Writing? && s.phase.todo == {}
    ensures var s := Run(Init(true), es);
            var t := Next(s, Finish);
            if exists c :: TookLast(s, c) then t.phase.Idle? && t.results == s.results + [true]
            else t.phase.Waiting? && t.results == s.results
  {
    RunKeeps(Init(true), es);
    RunSetting(Init(true), es);
    var s := Run(Init(true), es);
    if SomeTook(s, |s.results|) {
      var c :| c in s.consumers && s.consumers[c].Took(|s.results|);
      assert TookLast(s, c);
    }
  }
}
