/** Chunked log queries: a range the provider refuses as too large is halved and asked again. */
module LogScan {

  /** A log the provider returns, and what decoding makes of it. */
  datatype Log = Log(id: int, verdict: Verdict)

  /** Emitted, skipped (removed, unknown or undecodable), or an error that ends the poll. */
  datatype Verdict = Emitted | Skipped | Malformed

  datatype Reply = Answer | RangeCap | Fault

  /** `logsAt` is the chain; `reply` is how the provider treats each range it may be asked for. */
  datatype Provider = Provider(logsAt: nat -> seq<Log>, reply: (nat, nat) -> Reply)

  /** What one query over the inclusive range would return if it were answered. */
  function LogsIn(logsAt: nat -> seq<Log>, lo: nat, hi: nat): seq<Log>
    decreases hi
  {
    if lo > hi then []
    else if lo == hi then logsAt(hi)
    else LogsIn(logsAt, lo, hi - 1) + logsAt(hi)
  }

  function Kept(logs: seq<Log>): seq<Log> {
    if logs == [] then []
    else (if logs[0].verdict.Emitted? then [logs[0]] else []) + Kept(logs[1..])
  }

  function Mid(lo: nat, hi: nat): (m: nat)
    requires lo < hi
    ensures lo <= m < hi
  {
    lo + (hi - lo) / 2
  }

  /** Writes logs until one is malformed or the output, which takes `room` records, refuses one. */
  function Emit(logs: seq<Log>, out: seq<Log>, room: nat): (seq<Log>, bool) {
    if logs == [] then (out, true)
    else if logs[0].verdict.Malformed? then (out, false)
    else if logs[0].verdict.Skipped? then Emit(logs[1..], out, room)
    else if |out| >= room then (out, false)
    else Emit(logs[1..], out + [logs[0]], room)
  }

  /** The output after scanning the inclusive range, and whether the scan succeeded. */
  function Scan(p: Provider, lo: nat, hi: nat, out: seq<Log>, room: nat): (seq<Log>, bool)
    requires lo <= hi
    decreases hi - lo
  {
    match p.reply(lo, hi)
    case Answer => Emit(LogsIn(p.logsAt, lo, hi), out, room)
    case Fault => (out, false)
    case RangeCap =>
      if lo == hi then (out, false)
      else
        var (half, ok) := Scan(p, lo, Mid(lo, hi), out, room);
        if ok then Scan(p, Mid(lo, hi) + 1, hi, half, room) else (half, false)
  }

  class Scanner {
    var out: seq<Log>
    const room: nat

    constructor (room: nat)
      ensures out == [] && this.room == room
    {
      out := [];
      this.room := room;
    }

    method ProcessLogs(p: Provider, lo: nat, hi: nat) returns (ok: bool)
      requires lo <= hi
      modifies this`out
      ensures (out, ok) == Scan(p, lo, hi, old(out), room)
      decreases hi - lo
    {
      match p.reply(lo, hi)
      case Fault =>
        return false;
      case RangeCap =>
        if lo == hi {
          return false;
        }
        var mid := Mid(lo, hi);
        ok := ProcessLogs(p, lo, mid);
        if !ok {
          return;
        }
        ok := ProcessLogs(p, mid + 1, hi);
      case Answer =>
        ok := EmitLogs(LogsIn(p.logsAt, lo, hi));
    }

    method EmitLogs(logs: seq<Log>) returns (ok: bool)
      modifies this`out
      ensures (out, ok) == Emit(logs, old(out), room)
    {
      var i := 0;
      while i < |logs|
        invariant 0 <= i <= |logs|
        invariant Emit(logs, old(out), room) == Emit(logs[i..], out, room)
      {
        match logs[i].verdict {
          case Malformed =>
            return false;
          case Skipped =>
          case Emitted =>
            if |out| >= room {
              return false;
            }
            out := out + [logs[i]];
        }
        i := i + 1;
      }
      return true;
    }
  }

  // ---- Splitting refines one query ----

  /** Halving reaches answered ranges everywhere. */
  predicate Served(p: Provider, lo: nat, hi: nat)
    requires lo <= hi
    decreases hi - lo
  {
    match p.reply(lo, hi)
    case Answer => true
    case Fault => false
    case RangeCap => lo < hi && Served(p, lo, Mid(lo, hi)) && Served(p, Mid(lo, hi) + 1, hi)
  }

  lemma {:induction false} LogsInSplit(logsAt: nat -> seq<Log>, lo: nat, mid: nat, hi: nat)
    requires lo <= mid < hi
    ensures LogsIn(logsAt, lo, hi) == LogsIn(logsAt, lo, mid) + LogsIn(logsAt, mid + 1, hi)
    decreases hi
  {
    if mid + 1 < hi {
      LogsInSplit(logsAt, lo, mid, hi - 1);
    }
  }

  /** Emitting two lists in turn is emitting their concatenation. */
  lemma {:induction false} EmitConcat(a: seq<Log>, b: seq<Log>, out: seq<Log>, room: nat)
    ensures var (half, ok) := Emit(a, out, room);
            Emit(a + b, out, room) == if ok then Emit(b, half, room) else (half, false)
  {
    if a == [] {
      assert a + b == b;
    } else {
      assert (a + b)[1..] == a[1..] + b;
      EmitConcat(a[1..], b, if a[0].verdict.Emitted? then out + [a[0]] else out, room);
    }
  }

  lemma {:induction false} KeptConcat(a: seq<Log>, b: seq<Log>)
    ensures Kept(a + b) == Kept(a) + Kept(b)
  {
    if a == [] {
      assert a + b == b;
    } else {
      assert (a + b)[0] == a[0] && (a + b)[1..] == a[1..] + b;
      KeptConcat(a[1..], b);
      var first := if a[0].verdict.Emitted? then [a[0]] else [];
      assert first + (Kept(a[1..]) + Kept(b)) == (first + Kept(a[1..])) + Kept(b);
    }
  }

  /** `after` is `out` and then a beginning of `all`. */
  predicate Began(out: seq<Log>, after: seq<Log>, all: seq<Log>) {
    out <= after <= out + all
  }

  lemma BeganMore(out: seq<Log>, after: seq<Log>, a: seq<Log>, b: seq<Log>)
    requires Began(out, after, a)
    ensures Began(out, after, a + b)
  {
    assert out + (a + b) == out + a + b;
  }

  lemma BeganAfter(out: seq<Log>, after: seq<Log>, a: seq<Log>, b: seq<Log>)
    requires Began(out + a, after, b)
    ensures Began(out, after, a + b)
  {
    assert out + (a + b) == out + a + b;
  }

  /** Nothing in the list ends an emission. */
  predicate WellFormed(logs: seq<Log>) {
    logs == [] || (!logs[0].verdict.Malformed? && WellFormed(logs[1..]))
  }

  /** What emission does with the first log. */
  lemma EmitUnfold(logs: seq<Log>, out: seq<Log>, room: nat)
    requires logs != []
    ensures var kept := Kept(logs[1..]);
            match logs[0].verdict
            case Malformed => Emit(logs, out, room) == (out, false)
            case Skipped => Emit(logs, out, room) == Emit(logs[1..], out, room) && Kept(logs) == kept
            case Emitted =>
              && Kept(logs) == [logs[0]] + kept
              && Emit(logs, out, room) == if |out| >= room then (out, false) else Emit(logs[1..], out + [logs[0]], room)
  {
    assert [] + Kept(logs[1..]) == Kept(logs[1..]);
  }

  /** Emission writes a beginning of the kept logs: all of them if nothing is malformed and they fit. */
  lemma {:induction false} EmitMeaning(logs: seq<Log>, out: seq<Log>, room: nat)
    ensures var (after, ok) := Emit(logs, out, room);
            && Began(out, after, Kept(logs))
            && (ok ==> after == out + Kept(logs))
            && (ok <==> WellFormed(logs) && (Kept(logs) == [] || |out| + |Kept(logs)| <= room))
    decreases logs
  {
    if logs != [] {
      EmitUnfold(logs, out, room);
      if logs[0].verdict.Skipped? {
        EmitMeaning(logs[1..], out, room);
      } else if logs[0].verdict.Emitted? && |out| < room {
        EmitMeaning(logs[1..], out + [logs[0]], room);
        EmittedFirst(logs[0], Kept(logs[1..]), out, Emit(logs, out, room).0);
      }
    }
  }

  lemma EmittedFirst(first: Log, rest: seq<Log>, out: seq<Log>, after: seq<Log>)
    requires Began(out + [first], after, rest)
    ensures Began(out, after, [first] + rest)
    ensures out + [first] + rest == out + ([first] + rest)
  {
    BeganAfter(out, after, [first], rest);
  }

  /** A scan that halving serves is exactly one unlimited query; any other scan fails. */
  lemma {:induction false} ScanRefinesOneQuery(p: Provider, lo: nat, hi: nat, out: seq<Log>, room: nat)
    requires lo <= hi
    ensures Served(p, lo, hi) ==> Scan(p, lo, hi, out, room) == Emit(LogsIn(p.logsAt, lo, hi), out, room)
    ensures !Served(p, lo, hi) ==> !Scan(p, lo, hi, out, room).1
    decreases hi - lo
  {
    if p.reply(lo, hi).RangeCap? && lo < hi {
      var mid := Mid(lo, hi);
      var (half, ok) := Scan(p, lo, mid, out, room);
      ScanRefinesOneQuery(p, lo, mid, out, room);
      ScanRefinesOneQuery(p, mid + 1, hi, half, room);
      LogsInSplit(p.logsAt, lo, mid, hi);
      EmitConcat(LogsIn(p.logsAt, lo, mid), LogsIn(p.logsAt, mid + 1, hi), out, room);
    }
  }

  /** A scan that halves: the two halves of `all` written, or a beginning of the first. */
  lemma HalvesBegan(p: Provider, lo: nat, hi: nat, out: seq<Log>, room: nat)
    requires lo < hi && p.reply(lo, hi).RangeCap?
    requires var mid := Mid(lo, hi);
             var (half, ok) := Scan(p, lo, mid, out, room);
             && Began(out, half, Kept(LogsIn(p.logsAt, lo, mid)))
             && (ok ==> half == out + Kept(LogsIn(p.logsAt, lo, mid)))
             && (ok ==> Began(half, Scan(p, mid + 1, hi, half, room).0, Kept(LogsIn(p.logsAt, mid + 1, hi))))
    ensures Began(out, Scan(p, lo, hi, out, room).0, Kept(LogsIn(p.logsAt, lo, hi)))
  {
    var mid := Mid(lo, hi);
    var left, right := LogsIn(p.logsAt, lo, mid), LogsIn(p.logsAt, mid + 1, hi);
    var (half, ok) := Scan(p, lo, mid, out, room);
    LogsInSplit(p.logsAt, lo, mid, hi);
    KeptConcat(left, right);
    if ok {
      BeganAfter(out, Scan(p, mid + 1, hi, half, room).0, Kept(left), Kept(right));
    } else {
      BeganMore(out, half, Kept(left), Kept(right));
    }
  }

  /** A scan that succeeds has written everything. */
  lemma ScanWritesAll(p: Provider, lo: nat, hi: nat, out: seq<Log>, room: nat)
    requires lo <= hi && Scan(p, lo, hi, out, room).1
    ensures Scan(p, lo, hi, out, room).0 == out + Kept(LogsIn(p.logsAt, lo, hi))
  {
    ScanRefinesOneQuery(p, lo, hi, out, room);
    EmitMeaning(LogsIn(p.logsAt, lo, hi), out, room);
  }

  /** Whatever ends a scan, it has written a beginning of what a single query would have. */
  lemma {:induction false} ScanWritesPrefix(p: Provider, lo: nat, hi: nat, out: seq<Log>, room: nat)
    requires lo <= hi
    ensures Began(out, Scan(p, lo, hi, out, room).0, Kept(LogsIn(p.logsAt, lo, hi)))
    decreases hi - lo
  {
    if p.reply(lo, hi).RangeCap? && lo < hi {
      var mid := Mid(lo, hi);
      var (half, ok) := Scan(p, lo, mid, out, room);
      ScanWritesPrefix(p, lo, mid, out, room);
      if ok {
        ScanWritesAll(p, lo, mid, out, room);
        ScanWritesPrefix(p, mid + 1, hi, half, room);
      }
      HalvesBegan(p, lo, hi, out, room);
    } else {
      EmitMeaning(LogsIn(p.logsAt, lo, hi), out, room);
    }
  }

  /** A provider that answers every single block and refuses only by range cap is always served. */
  lemma {:induction false} CapsOnlyAreServed(p: Provider, lo: nat, hi: nat)
    requires lo <= hi
    requires forall n: nat :: lo <= n <= hi ==> p.reply(n, n).Answer?
    requires forall a: nat, b: nat :: lo <= a <= b <= hi ==> !p.reply(a, b).Fault?
    ensures Served(p, lo, hi)
    decreases hi - lo
  {
    if p.reply(lo, hi).RangeCap? {
      assert lo != hi;
      CapsOnlyAreServed(p, lo, Mid(lo, hi));
      CapsOnlyAreServed(p, Mid(lo, hi) + 1, hi);
    }
  }
}
