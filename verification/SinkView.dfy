/** Both ends together: what a sink reads over any connections to a fan-out writer. */
module SinkView {
  import opened Lines
  import F = Fanout
  import R = LineReader

  /**
   * One connection as its sink reads it: the consumer, the record that was being written when it
   * ended, and the bytes that arrived before it ended.
   */
  datatype Connection = Connection(c: nat, last: Rec, bytes: string)

  /** The bytes that arrived are a beginning of what was accepted and then of an unfinished record. */
  ghost predicate Arrived(s: F.Fan, v: Connection) {
    v.c in s.consumers && NoNewline(v.last) && v.bytes <= Encode(s.consumers[v.c].got) + v.last
  }

  /** The whole records of one connection, as a stretch of the producer's records. */
  ghost function Stretch(s: F.Fan, v: Connection): seq<Rec>
    requires v.c in s.consumers
  {
    var k, n := s.consumers[v.c], CountLines(v.bytes);
    if k.got != [] && k.first + n <= |s.sent| then s.sent[k.first..k.first + n] else []
  }

  ghost function Stretches(s: F.Fan, vs: seq<Connection>): seq<Rec>
    requires forall v :: v in vs ==> v.c in s.consumers
  {
    if vs == [] then [] else Stretch(s, vs[0]) + Stretches(s, vs[1..])
  }

  ghost function BytesOf(vs: seq<Connection>): seq<string> {
    if vs == [] then [] else [vs[0].bytes] + BytesOf(vs[1..])
  }

  lemma SliceSlice(all: seq<Rec>, lo: nat, hi: nat, n: nat)
    requires lo <= lo + n <= hi <= |all|
    ensures all[lo..hi][..n] == all[lo..lo + n]
  {
  }

  /** What arrives whole on one connection is a contiguous stretch of the producer's records. */
  lemma ConnectionSeesStretch(blockUntil: bool, es: seq<F.Event>, v: Connection)
    requires var s := F.Run(F.Init(blockUntil), es); Arrived(s, v) && Records(s.consumers[v.c].got)
    ensures var s := F.Run(F.Init(blockUntil), es); Whole(v.bytes) == Encode(Stretch(s, v))
  {
    var s := F.Run(F.Init(blockUntil), es);
    var k := s.consumers[v.c];
    F.ContiguousDelivery(blockUntil, es, v.c);
    var all := k.got + [v.last];
    EncodeConcat(k.got, [v.last]);
    assert Encode([v.last]) == v.last + "\n" + Encode([]);
    assert v.bytes <= Encode(all) && |v.bytes| < |Encode(all)|;
    CutEncoding(all, v.bytes);
    ProperCut(all, v.bytes);
    var n := CountLines(v.bytes);
    assert all[..n] == k.got[..n];
    if k.got != [] {
      SliceSlice(s.sent, k.first, k.End(), n);
    }
  }

  /**
   * A sink that reads over any number of connections receives a concatenation of contiguous
   * stretches of whole records, byte for byte.
   */
  lemma {:induction false} SinkSeesStretches(blockUntil: bool, es: seq<F.Event>, vs: seq<Connection>)
    requires var s := F.Run(F.Init(blockUntil), es);
             forall v :: v in vs ==> Arrived(s, v) && Records(s.consumers[v.c].got)
    ensures var s := F.Run(F.Init(blockUntil), es);
            WholeAll(BytesOf(vs)) == Encode(Stretches(s, vs))
  {
    if vs != [] {
      var s := F.Run(F.Init(blockUntil), es);
      assert vs[0] in vs;
      ConnectionSeesStretch(blockUntil, es, vs[0]);
      SinkSeesStretches(blockUntil, es, vs[1..]);
      EncodeConcat(Stretch(s, vs[0]), Stretches(s, vs[1..]));
      assert BytesOf(vs)[1..] == BytesOf(vs[1..]);
    }
  }

  /**
   * A reader over those connections, in any state and however it was read, has returned a beginning
   * of those stretches.
   */
  lemma ReaderSeesStretches(blockUntil: bool, es: seq<F.Event>, vs: seq<Connection>, net: seq<R.Dial>, r: R.Reader)
    requires var s := F.Run(F.Init(blockUntil), es);
             forall v :: v in vs ==> Arrived(s, v) && Records(s.consumers[v.c].got)
    requires R.Streams(net) == BytesOf(vs) && r.Valid() && r.promised == WholeAll(R.Streams(net))
    ensures r.returned <= Encode(Stretches(F.Run(F.Init(blockUntil), es), vs))
  {
    SinkSeesStretches(blockUntil, es, vs);
  }
}
