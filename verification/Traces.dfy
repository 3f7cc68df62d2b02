/** The two trace shapes a node may serve, and the value transfers each implies. */
module Traces {
  import opened Chain
  import opened Common

  /** One node of a geth callTracer tree. */
  datatype CallFrame = CallFrame(
    kind: string, from: string, to: string, value: string, error: string, calls: seq<CallFrame>)

  datatype ParityAction = ParityAction(
    callType: string, from: string, to: string, value: string,
    address: string, refundAddress: string, balance: string)

  /** One entry of a parity flat list; `result` is the created address. */
  datatype ParityTrace = ParityTrace(
    kind: string, action: ParityAction, result: Option<string>, error: string,
    traceAddress: seq<nat>, txHash: string)

  datatype Transfer = Transfer(
    txHash: string, path: seq<nat>, from: string, to: string, value: int, callType: string, creation: bool)

  /** What one surviving trace contributes: a transfer, or a value that does not parse. */
  datatype Hit = Moves(t: Transfer) | BadValue(path: seq<nat>)
  {
    function Path(): seq<nat> {
      if Moves? then t.path else path
    }
  }

  // ---- Values ----

  /** The number a nonempty run of hex digits stands for. */
  function HexNumber(s: string): Option<nat> {
    if s == "" then None
    else
      match HexDigit(s[|s| - 1])
      case None => None
      case Some(d) =>
        if |s| == 1 then Some(d)
        else
          match HexNumber(s[..|s| - 1])
          case None => None
          case Some(n) => Some(16 * n + d)
  }

  /** An absent value is zero; a sign is accepted, as the number parser accepts one. */
  function ParseHexValue(s: string): Option<int> {
    if s == "" || s == "0x" then Some(0)
    else
      var digits := TrimPrefix(TrimPrefix(s, "0x"), "0X");
      var signed := digits != "" && (digits[0] == '-' || digits[0] == '+');
      match HexNumber(if signed then digits[1..] else digits)
      case None => None
      case Some(n) =>
        var v: int := if signed && digits[0] == '-' then -(n as int) else n as int;
        Some(v)
  }

  /** A transfer of `value`, if it is positive. */
  function Valued(tx: string, path: seq<nat>, from: string, to: string, value: string, callType: string,
      creation: bool): seq<Hit> {
    match ParseHexValue(value)
    case None => [BadValue(path)]
    case Some(v) => if v > 0 then [Moves(Transfer(tx, path, from, to, v, callType, creation))] else []
  }

  // ---- The call tree ----

  function UpperChar(c: char): char {
    if 'a' <= c <= 'z' then (c as int - 32) as char else c
  }

  function Upper(s: string): string {
    seq(|s|, i requires 0 <= i < |s| => UpperChar(s[i]))
  }

  predicate IsSelfDestruct(kind: string) {
    Upper(kind) == "SELFDESTRUCT" || Upper(kind) == "SUICIDE"
  }

  predicate IsCreate(kind: string) {
    Upper(kind) == "CREATE" || Upper(kind) == "CREATE2"
  }

  predicate IsValueMovingCall(kind: string) {
    Upper(kind) == "CALL" || IsCreate(kind) || IsSelfDestruct(kind)
  }

  /** What a frame that did not revert contributes by itself. */
  function FrameHits(tx: string, path: seq<nat>, f: CallFrame): seq<Hit> {
    if IsValueMovingCall(f.kind) then Valued(tx, path, f.from, f.to, f.value, Fold(f.kind), IsCreate(f.kind)) else []
  }

  /** The hits of `frames[i..]`, depth first; a reverted frame contributes nothing, nor does its subtree. */
  function WalkHits(tx: string, prefix: seq<nat>, frames: seq<CallFrame>, i: nat): seq<Hit>
    requires i <= |frames|
    decreases frames, |frames| - i
  {
    if i == |frames| then []
    else if frames[i].error != "" then WalkHits(tx, prefix, frames, i + 1)
    else
      FrameHits(tx, prefix + [i], frames[i])
      + WalkHits(tx, prefix + [i], frames[i].calls, 0)
      + WalkHits(tx, prefix, frames, i + 1)
  }

  /** The hits inside one transaction, whose root frame belongs to the top-level transfer. */
  function TxHits(tx: string, root: CallFrame): seq<Hit> {
    if root.error != "" then [] else WalkHits(tx, [], root.calls, 0)
  }

  /** All transfers, or nothing when some value does not parse. */
  function Collect(hits: seq<Hit>): Option<seq<Transfer>> {
    if hits == [] then Some([])
    else if hits[0].BadValue? then None
    else Prepend([hits[0].t], Collect(hits[1..]))
  }

  // ---- The flat list ----

  /** What a trace that did not fail contributes by itself. */
  function ParityHits(t: ParityTrace): seq<Hit> {
    var a := t.action;
    if t.kind == "call" then
      if a.callType == "call" then Valued(t.txHash, t.traceAddress, a.from, a.to, a.value, "call", false) else []
    else if t.kind == "create" then
      Valued(t.txHash, t.traceAddress, a.from, if t.result.Some? then t.result.value else "", a.value, "create", true)
    else if t.kind == "suicide" then
      Valued(t.txHash, t.traceAddress, a.address, a.refundAddress, a.balance, "selfdestruct", false)
    else []
  }

  /** A trace of `block` that failed lies strictly above `path`. */
  predicate Pruned(path: seq<nat>, block: seq<ParityTrace>) {
    exists t :: t in block && t.error != "" && t.traceAddress < path
  }

  predicate Skipped(t: ParityTrace, block: seq<ParityTrace>) {
    t.traceAddress == [] || t.error != "" || Pruned(t.traceAddress, block)
  }

  /** The hits of the traces `list` of a block, with pruning by the failed traces of all of `block`. */
  function ScanHits(list: seq<ParityTrace>, block: seq<ParityTrace>): seq<Hit> {
    if list == [] then []
    else (if Skipped(list[0], block) then [] else ParityHits(list[0])) + ScanHits(list[1..], block)
  }

  // ---- The same execution in both shapes ----

  /** The parity entry for a frame at `path`. */
  function ToParity(tx: string, path: seq<nat>, f: CallFrame): ParityTrace {
    var created := if f.error == "" then Some(f.to) else None;
    if IsCreate(f.kind) then
      ParityTrace("create", ParityAction("", f.from, "", f.value, "", "", ""), created, f.error, path, tx)
    else if IsSelfDestruct(f.kind) then
      ParityTrace("suicide", ParityAction("", "", "", "", f.from, f.to, f.value), None, f.error, path, tx)
    else
      ParityTrace("call", ParityAction(Fold(f.kind), f.from, f.to, f.value, "", "", ""), None, f.error, path, tx)
  }

  /** A transaction's flat list: every frame before its subtree, in call order. */
  function Flatten(tx: string, path: seq<nat>, f: CallFrame): seq<ParityTrace>
    decreases f, 1, 0
  {
    [ToParity(tx, path, f)] + FlattenAll(tx, path, f.calls, 0)
  }

  function FlattenAll(tx: string, prefix: seq<nat>, frames: seq<CallFrame>, i: nat): seq<ParityTrace>
    requires i <= |frames|
    decreases frames, 0, |frames| - i
  {
    if i == |frames| then []
    else Flatten(tx, prefix + [i], frames[i]) + FlattenAll(tx, prefix, frames, i + 1)
  }

  // ---- Whole blocks ----

  datatype TxTrace = TxTrace(txHash: string, root: Option<CallFrame>)

  /** What the call trees of a block contribute, transaction by transaction. */
  function BlockHits(txs: seq<TxTrace>): seq<Hit> {
    if txs == [] then []
    else (if txs[0].root.None? then [] else TxHits(txs[0].txHash, txs[0].root.value)) + BlockHits(txs[1..])
  }

  function FlattenBlock(txs: seq<TxTrace>): seq<ParityTrace> {
    if txs == [] then []
    else (if txs[0].root.None? then [] else Flatten(txs[0].txHash, [], txs[0].root.value)) + FlattenBlock(txs[1..])
  }
}
