/** The keys of the records that one tick of evm-balance emits. */
module TickKeys {
  import opened ChangeDetection
  import opened Common
  import Joining
  import D = DedupKey

  /** The record class of a target's samples: one for all balances, one for all fields of a contract. */
  function SampleType(kind: Kind): D.Type {
    match kind
    case Native => D.BalanceSample
    case ERC20 => D.BalanceSample
    case ERC721Balance => D.BalanceSample
    case ERC721Ownership => D.OwnershipSample
    case ContractNative => D.ContractSample
    case ContractSupply => D.ContractSample
    case ContractTransfers => D.ContractSample
  }

  function ChangeType(kind: Kind): D.Type {
    match SampleType(kind)
    case BalanceSample => D.BalanceChange
    case OwnershipSample => D.OwnershipChange
    case _ => D.ContractChange
  }

  /** What a tick fixes for all its records; `emittedAt` is a time stamp in whole seconds. */
  datatype Tick = Tick(chainId: int, block: nat, blockHash: string)

  function SampleOf(t: Tick, k: Key, emittedAt: string): D.Envelope {
    D.Envelope(SampleType(k.kind), k.name, t.chainId, t.block, t.blockHash, "", None, [], emittedAt)
  }

  function ChangeOf(t: Tick, k: Key, emittedAt: string): D.Envelope {
    D.Envelope(ChangeType(k.kind), k.name, t.chainId, t.block, t.blockHash, "", None, [], emittedAt)
  }

  predicate CleanTick(t: Tick, k: Key, emittedAt: string) {
    Joining.Free(t.blockHash, '|') && Joining.Free(k.name, '|') && Joining.Free(emittedAt, '|')
  }

  /** Two samples of a tick share a key exactly if their class, their name and their second agree. */
  lemma SampleKeysIff(t: Tick, j: Key, k: Key, at: string, later: string)
    requires CleanTick(t, j, at) && CleanTick(t, k, later)
    ensures D.DedupKey(SampleOf(t, j, at)) == D.DedupKey(SampleOf(t, k, later))
       <==> SampleType(j.kind) == SampleType(k.kind) && j.name == k.name && at == later
  {
    D.SameKeyIff(SampleOf(t, j, at), SampleOf(t, k, later));
  }

  /** Two changes of a tick share a key exactly if their class and their name agree, whatever moved. */
  lemma ChangeKeysIff(t: Tick, j: Key, k: Key, at: string, later: string)
    requires CleanTick(t, j, at) && CleanTick(t, k, later)
    ensures D.DedupKey(ChangeOf(t, j, at)) == D.DedupKey(ChangeOf(t, k, later))
       <==> ChangeType(j.kind) == ChangeType(k.kind) && j.name == k.name
  {
    D.SameKeyIff(ChangeOf(t, j, at), ChangeOf(t, k, later));
  }

  /** A sample and a change never share a key. */
  lemma SampleIsNoChange(t: Tick, j: Key, k: Key, at: string, later: string)
    requires CleanTick(t, j, at) && CleanTick(t, k, later)
    ensures D.DedupKey(SampleOf(t, j, at)) != D.DedupKey(ChangeOf(t, k, later))
  {
    D.SameKeyIff(SampleOf(t, j, at), ChangeOf(t, k, later));
  }

  /** The fields of one contract, and the balances of one name, are told apart by no key of a change. */
  lemma FieldsCollide(t: Tick, name: string, at: string)
    requires CleanTick(t, Key(Native, name), at)
    ensures D.DedupKey(ChangeOf(t, Key(ContractNative, name), at)) == D.DedupKey(ChangeOf(t,
        Key(ContractSupply, name), at))
    ensures D.DedupKey(ChangeOf(t, Key(Native, name), at)) == D.DedupKey(ChangeOf(t, Key(ERC20, name), at))
  {
    ChangeKeysIff(t, Key(ContractNative, name), Key(ContractSupply, name), at, at);
    ChangeKeysIff(t, Key(Native, name), Key(ERC20, name), at, at);
  }
}
