/** Which baselines a reload of the watched targets drops. */
module Reload {
  import opened ChangeDetection

  /** The configured target names of each type. */
  datatype Watch = Watch(native: seq<string>, erc20: seq<string>, contracts: seq<string>, nftBalances: seq<string>,
      nftOwners: seq<string>)

  /** The keys, one per kind, of the names in `old` that are not in `kept`. */
  function RemovedNames(was: seq<string>, kept: seq<string>, kinds: seq<Kind>): seq<Key> {
    if was == [] then []
    else (if was[0] in kept then [] else KeysOf(was[0], kinds)) + RemovedNames(was[1..], kept, kinds)
  }

  function KeysOf(name: string, kinds: seq<Kind>): seq<Key> {
    seq(|kinds|, i requires 0 <= i < |kinds| => Key(kinds[i], name))
  }

  const CONTRACT_KINDS: seq<Kind> := [ContractNative, ContractSupply, ContractTransfers]

  function RemovedKeys(was: Watch, now: Watch): seq<Key> {
    RemovedNames(was.native, now.native, [Native])
    + RemovedNames(was.erc20, now.erc20, [ERC20])
    + RemovedNames(was.contracts, now.contracts, CONTRACT_KINDS)
    + RemovedNames(was.nftBalances, now.nftBalances, [ERC721Balance])
    + RemovedNames(was.nftOwners, now.nftOwners, [ERC721Ownership])
  }

  /** The target list a kind of key belongs to. */
  function ListOf(w: Watch, kind: Kind): seq<string> {
    match kind
    case Native => w.native
    case ERC20 => w.erc20
    case ERC721Balance => w.nftBalances
    case ERC721Ownership => w.nftOwners
    case _ => w.contracts
  }

  lemma {:induction false} RemovedNamesMeaning(was: seq<string>, kept: seq<string>, kinds: seq<Kind>, k: Key)
    ensures k in RemovedNames(was, kept, kinds) <==> k.kind in kinds && k.name in was && k.name !in kept
  {
    if was != [] {
      RemovedNamesMeaning(was[1..], kept, kinds, k);
      assert k in KeysOf(was[0], kinds) <==> k.kind in kinds && k.name == was[0] by {
        if k.kind in kinds && k.name == was[0] {
          var i :| 0 <= i < |kinds| && kinds[i] == k.kind;
          assert KeysOf(was[0], kinds)[i] == k;
        }
      }
    }
  }

  /** A reload drops exactly the baselines of targets that were watched and no longer are. */
  lemma RemovedKeysMeaning(was: Watch, now: Watch, k: Key)
    ensures k in RemovedKeys(was, now) <==> k.name in ListOf(was, k.kind) && k.name !in ListOf(now, k.kind)
  {
    RemovedNamesMeaning(was.native, now.native, [Native], k);
    RemovedNamesMeaning(was.erc20, now.erc20, [ERC20], k);
    RemovedNamesMeaning(was.contracts, now.contracts, CONTRACT_KINDS, k);
    RemovedNamesMeaning(was.nftBalances, now.nftBalances, [ERC721Balance], k);
    RemovedNamesMeaning(was.nftOwners, now.nftOwners, [ERC721Ownership], k);
    InFive(RemovedNames(was.native, now.native, [Native]), RemovedNames(was.erc20, now.erc20, [ERC20]),
           RemovedNames(was.contracts, now.contracts, CONTRACT_KINDS),
           RemovedNames(was.nftBalances, now.nftBalances, [ERC721Balance]),
           RemovedNames(was.nftOwners, now.nftOwners, [ERC721Ownership]), k);
  }

  lemma InFive(a: seq<Key>, b: seq<Key>, c: seq<Key>, d: seq<Key>, e: seq<Key>, k: Key)
    ensures k in a + b + c + d + e <==> k in a || k in b || k in c || k in d || k in e
  {
  }

  lemma {:induction false} DropPrior(s: State, removed: seq<Key>)
    ensures Drop(s, removed).prior == s.prior - set k | k in removed
    decreases |removed|
  {
    if removed != [] {
      var t := s.(prior := s.prior - {removed[0]}, log := s.log + [Forgot(removed[0])]);
      DropPrior(t, removed[1..]);
      assert (set k | k in removed) == {removed[0]} + set k | k in removed[1..];
    }
  }

  lemma {:induction false} DropConcat(s: State, a: seq<Key>, b: seq<Key>)
    ensures Drop(s, a + b) == Drop(Drop(s, a), b)
    decreases |a|
  {
    if a == [] {
      assert a + b == b;
    } else {
      assert (a + b)[1..] == a[1..] + b;
      DropConcat(s.(prior := s.prior - {a[0]}, log := s.log + [Forgot(a[0])]), a[1..], b);
    }
  }

  lemma RemovedStep(was: seq<string>, kept: seq<string>, kinds: seq<Kind>, i: nat)
    requires i < |was|
    ensures RemovedNames(was[i..], kept, kinds)
         == if was[i] in kept then RemovedNames(was[i + 1..], kept, kinds)
            else KeysOf(was[i], kinds) + RemovedNames(was[i + 1..], kept, kinds)
  {
    assert was[i..][1..] == was[i + 1..];
  }

  lemma DropOne(s: State, keys: seq<Key>, i: nat)
    requires i < |keys|
    ensures Drop(s, keys[i..])
         == Drop(State(s.prior - {keys[i]}, s.log + [Forgot(keys[i])], s.attempts), keys[i + 1..])
  {
    assert keys[i..][1..] == keys[i + 1..];
  }

  /** A target that stays watched keeps its baseline across a reload. */
  lemma SurvivorsKeepBaselines(s: State, was: Watch, now: Watch, k: Key)
    ensures k in Drop(s, RemovedKeys(was, now)).prior
       <==> k in s.prior && !(k.name in ListOf(was, k.kind) && k.name !in ListOf(now, k.kind))
    ensures k in Drop(s, RemovedKeys(was, now)).prior ==> Drop(s, RemovedKeys(was, now)).prior[k] == s.prior[k]
  {
    DropPrior(s, RemovedKeys(was, now));
    RemovedKeysMeaning(was, now, k);
  }
}
