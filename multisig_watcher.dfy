/** `MultisigWatcher.tsx`: a registry of the keyholders of every multisig
    wallet seen so far, kept up to date from the ordered stream of
    `KeyholderChanged` logs, with watchers notified per wallet and per owner. */
module Watcher {
  import opened Js
  import opened Abi

  /** A `WeightMap`: keyholder address to weight. */
  type WeightMap = map<Address, nat>

  /** The `wallets` dictionary: wallet address to its keyholders' weights. */
  type Wallets = map<Address, WeightMap>

  /** A `KeyholderChanged` log: the address of the emitting wallet, and the
      keyholder and weight decoded from the event. */
  datatype KeyholderLog = KeyholderLog(address: string, keyholder: string, weight: nat)

  /** One call of a watcher callback, with the map it was given. */
  datatype Notification = Notification(callback: CallbackId, weights: WeightMap)

  ghost predicate NoZeroWeights(ws: Wallets)
  {
    forall w, k :: w in ws && k in ws[w] ==> ws[w][k] != 0
  }

  /** The effect of one log on the registry: the wallet is created empty if it
      is new, then a zero weight deletes the keyholder and any other weight
      sets it. No other wallet or keyholder changes. */
  function ApplyLog(ws: Wallets, wallet: Address, keyholder: Address, weight: nat): (r: Wallets)
    ensures r.Keys == ws.Keys + {wallet}
    ensures forall w :: w in ws && w != wallet ==> r[w] == ws[w]
    ensures wallet !in ws ==> r[wallet] == if weight == 0 then map[] else map[keyholder := weight]
    ensures weight == 0 ==> keyholder !in r[wallet]
    ensures weight != 0 ==> keyholder in r[wallet] && r[wallet][keyholder] == weight
    ensures forall k :: k != keyholder ==> (k in r[wallet] <==> wallet in ws && k in ws[wallet])
    ensures forall k :: k != keyholder && k in r[wallet] ==> r[wallet][k] == ws[wallet][k]
  {
    var keyholders := if wallet in ws then ws[wallet] else map[];
    ws[wallet := if weight == 0 then keyholders - {keyholder} else keyholders[keyholder := weight]]
  }

  /** The registry after a sequence of logs, applied in order. */
  function ApplyLogs(getAddress: string -> Address, ws: Wallets, logs: seq<KeyholderLog>): (r: Wallets)
    ensures ws.Keys <= r.Keys
    decreases |logs|
  {
    if logs == [] then ws
    else
      var log := logs[|logs| - 1];
      ApplyLog(ApplyLogs(getAddress, ws, logs[..|logs| - 1]), getAddress(log.address), getAddress(log.keyholder), log.weight)
  }

  /** `getOwnedWallets(owner)` as a value: the wallets that list `owner`, each
      with `owner`'s weight in it. */
  function OwnedWallets(ws: Wallets, owner: Address): WeightMap
  {
    map w | w in ws && owner in ws[w] :: ws[w][owner]
  }

  /** The callbacks one log triggers, given the registry after it: the
      wallet's watcher gets the wallet's map, then the keyholder's owner
      watcher gets the keyholder's owned wallets. */
  function LogNotifications(walletsWatched: map<Address, CallbackId>, ownersWatched: map<Address, CallbackId>, ws: Wallets, wallet: Address, keyholder: Address): seq<Notification>
    requires wallet in ws
  {
    (if wallet in walletsWatched then [Notification(walletsWatched[wallet], ws[wallet])] else [])
    + (if keyholder in ownersWatched then [Notification(ownersWatched[keyholder], OwnedWallets(ws, keyholder))] else [])
  }

  /** The callbacks a sequence of logs triggers, in order. */
  function AllNotifications(getAddress: string -> Address, walletsWatched: map<Address, CallbackId>, ownersWatched: map<Address, CallbackId>, ws: Wallets, logs: seq<KeyholderLog>): seq<Notification>
    decreases |logs|
  {
    if logs == [] then []
    else
      var log := logs[|logs| - 1];
      AllNotifications(getAddress, walletsWatched, ownersWatched, ws, logs[..|logs| - 1])
      + LogNotifications(walletsWatched, ownersWatched, ApplyLogs(getAddress, ws, logs), getAddress(log.address), getAddress(log.keyholder))
  }

  predicate TouchesPair(getAddress: string -> Address, log: KeyholderLog, wallet: Address, keyholder: Address)
  {
    getAddress(log.address) == wallet && getAddress(log.keyholder) == keyholder
  }

  /** No stored weight is ever zero. */
  lemma {:induction false} ApplyLogsKeepsWeightsNonzero(getAddress: string -> Address, ws: Wallets, logs: seq<KeyholderLog>)
    requires NoZeroWeights(ws)
    ensures NoZeroWeights(ApplyLogs(getAddress, ws, logs))
    decreases |logs|
  {
    if logs != [] {
      var prev := ApplyLogs(getAddress, ws, logs[..|logs| - 1]);
      ApplyLogsKeepsWeightsNonzero(getAddress, ws, logs[..|logs| - 1]);
      var log := logs[|logs| - 1];
      var r := ApplyLog(prev, getAddress(log.address), getAddress(log.keyholder), log.weight);
      forall w, k | w in r && k in r[w]
        ensures r[w][k] != 0
      {
        if w != getAddress(log.address) {
          assert r[w] == prev[w];
        }
      }
    }
  }

  /** The last log for a (wallet, keyholder) pair decides its final state;
      the wallet is registered afterwards whatever the weight. */
  lemma {:induction false} LastLogDecides(getAddress: string -> Address, ws: Wallets, logs: seq<KeyholderLog>, wallet: Address, keyholder: Address, j: nat)
    requires j < |logs| && TouchesPair(getAddress, logs[j], wallet, keyholder)
    requires forall i :: j < i < |logs| ==> !TouchesPair(getAddress, logs[i], wallet, keyholder)
    ensures var r := ApplyLogs(getAddress, ws, logs);
      && wallet in r
      && (keyholder in r[wallet] <==> logs[j].weight != 0)
      && (keyholder in r[wallet] ==> r[wallet][keyholder] == logs[j].weight)
    decreases |logs|
  {
    if j < |logs| - 1 {
      var prefix := logs[..|logs| - 1];
      assert prefix[j] == logs[j];
      LastLogDecides(getAddress, ws, prefix, wallet, keyholder, j);
      var prev := ApplyLogs(getAddress, ws, prefix);
      var log := logs[|logs| - 1];
      var r := ApplyLog(prev, getAddress(log.address), getAddress(log.keyholder), log.weight);
      assert !TouchesPair(getAddress, log, wallet, keyholder);
      if getAddress(log.address) != wallet {
        assert r[wallet] == prev[wallet];
      }
    }
  }

  /** A pair that no log mentions keeps its entry, or its absence. */
  lemma {:induction false} UntouchedPairUnchanged(getAddress: string -> Address, ws: Wallets, logs: seq<KeyholderLog>, wallet: Address, keyholder: Address)
    requires forall i :: 0 <= i < |logs| ==> !TouchesPair(getAddress, logs[i], wallet, keyholder)
    ensures var r := ApplyLogs(getAddress, ws, logs);
      && (wallet in r && keyholder in r[wallet] <==> wallet in ws && keyholder in ws[wallet])
      && (wallet in ws && keyholder in ws[wallet] ==> r[wallet][keyholder] == ws[wallet][keyholder])
    decreases |logs|
  {
    if logs != [] {
      var prefix := logs[..|logs| - 1];
      UntouchedPairUnchanged(getAddress, ws, prefix, wallet, keyholder);
      var prev := ApplyLogs(getAddress, ws, prefix);
      var log := logs[|logs| - 1];
      var r := ApplyLog(prev, getAddress(log.address), getAddress(log.keyholder), log.weight);
      assert !TouchesPair(getAddress, log, wallet, keyholder);
      if getAddress(log.address) != wallet && wallet in prev {
        assert r[wallet] == prev[wallet];
      }
    }
  }

  class MultisigWatcher {
    /** `getAddress`, the checksum normalisation of an address. */
    const getAddress: string -> Address
    var ownersWatched: map<Address, CallbackId>
    var walletsWatched: map<Address, CallbackId>
    var wallets: Wallets
    /** The watcher callbacks invoked so far, in order. */
    var notifications: seq<Notification>

    ghost predicate Valid()
      reads this
    {
      NoZeroWeights(wallets)
    }

    constructor (getAddress: string -> Address)
      ensures Valid() && this.getAddress == getAddress
      ensures ownersWatched == map[] && walletsWatched == map[] && wallets == map[] && notifications == []
    {
      this.getAddress := getAddress;
      ownersWatched, walletsWatched, wallets := map[], map[], map[];
      notifications := [];
    }

    /** `addOwnerWatch`; the log query it starts is answered by a later
        `ProcessKeyholderChanges`. */
    method AddOwnerWatch(address: string, onChange: CallbackId)
      modifies this`ownersWatched
      ensures ownersWatched == old(ownersWatched)[getAddress(address) := onChange]
    {
      ownersWatched := ownersWatched[getAddress(address) := onChange];
    }

    method RemoveOwnerWatch(address: string)
      modifies this`ownersWatched
      ensures ownersWatched == old(ownersWatched) - {getAddress(address)}
    {
      ownersWatched := ownersWatched - {getAddress(address)};
    }

    /** `addMultisigWatch`; the log query it starts is answered by a later
        `ProcessKeyholderChanges`. */
    method AddMultisigWatch(address: string, onChange: CallbackId)
      modifies this`walletsWatched
      ensures walletsWatched == old(walletsWatched)[getAddress(address) := onChange]
    {
      walletsWatched := walletsWatched[getAddress(address) := onChange];
    }

    /** `removeMultisigWatch`, as written: it deletes the key from the owner
        watches and leaves the wallet watches as they were. */
    method RemoveMultisigWatch(address: string)
      modifies this`ownersWatched
      ensures ownersWatched == old(ownersWatched) - {getAddress(address)}
      ensures walletsWatched == old(walletsWatched)
    {
      ownersWatched := ownersWatched - {getAddress(address)};
    }

    /** `processKeyholderChanges`: applies the logs in order and, after each,
        notifies the wallet's watcher and the keyholder's owner watcher. */
    method ProcessKeyholderChanges(logs: seq<KeyholderLog>)
      requires Valid()
      modifies this`wallets, this`notifications
      ensures Valid()
      ensures wallets == ApplyLogs(getAddress, old(wallets), logs)
      ensures notifications ==
        old(notifications) + AllNotifications(getAddress, walletsWatched, ownersWatched, old(wallets), logs)
    {
      for i := 0 to |logs|
        invariant Valid()
        invariant wallets == ApplyLogs(getAddress, old(wallets), logs[..i])
        invariant notifications ==
          old(notifications) + AllNotifications(getAddress, walletsWatched, ownersWatched, old(wallets), logs[..i])
      {
        assert logs[..i + 1][..i] == logs[..i];
        ProcessLog(logs[i]);
      }
      assert logs[..|logs|] == logs;
    }

    /** One iteration of `processKeyholderChanges`. */
    method ProcessLog(log: KeyholderLog)
      requires Valid()
      modifies this`wallets, this`notifications
      ensures Valid()
      ensures wallets == ApplyLog(old(wallets), getAddress(log.address), getAddress(log.keyholder), log.weight)
      ensures notifications == old(notifications) +
        LogNotifications(walletsWatched, ownersWatched, wallets, getAddress(log.address), getAddress(log.keyholder))
    {
      var walletAddress := getAddress(log.address);
      var keyholders: WeightMap := if walletAddress in wallets then wallets[walletAddress] else map[];
      var keyholderAddress := getAddress(log.keyholder);
      var weight: nat := log.weight;
      if weight == 0 {
        keyholders := keyholders - {keyholderAddress};
      } else {
        keyholders := keyholders[keyholderAddress := weight];
      }
      wallets := wallets[walletAddress := keyholders];
      if walletAddress in walletsWatched {
        notifications := notifications + [Notification(walletsWatched[walletAddress], wallets[walletAddress])];
      }
      if keyholderAddress in ownersWatched {
        var owned := GetOwnedWallets(keyholderAddress);
        notifications := notifications + [Notification(ownersWatched[keyholderAddress], owned)];
      }
    }

    /** `getOwnedWallets`: exactly the wallets whose map lists `owner`, each
        with that weight; it changes nothing. */
    method GetOwnedWallets(owner: Address) returns (owned: WeightMap)
      ensures forall w :: w in owned <==> w in wallets && owner in wallets[w]
      ensures forall w :: w in owned ==> owned[w] == wallets[w][owner]
      ensures owned == OwnedWallets(wallets, owner)
    {
      owned := map[];
      var remaining := wallets.Keys;
      while remaining != {}
        invariant remaining <= wallets.Keys
        invariant forall w :: w in owned <==> w in wallets && w !in remaining && owner in wallets[w]
        invariant forall w :: w in owned ==> owned[w] == wallets[w][owner]
        decreases remaining
      {
        var walletAddr :| walletAddr in remaining;
        var wallet := wallets[walletAddr];
        if owner in wallet {
          owned := owned[walletAddr := wallet[owner]];
        }
        remaining := remaining - {walletAddr};
      }
    }
  }
}
