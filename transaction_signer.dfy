/** `TransactionSigner.tsx`: the decoding of a stored request's call data, the
    aggregation of its signatures into signatories and a total weight, the
    sign-or-publish decision against the threshold, publication with the other
    keyholders' signatures, and the dialog flags that drive it. */
module TransactionSigning {
  import opened Wrappers
  import opened Js
  import opened Abi
  import opened BackendSchema

  /** A request as the backend stores and serves it: `value` and `data` may be
      absent, and `id` is the hash the signatures are recovered against. */
  datatype RequestRecord = RequestRecord(
    id: string,
    destination: Address,
    value: Option<nat>,
    data: Option<string>,
    abi: Option<Fragment>,
    nonce: int,
    signatures: seq<string>,
    description: Option<string>)

  /** One entry of the `SignerMap` object. */
  datatype Signatory = Signatory(signature: string, weight: nat, address: Address)

  /** A `SignerMap` object keyed by `address`: its entries in the order in which
      their keys were first inserted, which is the order of `Object.values`. */
  type SignerMap = seq<Signatory>

  predicate KeysUnique(m: SignerMap)
  {
    forall i, j :: 0 <= i < j < |m| ==> m[i].address != m[j].address
  }

  /** `m[a]`: the entry stored under key `a`, if any. */
  function Lookup(m: SignerMap, a: Address): (r: Option<Signatory>)
    ensures r.Some? ==> r.value in m && r.value.address == a
  {
    if m == [] then None
    else if m[0].address == a then Some(m[0])
    else Lookup(m[1..], a)
  }

  /** A key is absent exactly when no entry carries it. */
  lemma {:induction false} LookupNoneIff(m: SignerMap, a: Address)
    ensures Lookup(m, a).None? <==> forall i :: 0 <= i < |m| ==> m[i].address != a
    decreases |m|
  {
    if m != [] && m[0].address != a {
      LookupNoneIff(m[1..], a);
      assert forall i :: 1 <= i < |m| ==> m[i] == m[1..][i - 1];
    }
  }

  /** `m[s.address] = s`: replaces the entry in place when the key exists,
      appends it otherwise. */
  function Put(m: SignerMap, s: Signatory): (r: SignerMap)
    ensures Lookup(r, s.address) == Some(s)
    ensures forall a :: a != s.address ==> Lookup(r, a) == Lookup(m, a)
    ensures forall x :: x in r ==> x == s || x in m
    ensures Lookup(m, s.address).None? ==> r == m + [s]
  {
    if m == [] then [s]
    else if m[0].address == s.address then
      var r := [s] + m[1..];
      assert r[1..] == m[1..];
      r
    else
      var rest := Put(m[1..], s);
      var r := [m[0]] + rest;
      assert r[1..] == rest;
      r
  }

  /** Writing under a key keeps the keys unique. */
  lemma {:induction false} PutKeysUnique(m: SignerMap, s: Signatory)
    requires KeysUnique(m)
    ensures KeysUnique(Put(m, s))
    decreases |m|
  {
    if m != [] && m[0].address != s.address {
      PutKeysUnique(m[1..], s);
      var r := Put(m, s);
      var rest := Put(m[1..], s);
      assert r == [m[0]] + rest;
      forall j | 0 < j < |r|
        ensures r[0].address != r[j].address
      {
        assert r[j] in rest;
        if r[j] != s {
          assert r[j] in m[1..];
          var k :| 0 <= k < |m[1..]| && m[1..][k] == r[j];
          assert m[k + 1] == r[j];
        }
      }
    }
  }

  /** For one signature: recover its signer from `hash` and keep it, with its
      weight, only when the signer's on-chain weight is nonzero. */
  function Recover(recover: (string, string) -> Address, weightOf: Address -> nat, hash: string, sig: string): (r: Option<Signatory>)
    ensures r.Some? <==> weightOf(recover(hash, sig)) != 0
    ensures r.Some? ==> r.value == Signatory(sig, weightOf(recover(hash, sig)), recover(hash, sig))
  {
    var address := recover(hash, sig);
    var weight := weightOf(address);
    if weight != 0 then Some(Signatory(sig, weight, address)) else None
  }

  /** The `Promise.all` over the request's signatures. */
  function RecoverAll(recover: (string, string) -> Address, weightOf: Address -> nat, hash: string, sigs: seq<string>): (r: seq<Option<Signatory>>)
    ensures |r| == |sigs|
    ensures forall i :: 0 <= i < |sigs| ==> r[i] == Recover(recover, weightOf, hash, sigs[i])
  {
    seq(|sigs|, i requires 0 <= i < |sigs| => Recover(recover, weightOf, hash, sigs[i]))
  }

  /** The map the aggregation loop builds: every kept signatory written under
      its address, in order. */
  function Fold(start: SignerMap, sigs: seq<Option<Signatory>>): SignerMap
    decreases |sigs|
  {
    if sigs == [] then start
    else
      var m := Fold(start, sigs[..|sigs| - 1]);
      var last := sigs[|sigs| - 1];
      if last.Some? then Put(m, last.value) else m
  }

  /** The total the aggregation loop accumulates: one term per kept signature. */
  function TotalWeight(sigs: seq<Option<Signatory>>): nat
    decreases |sigs|
  {
    if sigs == [] then 0
    else
      var last := sigs[|sigs| - 1];
      TotalWeight(sigs[..|sigs| - 1]) + (if last.Some? then last.value.weight else 0)
  }

  /** The sum of the weights of the entries of a map. */
  function MapWeight(m: SignerMap): nat
    decreases |m|
  {
    if m == [] then 0 else MapWeight(m[..|m| - 1]) + m[|m| - 1].weight
  }

  /** The loop of `componentDidMount` over the recovered signatures. */
  method Aggregate(start: SignerMap, sigs: seq<Option<Signatory>>) returns (signatories: SignerMap, totalWeight: nat)
    ensures signatories == Fold(start, sigs)
    ensures totalWeight == TotalWeight(sigs)
  {
    signatories := start;
    totalWeight := 0;
    for i := 0 to |sigs|
      invariant signatories == Fold(start, sigs[..i])
      invariant totalWeight == TotalWeight(sigs[..i])
    {
      assert sigs[..i + 1][..i] == sigs[..i];
      var sig := sigs[i];
      if sig.Some? {
        signatories := Put(signatories, sig.value);
        totalWeight := totalWeight + sig.value.weight;
      }
    }
    assert sigs[..|sigs|] == sigs;
  }

  predicate Touches(x: Option<Signatory>, a: Address)
  {
    x.Some? && x.value.address == a
  }

  /** Aggregating from a map with unique keys keeps the keys unique. */
  lemma {:induction false} FoldKeysUnique(start: SignerMap, sigs: seq<Option<Signatory>>)
    requires KeysUnique(start)
    ensures KeysUnique(Fold(start, sigs))
    decreases |sigs|
  {
    if sigs != [] {
      FoldKeysUnique(start, sigs[..|sigs| - 1]);
      if sigs[|sigs| - 1].Some? {
        PutKeysUnique(Fold(start, sigs[..|sigs| - 1]), sigs[|sigs| - 1].value);
      }
    }
  }

  /** An address no kept signature recovers to keeps its entry in the start map. */
  lemma {:induction false} UntouchedKeyUnchanged(start: SignerMap, sigs: seq<Option<Signatory>>, a: Address)
    requires forall i :: 0 <= i < |sigs| ==> !Touches(sigs[i], a)
    ensures Lookup(Fold(start, sigs), a) == Lookup(start, a)
    decreases |sigs|
  {
    if sigs != [] {
      UntouchedKeyUnchanged(start, sigs[..|sigs| - 1], a);
    }
  }

  /** The last kept signature for an address is the one stored under it. */
  lemma {:induction false} LastSignatureWins(start: SignerMap, sigs: seq<Option<Signatory>>, a: Address, j: nat)
    requires j < |sigs| && Touches(sigs[j], a)
    requires forall i :: j < i < |sigs| ==> !Touches(sigs[i], a)
    ensures Lookup(Fold(start, sigs), a) == sigs[j]
    decreases |sigs|
  {
    if j < |sigs| - 1 {
      LastSignatureWins(start, sigs[..|sigs| - 1], a, j);
    }
  }

  /** The signatories of a request are exactly its recovered signers of nonzero
      weight; under such a signer is the last of its signatures, with the
      signer's weight. */
  lemma RecoveredSignatories(recover: (string, string) -> Address, weightOf: Address -> nat, hash: string, sigs: seq<string>, a: Address)
    ensures var m := Fold([], RecoverAll(recover, weightOf, hash, sigs));
      && KeysUnique(m)
      && (Lookup(m, a).Some? <==> weightOf(a) != 0 && exists i :: 0 <= i < |sigs| && recover(hash, sigs[i]) == a)
      && (Lookup(m, a).Some? ==>
            exists j :: 0 <= j < |sigs| && recover(hash, sigs[j]) == a &&
              Lookup(m, a) == Some(Signatory(sigs[j], weightOf(a), a)) &&
              forall i :: j < i < |sigs| ==> recover(hash, sigs[i]) != a)
  {
    var xs := RecoverAll(recover, weightOf, hash, sigs);
    FoldKeysUnique([], xs);
    if weightOf(a) != 0 && exists i :: 0 <= i < |sigs| && recover(hash, sigs[i]) == a {
      var j :| 0 <= j < |sigs| && recover(hash, sigs[j]) == a;
      while exists i :: j < i < |sigs| && recover(hash, sigs[i]) == a
        invariant 0 <= j < |sigs| && recover(hash, sigs[j]) == a
        decreases |sigs| - j
      {
        var later :| j < later < |sigs| && recover(hash, sigs[later]) == a;
        j := later;
      }
      LastSignatureWins([], xs, a, j);
    } else {
      UntouchedKeyUnchanged([], xs, a);
    }
  }

  /** The total counts a signature once per occurrence: the same signature
      twice gives twice the signer's weight, with a single signatory. */
  lemma DuplicateSignatureCountsTwice(recover: (string, string) -> Address, weightOf: Address -> nat, hash: string, sig: string)
    requires weightOf(recover(hash, sig)) != 0
    ensures var xs := RecoverAll(recover, weightOf, hash, [sig, sig]);
      TotalWeight(xs) == 2 * weightOf(recover(hash, sig)) && |Fold([], xs)| == 1
  {
    var xs := RecoverAll(recover, weightOf, hash, [sig, sig]);
    var s := Signatory(sig, weightOf(recover(hash, sig)), recover(hash, sig));
    assert xs == [Some(s), Some(s)];
    assert xs[..1] == [Some(s)] && xs[..1][..0] == [];
    assert TotalWeight(xs[..1]) == s.weight;
    assert Fold([], xs[..1]) == [s];
    assert Fold([], xs) == Put([s], s) == [s];
  }

  /** When no two kept signatures share a signer, the total is the weight of
      the signatories map. */
  lemma {:induction false} DistinctSignersTotal(sigs: seq<Option<Signatory>>)
    requires forall i, j :: 0 <= i < j < |sigs| && sigs[i].Some? && sigs[j].Some? ==> sigs[i].value.address != sigs[j].value.address
    ensures TotalWeight(sigs) == MapWeight(Fold([], sigs))
    decreases |sigs|
  {
    if sigs != [] {
      var prefix := sigs[..|sigs| - 1];
      DistinctSignersTotal(prefix);
      var last := sigs[|sigs| - 1];
      if last.Some? {
        UntouchedKeyUnchanged([], prefix, last.value.address);
        var m := Fold([], prefix);
        assert Put(m, last.value) == m + [last.value];
        assert (m + [last.value])[..|m|] == m;
      }
    }
  }

  /** The signatures published with a transaction: those of every signatory
      other than `account`, in map order. */
  function OtherSignatures(m: SignerMap, account: Address): (r: seq<string>)
    ensures |r| <= |m|
    ensures forall i :: 0 <= i < |m| && m[i].address != account ==> m[i].signature in r
    ensures forall s :: s in r ==> exists i :: 0 <= i < |m| && m[i].address != account && m[i].signature == s
    ensures KeysUnique(m) ==> |r| == |m| - (if Lookup(m, account).Some? then 1 else 0)
  {
    if m == [] then []
    else
      var rest := OtherSignatures(m[1..], account);
      assert forall i :: 1 <= i < |m| ==> m[i] == m[1..][i - 1];
      if m[0].address != account then [m[0].signature] + rest else rest
  }

  /** `filter` then `map` keep the map's order: the signatures of two maps
      laid end to end are those of the first followed by those of the second. */
  lemma {:induction false} OtherSignaturesInOrder(m1: SignerMap, m2: SignerMap, account: Address)
    ensures OtherSignatures(m1 + m2, account) == OtherSignatures(m1, account) + OtherSignatures(m2, account)
    decreases |m1|
  {
    if m1 == [] {
      assert m1 + m2 == m2;
    } else {
      var rest := m1[1..];
      assert (m1 + m2)[1..] == rest + m2;
      assert (m1 + m2)[0] == m1[0];
      OtherSignaturesInOrder(rest, m2, account);
    }
  }

  /** A transaction as handed to the multisig contract's `submit`. */
  datatype Submission = Submission(destination: Address, value: Option<nat>, data: Option<string>, nonce: int, signatures: seq<string>)

  /** What the component passes to its children as status. */
  datatype SigningRequestData = SigningRequestData(signatories: SignerMap, totalWeight: nat, threshold: nat, ourWeight: nat)

  /** The title of `render`: the same precedence as a signing request's, over
      a record whose data and value may be absent. */
  function SignerTitle(inputs: Option<seq<ArgValue>>, request: RequestRecord): (t: Title)
    ensures t.NamedCall? <==> inputs.Some? && request.abi.Some?
    ensures t.UnknownCall? <==> !(inputs.Some? && request.abi.Some?) && Truthy(request.data)
    ensures t.Send? <==> !(inputs.Some? && request.abi.Some?) && !Truthy(request.data) && request.value.GetOr(0) != 0
    ensures t.NamedCall? ==> t.functionName == request.abi.value.name
    ensures t.destination == request.destination
  {
    TitleFor(inputs.Some?, request.abi, request.data, request.value.GetOr(0), request.destination)
  }

  /** Unlike a constructed signing request, a stored record without data can
      be titled as a send or as a bare call. */
  lemma SignerTitleWithoutData(inputs: Option<seq<ArgValue>>, request: RequestRecord)
    requires request.data.None?
    ensures SignerTitle(inputs, request) ==
      if inputs.Some? && request.abi.Some? then NamedCall(request.abi.value.name, request.destination, if request.value.GetOr(0) != 0 then Some(request.value.GetOr(0)) else None)
      else if request.value.GetOr(0) != 0 then Send(request.value.GetOr(0), request.destination)
      else BareCall(request.destination)
  {
  }

  /** `verifyMessage` with its failures removed; it is consulted only where
      every call resolved. */
  function RecoverOr(recover: (string, string) -> Option<Address>): (string, string) -> Address
  {
    (hash: string, sig: string) => recover(hash, sig).GetOr("")
  }

  /** The `keyholders` query with its rejections removed, likewise. */
  function WeightOr(keyholders: Address -> Option<nat>): Address -> nat
  {
    (a: Address) => keyholders(a).GetOr(0)
  }

  /** Whether every promise `componentDidMount` awaits resolves: each
      signature recovers and its signer's weight query resolves (else
      `Promise.all` rejects), and so do the threshold, the account and the
      account's weight. */
  predicate MountResolves(recover: (string, string) -> Option<Address>, keyholders: Address -> Option<nat>,
                          request: RequestRecord, chainThreshold: Option<nat>, account: Option<Address>)
  {
    && (forall i :: 0 <= i < |request.signatures| ==>
          recover(request.id, request.signatures[i]).Some? &&
          keyholders(recover(request.id, request.signatures[i]).value).Some?)
    && chainThreshold.Some? && account.Some? && keyholders(account.value).Some?
  }

  /** The signatures `onSignature` receives from one signing: the wallet's
      signature over the transaction hash, or none when the hash query rejects
      or the wallet refuses. */
  function SignatureOf(hash: Option<string>, signMessage: string -> Option<string>): (r: seq<string>)
    ensures |r| <= 1
    ensures |r| == 1 <==> hash.Some? && signMessage(hash.value).Some?
    ensures |r| == 1 ==> r[0] == signMessage(hash.value).value
  {
    if hash.Some? && signMessage(hash.value).Some? then [signMessage(hash.value).value] else []
  }

  /** The test of `onApprove` as written. `totalWeight + ourWeight` adds a
      number to a BigNumber, which has no `valueOf`, so both operands are
      converted to decimal strings and joined; `>=` then reads the joined digits
      back as a number. */
  function ReachesThresholdAsWritten(totalWeight: nat, ourWeight: nat, threshold: nat): bool
  {
    var joined := Decimal(totalWeight) + Decimal(ourWeight);
    assert forall i :: 0 <= i < |joined| ==> IsDecimalDigit(joined[i]);
    DecimalValue(joined) >= threshold
  }

  /** With a total of 2, a signer of weight 1 and a threshold of 5, the joined
      digits read 21, so the code as written offers to publish although the
      weights sum to 3. */
  lemma ConcatenatedWeightReachesThreshold()
    ensures ReachesThresholdAsWritten(2, 1, 5)
    ensures 2 + 1 < 5
  {
    assert Decimal(2) + Decimal(1) == "21";
  }

  /** The intended test of `onApprove`: the signer's weight added to the
      total reaches the threshold. */
  function ReachesThreshold(totalWeight: nat, ourWeight: nat, threshold: nat): bool
  {
    totalWeight + ourWeight >= threshold
  }

  class TransactionSigner {
    /** The ABI coder and hash the component's utilities stand for. */
    const codec: Codec
    const request: RequestRecord
    /** The decoded call arguments, set by the constructor when the data's
        selector is the ABI's. */
    const inputs: Option<seq<ArgValue>>
    var signatories: Option<SignerMap>
    var totalWeight: nat
    var threshold: nat
    var ourWeight: nat
    var showConfirmationDialog: bool
    var showSignOrSendDialog: bool
    var lastTxId: Option<string>
    /** The arguments of the calls made to the `onSignature` prop, in order. */
    var reportedSignatures: seq<string>
    /** The calls made to the contract's `submit`, in order. */
    var submissions: seq<Submission>

    /** `inputs` is the guarded decode of the record's call data. */
    predicate Valid()
    {
      inputs == DecodeCallData(codec, request.abi, request.data)
    }

    constructor (c: Codec, request: RequestRecord)
      ensures codec == c && this.request == request && Valid()
      ensures inputs == DecodeCallData(c, request.abi, request.data)
      ensures signatories.None? && totalWeight == 0 && threshold == 0 && ourWeight == 0
      ensures !showConfirmationDialog && !showSignOrSendDialog && lastTxId.None?
      ensures reportedSignatures == [] && submissions == []
    {
      codec := c;
      this.request := request;
      signatories := None;
      totalWeight, threshold, ourWeight := 0, 0, 0;
      showConfirmationDialog, showSignOrSendDialog := false, false;
      lastTxId := None;
      reportedSignatures, submissions := [], [];
      var decoded: Option<seq<ArgValue>> := None;
      if request.abi.Some? && Truthy(request.data) && |request.data.value| >= 10 {
        var abiSignature := Selector(c, request.abi.value);
        if request.data.value[..10] == abiSignature {
          decoded := Some(c.decode(request.abi.value.inputs, "0x" + request.data.value[10..]));
        }
      }
      inputs := decoded;
    }

    /** `componentDidMount`, given what each promise yields: `recover` is
        `verifyMessage` (`None` when it throws on a malformed signature),
        `keyholders` the contract's weight query, `chainThreshold` the
        threshold query and `account` the context's account (`None` for a
        rejection). When every one of them resolves, the signatories and the
        total are the aggregation over the signatures recovered against the
        request's `id`, and the threshold and the account's weight come from the
        chain. A single rejection skips the `setState`, so nothing changes. */
    method ComponentDidMount(recover: (string, string) -> Option<Address>, keyholders: Address -> Option<nat>,
                             chainThreshold: Option<nat>, account: Option<Address>)
      modifies this`signatories, this`totalWeight, this`threshold, this`ourWeight
      ensures MountResolves(recover, keyholders, request, chainThreshold, account) ==>
        var sigs := RecoverAll(RecoverOr(recover), WeightOr(keyholders), request.id, request.signatures);
        && signatories == Some(Fold(old(signatories).GetOr([]), sigs)) && totalWeight == TotalWeight(sigs)
        && threshold == chainThreshold.value && ourWeight == keyholders(account.value).value
      ensures !MountResolves(recover, keyholders, request, chainThreshold, account) ==>
        signatories == old(signatories) && totalWeight == old(totalWeight) &&
        threshold == old(threshold) && ourWeight == old(ourWeight)
    {
      if !MountResolves(recover, keyholders, request, chainThreshold, account) {
        return;
      }
      var sigs := RecoverAll(RecoverOr(recover), WeightOr(keyholders), request.id, request.signatures);
      var start := if signatories.Some? then signatories.value else [];
      var m, total := Aggregate(start, sigs);
      signatories := Some(m);
      totalWeight := total;
      threshold := chainThreshold.value;
      ourWeight := keyholders(account.value).value;
    }

    /** `sign`: opens the confirmation dialog. */
    method Sign()
      modifies this`showConfirmationDialog
      ensures showConfirmationDialog
    {
      showConfirmationDialog := true;
    }

    /** `onApprove`, given the signer's current on-chain weight (`None` when
        `getAddress` or `keyholders` rejects, which leaves everything as it
        was): when that weight would bring the total to the threshold it asks
        whether to publish, otherwise it signs at once. */
    method OnApprove(signerWeight: Option<nat>, txHash: (Address, Option<nat>, Option<string>, int) -> Option<string>,
                     signMessage: string -> Option<string>)
      modifies this`showConfirmationDialog, this`showSignOrSendDialog, this`reportedSignatures
      ensures signerWeight.None? ==>
        showConfirmationDialog == old(showConfirmationDialog) && showSignOrSendDialog == old(showSignOrSendDialog) &&
        reportedSignatures == old(reportedSignatures)
      ensures signerWeight.Some? ==> !showConfirmationDialog
      ensures signerWeight.Some? && totalWeight + signerWeight.value >= threshold ==>
        showSignOrSendDialog && reportedSignatures == old(reportedSignatures)
      ensures signerWeight.Some? && totalWeight + signerWeight.value < threshold ==>
        !showSignOrSendDialog &&
        reportedSignatures == old(reportedSignatures) + SignatureOf(txHash(request.destination, request.value, request.data, request.nonce), signMessage)
    {
      if signerWeight.None? {
        return;
      }
      if ReachesThreshold(totalWeight, signerWeight.value, threshold) {
        showConfirmationDialog := false;
        showSignOrSendDialog := true;
      } else {
        OnSignOnly(txHash, signMessage);
      }
    }

    /** `onSignOnly`: closes both dialogs before its first `await`, then reports
        the wallet's signature over the contract's transaction hash of the
        request. When `getTransactionHash` rejects or the wallet refuses to
        sign, the dialogs stay closed and no signature is reported. */
    method OnSignOnly(txHash: (Address, Option<nat>, Option<string>, int) -> Option<string>, signMessage: string -> Option<string>)
      modifies this`showConfirmationDialog, this`showSignOrSendDialog, this`reportedSignatures
      ensures !showConfirmationDialog && !showSignOrSendDialog
      ensures reportedSignatures ==
        old(reportedSignatures) + SignatureOf(txHash(request.destination, request.value, request.data, request.nonce), signMessage)
    {
      showConfirmationDialog := false;
      showSignOrSendDialog := false;
      var hash := txHash(request.destination, request.value, request.data, request.nonce);
      if hash.None? {
        return;
      }
      var sig := signMessage(hash.value);
      if sig.None? {
        return;
      }
      reportedSignatures := reportedSignatures + [sig.value];
    }

    /** `publish`, given the current `account` (`None` when `getAddress`
        rejects) and what `submit` yields (`None` for a rejected transaction):
        closes the publish dialog and, once signatories are known and the
        account is, submits the request with every other signatory's signature;
        the transaction id is recorded only when the submission resolves. */
    method Publish(account: Option<Address>, submit: Submission -> Option<string>)
      modifies this`showSignOrSendDialog, this`submissions, this`lastTxId
      ensures !showSignOrSendDialog
      ensures signatories.None? || account.None? ==> submissions == old(submissions) && lastTxId == old(lastTxId)
      ensures signatories.Some? && account.Some? ==>
        var s := Submission(request.destination, request.value, request.data, request.nonce, OtherSignatures(signatories.value, account.value));
        && submissions == old(submissions) + [s]
        && lastTxId == if submit(s).Some? then submit(s) else old(lastTxId)
    {
      showSignOrSendDialog := false;
      if signatories.None? || account.None? {
        return;
      }
      var sigs := OtherSignatures(signatories.value, account.value);
      var s := Submission(request.destination, request.value, request.data, request.nonce, sigs);
      submissions := submissions + [s];
      var tx := submit(s);
      if tx.Some? {
        lastTxId := tx;
      }
    }

    /** The confirmation dialog's Cancel button and its `onClose`. */
    method CancelConfirmation()
      modifies this`showConfirmationDialog
      ensures !showConfirmationDialog
    {
      showConfirmationDialog := false;
    }

    /** The publish dialog's `onClose`. */
    method CloseSignOrSend()
      modifies this`showSignOrSendDialog
      ensures !showSignOrSendDialog
    {
      showSignOrSendDialog := false;
    }

    /** The publish dialog's Cancel button, as written: it clears the
        confirmation flag, so the publish dialog stays as it was. */
    method CancelSignOrSend()
      modifies this`showConfirmationDialog
      ensures !showConfirmationDialog && showSignOrSendDialog == old(showSignOrSendDialog)
    {
      showConfirmationDialog := false;
    }

    /** The snackbar's `onClose`. */
    method CloseSnackbar()
      modifies this`lastTxId
      ensures lastTxId.None?
    {
      lastTxId := None;
    }

    /** The status handed to the children: present only once signatories are
        known and the threshold is nonzero. */
    function Status(): (d: Option<SigningRequestData>)
      reads this
      ensures d.Some? <==> signatories.Some? && threshold != 0
      ensures d.Some? ==> d.value == SigningRequestData(signatories.value, totalWeight, threshold, ourWeight)
    {
      if signatories.Some? && threshold != 0 then
        Some(SigningRequestData(signatories.value, totalWeight, threshold, ourWeight))
      else None
    }

    /** The title `render` shows: the function's name exactly when the data
        carries the ABI's selector. */
    function CurrentTitle(): (t: Title)
      requires Valid()
      ensures t.NamedCall? <==> DecodeCallData(codec, request.abi, request.data).Some?
      ensures t.UnknownCall? <==> DecodeCallData(codec, request.abi, request.data).None? && Truthy(request.data)
      ensures t.destination == request.destination
    {
      SignerTitle(inputs, request)
    }
  }
}
