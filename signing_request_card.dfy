/** `MultisigSigningRequestCard.tsx`: which of the card's actions are enabled
    and which of its rows are shown, given the status the signer exposes. */
module SigningRequestCard {
  import opened Wrappers
  import opened Js
  import opened Abi
  import opened TransactionSigning

  /** Sign is offered exactly while the weight is short of the threshold: the
      negation of the button's `disabled` expression. */
  function SignEnabled(status: Option<SigningRequestData>): (b: bool)
    ensures b <==> status.Some? && status.value.totalWeight < status.value.threshold
  {
    !(status.None? || status.value.totalWeight >= status.value.threshold)
  }

  /** Send is offered exactly once the weight reaches the threshold. */
  function SendEnabled(status: Option<SigningRequestData>): (b: bool)
    ensures b <==> status.Some? && status.value.totalWeight >= status.value.threshold
  {
    !(status.None? || status.value.totalWeight < status.value.threshold)
  }

  /** With a status exactly one action is enabled; without one, neither is. */
  lemma ExactlyOneAction(status: Option<SigningRequestData>)
    ensures status.Some? ==> SignEnabled(status) != SendEnabled(status)
    ensures status.None? ==> !SignEnabled(status) && !SendEnabled(status)
  {
  }

  /** The card's subheader, `totalWeight + "/" + threshold + " signature weight"`. */
  function Subheader(status: Option<SigningRequestData>): (h: Option<string>)
    ensures h.Some? <==> status.Some?
    ensures h.Some? ==>
      h.value == Decimal(status.value.totalWeight) + "/" + Decimal(status.value.threshold) + " signature weight"
  {
    if status.Some? then
      Some(Decimal(status.value.totalWeight) + "/" + Decimal(status.value.threshold) + " signature weight")
    else None
  }

  /** The length of the leading run of decimal digits. */
  function DigitRun(s: string): (n: nat)
    ensures n <= |s|
    decreases |s|
  {
    if s != [] && IsDecimalDigit(s[0]) then 1 + DigitRun(s[1..]) else 0
  }

  /** Digits followed by `/`: the run ends at the slash. */
  lemma {:induction false} DigitRunStopsAtSlash(digits: string, rest: string)
    requires forall i :: 0 <= i < |digits| ==> IsDecimalDigit(digits[i])
    ensures DigitRun(digits + "/" + rest) == |digits|
    decreases |digits|
  {
    if digits != [] {
      assert (digits + "/" + rest)[1..] == digits[1..] + "/" + rest;
      DigitRunStopsAtSlash(digits[1..], rest);
    }
  }

  /** The subheader can be read back: two statuses with the same subheader
      have the same total weight and the same threshold. */
  lemma SubheaderShowsWeights(s1: SigningRequestData, s2: SigningRequestData)
    requires Subheader(Some(s1)) == Subheader(Some(s2))
    ensures s1.totalWeight == s2.totalWeight && s1.threshold == s2.threshold
  {
    var t1, t2 := Decimal(s1.totalWeight), Decimal(s2.totalWeight);
    var u1 := Decimal(s1.threshold) + " signature weight";
    var u2 := Decimal(s2.threshold) + " signature weight";
    var h := Subheader(Some(s1)).value;
    assert h == t1 + "/" + u1 == t2 + "/" + u2;
    DigitRunStopsAtSlash(t1, u1);
    DigitRunStopsAtSlash(t2, u2);
    assert t1 == h[..|t1|] && t2 == h[..|t2|];
    assert u1 == h[|t1| + 1..] && u2 == h[|t2| + 1..];
    assert Decimal(s1.threshold) == u1[..|u1| - 17] && Decimal(s2.threshold) == u2[..|u2| - 17];
    DecimalRoundTrip(s1.totalWeight);
    DecimalRoundTrip(s2.totalWeight);
    DecimalRoundTrip(s1.threshold);
    DecimalRoundTrip(s2.threshold);
  }

  /** The Data row is shown only for decoded inputs with a known ABI. */
  function DataRowShown(inputs: Option<seq<ArgValue>>, abi: Option<Fragment>): (b: bool)
    ensures b <==> inputs.Some? && abi.Some?
  {
    inputs.Some? && abi.Some?
  }

  /** With the signer's guarded decode as `inputs`, the Data row is shown
      exactly when the request's data begins with its ABI's selector. */
  lemma DataRowShownIffSelector(c: Codec, request: RequestRecord)
    ensures DataRowShown(DecodeCallData(c, request.abi, request.data), request.abi) <==>
      request.abi.Some? && request.data.Some? && |request.data.value| >= 10 &&
      request.data.value[..10] == Selector(c, request.abi.value)
  {
  }

  /** For a constructed signer the Data row and the named title go together. */
  lemma DataRowFollowsTitle(signer: TransactionSigner)
    requires signer.Valid()
    ensures DataRowShown(signer.inputs, signer.request.abi) <==> signer.CurrentTitle().NamedCall?
  {
  }

  /** The intended `onApprove` test offers to publish exactly when the card,
      once the new signature's weight is counted, would enable Send. */
  lemma PublishOfferedIffSendWouldBe(signatories: SignerMap, totalWeight: nat, ourWeight: nat, threshold: nat)
    ensures ReachesThreshold(totalWeight, ourWeight, threshold) <==>
      SendEnabled(Some(SigningRequestData(signatories, totalWeight + ourWeight, threshold, ourWeight)))
  {
  }

  /** Tied to the signer: Send is enabled exactly when signatories are known,
      the threshold is nonzero and the total weight has reached it. */
  lemma SendFollowsSignerState(signer: TransactionSigner)
    ensures SendEnabled(signer.Status()) <==>
      signer.signatories.Some? && signer.threshold != 0 && signer.totalWeight >= signer.threshold
  {
  }
}
