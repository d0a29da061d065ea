/** The signing-request record of `BackendSchema.tsx`: construction with its
    validation and defaults, the guarded decode of its call data, and the
    precedence of its title. */
module BackendSchema {
  import opened Wrappers
  import opened Js
  import opened Abi

  /** A proposed multisig transaction with the signatures gathered so far.
      `value` is in wei; `data` is the call data as a hex string. */
  datatype SigningRequest = SigningRequest(
    id: Option<string>,
    destination: Address,
    value: nat,
    data: string,
    abi: Option<Fragment>,
    nonce: int,
    signatures: seq<string>,
    description: Option<string>)

  /** The constructor's argument object; `None` is an omitted member. */
  datatype RequestArgs = RequestArgs(
    id: Option<string>,
    destination: Address,
    value: Option<nat>,
    data: Option<string>,
    inputs: Option<seq<ArgValue>>,
    abi: Option<Fragment>,
    nonce: int,
    signatures: seq<string>,
    description: Option<string>)

  /** Why construction throws. */
  datatype ConstructError = BothDataAndInputs | InputsWithoutAbi | EncodingError

  /** `new SigningRequest(args)`. Raw `data` and `inputs` exclude each other,
      `inputs` need an `abi`, and with both `inputs` and `abi` the call data is
      the selector followed by the encoded arguments. */
  function NewSigningRequest(c: Codec, args: RequestArgs): (r: Result<SigningRequest, ConstructError>)
    ensures r == Err(BothDataAndInputs) <==> Truthy(args.data) && args.inputs.Some?
    ensures r == Err(InputsWithoutAbi) <==> !Truthy(args.data) && args.inputs.Some? && args.abi.None?
    ensures r == Err(EncodingError) <==>
      !Truthy(args.data) && args.inputs.Some? && args.abi.Some? &&
      c.encode(args.abi.value.inputs, args.inputs.value).None?
    ensures r.Ok? ==>
      && r.value.id == args.id
      && r.value.destination == args.destination
      && r.value.nonce == args.nonce
      && r.value.signatures == args.signatures
      && r.value.description == args.description
      && r.value.abi == args.abi
    ensures r.Ok? ==> r.value.value == args.value.GetOr(0)
    ensures r.Ok? && args.inputs.None? ==>
      r.value.data == if Truthy(args.data) then args.data.value else "0x"
    ensures r.Ok? && args.inputs.Some? ==>
      args.abi.Some? && c.encode(args.abi.value.inputs, args.inputs.value).Some? &&
      r.value.data == Selector(c, args.abi.value) + SliceFrom(c.encode(args.abi.value.inputs, args.inputs.value).value, 2)
    ensures r.Ok? && ValidCodec(c) ==> r.value.data != ""
  {
    if Truthy(args.data) && args.inputs.Some? then
      Err(BothDataAndInputs)
    else if args.inputs.Some? && args.abi.None? then
      Err(InputsWithoutAbi)
    else
      var value := if args.value.Some? && args.value.value != 0 then args.value.value else 0;
      if args.inputs.Some? && args.abi.Some? then
        match c.encode(args.abi.value.inputs, args.inputs.value)
        case None => Err(EncodingError)
        case Some(encoded) =>
          var abiSignature := Selector(c, args.abi.value);
          Ok(SigningRequest(args.id, args.destination, value, abiSignature + SliceFrom(encoded, 2),
                            args.abi, args.nonce, args.signatures, args.description))
      else
        Ok(SigningRequest(args.id, args.destination, value, if Truthy(args.data) then args.data.value else "0x",
                          args.abi, args.nonce, args.signatures, args.description))
  }

  /** `request.inputs()`: the decoded arguments, or `null` when there is no
      ABI, the data is too short to hold a selector, or its selector is not the
      ABI's. */
  function Inputs(c: Codec, r: SigningRequest): (x: Option<seq<ArgValue>>)
    ensures x.None? <==> r.abi.None? || |r.data| < 10 || r.data[..10] != Selector(c, r.abi.value)
    ensures x.Some? ==> x.value == c.decode(r.abi.value.inputs, "0x" + r.data[10..])
  {
    DecodeCallData(c, r.abi, Some(r.data))
  }

  /** A title without its markup. `amount` is the " with N ether" suffix,
      present exactly when the value is nonzero. */
  datatype Title =
    | NamedCall(functionName: string, destination: Address, amount: Option<nat>)
    | UnknownCall(destination: Address, amount: Option<nat>)
    | Send(ether: nat, destination: Address)
    | BareCall(destination: Address)

  /** The four-way title precedence, shared by `SigningRequest.title()` and
      `TransactionSigner.render()`: a decoded call with a known ABI names the
      function; otherwise call data makes an unknown call; otherwise a nonzero
      value is a plain send; otherwise it is a bare call. */
  function TitleFor(decoded: bool, abi: Option<Fragment>, data: Option<string>, value: nat, destination: Address): (t: Title)
    ensures t.NamedCall? <==> decoded && abi.Some?
    ensures t.UnknownCall? <==> !(decoded && abi.Some?) && Truthy(data)
    ensures t.Send? <==> !(decoded && abi.Some?) && !Truthy(data) && value != 0
    ensures t.BareCall? <==> !(decoded && abi.Some?) && !Truthy(data) && value == 0
    ensures t.NamedCall? ==> t.functionName == abi.value.name
    ensures t.destination == destination
    ensures (t.NamedCall? || t.UnknownCall?) ==> t.amount == if value != 0 then Some(value) else None
    ensures t.Send? ==> t.ether == value
  {
    var amount := if value != 0 then Some(value) else None;
    if decoded && abi.Some? then NamedCall(abi.value.name, destination, amount)
    else if Truthy(data) then UnknownCall(destination, amount)
    else if value != 0 then Send(value, destination)
    else BareCall(destination)
  }

  /** `request.title()`. */
  function RequestTitle(c: Codec, r: SigningRequest): (t: Title)
    ensures t.NamedCall? <==> Inputs(c, r).Some?
    ensures t.UnknownCall? <==> Inputs(c, r).None? && r.data != ""
    ensures t.Send? <==> Inputs(c, r).None? && r.data == "" && r.value != 0
    ensures t.NamedCall? ==> t.functionName == r.abi.value.name
    ensures t.destination == r.destination
  {
    TitleFor(Inputs(c, r).Some?, r.abi, Some(r.data), r.value, r.destination)
  }

  /** Round trip: a request built from `inputs` and an `abi` decodes back to
      those inputs, provided decoding undoes encoding. */
  lemma ConstructedFromInputsDecodes(c: Codec, args: RequestArgs)
    requires ValidCodec(c) && DecodesEncoding(c)
    requires NewSigningRequest(c, args).Ok? && args.inputs.Some?
    ensures Inputs(c, NewSigningRequest(c, args).value) == Some(args.inputs.value)
  {
    var r := NewSigningRequest(c, args).value;
    var abi := args.abi.value;
    var encoded := c.encode(abi.inputs, args.inputs.value).value;
    var selector := Selector(c, abi);
    assert r.data == selector + encoded[2..];
    assert r.data[..10] == selector;
    assert r.data[10..] == encoded[2..];
    assert "0x" + encoded[2..] == encoded;
  }

  /** A request built from `inputs` and an `abi` starts its data with the
      ABI's selector, so `inputs()` is not null and the title names the
      function, whatever the decoder does. */
  lemma ConstructedFromInputsIsNamed(c: Codec, args: RequestArgs)
    requires ValidCodec(c)
    requires NewSigningRequest(c, args).Ok? && args.inputs.Some?
    ensures Inputs(c, NewSigningRequest(c, args).value).Some?
    ensures RequestTitle(c, NewSigningRequest(c, args).value) == NamedCall(args.abi.value.name, args.destination,
      if NewSigningRequest(c, args).value.value != 0 then Some(NewSigningRequest(c, args).value.value) else None)
  {
    var r := NewSigningRequest(c, args).value;
    assert r.data[..10] == Selector(c, args.abi.value);
  }

  /** After construction the data is never empty, so only the named-call and
      unknown-call titles occur. */
  lemma ConstructedTitleIsCall(c: Codec, args: RequestArgs)
    requires ValidCodec(c) && NewSigningRequest(c, args).Ok?
    ensures var t := RequestTitle(c, NewSigningRequest(c, args).value); t.NamedCall? || t.UnknownCall?
  {
  }

  /** A plain transfer of one ether with data `0x` is titled as a call of an
      unknown function with that amount, not as a send: `0x` is a truthy string. */
  lemma PlainTransferTitledUnknownCall(c: Codec, destination: Address, nonce: int)
    ensures
      var args := RequestArgs(None, destination, Some(1000000000000000000), Some("0x"), None, None, nonce, [], None);
      NewSigningRequest(c, args).Ok? &&
      RequestTitle(c, NewSigningRequest(c, args).value) == UnknownCall(destination, Some(1000000000000000000))
  {
  }
}
