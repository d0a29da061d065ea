/** Ethereum values the core handles, and the library primitives it calls
    without implementing them: keccak-256 of a canonical function signature and
    the contract ABI coder. Those primitives are fields of `Codec`, passed in as
    parameters; the function selector and the guarded decode of call data, which
    the core computes from them, are defined here once. */
module Abi {
  import opened Wrappers
  import opened Js

  /** A hex account or contract address, as a string. */
  type Address = string

  /** One parameter of an ABI entry: its name and its Solidity type string. */
  datatype Param = Param(name: string, paramType: string)

  /** One ABI entry as the ethers library parses it. `kind` is its `type` member
      ("function", "event", "constructor", ...); `constant` is present only on
      the entries ethers parses as function fragments. */
  datatype Fragment = Fragment(kind: string, name: string, inputs: seq<Param>, constant: Option<bool>)

  /** A decoded or user-entered argument value: string, byte array, big number or null. */
  datatype ArgValue = StringArg(text: string) | BytesArg(bytes: seq<bv8>) | NumberArg(number: int) | NullArg

  /** The primitives used and not implemented:
      - `digest(f)` is `id(formatSignature(f))`, the keccak-256 of the canonical
        signature of `f` as a hex string;
      - `encode(params, args)` is `defaultAbiCoder.encode`, `None` when it throws;
      - `decode(params, hex)` is `defaultAbiCoder.decode`. */
  datatype Codec = Codec(
    digest: Fragment -> string,
    encode: (seq<Param>, seq<ArgValue>) -> Option<string>,
    decode: (seq<Param>, string) -> seq<ArgValue>)

  /** What `id` returns: `0x` and 64 lowercase hex digits. */
  predicate IsDigest(d: string)
  {
    |d| == 66 && StartsWith(d, "0x") && forall i :: 2 <= i < 66 ==> IsLowerHexDigit(d[i])
  }

  ghost predicate ValidCodec(c: Codec)
  {
    forall f :: IsDigest(c.digest(f))
  }

  /** The hypothesis that decoding undoes a successful encoding, whose output
      starts with `0x`. It is assumed by no member; lemmas that need it take it
      as a precondition. */
  ghost predicate DecodesEncoding(c: Codec)
  {
    forall ps, xs :: c.encode(ps, xs).Some? ==>
      StartsWith(c.encode(ps, xs).value, "0x") && c.decode(ps, c.encode(ps, xs).value) == xs
  }

  /** `id(formatSignature(f)).substring(0, 10).toLowerCase()`: the function
      selector (the first 4 bytes of the signature's hash) as `0x` and 8 hex
      digits, following the "Function Selector" section of the Solidity Contract
      ABI Specification. */
  function Selector(c: Codec, f: Fragment): (s: string)
    ensures forall i :: 0 <= i < |s| ==> !IsUpper(s[i])
    ensures ValidCodec(c) ==>
      |s| == 10 && StartsWith(s, "0x") && forall i :: 2 <= i < 10 ==> IsLowerHexDigit(s[i])
  {
    var s := ToLower(Prefix(c.digest(f), 10));
    assert ValidCodec(c) ==> IsDigest(c.digest(f));
    s
  }

  /** The guarded decode shared by `SigningRequest.inputs()` and the
      `TransactionSigner` constructor: call data is decoded against `abi` only
      when it holds at least a selector and that selector is `abi`'s. */
  function DecodeCallData(c: Codec, abi: Option<Fragment>, data: Option<string>): (r: Option<seq<ArgValue>>)
    ensures r.Some? <==>
      abi.Some? && data.Some? && |data.value| >= 10 && data.value[..10] == Selector(c, abi.value)
    ensures r.Some? ==> r.value == c.decode(abi.value.inputs, "0x" + data.value[10..])
  {
    if abi.Some? && Truthy(data) && |data.value| >= 10 then
      var abiSignature := Selector(c, abi.value);
      if Slice(data.value, 0, 10) == abiSignature then
        Some(c.decode(abi.value.inputs, "0x" + SliceFrom(data.value, 10)))
      else None
    else None
  }

  /** Call data whose first ten characters contain an upper-case letter is never
      decoded, whatever the ABI: the selector it is compared with is lower case. */
  lemma UppercasePrefixNeverDecodes(c: Codec, abi: Option<Fragment>, data: string, k: nat)
    requires k < 10 <= |data| && IsUpper(data[k])
    ensures DecodeCallData(c, abi, Some(data)) == None
  {
    if abi.Some? {
      assert data[..10][k] == data[k];
    }
  }
}
