# metamultisig frontend core, in Dafny

metamultisig is a web frontend for a weighted multisig wallet: keyholders
sign a proposed transaction ("signing request") off-chain, the signatures
are gathered, and once their combined weight reaches the wallet's
threshold someone publishes the transaction with the others' signatures.
This project models the rules under the frontend's views and proves
properties about them. It covers:

- the signing-request record: construction, call-data gating by function
  selector, and title precedence (`BackendSchema`, `Abi`);
- the lookup of the ABI entry named by a selector (`FunctionDefinitions`);
- signature aggregation, the sign-or-publish decision, publication and the
  dialog flags (`TransactionSigning`);
- the card's button enablement, subheader and data row
  (`SigningRequestCard`);
- the keyholder registry fed by `KeyholderChanged` logs (`Watcher`);
- the ABI form logic: entry selection and sorting (`AbiPicker`), the
  per-input field array (`AbiEntry`), type dispatch (`AbiFields`), and the
  address, bytes32 and integer inputs (`AddressFields`, `Bytes32Fields`,
  `IntFields`);
- the address label (`AddressRenderers`).

`Js` holds the JavaScript semantics the code relies on: truthiness, `slice`
with negative and overlong indices, `substring`, ASCII `toLowerCase`, and
decimal rendering. `Wrappers` holds `Option` and `Result`.

## What is a parameter

The library primitives are not implemented. They are fields of `Abi.Codec`
or function-typed parameters:
- keccak-256 of a canonical signature (`id(formatSignature(f))`);
- the ABI coder;
- ECDSA recovery (`verifyMessage`) and `signMessage`;
- the contract's `keyholders`, `threshold`, `getTransactionHash` and
  `submit`;
- ENS `resolveName`/`lookupAddress`;
- the EIP-55 normalisation `getAddress`.

Two hypotheses are stated as predicates, never assumed:
- Abi.ValidCodec: each digest is `0x` and 64 lower-case hex digits.
- Abi.DecodesEncoding: decoding undoes a successful encoding.

Lemmas that need them take them as preconditions.

In `TransactionSigning`, a chain call, a wallet request or `verifyMessage`
can fail: the promise rejects or the call throws. Such a result is an
`Option`, where `None` is the failure. The signer's methods then stop where
the source's `async` function stops.

Callbacks are opaque `CallbackId` handles. A class that invokes callbacks
records the calls in a log field: watcher notifications, `onSignature` and
`submit` calls, and the address field's `onChange` reports. The bytes32 and
integer fields' `onChange` and the picker's submit forwarding are functions:
they return the one call they make as an `Option`.

## Code versus documented behaviour

The model follows the code where it differs from the behaviour documented for it:

- **Duplicate signatures.** Aggregation is documented as
  idempotent, with duplicates collapsing by address. In the code the total
  adds one term per signature, so the same signature twice counts twice
  (`TransactionSigning.DuplicateSignatureCountsTwice`). The signatories map
  keeps one entry per address: the last one.
- **Recovery hash.** Signers are documented as recovered against
  the contract's transaction hash. The code recovers against the stored
  `request.id` and signs `getTransactionHash(...)`. The model keeps the two
  hashes apart.
- **Send title.** An unsigned plain transfer is documented as titled
  "send N ether". After construction the data is never empty: it
  defaults to the truthy `0x`. So a constructed request is titled as a call
  of an unknown function (`BackendSchema.PlainTransferTitledUnknownCall`).
- **Publish.** The publish branch is documented as also signing. In the
  code, `onApprove` only opens the publish dialog, and `publish` submits
  without a new signature.

Other behaviour is modelled as written:

- `removeMultisigWatch` deletes from the owner watches.
- The publish dialog's Cancel clears the confirmation flag.
- `ABIField` passes `signed = true` for `uint256` and `signed = false` for
  `int256`. `IntField` strips a leading minus exactly when `signed` is
  set, so in effect `uint256` inputs lose a minus and `int256` inputs keep
  it (`IntFields.UnsignedTypeDropsMinus`).
- The bytes32 pattern is unanchored, and its range `A-f` admits `G`-`Z` and
  ``[\]^_` `` (`Bytes32Fields.NonHexTextAccepted`).
- `AddressField.onChange` tests the previous `value` prop, not the new
  text, to decide on resolution.

## Model

| member | source | states |
|---|---|---|
| Js.SliceIndex | src/AddressRenderer.tsx:66 | how `slice` maps an index: negative counts from the end, clamped to the string |
| Js.Slice | src/AddressRenderer.tsx:66 | `slice` is never longer than the string and is the plain subsequence for in-range indices |
| Js.SliceFrom | src/BackendSchema.tsx:41 | `slice(start)` is the suffix from `start`, empty past the end |
| Js.Prefix | src/BackendSchema.tsx:40 | `substring(0, n)` is a prefix of `s`, of length `n` or all of a shorter `s` |
| Js.ToLower | src/BackendSchema.tsx:40 | `toLowerCase` keeps the length, maps each character, and leaves no upper-case letter |
| Js.Decimal | src/MultisigSigningRequestCard.tsx:71 | a number's rendering is a non-empty string of decimal digits with no leading zero |
| Js.DecimalRoundTrip | src/MultisigSigningRequestCard.tsx:71 | the digits rendered denote the number rendered |
| Abi.Selector | src/findFunctionDefinition.ts:14 | the selector has no upper-case letter and, for a valid digest, is `0x` and 8 lower-case hex digits |
| Abi.DecodeCallData | src/BackendSchema.tsx:47-56 | decoding happens iff the ABI and data are present, the data has at least 10 characters and its first 10 are the selector; it decodes `0x` plus the rest |
| Abi.UppercasePrefixNeverDecodes | src/BackendSchema.tsx:50-51 | data with an upper-case letter in its first 10 characters is never decoded |
| BackendSchema.NewSigningRequest | src/BackendSchema.tsx:25-45 | each of the three errors iff its condition, in the order checked; the fields are copied; value defaults to 0; data is the given text or `0x`, or selector + encoding without `0x`; never empty for a valid codec |
| BackendSchema.Inputs | src/BackendSchema.tsx:47-56 | `inputs()` is null iff no ABI, data shorter than 10, or a prefix other than the selector; otherwise the decoded rest |
| BackendSchema.TitleFor | src/BackendSchema.tsx:58-74 | the four title forms, each iff its precedence condition, with the function name, destination and amount they carry |
| BackendSchema.RequestTitle | src/BackendSchema.tsx:58-74 | a request names its function iff its inputs decode; otherwise non-empty data is an unknown call; otherwise a nonzero value is a send |
| BackendSchema.ConstructedFromInputsDecodes | src/BackendSchema.tsx:39-53 | a request built from inputs and an ABI decodes back to those inputs when decoding undoes encoding |
| BackendSchema.ConstructedFromInputsIsNamed | src/BackendSchema.tsx:39-73 | for any decoder, a request built from inputs and an ABI has non-null `inputs()` and is titled as a call of that function with its amount |
| BackendSchema.ConstructedTitleIsCall | src/BackendSchema.tsx:42-73 | a constructed request is titled only as a named or an unknown call |
| BackendSchema.PlainTransferTitledUnknownCall | src/BackendSchema.tsx:43-68 | a one-ether transfer with data `0x` is titled as an unknown call with that amount |
| TransactionSigning.Lookup | src/TransactionSigner.tsx:102 | a found entry is in the map under the key looked up |
| TransactionSigning.LookupNoneIff | src/TransactionSigner.tsx:102 | a key is absent iff no entry carries it |
| TransactionSigning.Put | src/TransactionSigner.tsx:102 | after `m[a] = s` the key holds `s`, other keys are unchanged, no entry is invented, a new key is appended last |
| TransactionSigning.PutKeysUnique | src/TransactionSigner.tsx:102 | writing a key keeps keys unique |
| TransactionSigning.Recover | src/TransactionSigner.tsx:90-96 | a signature is kept iff its signer's weight is nonzero, with signature, weight and address |
| TransactionSigning.RecoverAll | src/TransactionSigner.tsx:90-96 | one recovery result per signature, in order |
| TransactionSigning.Aggregate | src/TransactionSigner.tsx:98-105 | the loop yields the folded map and the per-signature total |
| TransactionSigning.FoldKeysUnique | src/TransactionSigner.tsx:98-105 | aggregation keeps keys unique |
| TransactionSigning.UntouchedKeyUnchanged | src/TransactionSigner.tsx:100-105 | an address no kept signature recovers to keeps its start entry |
| TransactionSigning.LastSignatureWins | src/TransactionSigner.tsx:100-105 | the last kept signature for an address is the one stored |
| TransactionSigning.RecoveredSignatories | src/TransactionSigner.tsx:89-105 | signatories are exactly the recovered signers of nonzero weight, each with its last signature and its weight, keys unique |
| TransactionSigning.DuplicateSignatureCountsTwice | src/TransactionSigner.tsx:100-105 | one signature given twice counts its weight twice, with one signatory |
| TransactionSigning.DistinctSignersTotal | src/TransactionSigner.tsx:100-105 | with distinct signers the total is the weight of the signatories map |
| TransactionSigning.OtherSignatures | src/TransactionSigner.tsx:164-166 | the published signatures are exactly those of the other signatories; one fewer than the map iff the account signed |
| TransactionSigning.OtherSignaturesInOrder | src/TransactionSigner.tsx:164-166 | the signatures keep map order: the signatures of two maps laid end to end are the first map's followed by the second's |
| TransactionSigning.SignerTitle | src/TransactionSigner.tsx:179-190 | the function is named iff inputs were decoded and the ABI is present; otherwise truthy data is an unknown call; otherwise a nonzero value is a send |
| TransactionSigning.SignerTitleWithoutData | src/TransactionSigner.tsx:179-190 | a stored record without data can be titled as a send or a bare call |
| TransactionSigning.ConcatenatedWeightReachesThreshold | src/TransactionSigner.tsx:131 | as written, total 2, weight 1 and threshold 5 pass the publish test although 2 + 1 < 5 |
| TransactionSigning.TransactionSigner.constructor | src/TransactionSigner.tsx:67-85 | `inputs` is the guarded decode of the record's data, kept as an invariant; state starts empty with both dialogs closed |
| TransactionSigning.TransactionSigner.ComponentDidMount | src/TransactionSigner.tsx:88-118 | when every recovery and chain call resolves, signatories and total are the aggregation over signatures recovered against `id`, and threshold and our weight come from the chain; one failure leaves all four unchanged |
| TransactionSigning.TransactionSigner.Sign | src/TransactionSigner.tsx:121-125 | opens the confirmation dialog |
| TransactionSigning.TransactionSigner.OnApprove | src/TransactionSigner.tsx:127-139 | a failed weight query changes nothing; at or over the threshold it swaps dialogs without signing; below it, it signs as `OnSignOnly` does |
| TransactionSigning.TransactionSigner.OnSignOnly | src/TransactionSigner.tsx:141-153 | closes both dialogs; reports the wallet's signature over the contract's transaction hash, or nothing when the hash query or the signing fails |
| TransactionSigning.TransactionSigner.Publish | src/TransactionSigner.tsx:155-171 | closes the dialog; with signatories and an account it submits the request with the others' signatures and records the id only if the submission resolves; otherwise nothing else |
| TransactionSigning.TransactionSigner.CancelConfirmation | src/TransactionSigner.tsx:194-200 | closes the confirmation dialog |
| TransactionSigning.TransactionSigner.CloseSignOrSend | src/TransactionSigner.tsx:204 | closes the publish dialog |
| TransactionSigning.TransactionSigner.CancelSignOrSend | src/TransactionSigner.tsx:212 | clears the confirmation flag and leaves the publish dialog open |
| TransactionSigning.TransactionSigner.CloseSnackbar | src/TransactionSigner.tsx:224 | forgets the last transaction id |
| TransactionSigning.TransactionSigner.Status | src/TransactionSigner.tsx:232 | status is present iff signatories are known and the threshold is nonzero, and then carries the four values |
| TransactionSigning.TransactionSigner.CurrentTitle | src/TransactionSigner.tsx:179-190 | the title names the function iff the data carries the ABI's selector; otherwise truthy data is an unknown call |
| SigningRequestCard.SignEnabled | src/MultisigSigningRequestCard.tsx:102 | Sign is enabled iff status is present and the weight is below the threshold |
| SigningRequestCard.SendEnabled | src/MultisigSigningRequestCard.tsx:103 | Send is enabled iff status is present and the weight reaches the threshold |
| SigningRequestCard.ExactlyOneAction | src/MultisigSigningRequestCard.tsx:102-103 | with status exactly one action is enabled; without, none |
| SigningRequestCard.Subheader | src/MultisigSigningRequestCard.tsx:71 | the subheader is present iff status is, and is the decimal total, `/`, the decimal threshold and " signature weight" |
| SigningRequestCard.SubheaderShowsWeights | src/MultisigSigningRequestCard.tsx:71 | the subheader can be read back: equal subheaders mean equal totals and equal thresholds |
| SigningRequestCard.DataRowShown | src/MultisigSigningRequestCard.tsx:90-97 | the Data row is shown iff inputs were decoded and the ABI is present |
| SigningRequestCard.DataRowShownIffSelector | src/MultisigSigningRequestCard.tsx:90-97 | with the signer's guarded decode, the row is shown iff the data has at least 10 characters and begins with the ABI's selector |
| SigningRequestCard.DataRowFollowsTitle | src/MultisigSigningRequestCard.tsx:90-97 | the Data row is shown iff the signer's title names the function |
| SigningRequestCard.SendFollowsSignerState | src/MultisigSigningRequestCard.tsx:103 | Send is enabled iff the signer knows its signatories, has a nonzero threshold and the total reaches it |
| SigningRequestCard.PublishOfferedIffSendWouldBe | src/TransactionSigner.tsx:131 | the intended test offers to publish iff Send would be enabled once the new weight is counted |
| Watcher.ApplyLog | src/MultisigWatcher.tsx:59-71 | a new wallet starts empty; weight 0 deletes the keyholder, otherwise sets it; every other wallet and keyholder is unchanged |
| Watcher.ApplyLogs | src/MultisigWatcher.tsx:57-80 | applying logs never drops a wallet |
| Watcher.ApplyLogsKeepsWeightsNonzero | src/MultisigWatcher.tsx:66-71 | no stored weight is ever 0 |
| Watcher.LastLogDecides | src/MultisigWatcher.tsx:58-71 | the last log for a pair decides whether and with which weight it is stored |
| Watcher.UntouchedPairUnchanged | src/MultisigWatcher.tsx:57-71 | a pair no log names keeps its entry or its absence |
| Watcher.MultisigWatcher.constructor | src/MultisigWatcher.tsx:20-28 | all registries start empty |
| Watcher.MultisigWatcher.AddOwnerWatch | src/MultisigWatcher.tsx:30-37 | sets exactly the normalised key in the owner watches |
| Watcher.MultisigWatcher.RemoveOwnerWatch | src/MultisigWatcher.tsx:39-41 | deletes exactly the normalised key from the owner watches |
| Watcher.MultisigWatcher.AddMultisigWatch | src/MultisigWatcher.tsx:43-51 | sets exactly the normalised key in the wallet watches |
| Watcher.MultisigWatcher.RemoveMultisigWatch | src/MultisigWatcher.tsx:53-55 | deletes the key from the owner watches and leaves the wallet watches unchanged |
| Watcher.MultisigWatcher.ProcessKeyholderChanges | src/MultisigWatcher.tsx:57-80 | the registry becomes the in-order application of the logs and the notifications are those of each log in turn; no zero weight appears |
| Watcher.MultisigWatcher.ProcessLog | src/MultisigWatcher.tsx:58-79 | one log updates the registry as `ApplyLog`, keeps every weight nonzero, and notifies the wallet watcher, then the owner watcher |
| Watcher.MultisigWatcher.GetOwnedWallets | src/MultisigWatcher.tsx:82-91 | exactly the wallets listing the owner, each with its weight; nothing changes |
| FunctionDefinitions.FindFunctionDefinition | src/findFunctionDefinition.ts:8-20 | null iff no function entry has the selector; otherwise the first such entry, of type function, with that selector |
| FunctionDefinitions.IsFunctionFragment | src/findFunctionDefinition.ts:4-6 | an entry is a function iff its `type` is "function"; `AbiPicker.FunctionTestsDisagree` contrasts it with the picker's test |
| FunctionDefinitions.SighashWithUppercaseNeverMatches | src/findFunctionDefinition.ts:14-15 | a sighash with an upper-case letter matches nothing |
| AbiPicker.Functions | src/ABIPicker.tsx:44 | the filter keeps exactly the function entries of the requested constness, each as often as in the ABI |
| AbiPicker.IsFunctionFragment | src/ABIPicker.tsx:24-26 | an entry is a function iff it carries `constant` |
| AbiPicker.FunctionTestsDisagree | src/ABIPicker.tsx:24-26 | the picker's test and the lookup's disagree: a `constant` event is a form but no lookup result, a `function` without `constant` the reverse |
| AbiPicker.NameLe | src/ABIPicker.tsx:45 | the comparator, as code-unit order; it is total by `NameLeTotal` and transitive by `NameLeTransitive` |
| AbiPicker.NameLeTotal | src/ABIPicker.tsx:45 | the name order is total |
| AbiPicker.NameLeTransitive | src/ABIPicker.tsx:45 | the name order is transitive |
| AbiPicker.AdjacentSortedIsSorted | src/ABIPicker.tsx:45 | ordered neighbours give an ordered sequence |
| AbiPicker.SortByName | src/ABIPicker.tsx:45 | the in-place sort leaves the array ordered by name and a permutation of itself |
| AbiPicker.Insert | src/ABIPicker.tsx:45 | one insertion pass extends the ordered prefix by one and permutes the array |
| AbiPicker.Swap | src/ABIPicker.tsx:45 | an adjacent exchange permutes the array |
| AbiPicker.Render | src/ABIPicker.tsx:43-45 | the laid-out list is ordered by name and a permutation of the filtered entries |
| AbiPicker.ForwardSubmit | src/ABIPicker.tsx:37-41 | `(abi, args)` is forwarded unchanged iff a callback prop is set |
| AbiEntry.Reduce | src/FunctionABIEntry.tsx:57 | the fold is its seed and every field valid |
| AbiEntry.AllValid | src/FunctionABIEntry.tsx:57 | Submit is enabled iff every field is valid, vacuously with none |
| AbiEntry.BlankFormEnabledIff | src/FunctionABIEntry.tsx:33 | a fresh form is enabled iff the function has no inputs |
| AbiEntry.ChangedFieldDecides | src/FunctionABIEntry.tsx:38-57 | after a change the form is enabled iff the new field and every other field are valid |
| AbiEntry.FunctionAbiEntry.constructor | src/FunctionABIEntry.tsx:31-36 | one blank, invalid field per input |
| AbiEntry.FunctionAbiEntry.OnChange | src/FunctionABIEntry.tsx:38-44 | field `id` becomes `(value, valid)`; length and other fields are unchanged |
| AbiEntry.FunctionAbiEntry.SubmitEnabled | src/FunctionABIEntry.tsx:57 | Submit is enabled iff every current field is valid |
| AbiFields.TypeNameOf | src/fields/ABIField.tsx:33-45 | every widget has a supported case label |
| AbiFields.Render | src/fields/ABIField.tsx:33-48 | Unsupported iff the type has no case; otherwise the widget of that case label, with label, value and `onChange` passed through |
| AbiFields.TypeNameDispatches | src/fields/ABIField.tsx:33-45 | each widget's case label dispatches to exactly that widget |
| AbiFields.SignedFlagsSwapped | src/fields/ABIField.tsx:36-39 | `uint256` gets `signed = true`, `int256` gets `signed = false` |
| AddressFields.AllHex | src/fields/AddressField.tsx:12 | every character is a hex digit |
| AddressFields.AddressRe | src/fields/AddressField.tsx:12 | the matcher accepts exactly `0x` and 40 hex digits |
| AddressFields.AddressTextNeverResolves | src/fields/AddressField.tsx:12-24 | a text the pattern accepts never meets the resolve condition |
| AddressFields.AddressField.constructor | src/fields/AddressField.tsx:18-27 | validity from the pattern; a timer is set and live iff the value has a `.` not at its end |
| AddressFields.AddressField.ReceiveValue | src/fields/AddressField.tsx:8 | the parent sets the `value` prop |
| AddressFields.AddressField.OnChange | src/fields/AddressField.tsx:29-45 | empty text changes nothing; otherwise validity follows the text, `(text, valid, text)` is reported, and a live timer is (re)scheduled iff the previous prop meets the resolve condition |
| AddressFields.AddressField.TryResolveName | src/fields/AddressField.tsx:47-55 | the timer has fired; a truthy resolution makes the field valid and reports `(value, true, addr)`; otherwise nothing else changes |
| AddressFields.AddressField.Unmount | src/fields/AddressField.tsx:57-61 | no timer stays live; `timerId` is left as it was |
| Bytes32Fields.ClassBetween | src/fields/Bytes32Field.tsx:6 | every character in the range is in the class `[0-9a-fA-f]` |
| Bytes32Fields.Search | src/fields/Bytes32Field.tsx:6 | the search succeeds iff some window from the start position is all in the class |
| Bytes32Fields.Bytes32Re | src/fields/Bytes32Field.tsx:6 | the pattern matches iff some 64 consecutive characters are in the class |
| Bytes32Fields.ShortTextInvalid | src/fields/Bytes32Field.tsx:6 | fewer than 64 characters never match |
| Bytes32Fields.ExtensionKeepsValid | src/fields/Bytes32Field.tsx:6 | text added on either side keeps a match |
| Bytes32Fields.NonHexTextAccepted | src/fields/Bytes32Field.tsx:6 | 64 `G`s match |
| Bytes32Fields.OnChange | src/fields/Bytes32Field.tsx:28-32 | the text is forwarded unchanged with its validity iff a callback is set |
| Bytes32Fields.Error | src/fields/Bytes32Field.tsx:40 | the error flag is set iff the value does not match |
| IntFields.OnChange | src/fields/IntField.tsx:26-34 | nothing without a callback; otherwise valid is true and exactly one leading `-` is removed iff `signed`, else the text is unchanged |
| IntFields.OnlyOneMinusDropped | src/fields/IntField.tsx:28-31 | `--5` is reported as `-5` |
| IntFields.UnsignedTypeDropsMinus | src/fields/IntField.tsx:28-32 | through the dispatch, a `uint256` input drops a leading minus |
| IntFields.SignedTypeKeepsMinus | src/fields/IntField.tsx:28-32 | through the dispatch, an `int256` input is forwarded unchanged |
| AddressRenderers.Label | src/AddressRenderer.tsx:61-70 | a truthy name as is; else for an address of 6 or more characters, 11 characters: its first 6, `…`, its last 4; a shorter address whole, `…`, and the part `slice` keeps of it; else `?` |
| AddressRenderers.ShortAddressLabel | src/AddressRenderer.tsx:66 | the label of `0x1` is `0x1…1` |
| AddressRenderers.CopyTarget | src/AddressRenderer.tsx:77 | the copy target is a truthy name, else a truthy address, else the empty string; `CopiedText` says what that is for each kind of value |
| AddressRenderers.CopyIconShown | src/AddressRenderer.tsx:77 | the copy icon is shown unless switched off; see `TitleDestinationShowsNoIcons` and `CardDestinationShowsIcons` |
| AddressRenderers.LaunchLinkShown | src/AddressRenderer.tsx:78 | the launch link is shown iff an address is known and it is not switched off |
| AddressRenderers.TitleDestinationShowsNoIcons | src/TransactionSigner.tsx:178 | the title's destination shows neither icon |
| AddressRenderers.CardDestinationShowsIcons | src/MultisigSigningRequestCard.tsx:79 | the card's destination always shows the copy icon, and the launch link iff an address is known |
| AddressRenderers.AddressRenderer.constructor | src/AddressRenderer.tsx:29-50 | a value is stored as the name iff it does not start with `0x` and has a `.`; otherwise as the address; the value half stays fixed |
| AddressRenderers.AddressRenderer.OnLookupResult | src/AddressRenderer.tsx:35-48 | the lookup result fills the other half of the state, and the value half stays fixed |
| AddressRenderers.AddressRenderer.CurrentLabel | src/AddressRenderer.tsx:61-76 | a name value is shown as typed; an address value as its truthy name, or else shortened, or `?` when empty |
| AddressRenderers.CopiedText | src/AddressRenderer.tsx:31-77 | a name value copies itself; an address value copies itself until a truthy name is found, then the name |
| AddressRenderers.NameShownAsTyped | src/AddressRenderer.tsx:31-64 | a name is labelled as typed while it resolves |
| AddressRenderers.HexValueShownShortened | src/AddressRenderer.tsx:31-78 | a `0x` value is an address, labelled shortened, with the launch link unless switched off |

## Left out

- Rendering, styles, markup, icons and navigation are not modelled. `App.tsx`, `MultisigInterface.tsx`, `MultisigTransactionCreator.tsx`, `MultisigSigningRequestRenderer.tsx` and `FunctionCallRenderer.tsx` are not part of this model.
- GraphQL queries (`MultisigSigningRequests.tsx`) and HTTP (`ABIFetcher.tsx`) are network I/O and are left out.
- The cryptography, the ABI coder, chain calls and ENS are parameters, as described above. `getLogs` is represented by its result, handed to `ProcessKeyholderChanges`.
- A decode that throws is not modelled: `decode` is a total function.
- TransactionSigning.TransactionSigner.ComponentDidMount: `arrayify(request.id)` throwing on an id that is not hex data is not modelled; the id is taken to be valid, so a request with no signatures always mounts.
- `fields/BytesField.tsx` depends on UTF-8 `TextEncoder`/`TextDecoder`; `fields/StringField.tsx` is a pass-through. Both are left out. `BackendSchema.ts` is used only as the record shape `RequestRecord`, and the stored `abi` is taken as an already parsed fragment: parsing the stored ABI text is not modelled.
- Asynchronous ordering is not modelled. Each `await` is one step, in program order, and promise results are parameters. `setTimeout` debouncing in `AddressField` is two flags: `timerId` is set, and a timer is live.
- Aliasing is not modelled. A watcher callback receives the live keyholder map, which later logs mutate. `Object.assign(this.state.signatories || {})` reuses the state's object. The model gives values.
- `toNumber` overflow on weights is not modelled: weights are unbounded naturals.
- The `formatEther` rendering of amounts is not modelled: a title carries the amount in wei.
- `copyAddress` (DOM clipboard) and the snackbar's shortened transaction id are UI.
- TransactionSigning.TransactionSigner.OnApprove: decides with the intended integer sum `ReachesThreshold`, not the string concatenation the code performs (see Findings).
- AbiPicker.NameLe: `localeCompare` is replaced by code-unit lexicographic order. Sort stability is not stated; `SortByName` promises order and permutation only.
- AbiPicker.ForwardSubmit: the forwarding is modelled, but `FunctionABIEntry` takes no `onSubmit` prop and its Submit button has no click handler, so nothing calls it.
- `AbiEntry.FunctionAbiEntry.OnChange` requires an existing index. JavaScript would grow the array, but the form only passes indices of existing fields.
- Js.ToLower: only ASCII letters are lowered. Digests are ASCII hex.
- Watcher.MultisigWatcher.GetOwnedWallets: `owner` is used as given. The only caller passes a normalised address.
- A registered watcher callback is a function and always truthy, so the test `if (this.walletsWatched[a])` is modelled as key presence.
- `AddressFields.AddressField.Error` is the negated `valid` field, whose properties are stated on the methods that set it.

## Findings

| source | as written | input that shows it | evidently intended | confidence | as-written member | corrected member |
|---|---|---|---|---|---|---|
| src/TransactionSigner.tsx:131 | `this.state.totalWeight + ourWeight` adds a number to an ethers BigNumber; with no `valueOf` both become decimal strings and are joined, and `>=` reads the joined digits as a number | total weight 2, signer weight 1, threshold 5: `"21" >= 5` holds, so the publish dialog opens although the weights sum to 3 | compare the numeric sum with the threshold, offering to publish exactly when Send would then be enabled | likely; not executed | TransactionSigning.ConcatenatedWeightReachesThreshold | SigningRequestCard.PublishOfferedIffSendWouldBe |
