/** `fields/ABIField.tsx`: the choice of input widget for a Solidity type string. */
module AbiFields {
  import opened Wrappers
  import opened Js

  /** The input widgets, with `IntField`'s `signed` flag. */
  datatype FieldKind = Bytes32Kind | IntKind(signed: bool) | AddressKind | BytesKind | StringKind

  /** What `render` produces: a widget given the label, value and `onChange`
      prop, or the "Unsupported type" notice. */
  datatype Rendered =
    | Widget(kind: FieldKind, fieldLabel: string, value: string, onChange: Option<CallbackId>)
    | Unsupported(typeName: string, fieldLabel: string)

  /** The type strings the `switch` has a case for. */
  const SupportedTypes: set<string> := {"bytes32", "uint256", "int256", "address", "bytes", "string"}

  /** The case label that selects `k`. As written, `uint256` selects a signed
      integer field and `int256` an unsigned one. */
  function TypeNameOf(k: FieldKind): (t: string)
    ensures t in SupportedTypes
  {
    match k
    case Bytes32Kind => "bytes32"
    case IntKind(signed) => if signed then "uint256" else "int256"
    case AddressKind => "address"
    case BytesKind => "bytes"
    case StringKind => "string"
  }

  /** `render()`: the label, value and `onChange` are handed to the widget
      unchanged; a type without a case gets the notice. */
  function Render(typeName: string, fieldLabel: string, value: string, onChange: Option<CallbackId>): (r: Rendered)
    ensures r.Unsupported? <==> typeName !in SupportedTypes
    ensures r.Unsupported? ==> r.typeName == typeName && r.fieldLabel == fieldLabel
    ensures r.Widget? ==> r.fieldLabel == fieldLabel && r.value == value && r.onChange == onChange
    ensures r.Widget? ==> TypeNameOf(r.kind) == typeName
  {
    match typeName
    case "bytes32" => Widget(Bytes32Kind, fieldLabel, value, onChange)
    case "uint256" => Widget(IntKind(true), fieldLabel, value, onChange)
    case "int256" => Widget(IntKind(false), fieldLabel, value, onChange)
    case "address" => Widget(AddressKind, fieldLabel, value, onChange)
    case "bytes" => Widget(BytesKind, fieldLabel, value, onChange)
    case "string" => Widget(StringKind, fieldLabel, value, onChange)
    case _ => Unsupported(typeName, fieldLabel)
  }

  /** Each widget is reached from exactly its own case label. */
  lemma {:induction false} TypeNameDispatches(k: FieldKind, fieldLabel: string, value: string, onChange: Option<CallbackId>)
    ensures Render(TypeNameOf(k), fieldLabel, value, onChange) == Widget(k, fieldLabel, value, onChange)
  {
    match k
    case Bytes32Kind =>
    case IntKind(signed) =>
    case AddressKind =>
    case BytesKind =>
    case StringKind =>
  }

  /** The signed flags as written: `uint256` gets `signed = true` and `int256`
      gets `signed = false`. */
  lemma SignedFlagsSwapped(fieldLabel: string, value: string, onChange: Option<CallbackId>)
    ensures Render("uint256", fieldLabel, value, onChange).kind == IntKind(true)
    ensures Render("int256", fieldLabel, value, onChange).kind == IntKind(false)
  {
    TypeNameDispatches(IntKind(true), fieldLabel, value, onChange);
    TypeNameDispatches(IntKind(false), fieldLabel, value, onChange);
  }
}
