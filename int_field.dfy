/** `fields/IntField.tsx`: the integer input, which drops one leading minus
    sign when its `signed` flag is set and always reports the text as valid. */
module IntFields {
  import opened Wrappers
  import opened Js
  import opened AbiFields

  /** A call of the `onChange` prop: the text and its validity. */
  datatype Report = Report(value: string, valid: bool)

  /** `onChange` for a typed `text`, when an `onChange` prop is set. */
  function OnChange(signed: bool, hasOnChange: bool, text: string): (r: Option<Report>)
    ensures r.Some? <==> hasOnChange
    ensures r.Some? ==> r.value.valid
    ensures r.Some? && signed && StartsWith(text, "-") ==> "-" + r.value.value == text
    ensures r.Some? && !(signed && StartsWith(text, "-")) ==> r.value.value == text
  {
    if hasOnChange then
      var value := if signed && StartsWith(text, "-") then SliceFrom(text, 1) else text;
      Some(Report(value, true))
    else None
  }

  /** Only one minus sign is dropped: `--5` is reported as `-5`. */
  lemma OnlyOneMinusDropped()
    ensures OnChange(true, true, "--5") == Some(Report("-5", true))
  {
    assert StartsWith("--5", "-");
  }

  /** Through `ABIField`'s dispatch, a `uint256` input drops a leading minus,
      since that type gets `signed = true`. */
  lemma {:induction false} UnsignedTypeDropsMinus(fieldLabel: string, value: string, onChange: Option<CallbackId>, text: string)
    ensures var w := Render("uint256", fieldLabel, value, onChange);
      w.Widget? && w.kind.IntKind? && OnChange(w.kind.signed, true, "-" + text) == Some(Report(text, true))
  {
    SignedFlagsSwapped(fieldLabel, value, onChange);
    assert StartsWith("-" + text, "-");
    assert ("-" + text)[1..] == text;
  }

  /** Through `ABIField`'s dispatch, an `int256` input keeps its minus sign. */
  lemma {:induction false} SignedTypeKeepsMinus(fieldLabel: string, value: string, onChange: Option<CallbackId>, text: string)
    ensures var w := Render("int256", fieldLabel, value, onChange);
      w.Widget? && w.kind.IntKind? && OnChange(w.kind.signed, true, text) == Some(Report(text, true))
  {
    SignedFlagsSwapped(fieldLabel, value, onChange);
  }
}
