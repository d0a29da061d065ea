/** `FunctionABIEntry.tsx`: the form for one ABI function, a field per input
    that the input widgets update in place, and the Submit button's enablement. */
module AbiEntry {
  import opened Abi

  /** One entry of the `fields` state array. */
  datatype Field = Field(value: string, valid: bool)

  /** The untouched field every entry starts as. */
  const Blank := Field("", false)

  /** `fields.reduce((acc, cur) => acc && cur.valid, acc)`, folding from the left. */
  function Reduce(fields: seq<Field>, acc: bool): (b: bool)
    ensures b <==> acc && forall i :: 0 <= i < |fields| ==> fields[i].valid
    decreases |fields|
  {
    if fields == [] then acc else Reduce(fields[1..], acc && fields[0].valid)
  }

  /** The Submit button is enabled exactly when every field is valid, and
      vacuously when there are no fields. */
  function AllValid(fields: seq<Field>): (b: bool)
    ensures b <==> forall i :: 0 <= i < |fields| ==> fields[i].valid
    ensures |fields| == 0 ==> b
  {
    Reduce(fields, true)
  }

  /** A freshly built form can be submitted only when the function has no inputs. */
  lemma BlankFormEnabledIff(n: nat)
    ensures AllValid(seq(n, _ => Blank)) <==> n == 0
  {
    if n > 0 {
      assert !seq(n, _ => Blank)[0].valid;
    }
  }

  /** After one field changes, the form is enabled exactly when the new field
      is valid and every other field is. */
  lemma ChangedFieldDecides(fields: seq<Field>, id: nat, value: string, valid: bool)
    requires id < |fields|
    ensures AllValid(fields[id := Field(value, valid)]) <==>
      valid && forall j :: 0 <= j < |fields| && j != id ==> fields[j].valid
  {
    var updated := fields[id := Field(value, valid)];
    assert updated[id].valid == valid;
    assert forall j :: 0 <= j < |fields| && j != id ==> updated[j] == fields[j];
  }

  class FunctionAbiEntry {
    const abi: Fragment
    /** The `fields` state array, written in place by `onChange`. */
    const fields: array<Field>

    /** One blank field per input of the function. */
    constructor (abi: Fragment)
      ensures this.abi == abi && fresh(fields)
      ensures fields.Length == |abi.inputs|
      ensures forall i :: 0 <= i < fields.Length ==> fields[i] == Blank
    {
      this.abi := abi;
      fields := new Field[|abi.inputs|](_ => Blank);
    }

    /** `onChange(id, value, valid)`: field `id` becomes `(value, valid)`; the
        length and every other field stay as they were. */
    method OnChange(id: nat, value: string, valid: bool)
      requires id < fields.Length
      modifies fields
      ensures fields[..] == old(fields[..])[id := Field(value, valid)]
    {
      fields[id] := Field(value, valid);
    }

    /** The Submit button's enablement, `!disabled`. */
    function SubmitEnabled(): (b: bool)
      reads this, fields
      ensures b <==> forall i :: 0 <= i < fields.Length ==> fields[i].valid
    {
      AllValid(fields[..])
    }
  }
}
