/** `fields/AddressField.tsx`: the address input, its validity against
    `address_re`, and the scheduling of an ENS name resolution. */
module AddressFields {
  import opened Wrappers
  import opened Js

  /** What `address_re`, `/^0x[0-9a-fA-F]{40}$/`, accepts: `0x` followed by
      exactly 40 hex digits of either case. */
  predicate IsAddressText(t: string)
  {
    |t| == 42 && t[0] == '0' && t[1] == 'x' && forall i :: 2 <= i < |t| ==> IsHexDigit(t[i])
  }

  function AllHex(t: string): (b: bool)
    ensures b <==> forall i :: 0 <= i < |t| ==> IsHexDigit(t[i])
    decreases |t|
  {
    if t == [] then true else IsHexDigit(t[0]) && AllHex(t[1..])
  }

  /** `address_re.test(t)`, matching character by character. */
  function AddressRe(t: string): (b: bool)
    ensures b <==> IsAddressText(t)
  {
    |t| == 42 && StartsWith(t, "0x") && AllHex(t[2..])
  }

  /** The condition that (re)schedules `tryResolveName`: the text contains a
      `.` and does not end with one. */
  predicate ResolveCondition(v: string)
  {
    '.' in v && !EndsWith(v, ".")
  }

  /** A text the regex accepts never schedules a resolution: it has no `.`. */
  lemma AddressTextNeverResolves(v: string)
    ensures !(IsAddressText(v) && ResolveCondition(v))
  {
    if IsAddressText(v) {
      assert forall i :: 0 <= i < |v| ==> v[i] != '.';
    }
  }

  /** A call of the `onChange` prop: `(value, valid, addr)`. */
  datatype Report = Report(value: string, valid: bool, addr: string)

  class AddressField {
    /** `props.value`, which the parent controls. */
    var value: string
    /** Whether an `onChange` prop is set. */
    const hasOnChange: bool
    var valid: bool
    /** Whether `timerId` is set. Only `onChange` resets it, just before it
        schedules a new timer, so it stays set once the timer has fired or been
        cleared. */
    var timerSet: bool
    /** Whether a scheduled `tryResolveName` has neither fired nor been cleared. */
    var timerLive: bool
    /** The `onChange` calls made so far, in order. */
    var reports: seq<Report>

    constructor (value: string, hasOnChange: bool)
      ensures this.value == value && this.hasOnChange == hasOnChange
      ensures valid == IsAddressText(value)
      ensures timerSet == ResolveCondition(value) && timerLive == ResolveCondition(value)
      ensures reports == []
    {
      this.value := value;
      this.hasOnChange := hasOnChange;
      valid := AddressRe(value);
      timerSet := ResolveCondition(value);
      timerLive := ResolveCondition(value);
      reports := [];
    }

    /** The parent re-renders with a new `value` prop. */
    method ReceiveValue(v: string)
      modifies this`value
      ensures value == v
    {
      value := v;
    }

    /** `onChange` for a typed `text`. An empty text is ignored. Otherwise the
        validity follows the new text, which is reported, and the resolve
        timer is restarted when the current prop value (not `text`) meets the
        resolve condition. */
    method OnChange(text: string)
      modifies this`valid, this`timerSet, this`timerLive, this`reports
      ensures text == "" ==>
        valid == old(valid) && timerSet == old(timerSet) && timerLive == old(timerLive) && reports == old(reports)
      ensures text != "" ==> valid == IsAddressText(text)
      ensures text != "" ==>
        reports == old(reports) + if hasOnChange then [Report(text, IsAddressText(text), text)] else []
      ensures text != "" ==> timerSet == (old(timerSet) || ResolveCondition(value))
      ensures text != "" ==> timerLive == (old(timerLive) || ResolveCondition(value))
    {
      if text == "" {
        return;
      }
      valid := AddressRe(text);
      if hasOnChange {
        reports := reports + [Report(text, AddressRe(text), text)];
      }
      if ResolveCondition(value) {
        if timerSet {
          timerLive := false;
          timerSet := false;
        }
        timerSet := true;
        timerLive := true;
      }
    }

    /** `tryResolveName`, run when the timer fires, given what
        `resolveName(value)` yielded: a truthy
        address makes the field valid and is reported with the prop value; a
        null or empty one changes nothing. */
    method TryResolveName(resolved: Option<string>)
      modifies this`valid, this`reports, this`timerLive
      ensures !timerLive
      ensures Truthy(resolved) ==> valid
      ensures Truthy(resolved) ==>
        reports == old(reports) + if hasOnChange then [Report(value, true, resolved.value)] else []
      ensures !Truthy(resolved) ==> valid == old(valid) && reports == old(reports)
    {
      timerLive := false;
      if Truthy(resolved) {
        valid := true;
        if hasOnChange {
          reports := reports + [Report(value, true, resolved.value)];
        }
      }
    }

    /** `componentWillUnmount` clears the timer, if one is set; `timerId`
        keeps its value. */
    method Unmount()
      modifies this`timerLive
      ensures !timerLive
    {
      timerLive := false;
    }

    /** The text field's `error` flag. */
    function Error(): bool
      reads this
    {
      !valid
    }
  }
}
