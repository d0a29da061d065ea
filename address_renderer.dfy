/** `AddressRenderer.tsx`: whether a value is shown as an ENS name or as an
    address, the shortened label, and the copy and launch icons. */
module AddressRenderers {
  import opened Wrappers
  import opened Js

  /** The constructor's test: a value is taken as a name when it does not start
      with `0x` and contains a `.`. */
  predicate IsName(value: string)
  {
    !StartsWith(value, "0x") && '.' in value
  }

  /** The ellipsis character, U+2026. */
  const Ellipsis: char := '…'

  /** `label()`: a truthy name as it is; else a truthy address as its first six
      characters, an ellipsis and its last four (JavaScript `slice`, so a short
      address repeats characters); else `?`. */
  function Label(name: Option<string>, address: Option<string>): (l: string)
    ensures Truthy(name) ==> l == name.value
    ensures !Truthy(name) && !Truthy(address) ==> l == "?"
    ensures !Truthy(name) && Truthy(address) && |address.value| >= 6 ==>
      var a := address.value;
      |l| == 11 && l[..6] == a[..6] && l[6] == Ellipsis && l[7..] == a[|a| - 4..]
    ensures !Truthy(name) && Truthy(address) && |address.value| < 6 ==>
      var a := address.value;
      l == a + [Ellipsis] + a[if |a| >= 4 then |a| - 4 else if |a| >= 2 then 2 * |a| - 4 else 0..]
  {
    if Truthy(name) then name.value
    else if Truthy(address) then
      var a := address.value;
      Slice(a, 0, 6) + [Ellipsis] + SliceFrom(a, |a| - 4)
    else "?"
  }

  /** A three-character address: the negative start of the second `slice`
      counts from the end, so its last character appears after the ellipsis. */
  lemma ShortAddressLabel()
    ensures Label(None, Some("0x1")) == "0x1" + [Ellipsis] + "1"
  {
  }

  /** The text the copy icon copies: `name || address || ''`. */
  function CopyTarget(name: Option<string>, address: Option<string>): (t: string)
    ensures Truthy(name) ==> t == name.value
    ensures !Truthy(name) && Truthy(address) ==> t == address.value
    ensures !Truthy(name) && !Truthy(address) ==> t == ""
  {
    if Truthy(name) then name.value else if Truthy(address) then address.value else ""
  }

  /** The copy icon is shown unless `showCopyIcon` is explicitly `false`. */
  predicate CopyIconShown(showCopyIcon: Option<bool>)
  {
    showCopyIcon != Some(false)
  }

  /** The launch link is shown when an address is set and `showLaunchIcon` is
      not explicitly `false`. */
  predicate LaunchLinkShown(address: Option<string>, showLaunchIcon: Option<bool>)
  {
    Truthy(address) && showLaunchIcon != Some(false)
  }

  /** The destination in a signer's title passes `showCopyIcon={false}` and
      `showLaunchIcon={false}`: neither icon is shown, whatever the address. */
  lemma TitleDestinationShowsNoIcons(address: Option<string>)
    ensures !CopyIconShown(Some(false)) && !LaunchLinkShown(address, Some(false))
  {
  }

  /** The card's Destination row passes neither prop: the copy icon is always
      shown, and the launch link exactly when an address is known. */
  lemma CardDestinationShowsIcons(address: Option<string>)
    ensures CopyIconShown(None)
    ensures LaunchLinkShown(address, None) <==> Truthy(address)
  {
  }

  class AddressRenderer {
    const value: string
    /** Which constructor branch ran: resolve a name or look up an address. */
    const isName: bool
    var name: Option<string>
    var address: Option<string>

    /** The half of the state the constructor filled stays the value: only the
        other half is ever replaced by a lookup result. */
    predicate Valid()
      reads this
    {
      && isName == IsName(value)
      && (isName ==> name == Some(value))
      && (!isName ==> address == Some(value))
    }

    /** A name is stored as the name and resolved; anything else is stored as
        the address and looked up. */
    constructor (value: string)
      ensures this.value == value && isName == IsName(value) && Valid()
      ensures IsName(value) ==> name == Some(value) && address == None
      ensures !IsName(value) ==> address == Some(value) && name == None
    {
      this.value := value;
      isName := IsName(value);
      if IsName(value) {
        name, address := Some(value), None;
      } else {
        name, address := None, Some(value);
      }
    }

    /** The `then` of `resolveName` (for a name) or `lookupAddress` (for an
        address): the other half of the state becomes the result. */
    method OnLookupResult(result: Option<string>)
      requires Valid()
      modifies this`name, this`address
      ensures Valid()
      ensures isName ==> address == result && name == old(name)
      ensures !isName ==> name == result && address == old(address)
    {
      if isName {
        address := result;
      } else {
        name := result;
      }
    }

    /** The label shown now: a name value as typed, an address value as the
        name found for it, or else shortened. */
    function CurrentLabel(): (l: string)
      requires Valid()
      reads this
      ensures isName ==> l == value
      ensures !isName && Truthy(name) ==> l == name.value
      ensures !isName && !Truthy(name) && |value| >= 6 ==>
        l == value[..6] + [Ellipsis] + value[|value| - 4..]
      ensures !isName && !Truthy(name) && value == "" ==> l == "?"
    {
      var l := Label(name, address);
      assert |l| >= 7 ==> l == l[..6] + [l[6]] + l[7..];
      l
    }
  }

  /** What the copy icon copies: a name value as typed (the name is truthy,
      since it holds a `.`); an address value until a truthy name is found for
      it, and that name afterwards. */
  lemma CopiedText(r: AddressRenderer)
    requires r.Valid()
    ensures r.isName ==> CopyTarget(r.name, r.address) == r.value
    ensures !r.isName ==> CopyTarget(r.name, r.address) == if Truthy(r.name) then r.name.value else r.value
  {
  }

  /** While its resolution is pending, a name is shown as typed. */
  lemma NameShownAsTyped(value: string)
    requires IsName(value)
    ensures Label(Some(value), None) == value
  {
  }

  /** A value starting with `0x` is always treated as an address: until a
      name comes back its label is the shortened address, and the launch link
      is offered unless switched off. */
  lemma HexValueShownShortened(value: string, showLaunchIcon: Option<bool>)
    requires StartsWith(value, "0x") && |value| >= 6
    ensures !IsName(value)
    ensures Label(None, Some(value)) == value[..6] + [Ellipsis] + value[|value| - 4..]
    ensures LaunchLinkShown(Some(value), showLaunchIcon) <==> showLaunchIcon != Some(false)
  {
    var l := Label(None, Some(value));
    assert l == l[..6] + [l[6]] + l[7..];
  }
}
