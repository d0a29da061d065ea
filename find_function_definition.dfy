/** `findFunctionDefinition.ts`: the lookup of the ABI entry a call's
    selector names. */
module FunctionDefinitions {
  import opened Wrappers
  import opened Js
  import opened Abi

  /** `isFunctionFragment`: an entry is a function exactly when its `type` is
      "function". */
  predicate IsFunctionFragment(f: Fragment)
  {
    f.kind == "function"
  }

  /** `f` is a function entry whose selector is `sighash`. */
  predicate Matches(c: Codec, f: Fragment, sighash: string)
  {
    IsFunctionFragment(f) && Selector(c, f) == sighash
  }

  /** `findFunctionDefinition(abi, sighash)`: the first function entry, in list
      order, whose selector is `sighash`; `None` (`null`) when there is none. */
  method FindFunctionDefinition(c: Codec, abi: seq<Fragment>, sighash: string) returns (r: Option<Fragment>)
    ensures r.None? <==> forall i :: 0 <= i < |abi| ==> !Matches(c, abi[i], sighash)
    ensures r.Some? ==>
      exists i :: 0 <= i < |abi| && abi[i] == r.value && forall j :: 0 <= j < i ==> !Matches(c, abi[j], sighash)
    ensures r.Some? ==> IsFunctionFragment(r.value) && Selector(c, r.value) == sighash
  {
    for i := 0 to |abi|
      invariant forall j :: 0 <= j < i ==> !Matches(c, abi[j], sighash)
    {
      var fragment := abi[i];
      if !IsFunctionFragment(fragment) {
        continue;
      }
      var sig := ToLower(Prefix(c.digest(fragment), 10));
      if sig == sighash {
        return Some(fragment);
      }
    }
    return None;
  }

  /** A `sighash` with an upper-case character matches no entry, since the
      selectors it is compared with are lower case. */
  lemma SighashWithUppercaseNeverMatches(c: Codec, f: Fragment, sighash: string, k: nat)
    requires k < |sighash| && IsUpper(sighash[k])
    ensures !Matches(c, f, sighash)
  {
    var s := Selector(c, f);
    assert k < |s| ==> !IsUpper(s[k]);
  }
}
