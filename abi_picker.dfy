/** `ABIPicker.tsx`: which ABI entries are offered as forms (constant or
    state-changing functions), in which order, and the forwarding of a
    submitted call. */
module AbiPicker {
  import opened Wrappers
  import opened Js
  import opened Abi
  import FunctionDefinitions

  /** This file's own `isFunctionFragment`: an entry is a function exactly when
      its `constant` member is present. */
  predicate IsFunctionFragment(f: Fragment)
  {
    f.constant.Some?
  }

  /** This test and the lookup's, which checks `type`, disagree on entries
      whose `constant` and `type` do not go together: an `event` entry that
      carries `constant` is offered as a form but is never a lookup's result,
      and a `function` entry without `constant` the other way round. */
  lemma FunctionTestsDisagree()
    ensures var e := Fragment("event", "E", [], Some(false));
      IsFunctionFragment(e) && !FunctionDefinitions.IsFunctionFragment(e)
    ensures var f := Fragment("function", "f", [], None);
      !IsFunctionFragment(f) && FunctionDefinitions.IsFunctionFragment(f)
  {
  }

  /** The `filter` test: a function entry whose `constant` is the `const` prop. */
  predicate Selected(f: Fragment, isConstant: bool)
  {
    IsFunctionFragment(f) && f.constant.value == isConstant
  }

  /** `abi.filter(...)`: the entries selected, each as often as it occurs. */
  function Functions(abi: seq<Fragment>, isConstant: bool): (r: seq<Fragment>)
    ensures |r| <= |abi|
    ensures forall f :: f in r ==> IsFunctionFragment(f) && f.constant.value == isConstant
    ensures forall f :: multiset(r)[f] == if Selected(f, isConstant) then multiset(abi)[f] else 0
    decreases |abi|
  {
    if abi == [] then []
    else
      var prefix := abi[..|abi| - 1];
      var last := abi[|abi| - 1];
      assert abi == prefix + [last];
      var rest := Functions(prefix, isConstant);
      if Selected(last, isConstant) then rest + [last] else rest
  }

  /** The comparator `a.name.localeCompare(b.name) <= 0`, taken as code-unit
      lexicographic order. */
  predicate NameLe(a: string, b: string)
    decreases |a|
  {
    if a == [] then true
    else if b == [] then false
    else if a[0] != b[0] then a[0] < b[0]
    else NameLe(a[1..], b[1..])
  }

  lemma {:induction false} NameLeTotal(a: string, b: string)
    ensures NameLe(a, b) || NameLe(b, a)
    decreases |a|
  {
    if a != [] && b != [] && a[0] == b[0] {
      NameLeTotal(a[1..], b[1..]);
    }
  }

  lemma {:induction false} NameLeTransitive(a: string, b: string, c: string)
    requires NameLe(a, b) && NameLe(b, c)
    ensures NameLe(a, c)
    decreases |a|
  {
    if a != [] && b != [] && c != [] && a[0] == b[0] && b[0] == c[0] {
      NameLeTransitive(a[1..], b[1..], c[1..]);
    }
  }

  predicate AdjacentSorted(s: seq<Fragment>)
  {
    forall k :: 0 < k < |s| ==> NameLe(s[k - 1].name, s[k].name)
  }

  /** Non-decreasing name order between every two positions. */
  predicate SortedByName(s: seq<Fragment>)
  {
    forall i, j :: 0 <= i < j < |s| ==> NameLe(s[i].name, s[j].name)
  }

  lemma {:induction false} AdjacentSortedIsSorted(s: seq<Fragment>)
    requires AdjacentSorted(s)
    ensures SortedByName(s)
    decreases |s|
  {
    if |s| > 1 {
      var prefix := s[..|s| - 1];
      assert AdjacentSorted(prefix);
      AdjacentSortedIsSorted(prefix);
      forall i | 0 <= i < |s| - 1
        ensures NameLe(s[i].name, s[|s| - 1].name)
      {
        if i < |s| - 2 {
          assert prefix[i] == s[i] && prefix[|s| - 2] == s[|s| - 2];
          NameLeTransitive(s[i].name, s[|s| - 2].name, s[|s| - 1].name);
        }
      }
    }
  }

  /** `functions.sort(...)` in place, as an insertion sort by adjacent swaps. */
  method SortByName(a: array<Fragment>)
    modifies a
    ensures SortedByName(a[..])
    ensures multiset(a[..]) == multiset(old(a[..]))
  {
    for i := 0 to a.Length
      invariant AdjacentSorted(a[..i])
      invariant multiset(a[..]) == multiset(old(a[..]))
    {
      Insert(a, i);
    }
    assert a[..a.Length] == a[..];
    AdjacentSortedIsSorted(a[..]);
  }

  /** One pass of the sort: moves `a[i]` left into the sorted prefix `a[..i]`. */
  method Insert(a: array<Fragment>, i: nat)
    requires i < a.Length && AdjacentSorted(a[..i])
    modifies a
    ensures AdjacentSorted(a[..i + 1])
    ensures multiset(a[..]) == multiset(old(a[..]))
  {
    var j := i;
    while j > 0 && !NameLe(a[j - 1].name, a[j].name)
      invariant 0 <= j <= i
      invariant forall k :: 0 < k <= i && k != j ==> NameLe(a[k - 1].name, a[k].name)
      invariant 0 < j < i ==> NameLe(a[j - 1].name, a[j + 1].name)
      invariant multiset(a[..]) == multiset(old(a[..]))
    {
      NameLeTotal(a[j - 1].name, a[j].name);
      Swap(a, j);
      j := j - 1;
    }
  }

  /** Exchanges `a[j - 1]` and `a[j]`. */
  method Swap(a: array<Fragment>, j: nat)
    requires 0 < j < a.Length
    modifies a
    ensures a[..] == old(a[..])[j - 1 := old(a[j])][j := old(a[j - 1])]
    ensures multiset(a[..]) == multiset(old(a[..]))
  {
    a[j - 1], a[j] := a[j], a[j - 1];
  }

  /** The list `render` lays out: the selected entries, sorted by name. */
  method Render(abi: seq<Fragment>, isConstant: bool) returns (functions: array<Fragment>)
    ensures fresh(functions)
    ensures SortedByName(functions[..])
    ensures multiset(functions[..]) == multiset(Functions(abi, isConstant))
  {
    var selected := Functions(abi, isConstant);
    functions := new Fragment[|selected|](i requires 0 <= i < |selected| => selected[i]);
    assert functions[..] == selected;
    SortByName(functions);
  }

  /** A call of the `onSubmit` callback prop. */
  datatype SubmitCall = SubmitCall(callback: CallbackId, abi: Fragment, args: seq<ArgValue>)

  /** `onSubmit(abi, args)`: forwards the call unchanged when the prop is set,
      and does nothing otherwise. */
  function ForwardSubmit(onSubmit: Option<CallbackId>, abi: Fragment, args: seq<ArgValue>): (r: Option<SubmitCall>)
    ensures r.Some? <==> onSubmit.Some?
    ensures r.Some? ==> r.value.callback == onSubmit.value && r.value.abi == abi && r.value.args == args
  {
    if onSubmit.Some? then Some(SubmitCall(onSubmit.value, abi, args)) else None
  }
}
