/** `fields/Bytes32Field.tsx`: the 32-byte input and its validity against
    `bytes32_re`, `/[0-9a-fA-f]{64}/`, which is unanchored and whose last
    range runs from `A` (0x41) to `f` (0x66). */
module Bytes32Fields {
  import opened Wrappers

  /** The character class `[0-9a-fA-f]`: digits and every code point from
      `A` to `f`, which takes in `G`-`Z` and ``[\]^_` `` as well. */
  predicate InClass(c: char)
  {
    '0' <= c <= '9' || 'a' <= c <= 'f' || 'A' <= c <= 'f'
  }

  /** The 64 characters of `t` from position `i` are all in the class. */
  predicate Window(t: string, i: nat)
  {
    i + 64 <= |t| && forall k :: i <= k < i + 64 ==> InClass(t[k])
  }

  /** What the unanchored pattern accepts: some 64 consecutive characters of
      the class, anywhere in the text. */
  ghost predicate HasRun(t: string)
  {
    exists i: nat :: Window(t, i)
  }

  /** Whether the characters of `t` at positions `lo` up to `hi` are all in the class. */
  function ClassBetween(t: string, lo: nat, hi: nat): (b: bool)
    requires lo <= hi <= |t|
    ensures b <==> forall k :: lo <= k < hi ==> InClass(t[k])
    decreases hi - lo
  {
    if lo == hi then true else InClass(t[lo]) && ClassBetween(t, lo + 1, hi)
  }

  /** The regex engine's search: try every start position from `i` on. */
  function Search(t: string, i: nat): (b: bool)
    ensures b <==> exists j: nat :: i <= j && Window(t, j)
    decreases |t| - i
  {
    if i + 64 > |t| then false
    else
      var here := ClassBetween(t, i, i + 64);
      assert here <==> Window(t, i);
      assert (exists j: nat :: i <= j && Window(t, j)) <==>
        Window(t, i) || exists j: nat :: i + 1 <= j && Window(t, j);
      here || Search(t, i + 1)
  }

  /** `bytes32_re.test(t)`. */
  function Bytes32Re(t: string): (b: bool)
    ensures b <==> HasRun(t)
  {
    Search(t, 0)
  }

  /** Fewer than 64 characters never match. */
  lemma ShortTextInvalid(t: string)
    requires |t| < 64
    ensures !Bytes32Re(t)
  {
  }

  /** Unanchored: text added on either side of a match keeps it a match. */
  lemma ExtensionKeepsValid(t: string, before: string, after: string)
    requires Bytes32Re(t)
    ensures Bytes32Re(before + t + after)
  {
    var i: nat :| Window(t, i);
    var u := before + t + after;
    forall k | |before| + i <= k < |before| + i + 64
      ensures InClass(u[k])
    {
      assert u[k] == t[k - |before|];
    }
    assert Window(u, |before| + i);
  }

  /** The range `A-f` lets non-hex text through: 64 `G`s match. */
  lemma NonHexTextAccepted()
    ensures Bytes32Re(seq(64, _ => 'G'))
  {
    assert Window(seq(64, _ => 'G'), 0);
  }

  /** A call of the `onChange` prop: the text and its validity. */
  datatype Report = Report(value: string, valid: bool)

  /** `onChange`: the text is forwarded unchanged with its validity, when an
      `onChange` prop is set. */
  function OnChange(hasOnChange: bool, text: string): (r: Option<Report>)
    ensures r.Some? <==> hasOnChange
    ensures r.Some? ==> r.value.value == text && (r.value.valid <==> HasRun(text))
  {
    if hasOnChange then Some(Report(text, Bytes32Re(text))) else None
  }

  /** The text field's `error` flag: set exactly when the value does not match. */
  function Error(value: string): (e: bool)
    ensures e <==> !HasRun(value)
  {
    !Bytes32Re(value)
  }
}
