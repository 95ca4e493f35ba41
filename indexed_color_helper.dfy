/** Indexed LED colours of the Maschine mk3: sixteen hues, each with four
    brightness variants ("dim", "dim flash", "bright", "flash"), laid out from
    palette index 4 on; index 0 is "off" and the whites start at 68. A
    bookmark's colour is `{ colorIndex }` with colorIndex in [0, 15]. */
module IndexedColor {
  import opened Wrappers

  const EmptyIndex: int := 0
  const ColorsStartOffset: int := 4
  const WhiteStartOffset: int := 68
  const DimOffset: int := 0
  const DimFlashOffset: int := 1
  const BrightOffset: int := 2
  const BrightFlashOffset: int := 3
  /** Number of hues in the colour table. */
  const ColorCount: int := 16

  /** The visibility states a bookmark can be shown in, listed so that a
      state's position is its brightness offset. */
  const KnownStates: seq<string> := ["missing", "hidden", "visible", "focused"]

  /** `{ colorIndex }` */
  datatype Wrapped = Wrapped(colorIndex: int)

  /** The `switch (state)` of `computeBookmarkDisplayColor`: None where it throws. */
  function BrightnessOffset(state: string): (r: Option<int>)
    ensures r.Some? <==> state in KnownStates
    ensures r.Some? ==> 0 <= r.value < |KnownStates| && KnownStates[r.value] == state
  {
    if state == "focused" then Some(BrightFlashOffset)
    else if state == "visible" then Some(BrightOffset)
    else if state == "hidden" then Some(DimFlashOffset)
    else if state == "missing" then Some(DimOffset)
    else None
  }

  /** Splits a palette index back into its hue and visibility state. */
  function DecodeDisplayColor(index: int): (int, string) {
    ((index - ColorsStartOffset) / 4, KnownStates[(index - ColorsStartOffset) % 4])
  }

  /** `computeBookmarkDisplayColor`: fails with "unknown visibility" for an
      unknown state; otherwise the palette index, which decodes back to the
      hue and the state, and lies among the colour entries (below the whites,
      never the empty index) for a hue in [0, 15]. `brightnessScale` is not
      used. */
  function ComputeBookmarkDisplayColor(wrapped: Wrapped, state: string, brightnessScale: real): (r: Result<int, string>)
    ensures r.Failure? <==> state !in KnownStates
    ensures r.Failure? ==> r.error == "unknown visibility: " + state
    ensures r.Success? ==> DecodeDisplayColor(r.value) == (wrapped.colorIndex, state)
    ensures r.Success? && 0 <= wrapped.colorIndex < ColorCount ==>
              ColorsStartOffset <= r.value < WhiteStartOffset && r.value != EmptyIndex
  {
    match BrightnessOffset(state)
    case None => Failure("unknown visibility: " + state)
    case Some(brightness) => Success(ColorsStartOffset + wrapped.colorIndex * 4 + brightness)
  }

  /** `computeDisplayColor`: the "bright" variant of the hue. */
  function ComputeDisplayColor(wrapped: Wrapped): (r: int)
    ensures DecodeDisplayColor(r) == (wrapped.colorIndex, "visible")
    ensures 0 <= wrapped.colorIndex < ColorCount ==> ColorsStartOffset <= r < WhiteStartOffset
  {
    ColorsStartOffset + wrapped.colorIndex * 4 + BrightOffset
  }

  /** `computeEmptyDisplayColor`: the "off" index, below every colour entry. */
  function ComputeEmptyDisplayColor(): (r: int)
    ensures r == EmptyIndex
    ensures r < ColorsStartOffset
  {
    EmptyIndex
  }

  /** `computeColorBankColor`: the cell index is the hue; the bank and the
      sizes are not consulted. */
  function ComputeColorBankColor(iBank: int, nBanks: int, iCell: int, nCells: int): (r: Wrapped)
    ensures r.colorIndex == iCell
  {
    Wrapped(iCell)
  }

  /** A "visible" bookmark shows the plain display colour at any brightness scale. */
  lemma VisibleBookmarkIsDisplayColor(wrapped: Wrapped, brightnessScale: real)
    ensures ComputeBookmarkDisplayColor(wrapped, "visible", brightnessScale) == Success(ComputeDisplayColor(wrapped))
  {
  }

  /** Distinct (hue, state) pairs get distinct palette indices. */
  lemma BookmarkColorInjective(w1: Wrapped, s1: string, w2: Wrapped, s2: string, scale1: real, scale2: real)
    requires ComputeBookmarkDisplayColor(w1, s1, scale1).Success?
    requires ComputeBookmarkDisplayColor(w2, s2, scale2).Success?
    requires ComputeBookmarkDisplayColor(w1, s1, scale1).value == ComputeBookmarkDisplayColor(w2, s2, scale2).value
    ensures w1 == w2 && s1 == s2
  {
    assert DecodeDisplayColor(ComputeBookmarkDisplayColor(w1, s1, scale1).value) == (w1.colorIndex, s1);
  }

  /** No bookmark of a hue in [0, 15] is shown as the empty ("off") index. */
  lemma BookmarkColorIsNeverEmpty(wrapped: Wrapped, state: string, brightnessScale: real)
    requires 0 <= wrapped.colorIndex < ColorCount
    requires ComputeBookmarkDisplayColor(wrapped, state, brightnessScale).Success?
    ensures ComputeBookmarkDisplayColor(wrapped, state, brightnessScale).value != ComputeEmptyDisplayColor()
  {
  }
}
