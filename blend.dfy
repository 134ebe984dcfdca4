/** Blend-function selection (`SpineRenderer::setBlend`). */
module Blend {

  /** The OpenGL blend factors the compositor uses. */
  datatype BlendFactor = One | SrcAlpha | OneMinusSrcAlpha | DstColor | OneMinusSrcColor

  /** A `glBlendFunc(src, dst)` pair. */
  datatype BlendPair = BlendPair(src: BlendFactor, dst: BlendFactor)

  /** The engine's blend-mode enum values. */
  const Normal: int := 0
  const Additive: int := 1
  const Multiply: int := 2
  const Screen: int := 3

  predicate KnownMode(mode: int)
  {
    mode == Normal || mode == Additive || mode == Multiply || mode == Screen
  }

  /** The blend pair selected for a blend mode under the given alpha
      convention; unrecognised modes fall back to normal blending. */
  function BlendFactors(mode: int, premultipliedAlpha: bool): (p: BlendPair)
    // only straight (non-premultiplied) alpha weights the source by its alpha,
    // and then only for normal and additive blending
    ensures p.src == SrcAlpha <==> !premultipliedAlpha && mode != Multiply && mode != Screen
    // multiply is the only mode that weights the source by the destination
    ensures p.src == DstColor <==> mode == Multiply
    // additive keeps the destination unchanged
    ensures p.dst == One <==> mode == Additive
    // screen is the only mode that inverts the source colour
    ensures p.dst == OneMinusSrcColor <==> mode == Screen
    ensures mode == Screen ==> p.src == One
    // premultiplied alpha takes the source as it is, except for multiply
    ensures p.src == One <==> mode == Screen || (premultipliedAlpha && mode != Multiply)
    // every other mode covers the destination by the source's coverage
    ensures p.dst == OneMinusSrcAlpha <==> mode != Additive && mode != Screen
  {
    if premultipliedAlpha then
      if mode == Normal then BlendPair(One, OneMinusSrcAlpha)
      else if mode == Additive then BlendPair(One, One)
      else if mode == Multiply then BlendPair(DstColor, OneMinusSrcAlpha)
      else if mode == Screen then BlendPair(One, OneMinusSrcColor)
      else BlendPair(One, OneMinusSrcAlpha)
    else
      if mode == Normal then BlendPair(SrcAlpha, OneMinusSrcAlpha)
      else if mode == Additive then BlendPair(SrcAlpha, One)
      else if mode == Multiply then BlendPair(DstColor, OneMinusSrcAlpha)
      else if mode == Screen then BlendPair(One, OneMinusSrcColor)
      else BlendPair(SrcAlpha, OneMinusSrcAlpha)
  }

  /** Multiply and screen do not depend on the alpha convention. */
  lemma MultiplyAndScreenIgnoreAlpha(mode: int)
    requires mode == Multiply || mode == Screen
    ensures BlendFactors(mode, true) == BlendFactors(mode, false)
  {
  }

  /** An unrecognised mode gets the normal pair of its convention. */
  lemma UnknownModeIsNormal(mode: int, premultipliedAlpha: bool)
    requires !KnownMode(mode)
    ensures BlendFactors(mode, premultipliedAlpha) == BlendFactors(Normal, premultipliedAlpha)
  {
  }

  /** The two conventions differ exactly for normal, additive and unknown
      modes, and only in the source factor. */
  lemma ConventionsDifferInSourceOnly(mode: int)
    ensures BlendFactors(mode, true).dst == BlendFactors(mode, false).dst
    ensures BlendFactors(mode, true) != BlendFactors(mode, false) <==> mode != Multiply && mode != Screen
  {
  }

}
