/**
 * The drawing-state enumerations of WebCore's GraphicsTypes.h that the TyGL
 * context stores and dispatches on. GraphicsTypes.h is not part of this
 * model; only the enumerator names matter here, not their numeric values.
 */
module GraphicsTypes {
  datatype CompositeOperator =
    | CompositeClear
    | CompositeCopy
    | CompositeSourceOver
    | CompositeSourceIn
    | CompositeSourceOut
    | CompositeSourceAtop
    | CompositeDestinationOver
    | CompositeDestinationIn
    | CompositeDestinationOut
    | CompositeDestinationAtop
    | CompositeXOR
    | CompositePlusDarker
    | CompositePlusLighter
    | CompositeDifference

  datatype BlendMode =
    | BlendModeNormal
    | BlendModeMultiply
    | BlendModeScreen
    | BlendModeOverlay
    | BlendModeDarken
    | BlendModeLighten
    | BlendModeColorDodge
    | BlendModeColorBurn
    | BlendModeHardLight
    | BlendModeSoftLight
    | BlendModeDifference
    | BlendModeExclusion
    | BlendModeHue
    | BlendModeSaturation
    | BlendModeColor
    | BlendModeLuminosity

  datatype LineCap = ButtCap | RoundCap | SquareCap

  datatype LineJoin = MiterJoin | RoundJoin | BevelJoin
}
