/**
 * `SVGAnimateElementBase.cpp`: the type rules of SVG's `<animate>`,
 * `<set>`, `<animateColor>` and `<animateTransform>` elements. Which
 * property type an animation drives, which types can be added to, when an
 * animation is additive, and how the animation percentage is normalised
 * before the animator sees it.
 *
 * The element's target is reduced to whether it is a `<marker>` and the
 * property types its attribute table lists for the animated attribute.
 * `SVGAnimationElement` (the animation mode, the calc mode and its own
 * `isAdditive`) and the animators of `SVGAnimatorFactory` are not part of
 * this model: the first are fields of the element, and what an animator
 * builds from a string is a `ParsedValue` recording the type and the text.
 * Floats are `real`.
 */
module SvgAnimateElement {
  import opened Wrappers

  /** `AnimatedPropertyType`. */
  datatype AnimatedPropertyType =
    | AnimatedAngle | AnimatedBoolean | AnimatedColor | AnimatedEnumeration | AnimatedInteger
    | AnimatedIntegerOptionalInteger | AnimatedLength | AnimatedLengthList | AnimatedNumber
    | AnimatedNumberList | AnimatedNumberOptionalNumber | AnimatedPath | AnimatedPoints
    | AnimatedPreserveAspectRatio | AnimatedRect | AnimatedString | AnimatedTransformList
    | AnimatedUnknown

  /** The four element tags that share this base. */
  datatype AnimationTag = AnimateTag | SetTag | AnimateColorTag | AnimateTransformTag

  /** `AnimationMode`. */
  datatype AnimationMode =
    NoAnimation | FromToAnimation | FromByAnimation | ToAnimation | ByAnimation | ValuesAnimation | PathAnimation

  /** `CalcMode`. */
  datatype CalcMode = CalcModeDiscrete | CalcModeLinear | CalcModePaced | CalcModeSpline

  /** The animation target: whether it is a `<marker>`, and the property
      types its attribute table lists for the animated attribute. */
  datatype TargetElement = TargetElement(isMarker: bool, propertyTypes: seq<AnimatedPropertyType>)

  /** What an animator builds from a string. */
  datatype ParsedValue = ParsedValue(propertyType: AnimatedPropertyType, text: string)

  /** A listed type the element may animate: `<animateColor>` only
      animates colours, and only `<animateTransform>` animates transform
      lists. */
  predicate TypeAllowed(tag: AnimationTag, t: AnimatedPropertyType)
  {
    (tag == AnimateColorTag ==> t == AnimatedColor) && (t == AnimatedTransformList ==> tag == AnimateTransformTag)
  }

  /** `determineAnimatedPropertyType`: the first listed type, or unknown
      when no type is listed or the element may not animate that type. */
  function DetermineAnimatedPropertyType(tag: AnimationTag, target: TargetElement): (t: AnimatedPropertyType)
    ensures |target.propertyTypes| == 0 ==> t == AnimatedUnknown
    ensures t == AnimatedUnknown || (|target.propertyTypes| > 0 && t == target.propertyTypes[0])
    ensures |target.propertyTypes| > 0 && TypeAllowed(tag, target.propertyTypes[0]) ==> t == target.propertyTypes[0]
    ensures tag == AnimateColorTag && t != AnimatedUnknown ==> t == AnimatedColor
    ensures t == AnimatedTransformList ==> tag == AnimateTransformTag
  {
    if |target.propertyTypes| == 0 then AnimatedUnknown
    else
      var t := target.propertyTypes[0];
      if tag == AnimateColorTag && t != AnimatedColor then AnimatedUnknown
      else if t == AnimatedTransformList && tag != AnimateTransformTag then AnimatedUnknown
      else t
  }

  /** The types that cannot be added to, as the animation chapter of SVG
      1.1 lists them. */
  const NonAdditiveTypes: set<AnimatedPropertyType> :=
    {AnimatedBoolean, AnimatedEnumeration, AnimatedPreserveAspectRatio, AnimatedString, AnimatedUnknown}

  /** `animatedPropertyTypeSupportsAddition`. */
  function SupportsAddition(t: AnimatedPropertyType): (r: bool)
    ensures r <==> t !in NonAdditiveTypes
  {
    match t
    case AnimatedBoolean => false
    case AnimatedEnumeration => false
    case AnimatedPreserveAspectRatio => false
    case AnimatedString => false
    case AnimatedUnknown => false
    case AnimatedAngle => true
    case AnimatedColor => true
    case AnimatedInteger => true
    case AnimatedIntegerOptionalInteger => true
    case AnimatedLength => true
    case AnimatedLengthList => true
    case AnimatedNumber => true
    case AnimatedNumberList => true
    case AnimatedNumberOptionalNumber => true
    case AnimatedPath => true
    case AnimatedPoints => true
    case AnimatedRect => true
    case AnimatedTransformList => true
  }

  /** `isAdditive`: a by or from-by animation of a type without addition
      is not additive; otherwise it is as additive as the animation element
      says (`baseAdditive`). */
  function IsAdditive(mode: AnimationMode, t: AnimatedPropertyType, baseAdditive: bool): (r: bool)
    ensures (mode == ByAnimation || mode == FromByAnimation) && !SupportsAddition(t) ==> !r
    ensures r <==> baseAdditive && (mode == ByAnimation || mode == FromByAnimation ==> SupportsAddition(t))
  {
    if (mode == ByAnimation || mode == FromByAnimation) && !SupportsAddition(t) then false
    else baseAdditive
  }

  /** The percentage `calculateAnimatedValue` hands the animator: 1 for
      `<set>`, then 0 or 1 in discrete mode (below one half is 0), and the
      given percentage otherwise. */
  function NormalizedPercentage(tag: AnimationTag, calcMode: CalcMode, percentage: real): (p: real)
    requires 0.0 <= percentage <= 1.0
    ensures 0.0 <= p <= 1.0
    ensures tag == SetTag ==> p == 1.0
    ensures tag != SetTag && calcMode == CalcModeDiscrete ==> p == if percentage < 0.5 then 0.0 else 1.0
    ensures tag != SetTag && calcMode != CalcModeDiscrete ==> p == percentage
  {
    var p := if tag == SetTag then 1.0 else percentage;
    if calcMode == CalcModeDiscrete then (if p < 0.5 then 0.0 else 1.0) else p
  }

  /** Normalising twice is normalising once. */
  lemma NormalizedPercentageIdempotent(tag: AnimationTag, calcMode: CalcMode, percentage: real)
    requires 0.0 <= percentage <= 1.0
    ensures NormalizedPercentage(tag, calcMode, NormalizedPercentage(tag, calcMode, percentage)) ==
      NormalizedPercentage(tag, calcMode, percentage)
  {
  }

  /** The element's state that these operations read and reset. */
  class SVGAnimateElementBase {
    const tag: AnimationTag
    var target: Option<TargetElement>
    var animationMode: AnimationMode
    var calcMode: CalcMode
    /** `SVGAnimationElement::isAdditive()`. */
    var baseAdditive: bool
    var animatedPropertyType: AnimatedPropertyType
    /** `m_animator` is set. */
    var hasAnimator: bool
    var fromType: Option<ParsedValue>
    var toType: Option<ParsedValue>
    var toAtEndOfDurationType: Option<ParsedValue>

    /** A new element animates strings and has built nothing yet. */
    constructor (tag: AnimationTag, animationMode: AnimationMode, calcMode: CalcMode, baseAdditive: bool)
      ensures this.tag == tag && this.animationMode == animationMode && this.calcMode == calcMode
      ensures this.baseAdditive == baseAdditive && target == None
      ensures animatedPropertyType == AnimatedString && !hasAnimator
      ensures fromType == None && toType == None && toAtEndOfDurationType == None
    {
      this.tag := tag;
      this.animationMode := animationMode;
      this.calcMode := calcMode;
      this.baseAdditive := baseAdditive;
      target := None;
      animatedPropertyType := AnimatedString;
      hasAnimator := false;
      fromType, toType, toAtEndOfDurationType := None, None, None;
    }

    /** `resetAnimatedPropertyType`: drops the values and the animator and
        derives the type afresh from the target, strings when there is
        none. */
    method ResetAnimatedPropertyType()
      modifies this`animatedPropertyType, this`hasAnimator, this`fromType, this`toType, this`toAtEndOfDurationType
      ensures fromType == None && toType == None && toAtEndOfDurationType == None && !hasAnimator
      ensures target.None? ==> animatedPropertyType == AnimatedString
      ensures target.Some? ==> animatedPropertyType == DetermineAnimatedPropertyType(tag, target.value)
    {
      fromType, toType, toAtEndOfDurationType := None, None, None;
      hasAnimator := false;
      animatedPropertyType := if target.Some? then DetermineAnimatedPropertyType(tag, target.value) else AnimatedString;
    }

    /** `setTargetElement`: a new target resets the property type. */
    method SetTargetElement(newTarget: Option<TargetElement>)
      modifies this
      ensures target == newTarget && !hasAnimator
      ensures fromType == None && toType == None && toAtEndOfDurationType == None
      ensures animatedPropertyType == if newTarget.Some? then DetermineAnimatedPropertyType(tag, newTarget.value) else AnimatedString
      ensures animationMode == old(animationMode) && calcMode == old(calcMode) && baseAdditive == old(baseAdditive)
    {
      target := newTarget;
      ResetAnimatedPropertyType();
    }

    /** `calculateToAtEndOfDurationValue`: fails on the empty string and
        changes nothing; otherwise builds the end-of-duration value with the
        animator, creating the animator if need be. */
    method CalculateToAtEndOfDurationValue(toAtEndOfDuration: string) returns (built: bool)
      modifies this`hasAnimator, this`toAtEndOfDurationType
      ensures built <==> toAtEndOfDuration != []
      ensures !built ==> hasAnimator == old(hasAnimator) && toAtEndOfDurationType == old(toAtEndOfDurationType)
      ensures built ==> hasAnimator && toAtEndOfDurationType == Some(ParsedValue(animatedPropertyType, toAtEndOfDuration))
    {
      if toAtEndOfDuration == [] {
        return false;
      }
      hasAnimator := true;
      toAtEndOfDurationType := Some(ParsedValue(animatedPropertyType, toAtEndOfDuration));
      return true;
    }

    /** The checks `calculateFromAndByValues` passes before it builds: a
        target, and neither a by animation that is not additive nor a
        from-by animation of a type without addition. */
    predicate FromAndByAccepted()
      reads this
    {
      target.Some? &&
      !(animationMode == ByAnimation && !IsAdditive(animationMode, animatedPropertyType, baseAdditive)) &&
      !(animationMode == FromByAnimation && !SupportsAddition(animatedPropertyType))
    }

    /** `calculateFromAndByValues`: fails, changing nothing, unless those
        checks pass; otherwise the animator builds the from and to values.
        A `<set>` element must not get this far. */
    method CalculateFromAndByValues(fromString: string, byString: string) returns (built: bool)
      requires FromAndByAccepted() ==> tag != SetTag
      modifies this`hasAnimator, this`fromType, this`toType
      ensures built <==> FromAndByAccepted()
      ensures !built ==> hasAnimator == old(hasAnimator) && fromType == old(fromType) && toType == old(toType)
      ensures built ==> (hasAnimator && fromType == Some(ParsedValue(animatedPropertyType, fromString)) &&
                         toType == Some(ParsedValue(animatedPropertyType, byString)))
    {
      if target.None? {
        return false;
      }
      if animationMode == ByAnimation && !IsAdditive(animationMode, animatedPropertyType, baseAdditive) {
        return false;
      }
      if animationMode == FromByAnimation && !SupportsAddition(animatedPropertyType) {
        return false;
      }
      hasAnimator := true;
      fromType, toType := Some(ParsedValue(animatedPropertyType, fromString)), Some(ParsedValue(animatedPropertyType, byString));
      return true;
    }

    /** `calculateAnimatedValue`: nothing without a target; otherwise the
        percentage is normalised and handed to the animator, whose result
        this model leaves out. */
    method CalculateAnimatedValue(percentage: real) returns (handed: Option<real>)
      requires target.Some? ==> animatedPropertyType == DetermineAnimatedPropertyType(tag, target.value)
      requires target.Some? ==> 0.0 <= percentage <= 1.0
      requires target.Some? ==> animatedPropertyType != AnimatedUnknown && hasAnimator && fromType.Some? && toType.Some?
      ensures target.None? ==> handed == None
      ensures target.Some? ==> handed == Some(NormalizedPercentage(tag, calcMode, percentage))
    {
      if target.None? {
        return None;
      }
      var p := percentage;
      if tag == SetTag {
        p := 1.0;
      }
      if calcMode == CalcModeDiscrete {
        p := if p < 0.5 then 0.0 else 1.0;
      }
      return Some(p);
    }
  }

  /** A by or from-by animation of a type without addition never builds
      its values. */
  method NonAdditiveByAnimationFails(e: SVGAnimateElementBase, fromString: string, byString: string) returns (built: bool)
    requires e.animationMode == ByAnimation || e.animationMode == FromByAnimation
    requires !SupportsAddition(e.animatedPropertyType)
    modifies e`hasAnimator, e`fromType, e`toType
    ensures !built && e.fromType == old(e.fromType) && e.toType == old(e.toType)
  {
    built := e.CalculateFromAndByValues(fromString, byString);
  }
}
