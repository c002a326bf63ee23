/**
 * `SelectorCompiler.cpp`: the pure decisions the CSS JIT makes before it
 * emits machine code. The model covers the function-type lattice and
 * `addNthChildType`, the `:nth-child(an+b)` filter and the test generated
 * for it, the `[att|=val]` and `[att~=val]` attribute matchers, the
 * backtracking start offset found from tag names, and the backtracking
 * actions solved from it.
 *
 * What the generated code does when it runs is modelled as the value it
 * computes: a generated test is the predicate "the element passes". The
 * compiled fragments of a subselector (`constructFragments`) are an input.
 * Case-insensitive comparison folds ASCII letters only.
 */
module SelectorCompiler {
  import opened Wrappers
  import opened IntMath

  // ---------------------------------------------------------------------
  // Machine integers
  // ---------------------------------------------------------------------

  /** A C++ `int`. */
  type Int32 = x: int | -0x8000_0000 <= x < 0x8000_0000

  /** A C++ `unsigned`. */
  type UInt32 = x: int | 0 <= x < 0x1_0000_0000

  /** A 32-bit two's complement result of an exact integer. */
  function WrapInt32(x: int): (r: Int32)
    ensures -0x8000_0000 <= x < 0x8000_0000 ==> r == x
    ensures (r - x) % 0x1_0000_0000 == 0
  {
    var m := (x + 0x8000_0000) % 0x1_0000_0000;
    DivModSplit(x + 0x8000_0000, 0x1_0000_0000);
    m - 0x8000_0000
  }

  /** `unsigned + 1`, wrapping at 2^32. */
  function IncrementUInt32(x: UInt32): (r: UInt32)
    ensures x < 0xFFFF_FFFF ==> r == x + 1
    ensures x == 0xFFFF_FFFF ==> r == 0
  {
    if x == 0xFFFF_FFFF then 0 else x + 1
  }

  // ---------------------------------------------------------------------
  // Function types
  // ---------------------------------------------------------------------

  /** `FunctionType`, in declaration order: each is more restrictive than
      the one before. */
  datatype FunctionType =
    | SimpleSelectorChecker
    | SelectorCheckerWithCheckingContext
    | CannotMatchAnything
    | CannotCompile

  /** The enumerator's underlying value. */
  function Rank(t: FunctionType): nat
  {
    match t
    case SimpleSelectorChecker => 0
    case SelectorCheckerWithCheckingContext => 1
    case CannotMatchAnything => 2
    case CannotCompile => 3
  }

  /** `mostRestrictiveFunctionType`: `std::max` of the two, which is one of
      them and at least as restrictive as both. */
  function MostRestrictiveFunctionType(a: FunctionType, b: FunctionType): (r: FunctionType)
    ensures r == a || r == b
    ensures Rank(r) >= Rank(a) && Rank(r) >= Rank(b)
  {
    if Rank(a) < Rank(b) then b else a
  }

  /** Different enumerators have different values. */
  lemma RankInjective(a: FunctionType, b: FunctionType)
    requires Rank(a) == Rank(b)
    ensures a == b
  {
  }

  /** The order of combination does not matter. */
  lemma MostRestrictiveCommutesAndAssociates(a: FunctionType, b: FunctionType, c: FunctionType)
    ensures MostRestrictiveFunctionType(a, b) == MostRestrictiveFunctionType(b, a)
    ensures MostRestrictiveFunctionType(MostRestrictiveFunctionType(a, b), c)
         == MostRestrictiveFunctionType(a, MostRestrictiveFunctionType(b, c))
  {
    if Rank(a) == Rank(b) {
      RankInjective(a, b);
    }
  }

  /** `SimpleSelectorChecker` is the unit and `CannotCompile` absorbs. */
  lemma MostRestrictiveUnitAndZero(a: FunctionType)
    ensures MostRestrictiveFunctionType(SimpleSelectorChecker, a) == a
    ensures MostRestrictiveFunctionType(a, CannotCompile) == CannotCompile
    ensures MostRestrictiveFunctionType(a, a) == a
  {
  }

  // ---------------------------------------------------------------------
  // addNthChildType
  // ---------------------------------------------------------------------

  /** `SelectorContext`. */
  datatype SelectorContext = RuleCollector | QuerySelector

  /** A subselector of `:nth-child(an+b of S)` as `constructFragments` left
      it: its function type and the static specificity of its fragments. */
  datatype CompiledSubselector = CompiledSubselector(functionType: FunctionType, staticSpecificity: nat)

  /** The `:nth-child` pseudo-class being compiled; `parses` is what
      `parseNth` returns, `selectorList` the `of S` part if any. */
  datatype NthChildSelector = NthChildSelector(parses: bool, a: Int32, b: Int32,
                                               selectorList: Option<seq<CompiledSubselector>>)

  /** `NthChildOfSelectorInfo`: the filter and the subselectors kept. */
  datatype NthChildOfSelectorInfo = NthChildOfSelectorInfo(a: Int32, b: Int32, selectorList: seq<CompiledSubselector>)

  /** The type every compiled selector starts from in a context. */
  function ContextFunctionType(context: SelectorContext): FunctionType
  {
    if context == QuerySelector then SimpleSelectorChecker else SelectorCheckerWithCheckingContext
  }

  /** A subselector that compiled to code that may match. */
  predicate Compilable(t: FunctionType)
  {
    t == SimpleSelectorChecker || t == SelectorCheckerWithCheckingContext
  }

  /** The subselectors that compiled, in order. */
  function Kept(subs: seq<CompiledSubselector>): (kept: seq<CompiledSubselector>)
    ensures |kept| <= |subs|
    ensures forall k :: 0 <= k < |kept| ==> Compilable(kept[k].functionType)
  {
    if |subs| == 0 then []
    else if Compilable(subs[|subs| - 1].functionType) then Kept(subs[..|subs| - 1]) + [subs[|subs| - 1]]
    else Kept(subs[..|subs| - 1])
  }

  /** Some subselector cannot be compiled. */
  predicate SomeCannotCompile(subs: seq<CompiledSubselector>)
  {
    exists k :: 0 <= k < |subs| && subs[k].functionType == CannotCompile
  }

  /** The rule collector needs every kept subselector to have the first
      one's specificity. */
  predicate SpecificityMismatch(context: SelectorContext, kept: seq<CompiledSubselector>)
  {
    context == RuleCollector &&
    exists k :: 0 <= k < |kept| && kept[k].staticSpecificity != kept[0].staticSpecificity
  }

  /** The most restrictive of `start` and the kept subselectors' types. */
  function CombinedType(start: FunctionType, kept: seq<CompiledSubselector>): FunctionType
  {
    if |kept| == 0 then start
    else MostRestrictiveFunctionType(CombinedType(start, kept[..|kept| - 1]), kept[|kept| - 1].functionType)
  }

  /** What an `of S` list compiles to: it cannot be compiled if a
      subselector cannot or the specificities differ; it cannot match if no
      subselector compiled; otherwise the most restrictive type. */
  function SelectorListType(context: SelectorContext, subs: seq<CompiledSubselector>): FunctionType
  {
    if SomeCannotCompile(subs) || SpecificityMismatch(context, Kept(subs)) then CannotCompile
    else if |Kept(subs)| == 0 then CannotMatchAnything
    else CombinedType(ContextFunctionType(context), Kept(subs))
  }

  /** The function type `addNthChildType` returns. */
  function NthChildType(selector: NthChildSelector, context: SelectorContext): FunctionType
  {
    if !selector.parses then CannotMatchAnything
    else if selector.a <= 0 && selector.b < 1 then CannotMatchAnything
    else match selector.selectorList
      case Some(subs) => SelectorListType(context, subs)
      case None => ContextFunctionType(context)
  }

  /** The combined type is the most restrictive of its parts, and one of
      them. */
  lemma {:induction false} CombinedTypeIsMaximum(start: FunctionType, kept: seq<CompiledSubselector>)
    ensures Rank(CombinedType(start, kept)) >= Rank(start)
    ensures forall k :: 0 <= k < |kept| ==> Rank(CombinedType(start, kept)) >= Rank(kept[k].functionType)
    ensures CombinedType(start, kept) == start ||
            exists k :: 0 <= k < |kept| && CombinedType(start, kept) == kept[k].functionType
  {
    if |kept| > 0 {
      var init := kept[..|kept| - 1];
      CombinedTypeIsMaximum(start, init);
      if CombinedType(start, kept) != start && CombinedType(start, kept) != kept[|kept| - 1].functionType {
        var k :| 0 <= k < |init| && CombinedType(start, init) == init[k].functionType;
        assert CombinedType(start, kept) == kept[k].functionType;
      }
    }
  }

  /** A selector compiled for a checking context never gets the simple
      checker, and a compiled `:nth-child` never needs more than the
      checking context. */
  lemma NthChildTypeRespectsContext(selector: NthChildSelector, context: SelectorContext)
    ensures context != QuerySelector ==> NthChildType(selector, context) != SimpleSelectorChecker
    ensures Compilable(NthChildType(selector, context))
            || NthChildType(selector, context) == CannotMatchAnything
            || NthChildType(selector, context) == CannotCompile
  {
    if selector.parses && !(selector.a <= 0 && selector.b < 1) && selector.selectorList.Some? {
      var subs := selector.selectorList.value;
      CombinedTypeIsMaximum(ContextFunctionType(context), Kept(subs));
    }
  }

  /** The filters of the fragment being built, which `addNthChildType`
      appends to, and the specificity it reports. */
  class NthChildFilters {
    /** `fragment.nthChildFilters`: the plain (a, b) filters. */
    var simpleCases: seq<(Int32, Int32)>
    /** `fragment.nthChildOfFilters`: the filters with an `of S` list. */
    var filteredCases: seq<NthChildOfSelectorInfo>
    /** The `internalSpecificity` out-parameter. */
    var internalSpecificity: nat

    constructor ()
      ensures simpleCases == [] && filteredCases == [] && internalSpecificity == 0
    {
      simpleCases := [];
      filteredCases := [];
      internalSpecificity := 0;
    }
  }

  /** `addNthChildType`: returns `NthChildType`. A plain filter that can
      match is appended to the simple cases; an `of S` filter whose list
      compiles is appended, with the subselectors kept, to the filtered
      cases and sets the specificity to the first kept one's. */
  method AddNthChildType(selector: NthChildSelector, context: SelectorContext, filters: NthChildFilters)
    returns (functionType: FunctionType)
    modifies filters
    ensures functionType == NthChildType(selector, context)
    ensures selector.parses && !(selector.a <= 0 && selector.b < 1) && selector.selectorList.None?
      ==> filters.simpleCases == old(filters.simpleCases) + [(selector.a, selector.b)]
    ensures !(selector.parses && !(selector.a <= 0 && selector.b < 1) && selector.selectorList.None?)
      ==> filters.simpleCases == old(filters.simpleCases)
    ensures selector.parses && !(selector.a <= 0 && selector.b < 1) && selector.selectorList.Some?
            && Compilable(functionType)
      ==> (var kept := Kept(selector.selectorList.value);
           filters.filteredCases == old(filters.filteredCases) + [NthChildOfSelectorInfo(selector.a, selector.b, kept)]
           && filters.internalSpecificity == kept[0].staticSpecificity)
    ensures !(selector.parses && !(selector.a <= 0 && selector.b < 1) && selector.selectorList.Some?
              && Compilable(functionType))
      ==> filters.filteredCases == old(filters.filteredCases)
          && filters.internalSpecificity == old(filters.internalSpecificity)
  {
    if !selector.parses {
      return CannotMatchAnything;
    }
    var a, b := selector.a, selector.b;
    // The element count is always positive.
    if a <= 0 && b < 1 {
      return CannotMatchAnything;
    }
    if selector.selectorList.None? {
      filters.simpleCases := filters.simpleCases + [(a, b)];
      return ContextFunctionType(context);
    }
    var listType, kept, firstSpecificity := CompileSelectorList(selector.selectorList.value, context);
    if !Compilable(listType) {
      return listType;
    }
    filters.internalSpecificity := firstSpecificity;
    filters.filteredCases := filters.filteredCases + [NthChildOfSelectorInfo(a, b, kept)];
    return listType;
  }

  /** The loop of `addNthChildType` over an `of S` list: stops at the first
      subselector that cannot be compiled or whose specificity differs,
      skips those that cannot match, and combines the types of the rest. */
  method CompileSelectorList(subs: seq<CompiledSubselector>, context: SelectorContext)
    returns (functionType: FunctionType, kept: seq<CompiledSubselector>, firstSpecificity: nat)
    ensures functionType == SelectorListType(context, subs)
    ensures Compilable(functionType) ==>
      kept == Kept(subs) && |kept| > 0 && firstSpecificity == kept[0].staticSpecificity
  {
    var globalFunctionType := ContextFunctionType(context);
    firstSpecificity := 0;
    kept := [];
    var i := 0;
    while i < |subs|
      invariant i <= |subs| && Scanned(context, subs, i, kept, globalFunctionType, firstSpecificity)
    {
      var sub := subs[i];
      if sub.functionType == CannotMatchAnything {
        ScanSkips(context, subs, i, kept, globalFunctionType, firstSpecificity);
        i := i + 1;
        continue;
      }
      if sub.functionType == CannotCompile {
        CannotCompileAhead(context, subs, i);
        return CannotCompile, kept, firstSpecificity;
      }
      if |kept| > 0 {
        // The CSS JIT does not handle dynamic specificity yet.
        if context == RuleCollector && sub.staticSpecificity != firstSpecificity {
          MismatchAhead(context, subs, i, kept);
          return CannotCompile, kept, firstSpecificity;
        }
      } else {
        firstSpecificity := sub.staticSpecificity;
      }
      ScanKeeps(context, subs, i, kept, globalFunctionType, firstSpecificity);
      globalFunctionType := MostRestrictiveFunctionType(globalFunctionType, sub.functionType);
      kept := kept + [sub];
      i := i + 1;
    }
    ScanEnds(context, subs, kept, globalFunctionType, firstSpecificity);
    return if |kept| == 0 then CannotMatchAnything else globalFunctionType, kept, firstSpecificity;
  }

  /** The loop's invariant: the first i subselectors scanned without
      stopping, and what was kept from them. */
  ghost predicate Scanned(context: SelectorContext, subs: seq<CompiledSubselector>, i: nat,
                          kept: seq<CompiledSubselector>, globalFunctionType: FunctionType, firstSpecificity: nat)
    requires i <= |subs|
  {
    kept == Kept(subs[..i]) &&
    !SomeCannotCompile(subs[..i]) && !SpecificityMismatch(context, kept) &&
    globalFunctionType == CombinedType(ContextFunctionType(context), kept) &&
    (|kept| > 0 ==> firstSpecificity == kept[0].staticSpecificity)
  }

  lemma ScanSkips(context: SelectorContext, subs: seq<CompiledSubselector>, i: nat,
                  kept: seq<CompiledSubselector>, globalFunctionType: FunctionType, firstSpecificity: nat)
    requires i < |subs| && Scanned(context, subs, i, kept, globalFunctionType, firstSpecificity)
    requires subs[i].functionType == CannotMatchAnything
    ensures Scanned(context, subs, i + 1, kept, globalFunctionType, firstSpecificity)
  {
    PrefixStep(subs, i);
  }

  lemma ScanKeeps(context: SelectorContext, subs: seq<CompiledSubselector>, i: nat,
                  kept: seq<CompiledSubselector>, globalFunctionType: FunctionType, firstSpecificity: nat)
    requires i < |subs| && Compilable(subs[i].functionType)
    requires kept == Kept(subs[..i]) && !SomeCannotCompile(subs[..i]) && !SpecificityMismatch(context, kept)
    requires globalFunctionType == CombinedType(ContextFunctionType(context), kept)
    requires |kept| > 0 ==> firstSpecificity == kept[0].staticSpecificity
    requires |kept| == 0 ==> firstSpecificity == subs[i].staticSpecificity
    requires context == RuleCollector && |kept| > 0 ==> subs[i].staticSpecificity == firstSpecificity
    ensures Scanned(context, subs, i + 1, kept + [subs[i]],
                    MostRestrictiveFunctionType(globalFunctionType, subs[i].functionType), firstSpecificity)
  {
    PrefixStep(subs, i);
    KeptStep(context, kept, subs[i]);
  }

  lemma ScanEnds(context: SelectorContext, subs: seq<CompiledSubselector>,
                 kept: seq<CompiledSubselector>, globalFunctionType: FunctionType, firstSpecificity: nat)
    requires Scanned(context, subs, |subs|, kept, globalFunctionType, firstSpecificity)
    ensures (if |kept| == 0 then CannotMatchAnything else globalFunctionType) == SelectorListType(context, subs)
    ensures kept == Kept(subs) && (|kept| > 0 ==> firstSpecificity == kept[0].staticSpecificity)
    ensures Compilable(SelectorListType(context, subs)) ==> |kept| > 0
  {
    assert subs[..|subs|] == subs;
    if |kept| > 0 {
      CombinedTypeIsMaximum(ContextFunctionType(context), kept);
    }
  }

  /** A subselector that cannot be compiled makes the whole list so. */
  lemma CannotCompileAhead(context: SelectorContext, subs: seq<CompiledSubselector>, i: nat)
    requires i < |subs| && subs[i].functionType == CannotCompile
    ensures SelectorListType(context, subs) == CannotCompile
  {
    assert SomeCannotCompile(subs);
  }

  /** So does, for the rule collector, a kept subselector whose specificity
      is not the first kept one's. */
  lemma MismatchAhead(context: SelectorContext, subs: seq<CompiledSubselector>, i: nat, kept: seq<CompiledSubselector>)
    requires i < |subs| && kept == Kept(subs[..i]) && |kept| > 0
    requires Compilable(subs[i].functionType) && context == RuleCollector
    requires subs[i].staticSpecificity != kept[0].staticSpecificity
    ensures SelectorListType(context, subs) == CannotCompile
  {
    PrefixStep(subs, i);
    KeptPrefix(subs, i + 1);
    assert Kept(subs)[|kept|] == subs[i];
    assert Kept(subs)[0] == kept[0];
    assert SpecificityMismatch(context, Kept(subs));
  }

  /** One more subselector of the list. */
  lemma PrefixStep(subs: seq<CompiledSubselector>, i: nat)
    requires i < |subs|
    ensures Kept(subs[..i + 1]) == if Compilable(subs[i].functionType) then Kept(subs[..i]) + [subs[i]] else Kept(subs[..i])
    ensures SomeCannotCompile(subs[..i + 1]) <==> SomeCannotCompile(subs[..i]) || subs[i].functionType == CannotCompile
  {
    assert subs[..i + 1][..i] == subs[..i];
    if SomeCannotCompile(subs[..i + 1]) && subs[i].functionType != CannotCompile {
      var k :| 0 <= k < i + 1 && subs[..i + 1][k].functionType == CannotCompile;
      assert subs[..i][k].functionType == CannotCompile;
    }
  }

  /** One more kept subselector. */
  lemma KeptStep(context: SelectorContext, kept: seq<CompiledSubselector>, sub: CompiledSubselector)
    requires !SpecificityMismatch(context, kept)
    requires context == RuleCollector && |kept| > 0 ==> sub.staticSpecificity == kept[0].staticSpecificity
    ensures !SpecificityMismatch(context, kept + [sub])
    ensures forall start :: CombinedType(start, kept + [sub]) == MostRestrictiveFunctionType(CombinedType(start, kept), sub.functionType)
  {
    assert (kept + [sub])[..|kept|] == kept;
  }

  /** The subselectors kept from a prefix are a prefix of those kept from
      the whole list. */
  lemma {:induction false} KeptPrefix(subs: seq<CompiledSubselector>, i: nat)
    requires i <= |subs|
    ensures |Kept(subs[..i])| <= |Kept(subs)|
    ensures Kept(subs)[..|Kept(subs[..i])|] == Kept(subs[..i])
    decreases |subs| - i
  {
    if i < |subs| {
      KeptPrefix(subs, i + 1);
      assert subs[..i + 1][..i] == subs[..i];
    } else {
      assert subs[..i] == subs;
    }
  }

  // ---------------------------------------------------------------------
  // The an+b filter
  // ---------------------------------------------------------------------

  /** The n-th term of an+b. */
  function Term(a: int, b: int, n: nat): int
  {
    a * n + b
  }

  /** Section 6.6.5.2 of CSS Selectors Level 3: an element whose 1-based
      position is `counter` is selected by an+b when counter = an+b for
      some n >= 0. */
  ghost predicate NthMatches(a: int, b: int, counter: int)
  {
    exists n: nat :: Term(a, b, n) == counter
  }

  /** `addNthChildType`'s early-out is sound: with a <= 0 and b < 1 no
      position is an+b. */
  lemma NoPositionBelowOne(a: int, b: int, counter: int)
    requires a <= 0 && b < 1 && counter >= 1
    ensures !NthMatches(a, b, counter)
  {
    forall n: nat
      ensures Term(a, b, n) != counter
    {
      assert a * n <= 0 by {
        MulNonPositive(a, n);
      }
    }
  }

  lemma MulNonPositive(a: int, n: nat)
    requires a <= 0
    ensures a * n <= 0
  {
    assert a * n == -((-a) * n);
  }

  /** `nthFilterIsAlwaysSatisified`: a = 1 with b = 0 or 1; such a filter
      selects every element. */
  predicate NthFilterIsAlwaysSatisfied(a: Int32, b: Int32)
  {
    a == 1 && (b == 0 || b == 1)
  }

  lemma AlwaysSatisfiedSelectsEveryElement(a: Int32, b: Int32, counter: int)
    requires NthFilterIsAlwaysSatisfied(a, b) && counter >= 1
    ensures NthMatches(a, b, counter)
  {
    var n: nat := counter - b;
    assert Term(a, b, n) == counter;
  }

  /** The test is conservative: 1n-1 selects every element too. */
  lemma AlwaysSatisfiedIsConservative()
    ensures !NthFilterIsAlwaysSatisfied(1, -1)
    ensures forall counter :: counter >= 1 ==> NthMatches(1, -1, counter)
  {
    forall counter | counter >= 1
      ensures NthMatches(1, -1, counter)
    {
      var n: nat := counter + 1;
      assert Term(1, -1, n) == counter;
    }
  }

  function Abs(x: int): nat
  {
    if x < 0 then -x else x
  }

  /** The remainder `idiv` leaves: the dividend's sign, magnitude |x| mod |d|. */
  function TruncatedRemainder(x: int, d: int): int
    requires d != 0
  {
    if x >= 0 then x % Abs(d) else -((-x) % Abs(d))
  }

  /** `moduloIsZero`: the generated code lets the dividend through when the
      divisor is 1 or -1 (no division, which also avoids `idiv`'s overflow on
      -2^31 / -1), tests the low bit when it is 2 or -2, and otherwise tests
      the remainder of `idiv`. */
  predicate ModuloIsZero(dividend: int, divisor: int)
    requires divisor != 0
  {
    if divisor == 1 || divisor == -1 then true
    else if divisor == 2 || divisor == -2 then dividend % 2 == 0
    else TruncatedRemainder(dividend, divisor) == 0
  }

  /** Every branch of `moduloIsZero` tests that the divisor divides the
      dividend. */
  lemma ModuloIsZeroDivides(dividend: int, divisor: int)
    requires divisor != 0
    ensures ModuloIsZero(dividend, divisor) <==> dividend % Abs(divisor) == 0
  {
    var m := Abs(divisor);
    if divisor == 1 || divisor == -1 {
      QuotRem(dividend, 1, dividend, 0);
    } else if dividend < 0 && !(divisor == 2 || divisor == -2) {
      NegatedRemainderZero(dividend, m);
    }
  }

  /** m divides x exactly when it divides -x. */
  lemma NegatedRemainderZero(x: int, m: nat)
    requires m > 0
    ensures (-x) % m == 0 <==> x % m == 0
  {
    DivModSplit(x, m);
    DivModSplit(-x, m);
    if x % m == 0 {
      QuotRem(-x, m, -(x / m), 0);
    }
    if (-x) % m == 0 {
      QuotRem(x, m, -((-x) / m), 0);
    }
  }

  /** The test `generateNthFilterTest` emits, as the answer it computes on a
      32-bit counter: true when the element passes. The subtractions are
      32-bit and fail on a negative (sign flag) result. */
  predicate NthFilterTestPasses(a: Int32, b: Int32, counter: Int32)
  {
    if a == 0 then counter == b
    else if a > 0 then
      if a == 2 && b == 1 then counter % 2 != 0
      else if b != 0 then WrapInt32(counter - b) >= 0 && ModuloIsZero(WrapInt32(counter - b), a)
      else ModuloIsZero(counter, a)
    else WrapInt32(b - counter) >= 0 && ModuloIsZero(WrapInt32(b - counter), a)
  }

  /** The generated test selects exactly the positions an+b names, for every
      position whose distance from b fits in 32 bits. */
  lemma NthFilterTestCorrect(a: Int32, b: Int32, counter: Int32)
    requires counter >= 1
    requires -0x8000_0000 < counter - b < 0x8000_0000
    ensures NthFilterTestPasses(a, b, counter) <==> NthMatches(a, b, counter)
  {
    if a == 0 {
      if counter == b {
        assert Term(a, b, 0) == counter;
      }
    } else if a > 0 {
      if a == 2 && b == 1 {
        OddIsTwoNPlusOne(counter);
      } else {
        ModuloIsZeroDivides(counter - b, a);
        PositiveStep(a, b, counter);
      }
    } else {
      ModuloIsZeroDivides(b - counter, a);
      NegativeStep(a, b, counter);
    }
  }

  /** 2n+1 names the odd positions. */
  lemma OddIsTwoNPlusOne(counter: int)
    requires counter >= 1
    ensures counter % 2 != 0 <==> NthMatches(2, 1, counter)
  {
    DivModSplit(counter, 2);
    if counter % 2 != 0 {
      var n: nat := counter / 2;
      assert Term(2, 1, n) == counter;
    } else if NthMatches(2, 1, counter) {
      var n: nat :| Term(2, 1, n) == counter;
      QuotRem(counter, 2, n, 1);
      assert false;
    }
  }

  /** For a > 0, counter = an+b exactly when counter >= b and a divides
      counter - b. */
  lemma PositiveStep(a: int, b: int, counter: int)
    requires a > 0
    ensures NthMatches(a, b, counter) <==> counter - b >= 0 && (counter - b) % a == 0
  {
    DivModSplit(counter - b, a);
    if counter - b >= 0 && (counter - b) % a == 0 {
      var n: nat := (counter - b) / a;
      assert Term(a, b, n) == counter;
    }
    if NthMatches(a, b, counter) {
      var n: nat :| Term(a, b, n) == counter;
      QuotRem(counter - b, a, n, 0);
    }
  }

  /** For a < 0, counter = an+b exactly when counter <= b and |a| divides
      b - counter. */
  lemma NegativeStep(a: int, b: int, counter: int)
    requires a < 0
    ensures NthMatches(a, b, counter) <==> b - counter >= 0 && (b - counter) % Abs(a) == 0
  {
    var m := -a;
    DivModSplit(b - counter, m);
    if b - counter >= 0 && (b - counter) % m == 0 {
      var n: nat := (b - counter) / m;
      assert Term(a, b, n) == counter by {
        assert a * n == -(m * n);
      }
    }
    if NthMatches(a, b, counter) {
      var n: nat :| Term(a, b, n) == counter;
      assert b - counter == m * n by {
        assert a * n == -(m * n);
      }
      QuotRem(b - counter, m, n, 0);
    }
  }

  // ---------------------------------------------------------------------
  // Attribute value matchers
  // ---------------------------------------------------------------------

  /** `CaseSensitivity`. */
  datatype CaseSensitivity = CaseSensitive | CaseInsensitive

  /** A character as compared under a sensitivity (ASCII folding). */
  function Fold(c: char, sensitivity: CaseSensitivity): char
  {
    if sensitivity == CaseInsensitive && 'A' <= c <= 'Z' then (c as int + 32) as char else c
  }

  function FoldString(s: string, sensitivity: CaseSensitivity): (r: string)
    ensures |r| == |s|
    ensures forall k :: 0 <= k < |s| ==> r[k] == Fold(s[k], sensitivity)
  {
    if |s| == 0 then [] else FoldString(s[..|s| - 1], sensitivity) + [Fold(s[|s| - 1], sensitivity)]
  }

  /** `expected` occurs in `value` at position `at`. */
  predicate OccursAt(value: string, expected: string, at: nat, sensitivity: CaseSensitivity)
  {
    at + |expected| <= |value| &&
    forall k :: 0 <= k < |expected| ==> Fold(value[at + k], sensitivity) == Fold(expected[k], sensitivity)
  }

  /** `isHTMLSpace`: space, tab, line feed, form feed, carriage return. */
  predicate IsHTMLSpace(c: char)
  {
    c == ' ' || c == 9 as char || c == 10 as char || c == 12 as char || c == 13 as char
  }

  /** `attributeValueMatchHyphenRule`. */
  predicate AttributeValueMatchHyphenRule(value: string, expected: string, sensitivity: CaseSensitivity)
  {
    if |value| < |expected| then false
    else if !OccursAt(value, expected, 0, sensitivity) then false
    else |value| == |expected| || value[|expected|] == '-'
  }

  /** Section 6.3.1 of CSS Selectors Level 3: `[att|=val]` matches a value
      that is exactly val, or begins with val immediately followed by "-". */
  predicate HyphenRule(value: string, expected: string, sensitivity: CaseSensitivity)
  {
    FoldString(value, sensitivity) == FoldString(expected, sensitivity) ||
    FoldString(expected, sensitivity) + "-" <= FoldString(value, sensitivity)
  }

  lemma HyphenMatcherMeetsSelectorsLevel3(value: string, expected: string, sensitivity: CaseSensitivity)
    ensures AttributeValueMatchHyphenRule(value, expected, sensitivity) <==> HyphenRule(value, expected, sensitivity)
  {
    var v, e := FoldString(value, sensitivity), FoldString(expected, sensitivity);
    if AttributeValueMatchHyphenRule(value, expected, sensitivity) {
      if |value| == |expected| {
        assert v == e;
      } else {
        assert e + "-" == v[..|e| + 1];
      }
    }
    if HyphenRule(value, expected, sensitivity) {
      if v == e {
        assert OccursAt(value, expected, 0, sensitivity) by {
          forall k | 0 <= k < |expected|
            ensures Fold(value[k], sensitivity) == Fold(expected[k], sensitivity)
          {
            assert v[k] == e[k];
          }
        }
      } else {
        assert OccursAt(value, expected, 0, sensitivity) by {
          forall k | 0 <= k < |expected|
            ensures Fold(value[k], sensitivity) == Fold(expected[k], sensitivity)
          {
            assert v[k] == (e + "-")[k];
          }
        }
        assert v[|e|] == (e + "-")[|e|];
      }
    }
  }

  /** `String::find` / `findIgnoringCase` from `from`: the first position at
      or after `from` where `expected` occurs. */
  function Find(value: string, expected: string, from: nat, sensitivity: CaseSensitivity): (r: Option<nat>)
    ensures r.Some? ==> from <= r.value && OccursAt(value, expected, r.value, sensitivity)
    ensures r.Some? ==> forall q :: from <= q < r.value ==> !OccursAt(value, expected, q, sensitivity)
    ensures r.None? ==> forall q :: from <= q ==> !OccursAt(value, expected, q, sensitivity)
    decreases |value| - from
  {
    if from + |expected| > |value| then None
    else if OccursAt(value, expected, from, sensitivity) then Some(from)
    else Find(value, expected, from + 1, sensitivity)
  }

  /** `expected` stands as a whole word at `at`: the start or an HTML space
      before it, the end or an HTML space after it. */
  predicate WordAt(value: string, expected: string, at: nat, sensitivity: CaseSensitivity)
  {
    OccursAt(value, expected, at, sensitivity) &&
    (at == 0 || IsHTMLSpace(value[at - 1])) &&
    (at + |expected| == |value| || IsHTMLSpace(value[at + |expected|]))
  }

  /** `[att~=val]`: `expected` is one of the value's space-separated words. */
  ghost predicate ListContains(value: string, expected: string, sensitivity: CaseSensitivity)
  {
    exists at: nat :: WordAt(value, expected, at, sensitivity)
  }

  /** `attributeValueSpaceSeparetedListContains`: searches for `expected`
      from the start, accepts an occurrence that stands as a word and
      otherwise searches again one past it. A `[att~=val]` selector whose
      value is empty or holds an HTML space never reaches it. */
  method AttributeValueSpaceSeparatedListContains(value: string, expected: string, sensitivity: CaseSensitivity)
    returns (contains: bool)
    requires |expected| > 0
    ensures contains <==> ListContains(value, expected, sensitivity)
  {
    var startSearchAt: nat := 0;
    while true
      invariant startSearchAt <= |value| + 1
      invariant forall q: nat :: q < startSearchAt ==> !WordAt(value, expected, q, sensitivity)
      decreases |value| + 1 - startSearchAt
    {
      var found := Find(value, expected, startSearchAt, sensitivity);
      if found.None? {
        assert forall q: nat :: !WordAt(value, expected, q, sensitivity) by {
          forall q: nat
            ensures !WordAt(value, expected, q, sensitivity)
          {
            if q >= startSearchAt {
              assert !OccursAt(value, expected, q, sensitivity);
            }
          }
        }
        return false;
      }
      var foundPos := found.value;
      if foundPos == 0 || IsHTMLSpace(value[foundPos - 1]) {
        var endStr := foundPos + |expected|;
        if endStr == |value| || IsHTMLSpace(value[endStr]) {
          assert WordAt(value, expected, foundPos, sensitivity);
          return true;
        }
      }
      startSearchAt := foundPos + 1;
    }
  }

  // ---------------------------------------------------------------------
  // Backtracking start offset
  // ---------------------------------------------------------------------

  /** A `QualifiedName`; a missing prefix is the null atom. */
  datatype QualifiedName = QualifiedName(prefix: Option<string>, localName: string, namespaceURI: string)

  /** `starAtom`. */
  const Star: string := "*"

  /** `anyQName`: no prefix, any local name, any namespace. */
  const AnyQName: QualifiedName := QualifiedName(None, Star, Star)

  /** A tag-name selector: its qualified name and lower-cased local name. */
  datatype TagNameSelector = TagNameSelector(tagQName: QualifiedName, tagLowercaseLocalName: string)

  /** `TagNamePattern`: a tag-name selector (none for no tag name), possibly
      under `:not`. */
  datatype TagNamePattern = TagNamePattern(tagNameSelector: Option<TagNameSelector>, inverted: bool)

  /** `TagNameEquality`. */
  datatype TagNameEquality = StrictlyNotEqual | MaybeEqual | StrictlyEqual

  /** `equalTagNames`: whether two tag-name selectors match the same
      elements, not the same elements, or may go either way. */
  function EqualTagNames(lhs: Option<TagNameSelector>, rhs: Option<TagNameSelector>): TagNameEquality
  {
    if lhs.None? || rhs.None? then MaybeEqual
    else
      var l, r := lhs.value, rhs.value;
      if l.tagQName == AnyQName then MaybeEqual
      else if r.tagQName == AnyQName then MaybeEqual
      else if l.tagQName.localName != Star && r.tagQName.localName != Star then
        if l.tagLowercaseLocalName != r.tagLowercaseLocalName then StrictlyNotEqual
        else if l.tagQName.localName == l.tagLowercaseLocalName && r.tagQName.localName == r.tagLowercaseLocalName
        then StrictlyEqual
        else MaybeEqual
      else if l.tagQName.namespaceURI != Star && r.tagQName.namespaceURI != Star then
        if l.tagQName.namespaceURI != r.tagQName.namespaceURI then StrictlyNotEqual else StrictlyEqual
      else MaybeEqual
  }

  /** `equalTagNames` does not depend on the order of its arguments, and
      never calls a selector strictly unequal to itself. */
  lemma EqualTagNamesSymmetric(lhs: Option<TagNameSelector>, rhs: Option<TagNameSelector>)
    ensures EqualTagNames(lhs, rhs) == EqualTagNames(rhs, lhs)
    ensures EqualTagNames(lhs, lhs) != StrictlyNotEqual
  {
  }

  /** `equalTagNamePatterns`: a possible match counts as equal; otherwise
      the strict answer, negated under `:not`. */
  predicate EqualTagNamePatterns(lhs: TagNamePattern, rhs: TagNamePattern)
  {
    var result := EqualTagNames(lhs.tagNameSelector, rhs.tagNameSelector);
    if result == MaybeEqual then true
    else if lhs.inverted then result != StrictlyEqual
    else result == StrictlyEqual
  }

  /** A pattern not under `:not` is equal to itself. */
  lemma PatternEqualsItself(p: TagNamePattern)
    requires !p.inverted
    ensures EqualTagNamePatterns(p, p)
  {
    EqualTagNamesSymmetric(p.tagNameSelector, p.tagNameSelector);
  }

  /** The last `prefixSize` patterns, read backwards, equal the first
      `prefixSize` read backwards: the chain can restart `|tagNames| -
      prefixSize` elements up. */
  predicate PrefixMatches(tagNames: seq<TagNamePattern>, prefixSize: nat)
    requires prefixSize < |tagNames|
  {
    var offset := |tagNames| - prefixSize;
    forall i :: 0 <= i < prefixSize ==> MirroredEqual(tagNames, offset, i)
  }

  /** The i-th pattern from the end equals the one `offset` before it. */
  predicate MirroredEqual(tagNames: seq<TagNamePattern>, offset: nat, i: nat)
    requires offset + i < |tagNames|
  {
    var lastIndex := |tagNames| - 1;
    EqualTagNamePatterns(tagNames[lastIndex - i], tagNames[lastIndex - i - offset])
  }

  /** The largest prefix size up to `maxPrefixSize` that matches, 0 if none. */
  function LargestMatchingPrefix(tagNames: seq<TagNamePattern>, maxPrefixSize: nat): (p: nat)
    requires maxPrefixSize < |tagNames|
    ensures p <= maxPrefixSize
  {
    if maxPrefixSize == 0 then 0
    else if PrefixMatches(tagNames, maxPrefixSize) then maxPrefixSize
    else LargestMatchingPrefix(tagNames, maxPrefixSize - 1)
  }

  /** `LargestMatchingPrefix` is the largest matching size, and matches. */
  lemma {:induction false} LargestMatchingPrefixIsLargest(tagNames: seq<TagNamePattern>, maxPrefixSize: nat)
    requires maxPrefixSize < |tagNames|
    ensures LargestMatchingPrefix(tagNames, maxPrefixSize) > 0
            ==> PrefixMatches(tagNames, LargestMatchingPrefix(tagNames, maxPrefixSize))
    ensures forall p :: LargestMatchingPrefix(tagNames, maxPrefixSize) < p <= maxPrefixSize ==>
                          !PrefixMatches(tagNames, p)
  {
    if maxPrefixSize > 0 && !PrefixMatches(tagNames, maxPrefixSize) {
      LargestMatchingPrefixIsLargest(tagNames, maxPrefixSize - 1);
    }
  }

  /** `computeBacktrackingStartOffsetInChain`: tries prefix sizes from
      `maxPrefixSize` down to 1 and returns the offset to the first that
      matches, or the chain's length when none does. */
  method ComputeBacktrackingStartOffsetInChain(tagNames: seq<TagNamePattern>, maxPrefixSize: nat)
    returns (offset: nat)
    requires |tagNames| > 0 && maxPrefixSize < |tagNames|
    ensures offset == |tagNames| - LargestMatchingPrefix(tagNames, maxPrefixSize)
    ensures |tagNames| - maxPrefixSize <= offset <= |tagNames|
  {
    var largestPrefixSize: nat := maxPrefixSize;
    while largestPrefixSize > 0
      invariant largestPrefixSize <= maxPrefixSize
      invariant LargestMatchingPrefix(tagNames, maxPrefixSize) == LargestMatchingPrefix(tagNames, largestPrefixSize)
    {
      var offsetToLargestPrefix := |tagNames| - largestPrefixSize;
      var matched := true;
      // Patterns are pushed as the chain is walked, so compare backwards.
      var i := 0;
      while i < largestPrefixSize
        invariant 0 <= i <= largestPrefixSize
        invariant matched <==> forall k :: 0 <= k < i ==> MirroredEqual(tagNames, offsetToLargestPrefix, k)
      {
        var lastIndex := |tagNames| - 1;
        var currentIndex := lastIndex - i;
        if !EqualTagNamePatterns(tagNames[currentIndex], tagNames[currentIndex - offsetToLargestPrefix]) {
          assert !MirroredEqual(tagNames, offsetToLargestPrefix, i);
          matched := false;
          break;
        }
        i := i + 1;
      }
      if matched {
        return offsetToLargestPrefix;
      }
      largestPrefixSize := largestPrefixSize - 1;
    }
    return |tagNames|;
  }

  // ---------------------------------------------------------------------
  // Backtracking actions
  // ---------------------------------------------------------------------

  /** `invalidHeight` and `invalidWidth`: `UINT_MAX`, no tag name to restart
      from. */
  const InvalidHeight: UInt32 := 0xFFFF_FFFF
  const InvalidWidth: UInt32 := 0xFFFF_FFFF

  /** `BacktrackingAction`. */
  datatype BacktrackingAction =
    | NoBacktracking
    | JumpToDescendantEntryPoint
    | JumpToIndirectAdjacentEntryPoint
    | JumpToDescendantTreeWalkerEntryPoint
    | JumpToIndirectAdjacentTreeWalkerEntryPoint
    | JumpToDescendantTail
    | JumpToDirectAdjacentTail

  /** `FragmentRelation`. */
  datatype FragmentRelation = Rightmost | Descendant | Child | DirectAdjacent | IndirectAdjacent

  /** The fields of `SelectorFragment` that backtracking reads and writes. */
  datatype SelectorFragment = SelectorFragment(
    relationToRightFragment: FragmentRelation,
    heightFromDescendant: UInt32,
    widthFromIndirectAdjacent: UInt32,
    tagNameNotMatchedBacktrackingStartHeightFromDescendant: UInt32,
    tagNameMatchedBacktrackingStartHeightFromDescendant: UInt32,
    tagNameNotMatchedBacktrackingStartWidthFromIndirectAdjacent: UInt32,
    tagNameMatchedBacktrackingStartWidthFromIndirectAdjacent: UInt32,
    traversalBacktrackingAction: BacktrackingAction,
    matchingTagNameBacktrackingAction: BacktrackingAction,
    matchingPostTagNameBacktrackingAction: BacktrackingAction)

  /** `solveDescendantBacktrackingActionForChild`. */
  function SolveDescendantBacktrackingActionForChild(fragment: SelectorFragment, startHeight: UInt32): BacktrackingAction
  {
    if startHeight == InvalidHeight then NoBacktracking
    else if startHeight == fragment.heightFromDescendant then JumpToDescendantEntryPoint
    else if startHeight == IncrementUInt32(fragment.heightFromDescendant) then JumpToDescendantTreeWalkerEntryPoint
    else JumpToDescendantTail
  }

  /** `solveAdjacentBacktrackingActionForDirectAdjacent`. */
  function SolveAdjacentBacktrackingActionForDirectAdjacent(fragment: SelectorFragment, startWidth: UInt32): BacktrackingAction
  {
    if startWidth == InvalidWidth then NoBacktracking
    else if startWidth == fragment.widthFromIndirectAdjacent then JumpToIndirectAdjacentEntryPoint
    else if startWidth == IncrementUInt32(fragment.widthFromIndirectAdjacent) then JumpToIndirectAdjacentTreeWalkerEntryPoint
    else JumpToDirectAdjacentTail
  }

  /** Where a restart point lies from the fragment being matched. */
  datatype RestartPoint = NoRestart | AtCurrent | AtNext | Beyond

  /** The descendant actions, by restart point. */
  function DescendantAction(p: RestartPoint): BacktrackingAction
  {
    match p
    case NoRestart => NoBacktracking
    case AtCurrent => JumpToDescendantEntryPoint
    case AtNext => JumpToDescendantTreeWalkerEntryPoint
    case Beyond => JumpToDescendantTail
  }

  /** The adjacent actions, by restart point. */
  function AdjacentAction(p: RestartPoint): BacktrackingAction
  {
    match p
    case NoRestart => NoBacktracking
    case AtCurrent => JumpToIndirectAdjacentEntryPoint
    case AtNext => JumpToIndirectAdjacentTreeWalkerEntryPoint
    case Beyond => JumpToDirectAdjacentTail
  }

  /** Both solvers classify the start the same way: invalid is no restart,
      the fragment's own height or width restarts at the current element,
      one more (in 32-bit arithmetic) at the next one, anything else at the
      tail. For a fragment whose height and width are equal the two solvers
      choose the corresponding actions. */
  lemma SolversShareOneTable(fragment: SelectorFragment, start: UInt32)
    requires fragment.heightFromDescendant == fragment.widthFromIndirectAdjacent
    ensures (var p := if start == InvalidHeight then NoRestart
                      else if start == fragment.heightFromDescendant then AtCurrent
                      else if start == IncrementUInt32(fragment.heightFromDescendant) then AtNext
                      else Beyond;
             SolveDescendantBacktrackingActionForChild(fragment, start) == DescendantAction(p) &&
             SolveAdjacentBacktrackingActionForDirectAdjacent(fragment, start) == AdjacentAction(p))
  {
  }

  /** A start strictly above the parent, or below the current element, is a
      jump to the tail. */
  lemma FarStartIsTail(fragment: SelectorFragment, start: UInt32)
    requires start != InvalidHeight
    requires start > fragment.heightFromDescendant + 1 || start < fragment.heightFromDescendant
    requires fragment.heightFromDescendant < 0xFFFF_FFFF
    ensures SolveDescendantBacktrackingActionForChild(fragment, start) == JumpToDescendantTail
  {
  }

  /** `solveAdjacentTraversalBacktrackingAction`. */
  function SolveAdjacentTraversalBacktrackingAction(fragment: SelectorFragment, hasDescendantRelationOnTheRight: bool)
    : BacktrackingAction
  {
    if !hasDescendantRelationOnTheRight then NoBacktracking
    else if fragment.tagNameMatchedBacktrackingStartHeightFromDescendant == IncrementUInt32(fragment.heightFromDescendant)
    then JumpToDescendantTreeWalkerEntryPoint
    else JumpToDescendantTail
  }

  /** The fragment with its three actions replaced. */
  function WithActions(f: SelectorFragment, traversal: BacktrackingAction, matchingTagName: BacktrackingAction,
                       matchingPostTagName: BacktrackingAction): SelectorFragment
  {
    f.(traversalBacktrackingAction := traversal, matchingTagNameBacktrackingAction := matchingTagName,
       matchingPostTagNameBacktrackingAction := matchingPostTagName)
  }

  /** `solveBacktrackingAction`: fills in the actions a fragment's relation
      calls for and changes nothing else. */
  function SolveBacktrackingAction(fragment: SelectorFragment, hasDescendantRelationOnTheRight: bool,
                                   hasIndirectAdjacentRelationOnTheRightOfDirectAdjacentChain: bool)
    : (solved: SelectorFragment)
    ensures solved == WithActions(fragment, solved.traversalBacktrackingAction,
                                  solved.matchingTagNameBacktrackingAction, solved.matchingPostTagNameBacktrackingAction)
    ensures fragment.relationToRightFragment in {Rightmost, Descendant} ==> solved == fragment
    ensures fragment.relationToRightFragment in {DirectAdjacent, IndirectAdjacent} ==>
      solved.traversalBacktrackingAction == SolveAdjacentTraversalBacktrackingAction(fragment, hasDescendantRelationOnTheRight)
    ensures fragment.relationToRightFragment == Child && hasDescendantRelationOnTheRight ==>
      solved.matchingTagNameBacktrackingAction ==
        SolveDescendantBacktrackingActionForChild(fragment, fragment.tagNameNotMatchedBacktrackingStartHeightFromDescendant) &&
      solved.matchingPostTagNameBacktrackingAction ==
        SolveDescendantBacktrackingActionForChild(fragment, fragment.tagNameMatchedBacktrackingStartHeightFromDescendant)
    ensures fragment.relationToRightFragment == DirectAdjacent && !hasIndirectAdjacentRelationOnTheRightOfDirectAdjacentChain
            && hasDescendantRelationOnTheRight ==>
      solved.matchingTagNameBacktrackingAction == solved.traversalBacktrackingAction &&
      solved.matchingPostTagNameBacktrackingAction == solved.traversalBacktrackingAction
    ensures fragment.relationToRightFragment == DirectAdjacent && hasIndirectAdjacentRelationOnTheRightOfDirectAdjacentChain ==>
      solved.matchingTagNameBacktrackingAction ==
        SolveAdjacentBacktrackingActionForDirectAdjacent(fragment, fragment.tagNameNotMatchedBacktrackingStartWidthFromIndirectAdjacent) &&
      solved.matchingPostTagNameBacktrackingAction ==
        SolveAdjacentBacktrackingActionForDirectAdjacent(fragment, fragment.tagNameMatchedBacktrackingStartWidthFromIndirectAdjacent)
    ensures !hasDescendantRelationOnTheRight && !(fragment.relationToRightFragment == DirectAdjacent
                                                  && hasIndirectAdjacentRelationOnTheRightOfDirectAdjacentChain) ==>
      solved.matchingTagNameBacktrackingAction == fragment.matchingTagNameBacktrackingAction &&
      solved.matchingPostTagNameBacktrackingAction == fragment.matchingPostTagNameBacktrackingAction
  {
    match fragment.relationToRightFragment
    case Rightmost => fragment
    case Descendant => fragment
    case Child =>
      if hasDescendantRelationOnTheRight then
        fragment.(matchingTagNameBacktrackingAction :=
                    SolveDescendantBacktrackingActionForChild(fragment, fragment.tagNameNotMatchedBacktrackingStartHeightFromDescendant),
                  matchingPostTagNameBacktrackingAction :=
                    SolveDescendantBacktrackingActionForChild(fragment, fragment.tagNameMatchedBacktrackingStartHeightFromDescendant))
      else fragment
    case DirectAdjacent =>
      var traversal := SolveAdjacentTraversalBacktrackingAction(fragment, hasDescendantRelationOnTheRight);
      var f := fragment.(traversalBacktrackingAction := traversal);
      if hasIndirectAdjacentRelationOnTheRightOfDirectAdjacentChain then
        f.(matchingTagNameBacktrackingAction :=
             SolveAdjacentBacktrackingActionForDirectAdjacent(fragment, fragment.tagNameNotMatchedBacktrackingStartWidthFromIndirectAdjacent),
           matchingPostTagNameBacktrackingAction :=
             SolveAdjacentBacktrackingActionForDirectAdjacent(fragment, fragment.tagNameMatchedBacktrackingStartWidthFromIndirectAdjacent))
      else if hasDescendantRelationOnTheRight then
        f.(matchingTagNameBacktrackingAction := traversal, matchingPostTagNameBacktrackingAction := traversal)
      else f
    case IndirectAdjacent =>
      fragment.(traversalBacktrackingAction := SolveAdjacentTraversalBacktrackingAction(fragment, hasDescendantRelationOnTheRight))
  }

  /** Solving twice gives what solving once gives: the actions are computed
      from heights and widths the solver does not change. */
  lemma SolveBacktrackingActionIdempotent(fragment: SelectorFragment, hasDescendant: bool, hasIndirectAdjacent: bool)
    ensures SolveBacktrackingAction(SolveBacktrackingAction(fragment, hasDescendant, hasIndirectAdjacent),
                                    hasDescendant, hasIndirectAdjacent)
         == SolveBacktrackingAction(fragment, hasDescendant, hasIndirectAdjacent)
  {
  }
}
