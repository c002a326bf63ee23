/**
 * `RemoteObject.js`: the Web Inspector's handle on a value living in the
 * inspected page. An object with an `objectId` is a handle the backend
 * resolves; one without is a primitive, copied by value. The model covers
 * the constructor, `fromPrimitiveValue`, `RemoteObject.type`, the subtype
 * queries, the request `getCollectionEntries` sends, the early answer of
 * property fetching, `arrayLength` and the weak-collection object group.
 *
 * JavaScript values are a datatype; numbers are integers. An object value
 * carries its `type` property and the string `value + ""` gives for it.
 * The backend agents (`RuntimeAgent`) are not part of this model: a call
 * to one is returned as the request it would send.
 */
module InspectorRemoteObject {
  import opened Wrappers
  import opened DecimalText

  /** A JavaScript value. */
  datatype JsValue =
    | Undefined
    | Null
    | Bool(b: bool)
    | Number(n: int)
    | Str(s: string)
    | Symbol
    | Obj(isFunction: bool, typeProperty: Option<string>, text: string)

  /** `typeof v`. */
  function TypeOf(v: JsValue): string
  {
    match v
    case Undefined => "undefined"
    case Null => "object"
    case Bool(_) => "boolean"
    case Number(_) => "number"
    case Str(_) => "string"
    case Symbol => "symbol"
    case Obj(isFunction, _, _) => if isFunction then "function" else "object"
  }

  /** `"" + n` for an integer. */
  function IntegerString(n: int): string
  {
    if n < 0 then "-" + DecimalString(-n) else DecimalString(n)
  }

  /** `v + ""`, defined for every value but a symbol, which throws. */
  function ToStringValue(v: JsValue): string
    requires !v.Symbol?
  {
    match v
    case Undefined => "undefined"
    case Null => "null"
    case Bool(b) => if b then "true" else "false"
    case Number(n) => IntegerString(n)
    case Str(s) => s
    case Obj(_, _, text) => text
  }

  /** A string is truthy unless it is missing or empty. */
  predicate Truthy(s: Option<string>)
  {
    s.Some? && s.value != ""
  }

  /** `WebInspector.RemoteObject.type(remoteObject)`: "null" for null, the
      `typeof` of anything that is not an object or a function, and the
      `type` property of those (undefined when it has none). */
  function RemoteObjectType(remoteObject: JsValue): (r: Option<string>)
    ensures remoteObject.Null? ==> r == Some("null")
    ensures !remoteObject.Null? && !remoteObject.Obj? ==> r == Some(TypeOf(remoteObject))
    ensures remoteObject.Obj? ==> r == remoteObject.typeProperty
  {
    if remoteObject.Null? then Some("null")
    else if TypeOf(remoteObject) != "object" && TypeOf(remoteObject) != "function" then Some(TypeOf(remoteObject))
    else remoteObject.typeProperty
  }

  /** A `preview` payload, opaque to this model. */
  datatype Preview = Preview(id: nat)

  /** The collection-entries request `getCollectionEntries` sends. */
  datatype CollectionEntriesRequest = CollectionEntriesRequest(
    objectId: Option<string>, objectGroup: string, start: int, numberToFetch: int)

  /** What `_getProperties` does: answers `[]` at once, or sends the
      backend a properties request (`allForLocalFilter` when the backend
      lacks `ownAndGetterProperties` and all properties are fetched to be
      filtered here). */
  datatype PropertiesOutcome =
    | EmptyProperties
    | PropertiesRequest(objectId: string, ownProperties: bool, ownAndGetterProperties: bool, allForLocalFilter: bool)

  const Backspace: char := 8 as char
  const FormFeed: char := 12 as char
  const Tab: char := 9 as char
  const LineFeed: char := 10 as char
  const CarriageReturn: char := 13 as char
  const Quote: char := 34 as char
  const Backslash: char := 92 as char
  const OpenBracket: char := 91 as char
  const CloseBracket: char := 93 as char

  /** The characters `JSON.stringify` writes for one character of a string. */
  function JsonEscapeChar(c: char): string
  {
    if c == Quote then [Backslash, Quote]
    else if c == Backslash then [Backslash, Backslash]
    else if c == Backspace then [Backslash, 'b']
    else if c == FormFeed then [Backslash, 'f']
    else if c == LineFeed then [Backslash, 'n']
    else if c == CarriageReturn then [Backslash, 'r']
    else if c == Tab then [Backslash, 't']
    else if c < ' ' then [Backslash, 'u', '0', '0'] + [HexDigit(c as int / 16), HexDigit(c as int % 16)]
    else [c]
  }

  function HexDigit(d: nat): char
    requires d < 16
  {
    "0123456789abcdef"[d]
  }

  function HexValue(c: char): (v: nat)
    ensures v < 16
  {
    if '0' <= c <= '9' then (c as int - '0' as int) as nat
    else if 'a' <= c <= 'f' then (c as int - 'a' as int + 10) as nat
    else 0
  }

  function JsonEscape(s: string): string
  {
    if |s| == 0 then "" else JsonEscapeChar(s[0]) + JsonEscape(s[1..])
  }

  /** `JSON.stringify` of a string, and of undefined (which gives undefined,
      printed as "undefined" by the concatenation that follows). */
  function JsonStringify(s: Option<string>): string
  {
    if s.None? then "undefined" else [Quote] + JsonEscape(s.value) + [Quote]
  }

  /** Reads back the escaped text `JsonEscape` writes (its backslash-u escapes
      are all below 0x100). */
  function JsonUnescape(t: string): string
  {
    if |t| == 0 then ""
    else if t[0] == Backslash && |t| >= 6 && t[1] == 'u' then
      [(HexValue(t[4]) * 16 + HexValue(t[5])) as char] + JsonUnescape(t[6..])
    else if t[0] == Backslash && |t| >= 2 then [UnescapedChar(t[1])] + JsonUnescape(t[2..])
    else [t[0]] + JsonUnescape(t[1..])
  }

  function UnescapedChar(c: char): char
  {
    if c == 'b' then Backspace else if c == 'f' then FormFeed else if c == 'n' then LineFeed
    else if c == 'r' then CarriageReturn else if c == 't' then Tab else c
  }

  lemma HexDigitValue(d: nat)
    requires d < 16
    ensures HexValue(HexDigit(d)) == d
  {
  }

  /** A control character without a short escape reads back from its
      backslash-u-00XY escape. */
  lemma UnescapeControl(c: char, rest: string)
    requires c < ' ' && c != Backspace && c != FormFeed && c != LineFeed && c != CarriageReturn && c != Tab
    ensures JsonUnescape(JsonEscapeChar(c) + rest) == [c] + JsonUnescape(rest)
  {
    var hi, lo := c as int / 16, c as int % 16;
    var t := JsonEscapeChar(c) + rest;
    assert JsonEscapeChar(c) == [Backslash, 'u', '0', '0'] + [HexDigit(hi), HexDigit(lo)];
    assert t[0] == Backslash && t[1] == 'u' && t[4] == HexDigit(hi) && t[5] == HexDigit(lo);
    assert t[6..] == rest;
    HexDigitValue(hi);
    HexDigitValue(lo);
    assert (hi * 16 + lo) as char == c;
  }

  lemma UnescapeChar(c: char, rest: string)
    ensures JsonUnescape(JsonEscapeChar(c) + rest) == [c] + JsonUnescape(rest)
  {
    var e := JsonEscapeChar(c);
    if c < ' ' && c != Backspace && c != FormFeed && c != LineFeed && c != CarriageReturn && c != Tab {
      UnescapeControl(c, rest);
    } else if |e| == 2 {
      assert (e + rest)[2..] == rest;
    } else {
      assert (e + rest)[1..] == rest;
    }
  }

  /** Escaping loses nothing: the escaped text reads back as the string. */
  lemma {:induction false} JsonEscapeRoundTrip(s: string)
    ensures JsonUnescape(JsonEscape(s)) == s
  {
    if |s| > 0 {
      UnescapeChar(s[0], JsonEscape(s[1..]));
      JsonEscapeRoundTrip(s[1..]);
    }
  }

  /** `[digits]` occurs at i: a bracket, at least one digit from i + 1 up
      to j, and a closing bracket at j. */
  predicate BracketedDigitsAt(s: string, i: nat, j: nat)
  {
    i + 1 < j < |s| && s[i] == OpenBracket && s[j] == CloseBracket && forall k :: i < k < j ==> IsDigit(s[k])
  }

  /** The end of the run of digits starting at k. */
  function DigitsEnd(s: string, k: nat): (j: nat)
    requires k <= |s|
    ensures k <= j <= |s| && (j == |s| || !IsDigit(s[j]))
    ensures forall m :: k <= m < j ==> IsDigit(s[m])
    decreases |s| - k
  {
    if k < |s| && IsDigit(s[k]) then DigitsEnd(s, k + 1) else k
  }

  /** The leftmost match of the pattern: an opening bracket, one or more
      digits, a closing bracket; at or after `from`, as the positions of
      its brackets. */
  function FirstBracketedDigits(s: string, from: nat): (r: Option<(nat, nat)>)
    requires from <= |s|
    ensures r.Some? ==> from <= r.value.0 && r.value.0 + 1 < r.value.1 < |s|
    decreases |s| - from
  {
    if from == |s| then None
    else if s[from] == OpenBracket && DigitsEnd(s, from + 1) > from + 1 && DigitsEnd(s, from + 1) < |s| &&
      s[DigitsEnd(s, from + 1)] == CloseBracket
    then Some((from, DigitsEnd(s, from + 1)))
    else FirstBracketedDigits(s, from + 1)
  }

  /** A run of digits from k ends at the first non-digit after it. */
  lemma DigitRunCloses(s: string, k: nat, j: nat, e: nat)
    requires k <= j < |s| && !IsDigit(s[j]) && forall m :: k <= m < j ==> IsDigit(s[m])
    requires k <= e <= |s| && (e == |s| || !IsDigit(s[e])) && forall m :: k <= m < e ==> IsDigit(s[m])
    ensures j == e
  {
  }

  /** The match found is a match, and no match starts earlier; when none is
      found there is none. */
  lemma {:induction false} FirstBracketedDigitsLeftmost(s: string, from: nat)
    requires from <= |s|
    ensures FirstBracketedDigits(s, from).Some? ==>
      var (i, j) := FirstBracketedDigits(s, from).value;
      from <= i && BracketedDigitsAt(s, i, j) && forall i1, j1 :: from <= i1 < i ==> !BracketedDigitsAt(s, i1, j1)
    ensures FirstBracketedDigits(s, from).None? ==> forall i1, j1 :: from <= i1 ==> !BracketedDigitsAt(s, i1, j1)
    decreases |s| - from
  {
    if from < |s| {
      var e := DigitsEnd(s, from + 1);
      forall j1: nat | BracketedDigitsAt(s, from, j1)
        ensures j1 == e
      {
        DigitRunCloses(s, from + 1, j1, e);
      }
      if !(s[from] == OpenBracket && e > from + 1 && e < |s| && s[e] == CloseBracket) {
        FirstBracketedDigitsLeftmost(s, from + 1);
      }
    }
  }

  /** The integer `arrayLength` reads from a description: that in the first
      `[digits]`, or 0 when there is none. */
  function DescriptionArrayLength(description: string): nat
  {
    match FirstBracketedDigits(description, 0)
    case None => 0
    case Some((i, j)) => ParseDecimal(description[i + 1..j])
  }

  /** A description "<name>[<n>]..." whose name has no bracket gives n. */
  lemma ArrayLengthReadsCount(name: string, n: nat, rest: string)
    requires OpenBracket !in name
    ensures DescriptionArrayLength(name + [OpenBracket] + DecimalString(n) + [CloseBracket] + rest) == n
  {
    var digits := DecimalString(n);
    DecimalStringDigits(n);
    DecimalStringParses(n);
    BracketedAfterName(name, digits, rest);
    var s := name + [OpenBracket] + digits + [CloseBracket] + rest;
    assert DescriptionArrayLength(s) == ParseDecimal(s[|name| + 1..|name| + 1 + |digits|]);
  }

  /** In "<name>[<digits>]..." with no bracket in the name, the first
      bracketed run of digits is the one after the name. */
  lemma BracketedAfterName(name: string, digits: string, rest: string)
    requires OpenBracket !in name && |digits| > 0 && forall k :: 0 <= k < |digits| ==> IsDigit(digits[k])
    ensures var s := name + [OpenBracket] + digits + [CloseBracket] + rest;
      && FirstBracketedDigits(s, 0) == Some((|name|, |name| + 1 + |digits|))
      && s[|name| + 1..|name| + 1 + |digits|] == digits
  {
    var s := name + [OpenBracket] + digits + [CloseBracket] + rest;
    var e := |name| + 1 + |digits|;
    AfterNameLayout(name, digits, rest);
    forall k | 0 <= k < |name| ensures s[k] != OpenBracket {
      assert s[k] == s[..|name|][k] && name[k] in name;
    }
    SkipToBracket(s, 0, |name|);
    forall m | |name| + 1 <= m < e ensures IsDigit(s[m]) {
      assert s[m] == s[|name| + 1..e][m - |name| - 1];
    }
    DigitsEndAt(s, |name| + 1, e);
  }

  /** The search for a bracketed number passes over characters that are
      not an opening bracket. */
  lemma {:induction false} SkipToBracket(s: string, from: nat, stop: nat)
    requires from <= stop < |s| && forall k :: from <= k < stop ==> s[k] != OpenBracket
    ensures FirstBracketedDigits(s, from) == FirstBracketedDigits(s, stop)
    decreases stop - from
  {
    if from < stop {
      SkipToBracket(s, from + 1, stop);
    }
  }

  /** A run of digits from k ends at the first non-digit e. */
  lemma {:induction false} DigitsEndAt(s: string, k: nat, e: nat)
    requires k <= e < |s| && !IsDigit(s[e]) && forall m :: k <= m < e ==> IsDigit(s[m])
    ensures DigitsEnd(s, k) == e
    decreases e - k
  {
    if k < e {
      DigitsEndAt(s, k + 1, e);
    }
  }

  /** Where the parts of "<name>[<digits>]<rest>" lie. */
  lemma AfterNameLayout(name: string, digits: string, rest: string)
    ensures var s := name + [OpenBracket] + digits + [CloseBracket] + rest;
      && |s| == |name| + |digits| + 2 + |rest|
      && s[..|name|] == name && s[|name|] == OpenBracket
      && s[|name| + 1..|name| + 1 + |digits|] == digits && s[|name| + 1 + |digits|] == CloseBracket
  {
    var s := name + [OpenBracket] + digits + [CloseBracket] + rest;
    assert s == name + ([OpenBracket] + digits + [CloseBracket] + rest);
    assert s[|name|..] == [OpenBracket] + digits + [CloseBracket] + rest;
  }

  /** A primitive with no truthy description is described by `value + ""`,
      which throws a TypeError for a symbol. */
  predicate Throws(objectId: Option<string>, value: JsValue, description: Option<string>)
  {
    !Truthy(objectId) && !Truthy(description) && value.Symbol?
  }

  /** `o` holds what the constructor stores for these arguments. */
  predicate Built(o: RemoteObject, objectId: Option<string>, remoteType: Option<string>, subtype: Option<string>,
                  value: JsValue, description: Option<string>, preview: Option<Preview>)
    requires !Throws(objectId, value, description)
  {
    o.remoteType == remoteType && o.subtype == subtype
    && (Truthy(objectId) ==> (o.objectId == objectId && o.description == description &&
          (o.hasChildren <==> remoteType != Some("symbol")) && o.preview == preview && o.value == Undefined))
    && (!Truthy(objectId) ==> (o.objectId == None && !o.hasChildren && o.value == value && o.preview == None &&
          o.description == Some(if Truthy(description) then description.value else ToStringValue(value))))
  }

  /** What a `new` expression gives its caller: the object, or the
      TypeError it throws. */
  datatype Constructed = Created(obj: RemoteObject) | TypeError

  /** `new WebInspector.RemoteObject(objectId, type, subtype, value,
      description, preview)`: a TypeError exactly for a symbol primitive
      with no truthy description, otherwise a fresh object built from the
      arguments. */
  method Construct(objectId: Option<string>, remoteType: Option<string>, subtype: Option<string>, value: JsValue,
                   description: Option<string>, preview: Option<Preview>) returns (r: Constructed)
    ensures r.TypeError? <==> Throws(objectId, value, description)
    ensures r.Created? ==> fresh(r.obj) && Built(r.obj, objectId, remoteType, subtype, value, description, preview)
  {
    if Throws(objectId, value, description) {
      return TypeError;
    }
    var o := new RemoteObject(objectId, remoteType, subtype, value, description, preview);
    return Created(o);
  }

  class RemoteObject {
    const objectId: Option<string>
    const remoteType: Option<string>
    const subtype: Option<string>
    const description: Option<string>
    const hasChildren: bool
    const preview: Option<Preview>
    /** The `value` field, set only on a primitive. */
    const value: JsValue

    /** The body of `WebInspector.RemoteObject(objectId, type, subtype,
        value, description, preview)` when it completes: with a truthy
        `objectId` a handle, with children unless it is a symbol; otherwise
        a primitive without children holding its value, whose description
        defaults to the value as a string. `Construct` is the whole `new`
        expression, throw included. */
    constructor (objectId: Option<string>, remoteType: Option<string>, subtype: Option<string>, value: JsValue,
                 description: Option<string>, preview: Option<Preview>)
      requires !Throws(objectId, value, description)
      ensures Built(this, objectId, remoteType, subtype, value, description, preview)
    {
      this.remoteType := remoteType;
      this.subtype := subtype;
      if Truthy(objectId) {
        this.objectId := objectId;
        this.description := description;
        this.hasChildren := remoteType != Some("symbol");
        this.preview := preview;
        this.value := Undefined;
      } else {
        this.objectId := None;
        this.description := Some(if Truthy(description) then description.value else ToStringValue(value));
        this.hasChildren := false;
        this.preview := None;
        this.value := value;
      }
    }

    /** `_isSymbol`. */
    predicate IsSymbol()
    {
      remoteType == Some("symbol")
    }

    /** `isCollectionType`: the subtype is map, set or weakmap. */
    function IsCollectionType(): (r: bool)
      ensures r <==> subtype in {Some("map"), Some("set"), Some("weakmap")}
    {
      subtype == Some("map") || subtype == Some("set") || subtype == Some("weakmap")
    }

    /** `isWeakCollection`. */
    function IsWeakCollection(): (r: bool)
      ensures r ==> IsCollectionType()
    {
      subtype == Some("weakmap")
    }

    /** `_weakCollectionObjectGroup`: the JSON form of the object id
        followed by "-WeakMap". */
    function WeakCollectionObjectGroup(): (group: string)
      ensures |group| >= 8 && group[|group| - 8..] == "-WeakMap"
    {
      JsonStringify(objectId) + "-WeakMap"
    }

    /** `getCollectionEntries(start, numberToFetch)`: a start or count that
        is not a number becomes 0 or 100; a weak collection's entries are
        fetched into its own object group, any other into the default
        group "". */
    function GetCollectionEntries(start: JsValue, numberToFetch: JsValue): (request: CollectionEntriesRequest)
      ensures request.objectId == objectId
      ensures request.start == if start.Number? then start.n else 0
      ensures request.numberToFetch == if numberToFetch.Number? then numberToFetch.n else 100
      ensures IsWeakCollection() ==> request.objectGroup == WeakCollectionObjectGroup()
      ensures !IsWeakCollection() ==> request.objectGroup == ""
    {
      var s := if TypeOf(start) == "number" then start.n else 0;
      var count := if TypeOf(numberToFetch) == "number" then numberToFetch.n else 100;
      var objectGroup := if IsWeakCollection() then WeakCollectionObjectGroup() else "";
      CollectionEntriesRequest(objectId, objectGroup, s, count)
    }

    /** `_getProperties`: `[]` at once for a primitive or a symbol;
        otherwise a request to the backend, for all properties to filter
        here when own-and-getter properties are wanted from a backend that
        cannot select them. */
    function GetProperties(ownProperties: bool, ownAndGetterProperties: bool, backendSupportsOwnAndGetter: bool)
      : (r: PropertiesOutcome)
      ensures r.EmptyProperties? <==> !Truthy(objectId) || IsSymbol()
      ensures r.PropertiesRequest? ==> (r.objectId == objectId.value &&
        r.allForLocalFilter == (ownAndGetterProperties && !backendSupportsOwnAndGetter))
      ensures r.PropertiesRequest? && !r.allForLocalFilter ==>
        r.ownProperties == ownProperties && r.ownAndGetterProperties == ownAndGetterProperties
    {
      if !Truthy(objectId) || IsSymbol() then EmptyProperties
      else if ownAndGetterProperties && !backendSupportsOwnAndGetter then
        PropertiesRequest(objectId.value, false, false, true)
      else PropertiesRequest(objectId.value, ownProperties, ownAndGetterProperties, false)
    }

    /** `arrayLength`: 0 unless the subtype is "array"; otherwise the
        integer in the first `[digits]` of the description, or 0. Reading
        the description of an array handle that has none throws, which is
        `None` here. */
    function ArrayLength(): (r: Option<nat>)
      ensures subtype != Some("array") ==> r == Some(0)
      ensures subtype == Some("array") && description.None? ==> r.None?
      ensures subtype == Some("array") && description.Some? ==>
        r == Some(DescriptionArrayLength(description.value))
    {
      if subtype != Some("array") then Some(0)
      else if description.None? then None
      else Some(DescriptionArrayLength(description.value))
    }
  }

  /** `fromPrimitiveValue(value)`: a primitive of type `typeof value`; for a
      symbol the constructor's `value + ""` throws a TypeError. */
  method FromPrimitiveValue(value: JsValue) returns (r: Constructed)
    ensures r.TypeError? <==> value.Symbol?
    ensures r.Created? ==> fresh(r.obj)
    ensures r.Created? ==> r.obj.objectId == None && !r.obj.hasChildren && r.obj.value == value
    ensures r.Created? ==> r.obj.remoteType == Some(TypeOf(value)) && r.obj.subtype == None
    ensures r.Created? ==> r.obj.description == Some(ToStringValue(value))
  {
    r := Construct(None, Some(TypeOf(value)), None, value, None, None);
  }

  /** Distinct object ids give distinct weak-collection groups. */
  lemma WeakGroupsDistinct(a: RemoteObject, b: RemoteObject)
    requires a.objectId.Some? && b.objectId.Some? && a.objectId != b.objectId
    ensures a.WeakCollectionObjectGroup() != b.WeakCollectionObjectGroup()
  {
    var ga, gb := a.WeakCollectionObjectGroup(), b.WeakCollectionObjectGroup();
    var ea, eb := JsonEscape(a.objectId.value), JsonEscape(b.objectId.value);
    if ga == gb {
      assert ga[..|ga| - 8] == [Quote] + ea + [Quote];
      assert gb[..|gb| - 8] == [Quote] + eb + [Quote];
      assert ea == ([Quote] + ea + [Quote])[1..|ea| + 1];
      assert eb == ([Quote] + eb + [Quote])[1..|eb| + 1];
      JsonEscapeRoundTrip(a.objectId.value);
      JsonEscapeRoundTrip(b.objectId.value);
    }
  }
}
