/**
 * The Objective-C frontend dispatcher generator: for every domain with
 * events it produces a dispatcher class with one method per event. Each
 * method checks its pointer parameters, builds the JSON message (an object
 * whose method is `<Domain>.<event>` and whose params hold the parameters)
 * and sends it over the frontend channel.
 *
 * As in the C++ generator, the output is a sequence of abstract lines, and
 * the helpers of objc_generator.py and cpp_generator.py that the generator
 * calls are the functions of an `ObjCTypeOracle`. The event signature is
 * built as text because the generator assembles it character by character.
 */
module ObjCFrontendDispatcher {
  import opened Wrappers
  import opened InspectorSchema

  /** The helpers of objc_generator.py / cpp_generator.py used by the generator. */
  datatype ObjCTypeOracle = ObjCTypeOracle(
    objcPrefix: string,                                  // `ObjCGenerator.OBJC_PREFIX`
    generatesEventDispatcher: Domain -> bool,            // `should_generate_domain_event_dispatcher_filter`
    isObjcPointerType: ProtocolType -> bool,             // `is_type_objc_pointer_type`
    objcClassForArrayType: ProtocolType -> Option<string>, // `objc_class_for_array_type`
    objcIdentifier: string -> string,                    // `identifier_to_objc_identifier`
    objcTypeForParam: (string, string, Parameter) -> string, // `objc_type_for_param(domain, event, parameter)`
    setterForType: ProtocolType -> string,               // `cpp_setter_method_for_type`
    exportExpression: (ProtocolType, string) -> string)  // `objc_protocol_export_expression_for_variable`

  datatype Line =
    | Text(text: string)
    | ImplementationOf(className: string)             // `@implementation <class>`
    | OpenBody                                        // the opening brace of a method body
    | CloseBody                                       // the closing brace of a method body
    | ControllerIvar                                  // the ivar block holding `_controller`
    | InitWithController                              // `initWithController:`, which stores the controller
    | EventSignature(signature: string)
    | GetChannel                                      // `frontendChannel = _controller->frontendChannel();`
    | IfNoChannel                                     // `if (!frontendChannel)`
    | ReturnStatement
    | RequiredCheck(requiredName: string)             // `THROW_EXCEPTION_FOR_REQUIRED_PARAMETER`
    | RequiredArrayCheck(requiredArray: string, requiredClass: string)
    | OptionalCheck(optionalName: string)             // `THROW_EXCEPTION_FOR_BAD_OPTIONAL_PARAMETER`
    | OptionalArrayCheck(optionalArray: string, optionalClass: string)
    | CreateMessage                                   // `Ref<InspectorObject> jsonMessage = ...`
    | SetMethod(methodValue: string)                  // `jsonMessage->setString("method", ...)`
    | CreateParams                                    // `Ref<InspectorObject> paramsObject = ...`
    | IfPresent(presentName: string)                  // `if (<name>)`
    | SetParam(setter: string, key: string, exported: string)
    | SetParamsObject                                 // `jsonMessage->setObject("params", ...)`
    | SendMessage                                     // `frontendChannel->sendMessageToFrontend(...)`

  datatype Section =
    | License
    | Prelude
    | DomainImplementation(lines: seq<Line>)
    | Postlude

  // ------------------------------------------------------------ generator

  /** `domains_to_generate`: the domains the oracle's filter accepts, in order. */
  function DomainsToGenerate(o: ObjCTypeOracle, domains: seq<Domain>): (r: seq<Domain>)
    ensures forall d :: d in r <==> d in domains && o.generatesEventDispatcher(d)
  {
    if |domains| == 0 then []
    else
      (if o.generatesEventDispatcher(domains[0]) then [domains[0]] else [])
        + DomainsToGenerate(o, domains[1..])
  }

  function DomainImplementations(o: ObjCTypeOracle, ds: seq<Domain>): (r: seq<Section>)
    ensures |r| == |ds|
  {
    if |ds| == 0 then [] else [DomainImplementation(DomainLines(o, ds[0]))] + DomainImplementations(o, ds[1..])
  }

  /** Section `i` is the implementation of domain `i`. */
  lemma {:induction false} DomainImplementationsAt(o: ObjCTypeOracle, ds: seq<Domain>)
    ensures forall i :: 0 <= i < |ds| ==> DomainImplementations(o, ds)[i] == DomainImplementation(DomainLines(o, ds[i]))
  {
    if |ds| > 0 {
      DomainImplementationsAt(o, ds[1..]);
      var r := DomainImplementations(o, ds);
      forall i | 1 <= i < |ds| ensures r[i] == DomainImplementation(DomainLines(o, ds[i])) {
        assert r[i] == DomainImplementations(o, ds[1..])[i - 1];
        assert ds[i] == ds[1..][i - 1];
      }
    }
  }

  /** `generate_output`: license, prelude, one section per generated domain, postlude. */
  function GenerateOutput(o: ObjCTypeOracle, domains: seq<Domain>): seq<Section>
  {
    [License, Prelude] + DomainImplementations(o, DomainsToGenerate(o, domains)) + [Postlude]
  }

  /** `_generate_event_dispatcher_implementations`; a domain without events gives no text. */
  function DomainLines(o: ObjCTypeOracle, d: Domain): seq<Line>
  {
    if |d.events| == 0 then []
    else DispatcherHeader(o, d) + EventsLines(o, d, d.events) + [Text("@end")]
  }

  /** The class header: the controller instance variable and the initializer. */
  function DispatcherHeader(o: ObjCTypeOracle, d: Domain): seq<Line>
  {
    [ImplementationOf(o.objcPrefix + d.domainName + "DomainEventDispatcher"),
     ControllerIvar, Text(""), InitWithController, Text("")]
  }

  /** Each event's method followed by a blank line. */
  function EventsLines(o: ObjCTypeOracle, d: Domain, es: seq<Event>): seq<Line>
  {
    if |es| == 0 then [] else EventLines(o, d, es[0]) + [Text("")] + EventsLines(o, d, es[1..])
  }

  /** `_generate_event`. */
  function EventLines(o: ObjCTypeOracle, d: Domain, e: Event): seq<Line>
  {
    [EventSignature(Signature(o, d, e))] + EventBody(o, d, e)
  }

  /** The method body: the braces around the middle lines and the send. */
  function EventBody(o: ObjCTypeOracle, d: Domain, e: Event): seq<Line>
  {
    [OpenBody] + MiddleLines(o, d, e) + [SendMessage, CloseBody]
  }

  /** The channel guard, the checks and the message, between the opening brace and the send. */
  function MiddleLines(o: ObjCTypeOracle, d: Domain, e: Event): seq<Line>
  {
    ChannelGuard() + CheckBlock(o, e.eventParameters) + MessageLines(o, d, e)
  }

  function ChannelGuard(): seq<Line>
  {
    [GetChannel, IfNoChannel, ReturnStatement, Text("")]
  }

  /** A parameter is checked when it has an ObjC pointer type. */
  predicate IsPointerParameter(o: ObjCTypeOracle, p: Parameter)
  {
    o.isObjcPointerType(p.parameterType)
  }

  /** The required pointer parameters, then the optional ones, in declared order. */
  function PointerParameters(o: ObjCTypeOracle, ps: seq<Parameter>, optional: bool): seq<Parameter>
  {
    if |ps| == 0 then []
    else
      (if ps[0].isOptional == optional && IsPointerParameter(o, ps[0]) then [ps[0]] else [])
        + PointerParameters(o, ps[1..], optional)
  }

  lemma {:induction false} PointerParametersMembers(o: ObjCTypeOracle, ps: seq<Parameter>, optional: bool)
    ensures forall p :: p in PointerParameters(o, ps, optional) <==>
      p in ps && p.isOptional == optional && IsPointerParameter(o, p)
  {
    if |ps| > 0 { PointerParametersMembers(o, ps[1..], optional); }
  }

  /** The ObjC class of an array parameter's elements, when it carries the ObjC prefix. */
  function PrefixedArrayClass(o: ObjCTypeOracle, p: Parameter): Option<string>
  {
    match o.objcClassForArrayType(p.parameterType)
    case Some(cls) => if |cls| > 0 && o.objcPrefix <= cls then Some(cls) else None
    case None => None
  }

  /** The check lines for one pointer parameter. */
  function ParameterChecks(o: ObjCTypeOracle, p: Parameter): seq<Line>
  {
    var name := o.objcIdentifier(p.parameterName);
    var presence := if p.isOptional then OptionalCheck(name) else RequiredCheck(name);
    match PrefixedArrayClass(o, p)
    case Some(cls) => [presence, if p.isOptional then OptionalArrayCheck(name, cls) else RequiredArrayCheck(name, cls)]
    case None => [presence]
  }

  function ChecksFor(o: ObjCTypeOracle, ps: seq<Parameter>): seq<Line>
  {
    if |ps| == 0 then [] else ParameterChecks(o, ps[0]) + ChecksFor(o, ps[1..])
  }

  function Checks(o: ObjCTypeOracle, ps: seq<Parameter>): seq<Line>
  {
    ChecksFor(o, PointerParameters(o, ps, false)) + ChecksFor(o, PointerParameters(o, ps, true))
  }

  /** The checks, then a blank line when any pointer parameter exists. */
  function CheckBlock(o: ObjCTypeOracle, ps: seq<Parameter>): seq<Line>
  {
    Checks(o, ps)
      + (if |PointerParameters(o, ps, false)| > 0 || |PointerParameters(o, ps, true)| > 0 then [Text("")] else [])
  }

  /** The JSON message and, when the event has parameters, its params object. */
  function MessageLines(o: ObjCTypeOracle, d: Domain, e: Event): seq<Line>
  {
    [CreateMessage, SetMethod(d.domainName + "." + e.eventName)]
      + (if |e.eventParameters| > 0 then OutParameters(o, e.eventParameters) else [])
  }

  /** `_generate_event_out_parameters`. */
  function OutParameters(o: ObjCTypeOracle, ps: seq<Parameter>): seq<Line>
  {
    [CreateParams] + ParameterWrites(o, ps) + [SetParamsObject]
  }

  /** Optional parameters are pointers dereferenced as `(*name)` under `if (name)`. */
  function ParameterWrite(o: ObjCTypeOracle, p: Parameter): seq<Line>
  {
    var setter := o.setterForType(p.parameterType);
    if p.isOptional then
      [IfPresent(p.parameterName), SetParam(setter, p.parameterName, o.exportExpression(p.parameterType, "(*" + p.parameterName + ")"))]
    else
      [SetParam(setter, p.parameterName, o.exportExpression(p.parameterType, p.parameterName))]
  }

  function ParameterWrites(o: ObjCTypeOracle, ps: seq<Parameter>): seq<Line>
  {
    if |ps| == 0 then [] else ParameterWrite(o, ps[0]) + ParameterWrites(o, ps[1..])
  }

  // ------------------------------------------------------------ signature

  /** One `name:(type)name` pair of the signature. */
  function SignaturePair(o: ObjCTypeOracle, d: Domain, e: Event, p: Parameter): string
  {
    p.parameterName + ":(" + o.objcTypeForParam(d.domainName, e.eventName, p) + ")" + p.parameterName
  }

  /** The pairs after the first, each preceded by the joining space. */
  function LaterPairs(o: ObjCTypeOracle, d: Domain, e: Event, ps: seq<Parameter>): string
  {
    if |ps| == 0 then "" else " " + SignaturePair(o, d, e, ps[0]) + LaterPairs(o, d, e, ps[1..])
  }

  /** `_generate_event_signature`. */
  function Signature(o: ObjCTypeOracle, d: Domain, e: Event): string
  {
    var ps := e.eventParameters;
    if |ps| == 0 then "- (void)" + e.eventName
    else "- (void)" + e.eventName + "With" + Ucfirst(SignaturePair(o, d, e, ps[0])) + LaterPairs(o, d, e, ps[1..])
  }

  // ------------------------------------------------------------ semantics

  /** The keys a run of parameter writes sets, given which optional
      parameters are present (non-nil) at run time: `IfPresent` guards the
      line after it. */
  function KeysSet(lines: seq<Line>, present: string -> bool): seq<string>
  {
    if |lines| == 0 then []
    else if lines[0].IfPresent? && |lines| > 1 then
      (if present(lines[0].presentName) && lines[1].SetParam? then [lines[1].key] else [])
        + KeysSet(lines[2..], present)
    else
      (if lines[0].SetParam? then [lines[0].key] else []) + KeysSet(lines[1..], present)
  }

  /** The parameters a message carries at run time: every required one, and
      each optional one that is present. */
  function SentParameters(ps: seq<Parameter>, present: string -> bool): (r: seq<string>)
    ensures |r| <= |ps|
  {
    if |ps| == 0 then []
    else
      (if !ps[0].isOptional || present(ps[0].parameterName) then [ps[0].parameterName] else [])
        + SentParameters(ps[1..], present)
  }

  // ------------------------------------------------------------ properties

  /** Only accepted domains are generated, and a domain without events gives an empty section. */
  lemma DomainSelection(o: ObjCTypeOracle, domains: seq<Domain>)
    ensures forall i :: 0 <= i < |GenerateOutput(o, domains)| ==>
      (GenerateOutput(o, domains)[i] == License <==> i == 0)
    ensures |GenerateOutput(o, domains)| == |DomainsToGenerate(o, domains)| + 3
    ensures forall i :: 0 <= i < |DomainsToGenerate(o, domains)| ==>
      o.generatesEventDispatcher(DomainsToGenerate(o, domains)[i])
      && GenerateOutput(o, domains)[i + 2] == DomainImplementation(DomainLines(o, DomainsToGenerate(o, domains)[i]))
  {
    var ds := DomainsToGenerate(o, domains);
    var impl := DomainImplementations(o, ds);
    DomainImplementationsAt(o, ds);
    var out := GenerateOutput(o, domains);
    assert out == [License, Prelude] + impl + [Postlude];
    forall i | 0 <= i < |ds| ensures o.generatesEventDispatcher(ds[i]) && out[i + 2] == impl[i] {
      assert ds[i] in ds;
    }
    forall i | 0 <= i < |out| ensures out[i] == License <==> i == 0 {
      if 2 <= i < 2 + |impl| {
        assert out[i] == impl[i - 2];
      }
    }
  }

  lemma NoEventsNoText(o: ObjCTypeOracle, d: Domain)
    ensures DomainLines(o, d) == [] <==> |d.events| == 0
  {
  }

  /** The dispatcher class is named after the prefix and the domain, and
      has one method per event, in declared order. */
  lemma {:induction false} EventsInOrder(o: ObjCTypeOracle, d: Domain, es: seq<Event>)
    ensures Signatures(EventsLines(o, d, es)) == EventSignatures(o, d, es)
  {
    if |es| > 0 {
      EventsInOrder(o, d, es[1..]);
      var head := EventLines(o, d, es[0]);
      SignaturesAppend(head + [Text("")], EventsLines(o, d, es[1..]));
      SignaturesAppend(head, [Text("")]);
      EventSignatureOnlyFirst(o, d, es[0]);
    }
  }

  lemma AppendAssociates<T>(x: seq<T>, y: seq<T>, z: seq<T>)
    ensures x + (y + z) == (x + y) + z
  {
  }

  /** The signatures among some lines, in order. */
  function Signatures(lines: seq<Line>): seq<string>
  {
    if |lines| == 0 then [] else SignatureOf(lines[0]) + Signatures(lines[1..])
  }

  function SignatureOf(l: Line): seq<string>
  {
    if l.EventSignature? then [l.signature] else []
  }

  function EventSignatures(o: ObjCTypeOracle, d: Domain, es: seq<Event>): seq<string>
  {
    if |es| == 0 then [] else [Signature(o, d, es[0])] + EventSignatures(o, d, es[1..])
  }

  lemma {:induction false} SignaturesAppend(a: seq<Line>, b: seq<Line>)
    ensures Signatures(a + b) == Signatures(a) + Signatures(b)
  {
    if |a| == 0 {
      assert a + b == b;
    } else {
      assert (a + b)[0] == a[0];
      assert (a + b)[1..] == a[1..] + b;
      SignaturesAppend(a[1..], b);
      AppendAssociates(SignatureOf(a[0]), Signatures(a[1..]), Signatures(b));
    }
  }


  lemma {:induction false} NoSignatures(lines: seq<Line>)
    requires forall i :: 0 <= i < |lines| ==> !lines[i].EventSignature?
    ensures Signatures(lines) == []
  {
    if |lines| > 0 {
      NoSignatures(lines[1..]);
    }
  }

  lemma EventSignatureOnlyFirst(o: ObjCTypeOracle, d: Domain, e: Event)
    ensures Signatures(EventLines(o, d, e)) == [Signature(o, d, e)]
  {
    var rest := EventLines(o, d, e)[1..];
    EventBodyShape(o, d, e);
    NoSignatures(rest);
    assert EventLines(o, d, e) == [EventLines(o, d, e)[0]] + rest;
    SignaturesAppend([EventLines(o, d, e)[0]], rest);
  }

  /** The line kinds of a method body after its signature. */
  predicate BodyLine(l: Line)
  {
    !l.EventSignature? && !l.ImplementationOf?
  }

  predicate CheckLine(l: Line)
  {
    l.RequiredCheck? || l.RequiredArrayCheck? || l.OptionalCheck? || l.OptionalArrayCheck?
  }

  predicate WriteLine(l: Line)
  {
    l.IfPresent? || l.SetParam?
  }

  lemma {:induction false} ChecksForAreChecks(o: ObjCTypeOracle, ps: seq<Parameter>)
    ensures forall i :: 0 <= i < |ChecksFor(o, ps)| ==> CheckLine(ChecksFor(o, ps)[i])
  {
    if |ps| > 0 {
      ChecksForAreChecks(o, ps[1..]);
      var head, rest := ParameterChecks(o, ps[0]), ChecksFor(o, ps[1..]);
      forall i | 0 <= i < |head + rest| ensures CheckLine((head + rest)[i]) {
        if i >= |head| {
          assert (head + rest)[i] == rest[i - |head|];
        }
      }
    }
  }

  lemma {:induction false} WritesAreWrites(o: ObjCTypeOracle, ps: seq<Parameter>)
    ensures forall i :: 0 <= i < |ParameterWrites(o, ps)| ==> WriteLine(ParameterWrites(o, ps)[i])
  {
    if |ps| > 0 {
      WritesAreWrites(o, ps[1..]);
      var head, rest := ParameterWrite(o, ps[0]), ParameterWrites(o, ps[1..]);
      forall i | 0 <= i < |head + rest| ensures WriteLine((head + rest)[i]) {
        if i >= |head| {
          assert (head + rest)[i] == rest[i - |head|];
        }
      }
    }
  }

  lemma CheckBlockQuiet(o: ObjCTypeOracle, ps: seq<Parameter>)
    ensures forall i :: 0 <= i < |CheckBlock(o, ps)| ==> CheckLine(CheckBlock(o, ps)[i]) || CheckBlock(o, ps)[i] == Text("")
  {
    var req, opt := ChecksFor(o, PointerParameters(o, ps, false)), ChecksFor(o, PointerParameters(o, ps, true));
    ChecksForAreChecks(o, PointerParameters(o, ps, false));
    ChecksForAreChecks(o, PointerParameters(o, ps, true));
    var checks := CheckBlock(o, ps);
    forall i | 0 <= i < |checks| ensures CheckLine(checks[i]) || checks[i] == Text("") {
      if i < |req| {
        assert checks[i] == req[i];
      } else if i < |req| + |opt| {
        assert checks[i] == opt[i - |req|];
      }
    }
  }

  lemma MessageQuiet(o: ObjCTypeOracle, d: Domain, e: Event)
    ensures forall i :: 0 <= i < |MessageLines(o, d, e)| ==>
      BodyLine(MessageLines(o, d, e)[i]) && !MessageLines(o, d, e)[i].SendMessage?
  {
    var ps := e.eventParameters;
    WritesAreWrites(o, ps);
    var msg := MessageLines(o, d, e);
    forall i | 2 < i < |msg| - 1 ensures WriteLine(msg[i]) {
      assert msg[i] == ParameterWrites(o, ps)[i - 3];
    }
  }

  /** A property of every line of two runs holds of every line of their concatenation. */
  lemma AllOfConcat(a: seq<Line>, b: seq<Line>, P: Line -> bool)
    requires forall i :: 0 <= i < |a| ==> P(a[i])
    requires forall i :: 0 <= i < |b| ==> P(b[i])
    ensures forall i :: 0 <= i < |a + b| ==> P((a + b)[i])
  {
    forall i | |a| <= i < |a + b| ensures P((a + b)[i]) {
      assert (a + b)[i] == b[i - |a|];
    }
  }

  lemma MiddleLinesQuiet(o: ObjCTypeOracle, d: Domain, e: Event)
    ensures forall i :: 0 <= i < |MiddleLines(o, d, e)| ==>
      BodyLine(MiddleLines(o, d, e)[i]) && !MiddleLines(o, d, e)[i].SendMessage?
  {
    var P := (l: Line) => BodyLine(l) && !l.SendMessage?;
    CheckBlockQuiet(o, e.eventParameters);
    MessageQuiet(o, d, e);
    var guard, checks, msg := ChannelGuard(), CheckBlock(o, e.eventParameters), MessageLines(o, d, e);
    forall i | 0 <= i < |checks| ensures P(checks[i]) { }
    forall i | 0 <= i < |msg| ensures P(msg[i]) { }
    AllOfConcat(guard, checks, P);
    AllOfConcat(guard + checks, msg, P);
  }

  /** No line of the body is a signature. */
  lemma EventBodyQuiet(o: ObjCTypeOracle, d: Domain, e: Event)
    ensures forall i :: 0 <= i < |EventBody(o, d, e)| ==> BodyLine(EventBody(o, d, e)[i])
  {
    MiddleLinesQuiet(o, d, e);
    var mid := MiddleLines(o, d, e);
    var opening: seq<Line>, closing: seq<Line> := [OpenBody], [SendMessage, CloseBody];
    forall i | 0 <= i < |mid| ensures BodyLine(mid[i]) { }
    AllOfConcat(opening, mid, BodyLine);
    AllOfConcat(opening + mid, closing, BodyLine);
    assert EventBody(o, d, e) == opening + mid + closing;
  }

  /** No line after the signature is a signature. */
  lemma EventBodyShape(o: ObjCTypeOracle, d: Domain, e: Event)
    ensures forall i :: 1 <= i < |EventLines(o, d, e)| ==> BodyLine(EventLines(o, d, e)[i])
  {
    EventBodyQuiet(o, d, e);
    BodyAfterSignature(EventSignature(Signature(o, d, e)), EventBody(o, d, e));
  }

  /** Lines after a signature are body lines when the body's are. */
  lemma BodyAfterSignature(signature: Line, body: seq<Line>)
    requires forall i :: 0 <= i < |body| ==> BodyLine(body[i])
    ensures forall i :: 1 <= i < |[signature] + body| ==> BodyLine(([signature] + body)[i])
  {
    var lines := [signature] + body;
    forall i | 1 <= i < |lines| ensures BodyLine(lines[i]) {
      assert lines[i] == body[i - 1];
    }
  }

  /** With no parameters the signature is `- (void)<event>`; otherwise it is
      `- (void)<event>With` followed by the first pair with its first letter
      upper-cased, then the other pairs, each after a space. */
  lemma SignatureShape(o: ObjCTypeOracle, d: Domain, e: Event)
    ensures |e.eventParameters| == 0 ==> Signature(o, d, e) == "- (void)" + e.eventName
    ensures |e.eventParameters| > 0 && |e.eventParameters[0].parameterName| > 0 ==>
      var prefix := "- (void)" + e.eventName + "With";
      var first := e.eventParameters[0].parameterName;
      |prefix| + |first| <= |Signature(o, d, e)|
      && Signature(o, d, e)[..|prefix|] == prefix
      && Signature(o, d, e)[|prefix|] == UpperChar(first[0])
      && Signature(o, d, e)[|prefix| + 1..|prefix| + |first|] == first[1..]
  {
    var ps := e.eventParameters;
    if |ps| > 0 && |ps[0].parameterName| > 0 {
      var prefix := "- (void)" + e.eventName + "With";
      var pair := SignaturePair(o, d, e, ps[0]);
      var first := ps[0].parameterName;
      assert pair[..|first|] == first;
      var s := Signature(o, d, e);
      assert s == prefix + Ucfirst(pair) + LaterPairs(o, d, e, ps[1..]);
      assert s[|prefix|] == Ucfirst(pair)[0];
      assert s[|prefix| + 1..|prefix| + |first|] == Ucfirst(pair)[1..|first|];
    }
  }

  /** The `method` of the message is `<Domain>.<event>`. */
  lemma MessageMethod(o: ObjCTypeOracle, d: Domain, e: Event)
    ensures MessageLines(o, d, e)[1] == SetMethod(d.domainName + "." + e.eventName)
    ensures MessageLines(o, d, e)[0] == CreateMessage
  {
  }

  /** A null frontend channel makes the method return before any message is
      built; the send is the last statement, and it occurs once. */
  lemma ChannelGuardFirst(o: ObjCTypeOracle, d: Domain, e: Event)
    ensures EventLines(o, d, e)[2..5] == [GetChannel, IfNoChannel, ReturnStatement]
    ensures forall i :: 0 <= i < 5 ==> !EventLines(o, d, e)[i].CreateMessage? && !EventLines(o, d, e)[i].SendMessage?
    ensures EventLines(o, d, e)[|EventLines(o, d, e)| - 2] == SendMessage
    ensures forall i :: 0 <= i < |EventLines(o, d, e)| && EventLines(o, d, e)[i].SendMessage? ==>
      i == |EventLines(o, d, e)| - 2
  {
    MiddleLinesQuiet(o, d, e);
    var mid := MiddleLines(o, d, e);
    assert mid[..4] == ChannelGuard();
    GuardedLayout(EventSignature(Signature(o, d, e)), mid);
  }

  /** The layout of an event method around middle lines that open with the
      channel guard and send nothing. */
  lemma GuardedLayout(signature: Line, mid: seq<Line>)
    requires |mid| >= 4 && mid[..4] == ChannelGuard() && !signature.CreateMessage? && !signature.SendMessage?
    requires forall i :: 0 <= i < |mid| ==> !mid[i].SendMessage?
    ensures var lines := [signature] + ([OpenBody] + mid + [SendMessage, CloseBody]);
      && lines[2..5] == [GetChannel, IfNoChannel, ReturnStatement]
      && (forall i :: 0 <= i < 5 ==> !lines[i].CreateMessage? && !lines[i].SendMessage?)
      && lines[|lines| - 2] == SendMessage
      && forall i :: 0 <= i < |lines| && lines[i].SendMessage? ==> i == |lines| - 2
  {
    var lines := [signature] + ([OpenBody] + mid + [SendMessage, CloseBody]);
    forall i | 2 <= i < |mid| + 2 ensures lines[i] == mid[i - 2] { }
    assert mid[0] == GetChannel && mid[1] == IfNoChannel && mid[2] == ReturnStatement;
  }

  /** Required pointer parameters are checked before optional ones; each gets
      its presence check, and an array element check exactly when its array
      class carries the ObjC prefix. */
  lemma {:induction false} ChecksOfParameters(o: ObjCTypeOracle, ps: seq<Parameter>)
    ensures CheckedNames(ChecksFor(o, ps)) == ObjCNames(o, ps)
  {
    if |ps| > 0 {
      ChecksOfParameters(o, ps[1..]);
      var head := ParameterChecks(o, ps[0]);
      CheckedNamesAppend(head, ChecksFor(o, ps[1..]));
      assert CheckedNames(head) == [o.objcIdentifier(ps[0].parameterName)] by {
        assert head[1..] == [] || (|head| == 2 && head[1..] == [head[1]]);
      }
    }
  }

  lemma {:induction false} ArrayChecksOfParameters(o: ObjCTypeOracle, ps: seq<Parameter>)
    ensures ArrayChecked(ChecksFor(o, ps)) == PrefixedArrayNames(o, ps)
  {
    if |ps| > 0 {
      ArrayChecksOfParameters(o, ps[1..]);
      var head := ParameterChecks(o, ps[0]);
      ArrayCheckedAppend(head, ChecksFor(o, ps[1..]));
      assert head[1..] == [] || (|head| == 2 && head[1..] == [head[1]]);
    }
  }

  /** The names given a presence check, required or optional. */
  function CheckedNames(lines: seq<Line>): seq<string>
  {
    if |lines| == 0 then [] else CheckedName(lines[0]) + CheckedNames(lines[1..])
  }

  function CheckedName(l: Line): seq<string>
  {
    if l.RequiredCheck? then [l.requiredName] else if l.OptionalCheck? then [l.optionalName] else []
  }

  /** The names given an array element check, with their classes. */
  function ArrayChecked(lines: seq<Line>): seq<(string, string)>
  {
    if |lines| == 0 then [] else ArrayCheckOf(lines[0]) + ArrayChecked(lines[1..])
  }

  function ArrayCheckOf(l: Line): seq<(string, string)>
  {
    if l.RequiredArrayCheck? then [(l.requiredArray, l.requiredClass)]
    else if l.OptionalArrayCheck? then [(l.optionalArray, l.optionalClass)] else []
  }

  function ObjCNames(o: ObjCTypeOracle, ps: seq<Parameter>): seq<string>
  {
    if |ps| == 0 then [] else [o.objcIdentifier(ps[0].parameterName)] + ObjCNames(o, ps[1..])
  }

  function PrefixedArrayNames(o: ObjCTypeOracle, ps: seq<Parameter>): seq<(string, string)>
  {
    if |ps| == 0 then []
    else
      (match PrefixedArrayClass(o, ps[0])
            case Some(cls) => [(o.objcIdentifier(ps[0].parameterName), cls)]
            case None => [])
        + PrefixedArrayNames(o, ps[1..])
  }

  lemma {:induction false} CheckedNamesAppend(a: seq<Line>, b: seq<Line>)
    ensures CheckedNames(a + b) == CheckedNames(a) + CheckedNames(b)
  {
    if |a| == 0 {
      assert a + b == b;
    } else {
      assert (a + b)[0] == a[0];
      assert (a + b)[1..] == a[1..] + b;
      CheckedNamesAppend(a[1..], b);
      AppendAssociates(CheckedName(a[0]), CheckedNames(a[1..]), CheckedNames(b));
    }
  }


  lemma {:induction false} ArrayCheckedAppend(a: seq<Line>, b: seq<Line>)
    ensures ArrayChecked(a + b) == ArrayChecked(a) + ArrayChecked(b)
  {
    if |a| == 0 {
      assert a + b == b;
    } else {
      assert (a + b)[0] == a[0];
      assert (a + b)[1..] == a[1..] + b;
      ArrayCheckedAppend(a[1..], b);
      AppendAssociates(ArrayCheckOf(a[0]), ArrayChecked(a[1..]), ArrayChecked(b));
    }
  }


  /** The check kinds of a list: required ones all precede optional ones. */
  lemma {:induction false} RequiredChecksFirst(o: ObjCTypeOracle, ps: seq<Parameter>)
    ensures forall i, j :: 0 <= i < j < |Checks(o, ps)| && Checks(o, ps)[i].OptionalCheck? ==>
      !Checks(o, ps)[j].RequiredCheck?
  {
    var req, opt := PointerParameters(o, ps, false), PointerParameters(o, ps, true);
    PointerParametersMembers(o, ps, false);
    PointerParametersMembers(o, ps, true);
    forall i | 0 <= i < |req| ensures !req[i].isOptional { assert req[i] in req; }
    forall i | 0 <= i < |opt| ensures opt[i].isOptional { assert opt[i] in opt; }
    CheckKinds(o, req, false);
    CheckKinds(o, opt, true);
    var a: seq<Line>, b: seq<Line> := ChecksFor(o, req), ChecksFor(o, opt);
    assert Checks(o, ps) == a + b;
    forall i, j | 0 <= i < j < |a + b| && (a + b)[i].OptionalCheck? ensures !(a + b)[j].RequiredCheck? {
      if i >= |a| {
        assert (a + b)[j] == b[j - |a|];
      }
    }
  }

  /** Every pointer parameter gets one presence check: the required ones
      first, then the optional ones, each in declared order. */
  lemma CheckedNamesOfChecks(o: ObjCTypeOracle, ps: seq<Parameter>)
    ensures CheckedNames(Checks(o, ps))
         == ObjCNames(o, PointerParameters(o, ps, false)) + ObjCNames(o, PointerParameters(o, ps, true))
  {
    var req, opt := PointerParameters(o, ps, false), PointerParameters(o, ps, true);
    ChecksOfParameters(o, req);
    ChecksOfParameters(o, opt);
    CheckedNamesAppend(ChecksFor(o, req), ChecksFor(o, opt));
  }

  lemma {:induction false} CheckKinds(o: ObjCTypeOracle, ps: seq<Parameter>, optional: bool)
    requires forall i :: 0 <= i < |ps| ==> ps[i].isOptional == optional
    ensures forall i :: 0 <= i < |ChecksFor(o, ps)| ==>
      (if optional then !ChecksFor(o, ps)[i].RequiredCheck? else !ChecksFor(o, ps)[i].OptionalCheck?)
  {
    if |ps| > 0 {
      CheckKinds(o, ps[1..], optional);
      var head, rest := ParameterChecks(o, ps[0]), ChecksFor(o, ps[1..]);
      forall i | |head| <= i < |head + rest| ensures (head + rest)[i] == rest[i - |head|] { }
    }
  }

  /** A params object is built only for events with parameters. */
  lemma ParamsOnlyWithParameters(o: ObjCTypeOracle, d: Domain, e: Event)
    ensures (CreateParams in MessageLines(o, d, e)) <==> |e.eventParameters| > 0
    ensures |e.eventParameters| > 0 ==>
      MessageLines(o, d, e)[2] == CreateParams
      && MessageLines(o, d, e)[|MessageLines(o, d, e)| - 1] == SetParamsObject
  {
    if |e.eventParameters| > 0 {
      assert MessageLines(o, d, e)[2] == CreateParams;
    }
  }

  /** The values the `SetParam` lines export, in order. */
  function WrittenValues(lines: seq<Line>): seq<string>
  {
    if |lines| == 0 then []
    else (if lines[0].SetParam? then [lines[0].exported] else []) + WrittenValues(lines[1..])
  }

  lemma {:induction false} WrittenValuesAppend(a: seq<Line>, b: seq<Line>)
    ensures WrittenValues(a + b) == WrittenValues(a) + WrittenValues(b)
  {
    if |a| == 0 {
      assert a + b == b;
    } else {
      assert (a + b)[0] == a[0];
      assert (a + b)[1..] == a[1..] + b;
      WrittenValuesAppend(a[1..], b);
      AppendAssociates(if a[0].SetParam? then [a[0].exported] else [], WrittenValues(a[1..]), WrittenValues(b));
    }
  }

  /** The k-th value written belongs to the k-th parameter: an optional one
      is exported dereferenced, as `(*name)`, a required one as `name`. */
  lemma {:induction false} ValuesExported(o: ObjCTypeOracle, ps: seq<Parameter>)
    ensures |WrittenValues(ParameterWrites(o, ps))| == |ps|
    ensures forall k :: 0 <= k < |ps| ==>
      WrittenValues(ParameterWrites(o, ps))[k] ==
        o.exportExpression(ps[k].parameterType,
                           if ps[k].isOptional then "(*" + ps[k].parameterName + ")" else ps[k].parameterName)
  {
    if |ps| > 0 {
      ValuesExported(o, ps[1..]);
      var head, rest := ParameterWrite(o, ps[0]), ParameterWrites(o, ps[1..]);
      WrittenValuesAppend(head, rest);
      if ps[0].isOptional {
        assert head[1..][1..] == [];
      } else {
        assert head[1..] == [];
      }
      assert WrittenValues(ParameterWrites(o, ps)) == WrittenValues(head) + WrittenValues(rest);
      forall k | 1 <= k < |ps|
        ensures WrittenValues(ParameterWrites(o, ps))[k] == WrittenValues(rest)[k - 1]
      {
      }
    }
  }

  /** At run time the params object holds every required parameter and each
      optional one that is present, in declared order; how each value is
      exported is `ValuesExported`. */
  lemma {:induction false} ParamsWritten(o: ObjCTypeOracle, ps: seq<Parameter>, present: string -> bool)
    ensures KeysSet(ParameterWrites(o, ps), present) == SentParameters(ps, present)
  {
    if |ps| > 0 {
      ParamsWritten(o, ps[1..], present);
      var head, rest := ParameterWrite(o, ps[0]), ParameterWrites(o, ps[1..]);
      assert ParameterWrites(o, ps) == head + rest;
      if ps[0].isOptional {
        assert (head + rest)[2..] == rest;
      } else {
        assert (head + rest)[1..] == rest;
      }
    }
  }
}
