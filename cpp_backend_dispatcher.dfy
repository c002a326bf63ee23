/**
 * The C++ backend dispatcher generator: from the protocol schema it produces,
 * per domain with commands, a router that maps a method name to the command's
 * implementation, and one implementation per command that extracts the call
 * parameters, gives an alternate dispatcher the first chance, calls the agent
 * and writes the return values into the response.
 *
 * The generated text is modelled as a sequence of abstract lines: one
 * constructor per line form the generator writes, `Text` for fixed lines.
 * The template text of cpp_generator_templates.py and the C++ type helpers of
 * cpp_generator.py are not part of this model; the three type predicates the
 * generator consults are given as the functions of a `CppTypeOracle`.
 */
module CppBackendDispatcher {
  import opened Wrappers
  import opened InspectorSchema

  /** `CppGenerator.should_use_wrapper_for_return_type`,
      `should_pass_by_copy_for_return_type` and `should_use_references_for_type`. */
  datatype CppTypeOracle = CppTypeOracle(
    useWrapperForReturnType: ProtocolType -> bool,
    passByCopyForReturnType: ProtocolType -> bool,
    useReferencesForType: ProtocolType -> bool)

  /** Domains with at most this many commands get the chained router. */
  const SmallSwitchLimit: nat := 5

  // ---------------------------------------------------------------- routers

  /** One line of the chained router: a name test or the call it guards. */
  datatype CaseLine =
    | IfMethodIs(testName: string)        // `if (method == "<name>")`
    | ElseIfMethodIs(testName: string)    // `else if (method == "<name>")`
    | DispatchTo(handlerName: string)     // `<name>(callId, message);`

  /** One entry of the lookup table: the command name paired with a pointer to its `Inspector<D>BackendDispatcher` member. */
  datatype TableEntry = TableEntry(key: string, domainOfMember: string, memberName: string)

  datatype Router =
    | ChainedRouter(chainDomain: string, cases: seq<CaseLine>)
    | TableRouter(tableDomain: string, entries: seq<TableEntry>)

  // ------------------------------------------------------- command bodies

  /** How a call parameter's extracted value is forwarded. */
  datatype ForwardForm = CopyRef | AddressOf | AsIs

  /** The arguments of the agent and alternate-dispatcher calls. */
  datatype Argument =
    | CallIdArgument
    | ErrorArgument
    | InArgument(inName: string, form: ForwardForm)              // `in_<n>` forwarded unconditionally
    | OptionalInArgument(optName: string, optForm: ForwardForm)  // `<n>_valueFound ? <expr> : nullptr`
    | CallbackArgument                                          // `callback.copyRef()`
    | OutArgument(outName: string, byCopy: bool)                 // `out_<n>` or `&out_<n>`

  /** The success out-argument of a parameter getter. */
  datatype SuccessArgument = NoSuccessFlag | FoundFlagOf(flagName: string)

  /** One line of the parameter-extraction block. */
  datatype InDeclaration =
    | ValueFoundFlag(flagOf: string)                              // `bool <n>_valueFound = false;`
    | Extract(extracted: Parameter, success: SuccessArgument)      // `in_<n> = get...(params, "<n>", <success>, errors)`

  /** Where a value is written: `result` in the command, `jsonMessage` in the callback. */
  datatype Target = ResultObject | CallbackMessage

  /** The variable holding a return value: `out_<n>` in the command, `<n>` in the callback. */
  datatype Variable = OutVariable(outOf: string) | FormalVariable(formalOf: string)

  /** How the value is read when it is written. */
  datatype WrittenValue = Unwrapped(v: Variable) | Plain(v: Variable) | EnumConstant(v: Variable)

  /** The lines that write return values. */
  datatype EmitLine =
    | IfAssigned(guarded: Variable)            // `if (<v>.isAssigned())`
    | IfTruthy(guarded: Variable)              // `if (<v>)`
    | SetKey(target: Target, setterFor: ProtocolType, key: string, value: WrittenValue)

  datatype Line =
    | Text(text: string)
    | IfAlternateDispatchersEnabled             // `#if ENABLE(INSPECTOR_ALTERNATE_DISPATCHERS)`
    | EndIf                                     // `#endif`
    | DeclareError                              // `ErrorString error;`
    | CreateResult                              // `Ref<InspectorObject> result = InspectorObject::create();`
    | CloseBlock                                // the indented closing brace of an `if` block
    | OpenBody                                  // the opening brace of a method body
    | CloseBody                                 // the closing brace of a method body
    | Signature(sigDomain: string, sigCommand: string, namesMessage: bool)
    | PrepareCommandArguments(prepDomain: string, prepCommand: string, declarations: seq<InDeclaration>)
    | IfAlternateDispatcher
    | CallAlternate(alternateMethod: string, alternateArguments: seq<Argument>)
    | ReturnStatement
    | CreateCallback(callbackDomain: string, callbackClass: string)
    | DeclareOut(declared: Parameter)
    | CallAgent(agentMethod: string, agentArguments: seq<Argument>)
    | IfError                                   // `if (error.length())` and its opening brace
    | IfNoError(braced: bool)                   // `if (!error.length())` with or without an opening brace
    | Emit(emitted: EmitLine)
    | DisableCallback
    | ReportServerError
    | SendResponse

  /** The callback class of an async command. */
  datatype AsyncCallbackClass = AsyncCallbackClass(
    classDomain: string,
    callbackName: string,
    formalParameters: seq<Parameter>,
    assignments: seq<EmitLine>)

  datatype DomainPart =
    | DomainConstructor(constructorDomain: string)
    | RouterPart(router: Router)
    | CallbackPart(callbackClass: AsyncCallbackClass)
    | CommandPart(commandName: string, lines: seq<Line>)

  datatype Section =
    | License
    | Prelude
    | HandlerDestructors(destructorDomains: seq<string>)
    | GuardedDomain(guardDomain: string, parts: seq<DomainPart>)
    | Postlude

  // ------------------------------------------------------------ generator

  /** `domains_to_generate`: the domains with at least one command, in order. */
  function DomainsToGenerate(domains: seq<Domain>): (r: seq<Domain>)
    ensures |r| <= |domains|
    ensures forall d :: d in r <==> d in domains && |d.commands| > 0
  {
    if |domains| == 0 then []
    else (if |domains[0].commands| > 0 then [domains[0]] else []) + DomainsToGenerate(domains[1..])
  }

  function DomainNames(ds: seq<Domain>): (r: seq<string>)
    ensures |r| == |ds|
    ensures forall i :: 0 <= i < |ds| ==> r[i] == ds[i].domainName
  {
    if |ds| == 0 then [] else [ds[0].domainName] + DomainNames(ds[1..])
  }

  /** `generate_output`: license, prelude, destructors, one guarded section per domain, postlude. */
  function GenerateOutput(o: CppTypeOracle, domains: seq<Domain>): seq<Section>
  {
    var ds := DomainsToGenerate(domains);
    [License, Prelude, HandlerDestructors(DomainNames(ds))]
      + DomainSections(o, ds)
      + [Postlude]
  }

  function DomainSections(o: CppTypeOracle, ds: seq<Domain>): (r: seq<Section>)
    ensures |r| == |ds|
    ensures forall i :: 0 <= i < |ds| ==> r[i] == GuardedDomain(ds[i].domainName, DomainParts(o, ds[i]))
  {
    if |ds| == 0 then [] else [GuardedDomain(ds[0].domainName, DomainParts(o, ds[0]))] + DomainSections(o, ds[1..])
  }

  /** `_generate_dispatcher_implementations_for_domain`. */
  function DomainParts(o: CppTypeOracle, d: Domain): seq<DomainPart>
  {
    [DomainConstructor(d.domainName), RouterPart(RouterFor(d))] + CommandParts(o, d, d.commands)
  }

  function CommandParts(o: CppTypeOracle, d: Domain, cs: seq<Command>): seq<DomainPart>
  {
    if |cs| == 0 then []
    else
      (if cs[0].isAsync then [CallbackPart(AsyncCallbackFor(o, d, cs[0]))] else [])
      + [CommandPart(cs[0].commandName, CommandLines(o, d, cs[0]))]
      + CommandParts(o, d, cs[1..])
  }

  function RouterFor(d: Domain): Router
  {
    if |d.commands| <= SmallSwitchLimit then ChainedRouter(d.domainName, ChainedCases(d.commands))
    else TableRouter(d.domainName, TableEntries(d.domainName, d.commands))
  }

  /** `_generate_small_dispatcher_switch_implementation_for_domain`. */
  function ChainedCases(cs: seq<Command>): seq<CaseLine>
  {
    if |cs| == 0 then []
    else [IfMethodIs(cs[0].commandName), DispatchTo(cs[0].commandName)] + ElseCases(cs[1..])
  }

  function ElseCases(cs: seq<Command>): seq<CaseLine>
  {
    if |cs| == 0 then []
    else [ElseIfMethodIs(cs[0].commandName), DispatchTo(cs[0].commandName)] + ElseCases(cs[1..])
  }

  /** `_generate_large_dispatcher_switch_implementation_for_domain`. */
  function TableEntries(domainName: string, cs: seq<Command>): seq<TableEntry>
  {
    if |cs| == 0 then []
    else [TableEntry(cs[0].commandName, domainName, cs[0].commandName)] + TableEntries(domainName, cs[1..])
  }

  function CallbackName(c: Command): string
  {
    Ucfirst(c.commandName) + "Callback"
  }

  /** The four-way rule that writes one return value (lines 148-158 and 226-236). */
  function EmitParameter(o: CppTypeOracle, t: Target, p: Parameter): seq<EmitLine>
  {
    var v := if t == ResultObject then OutVariable(p.parameterName) else FormalVariable(p.parameterName);
    if p.isOptional then
      if o.useWrapperForReturnType(p.parameterType) then
        [IfAssigned(v), SetKey(t, p.parameterType, p.parameterName, Unwrapped(v))]
      else
        [IfTruthy(v), SetKey(t, p.parameterType, p.parameterName, Plain(v))]
    else if IsEnum(p.parameterType) then
      [SetKey(t, p.parameterType, p.parameterName, EnumConstant(v))]
    else
      [SetKey(t, p.parameterType, p.parameterName, Plain(v))]
  }

  function EmitParameters(o: CppTypeOracle, t: Target, ps: seq<Parameter>): seq<EmitLine>
  {
    if |ps| == 0 then [] else EmitParameter(o, t, ps[0]) + EmitParameters(o, t, ps[1..])
  }

  /** `_generate_async_dispatcher_class_for_domain`. */
  function AsyncCallbackFor(o: CppTypeOracle, d: Domain, c: Command): AsyncCallbackClass
  {
    AsyncCallbackClass(d.domainName, CallbackName(c), c.returnParameters,
      EmitParameters(o, CallbackMessage, c.returnParameters))
  }

  function ForwardFormOf(o: CppTypeOracle, p: Parameter): ForwardForm
  {
    if o.useReferencesForType(p.parameterType) then CopyRef
    else if p.isOptional then AddressOf
    else AsIs
  }

  /** The declarations of the extraction block (lines 175-195). */
  function InDeclarations(ps: seq<Parameter>): seq<InDeclaration>
  {
    if |ps| == 0 then []
    else
      var p := ps[0];
      (if p.isOptional then [ValueFoundFlag(p.parameterName), Extract(p, FoundFlagOf(p.parameterName))]
       else [Extract(p, NoSuccessFlag)])
      + InDeclarations(ps[1..])
  }

  /** The forwarded call parameters, shared by the alternate and agent calls (lines 197-203). */
  function CallArguments(o: CppTypeOracle, ps: seq<Parameter>): seq<Argument>
  {
    if |ps| == 0 then []
    else
      var p := ps[0];
      [if p.isOptional then OptionalInArgument(p.parameterName, ForwardFormOf(o, p))
       else InArgument(p.parameterName, ForwardFormOf(o, p))]
      + CallArguments(o, ps[1..])
  }

  /** The out-slot arguments of a synchronous command (lines 238-241). */
  function OutArguments(o: CppTypeOracle, ps: seq<Parameter>): seq<Argument>
  {
    if |ps| == 0 then []
    else [OutArgument(ps[0].parameterName, o.passByCopyForReturnType(ps[0].parameterType))] + OutArguments(o, ps[1..])
  }

  function OutDeclarations(ps: seq<Parameter>): seq<Line>
  {
    if |ps| == 0 then [] else [DeclareOut(ps[0])] + OutDeclarations(ps[1..])
  }

  function EmitLines(es: seq<EmitLine>): seq<Line>
  {
    if |es| == 0 then [] else [Emit(es[0])] + EmitLines(es[1..])
  }

  function AgentArguments(o: CppTypeOracle, c: Command): seq<Argument>
  {
    [ErrorArgument] + CallArguments(o, c.callParameters)
      + (if c.isAsync then [CallbackArgument] else OutArguments(o, c.returnParameters))
  }

  function AlternateArguments(o: CppTypeOracle, c: Command): seq<Argument>
  {
    [CallIdArgument] + CallArguments(o, c.callParameters)
  }

  /** The lines that run after the agent call (lines 278-292). */
  function CompletionLines(o: CppTypeOracle, c: Command): seq<Line>
  {
    if c.isAsync then
      [IfError, DisableCallback, ReportServerError, ReturnStatement, CloseBlock]
    else if |c.returnParameters| > 1 then
      [IfNoError(true)] + EmitLines(EmitParameters(o, ResultObject, c.returnParameters)) + [CloseBlock, SendResponse]
    else if |c.returnParameters| == 1 then
      [IfNoError(false)] + EmitLines(EmitParameters(o, ResultObject, c.returnParameters)) + [Text(""), SendResponse]
    else
      [SendResponse]
  }

  /** `_generate_dispatcher_implementation_for_command`: everything before the
      agent call, the agent call, and the completion. */
  function CommandLines(o: CppTypeOracle, d: Domain, c: Command): seq<Line>
  {
    BeforeAgent(o, d, c) + [CallAgent(c.commandName, AgentArguments(o, c))] + AfterAgent(o, c)
  }

  function BeforeAgent(o: CppTypeOracle, d: Domain, c: Command): seq<Line>
  {
    CommandHeader(d, c) + AlternateBlock(o, c) + InvocationSetup(d, c)
  }

  /** The signature (the message is named only when it is read) and the extraction block. */
  function CommandHeader(d: Domain, c: Command): seq<Line>
  {
    var hasCallParameters := |c.callParameters| > 0;
    [Signature(d.domainName, c.commandName, hasCallParameters), OpenBody]
      + (if hasCallParameters then [PrepareCommandArguments(d.domainName, c.commandName, InDeclarations(c.callParameters))] else [])
  }

  /** Lines 262-268. */
  function AlternateBlock(o: CppTypeOracle, c: Command): seq<Line>
  {
    [IfAlternateDispatchersEnabled,
     IfAlternateDispatcher,
     CallAlternate(c.commandName, AlternateArguments(o, c)),
     ReturnStatement,
     CloseBlock,
     EndIf,
     Text("")]
  }

  /** Lines 270-275: the error string, the result object, and the callback or the out slots. */
  function InvocationSetup(d: Domain, c: Command): seq<Line>
  {
    [DeclareError, CreateResult]
      + (if c.isAsync then [CreateCallback(d.domainName, CallbackName(c))] else OutDeclarations(c.returnParameters))
  }

  function AfterAgent(o: CppTypeOracle, c: Command): seq<Line>
  {
    [Text("")] + CompletionLines(o, c) + [CloseBody]
  }

  // ------------------------------------------------- router semantics

  /** What the chained router calls for `method`: the first test that matches wins. */
  function RunChain(cases: seq<CaseLine>, methodName: string): Option<string>
    decreases |cases|
  {
    if |cases| < 2 then None
    else
      match cases[0]
      case DispatchTo(_) => None
      case IfMethodIs(n) =>
        if n == methodName then (if cases[1].DispatchTo? then Some(cases[1].handlerName) else None)
        else RunChain(cases[2..], methodName)
      case ElseIfMethodIs(n) =>
        if n == methodName then (if cases[1].DispatchTo? then Some(cases[1].handlerName) else None)
        else RunChain(cases[2..], methodName)
  }

  /** What the lookup table calls for `method`: the member of the entry keyed by it. */
  function RunTable(entries: seq<TableEntry>, methodName: string): Option<string>
  {
    if |entries| == 0 then None
    else if entries[0].key == methodName then Some(entries[0].memberName)
    else RunTable(entries[1..], methodName)
  }

  function Route(r: Router, methodName: string): Option<string>
  {
    match r
    case ChainedRouter(_, cases) => RunChain(cases, methodName)
    case TableRouter(_, entries) => RunTable(entries, methodName)
  }

  lemma {:induction false} ElseCasesRoute(cs: seq<Command>, methodName: string)
    ensures RunChain(ElseCases(cs), methodName)
         == (if methodName in CommandNames(cs) then Some(methodName) else None)
  {
    if |cs| > 0 {
      ElseCasesRoute(cs[1..], methodName);
      assert CommandNames(cs) == [cs[0].commandName] + CommandNames(cs[1..]);
      assert ElseCases(cs)[2..] == ElseCases(cs[1..]);
    }
  }

  lemma {:induction false} ChainedCasesRoute(cs: seq<Command>, methodName: string)
    ensures RunChain(ChainedCases(cs), methodName)
         == (if methodName in CommandNames(cs) then Some(methodName) else None)
  {
    if |cs| > 0 {
      ElseCasesRoute(cs[1..], methodName);
      assert CommandNames(cs) == [cs[0].commandName] + CommandNames(cs[1..]);
      assert ChainedCases(cs)[2..] == ElseCases(cs[1..]);
    }
  }

  lemma {:induction false} TableEntriesRoute(domainName: string, cs: seq<Command>, methodName: string)
    ensures RunTable(TableEntries(domainName, cs), methodName)
         == (if methodName in CommandNames(cs) then Some(methodName) else None)
  {
    if |cs| > 0 {
      TableEntriesRoute(domainName, cs[1..], methodName);
      assert CommandNames(cs) == [cs[0].commandName] + CommandNames(cs[1..]);
    }
  }

  /** Whichever shape a domain gets, a known method name reaches the
      same-named handler and an unknown one reaches none. */
  lemma RouterResolvesByName(d: Domain, methodName: string)
    ensures Route(RouterFor(d), methodName)
         == (if methodName in CommandNames(d.commands) then Some(methodName) else None)
  {
    ChainedCasesRoute(d.commands, methodName);
    TableEntriesRoute(d.domainName, d.commands, methodName);
  }

  /** The two router shapes are interchangeable for every command list. */
  lemma RouterShapesAgree(domainName: string, cs: seq<Command>, methodName: string)
    ensures Route(ChainedRouter(domainName, ChainedCases(cs)), methodName)
         == Route(TableRouter(domainName, TableEntries(domainName, cs)), methodName)
  {
    ChainedCasesRoute(cs, methodName);
    TableEntriesRoute(domainName, cs, methodName);
  }

  // ------------------------------------------------- router structure

  lemma {:induction false} ElseCasesShape(cs: seq<Command>)
    ensures |ElseCases(cs)| == 2 * |cs|
    ensures forall k :: 0 <= k < |cs| ==>
      ElseCases(cs)[2 * k] == ElseIfMethodIs(cs[k].commandName)
      && ElseCases(cs)[2 * k + 1] == DispatchTo(cs[k].commandName)
  {
    if |cs| > 0 {
      ElseCasesShape(cs[1..]);
      var r := ElseCases(cs);
      forall k | 0 <= k < |cs|
        ensures r[2 * k] == ElseIfMethodIs(cs[k].commandName) && r[2 * k + 1] == DispatchTo(cs[k].commandName)
      {
        if k > 0 {
          assert r[2 * k] == ElseCases(cs[1..])[2 * (k - 1)];
          assert r[2 * k + 1] == ElseCases(cs[1..])[2 * (k - 1) + 1];
        }
      }
    }
  }

  /** The chained router tests the command names in declared order, `if`
      first and `else if` after, each test followed by the same-named call. */
  lemma ChainedRouterShape(cs: seq<Command>)
    ensures |ChainedCases(cs)| == 2 * |cs|
    ensures forall k :: 0 <= k < |cs| ==>
      ChainedCases(cs)[2 * k] == (if k == 0 then IfMethodIs(cs[k].commandName) else ElseIfMethodIs(cs[k].commandName))
      && ChainedCases(cs)[2 * k + 1] == DispatchTo(cs[k].commandName)
  {
    if |cs| > 0 {
      ElseCasesShape(cs[1..]);
      var r := ChainedCases(cs);
      forall k | 0 < k < |cs|
        ensures r[2 * k] == ElseIfMethodIs(cs[k].commandName) && r[2 * k + 1] == DispatchTo(cs[k].commandName)
      {
        assert r[2 * k] == ElseCases(cs[1..])[2 * (k - 1)];
        assert r[2 * k + 1] == ElseCases(cs[1..])[2 * (k - 1) + 1];
      }
    }
  }

  /** The lookup table has one entry per command, in declared order, mapping
      the command name to the same-named member of the domain's dispatcher. */
  lemma {:induction false} TableShape(domainName: string, cs: seq<Command>)
    ensures |TableEntries(domainName, cs)| == |cs|
    ensures forall k :: 0 <= k < |cs| ==>
      TableEntries(domainName, cs)[k] == TableEntry(cs[k].commandName, domainName, cs[k].commandName)
  {
    if |cs| > 0 {
      TableShape(domainName, cs[1..]);
      var r := TableEntries(domainName, cs);
      forall k | 0 < k < |cs| ensures r[k] == TableEntry(cs[k].commandName, domainName, cs[k].commandName) {
        assert r[k] == TableEntries(domainName, cs[1..])[k - 1];
      }
    }
  }

  lemma {:induction false} CommandPartsHaveNoRouter(o: CppTypeOracle, d: Domain, cs: seq<Command>)
    ensures forall i :: 0 <= i < |CommandParts(o, d, cs)| ==> !CommandParts(o, d, cs)[i].RouterPart?
  {
    if |cs| > 0 {
      CommandPartsHaveNoRouter(o, d, cs[1..]);
    }
  }

  /** Every generated domain gets exactly one router, chained for at most five
      commands and a lookup table otherwise. */
  lemma OneRouterPerDomain(o: CppTypeOracle, d: Domain)
    ensures forall i :: 0 <= i < |DomainParts(o, d)| ==> (DomainParts(o, d)[i].RouterPart? <==> i == 1)
    ensures DomainParts(o, d)[1].router.ChainedRouter? <==> |d.commands| <= 5
  {
    CommandPartsHaveNoRouter(o, d, d.commands);
    var parts := DomainParts(o, d);
    forall i | 2 <= i < |parts| ensures !parts[i].RouterPart? {
      assert parts[i] == CommandParts(o, d, d.commands)[i - 2];
    }
  }

  // ------------------------------------------------- domain filtering

  lemma {:induction false} DomainSectionsMembers(o: CppTypeOracle, ds: seq<Domain>)
    ensures forall s :: s in DomainSections(o, ds) <==>
      exists d :: d in ds && s == GuardedDomain(d.domainName, DomainParts(o, d))
  {
    var r := DomainSections(o, ds);
    forall s | s in r ensures exists d :: d in ds && s == GuardedDomain(d.domainName, DomainParts(o, d)) {
      var i :| 0 <= i < |r| && r[i] == s;
      assert ds[i] in ds;
    }
    forall d | d in ds ensures GuardedDomain(d.domainName, DomainParts(o, d)) in r {
      var i :| 0 <= i < |ds| && ds[i] == d;
      assert r[i] == GuardedDomain(d.domainName, DomainParts(o, d));
    }
  }

  /** The output has a dispatcher section exactly for the domains that have
      commands; a domain without commands contributes none. */
  lemma OnlyDomainsWithCommandsAreGenerated(o: CppTypeOracle, domains: seq<Domain>)
    ensures forall s :: s in GenerateOutput(o, domains) && s.GuardedDomain? ==>
      exists d :: d in domains && |d.commands| > 0 && s == GuardedDomain(d.domainName, DomainParts(o, d))
    ensures forall d :: d in domains && |d.commands| > 0 ==>
      GuardedDomain(d.domainName, DomainParts(o, d)) in GenerateOutput(o, domains)
    ensures forall d :: d in domains && |d.commands| == 0 && (forall e :: e in domains && e.domainName == d.domainName ==> e == d) ==>
      forall s :: s in GenerateOutput(o, domains) && s.GuardedDomain? ==> s.guardDomain != d.domainName
  {
    var ds := DomainsToGenerate(domains);
    DomainSectionsMembers(o, ds);
    var out := GenerateOutput(o, domains);
    assert out == [License, Prelude, HandlerDestructors(DomainNames(ds))] + DomainSections(o, ds) + [Postlude];
    forall s | s in out && s.GuardedDomain?
      ensures s in DomainSections(o, ds)
    {
    }
    forall d | d in domains && |d.commands| > 0
      ensures GuardedDomain(d.domainName, DomainParts(o, d)) in out
    {
      assert d in ds;
      assert GuardedDomain(d.domainName, DomainParts(o, d)) in DomainSections(o, ds);
    }
  }

  // ------------------------------------------------- parameter extraction

  /** The parameters of the `Extract` lines, in order. */
  function ExtractedParameters(decls: seq<InDeclaration>): seq<Parameter>
  {
    if |decls| == 0 then []
    else (if decls[0].Extract? then [decls[0].extracted] else []) + ExtractedParameters(decls[1..])
  }

  /** The extraction block reads as a sequence of one-parameter blocks: a
      `_valueFound` flag followed by the extraction that passes that flag as its
      success out-argument (an optional parameter), or an extraction with no
      success argument (a required one). */
  predicate DeclarationsFollowRule(decls: seq<InDeclaration>)
    decreases |decls|
  {
    if |decls| == 0 then true
    else
      match decls[0]
      case ValueFoundFlag(n) =>
        |decls| >= 2 && decls[1].Extract? && decls[1].extracted.isOptional
        && decls[1].extracted.parameterName == n && decls[1].success == FoundFlagOf(n)
        && DeclarationsFollowRule(decls[2..])
      case Extract(p, success) =>
        !p.isOptional && success == NoSuccessFlag && DeclarationsFollowRule(decls[1..])
  }

  /** Every call parameter is extracted once, in declared order, by the rule above. */
  lemma ExtractionDeclarations(ps: seq<Parameter>)
    ensures ExtractedParameters(InDeclarations(ps)) == ps
    ensures DeclarationsFollowRule(InDeclarations(ps))
  {
    ExtractionKeepsParameters(ps);
    ExtractionFollowsRule(ps);
  }

  lemma {:induction false} ExtractionKeepsParameters(ps: seq<Parameter>)
    ensures ExtractedParameters(InDeclarations(ps)) == ps
  {
    if |ps| > 0 {
      ExtractionKeepsParameters(ps[1..]);
      var p := ps[0];
      var rest := InDeclarations(ps[1..]);
      var head := if p.isOptional then [ValueFoundFlag(p.parameterName), Extract(p, FoundFlagOf(p.parameterName))]
                  else [Extract(p, NoSuccessFlag)];
      assert InDeclarations(ps) == head + rest;
      ExtractedAppend(head, rest);
      if p.isOptional {
        assert head[1..][1..] == [];
      }
      assert ps == [p] + ps[1..];
    }
  }

  lemma {:induction false} ExtractionFollowsRule(ps: seq<Parameter>)
    ensures DeclarationsFollowRule(InDeclarations(ps))
  {
    if |ps| > 0 {
      ExtractionFollowsRule(ps[1..]);
      var p := ps[0];
      var rest := InDeclarations(ps[1..]);
      if p.isOptional {
        var head := [ValueFoundFlag(p.parameterName), Extract(p, FoundFlagOf(p.parameterName))];
        assert InDeclarations(ps) == head + rest;
        assert (head + rest)[2..] == rest;
      } else {
        var head := [Extract(p, NoSuccessFlag)];
        assert InDeclarations(ps) == head + rest;
        assert (head + rest)[1..] == rest;
      }
    }
  }

  lemma {:induction false} ExtractedAppend(a: seq<InDeclaration>, b: seq<InDeclaration>)
    ensures ExtractedParameters(a + b) == ExtractedParameters(a) + ExtractedParameters(b)
  {
    if |a| > 0 {
      assert (a + b)[1..] == a[1..] + b;
      ExtractedAppend(a[1..], b);
    } else {
      assert a + b == b;
    }
  }

  /** The name an argument forwards, if it forwards a call parameter. */
  function ForwardedName(a: Argument): string
  {
    match a
    case InArgument(n, _) => n
    case OptionalInArgument(n, _) => n
    case _ => ""
  }

  /** Call parameter i is forwarded as argument i: an optional one through its
      `_valueFound` test, a required one unconditionally; a reference-counted
      type is passed with `copyRef()`, another optional one by address. */
  lemma {:induction false} ForwardedCallArguments(o: CppTypeOracle, ps: seq<Parameter>)
    ensures |CallArguments(o, ps)| == |ps|
    ensures forall i :: 0 <= i < |ps| ==>
      (CallArguments(o, ps)[i].OptionalInArgument? <==> ps[i].isOptional)
      && (CallArguments(o, ps)[i].InArgument? <==> !ps[i].isOptional)
      && ForwardedName(CallArguments(o, ps)[i]) == ps[i].parameterName
    ensures forall i :: 0 <= i < |ps| ==>
      var form := if ps[i].isOptional then CallArguments(o, ps)[i].optForm else CallArguments(o, ps)[i].form;
      (form == CopyRef <==> o.useReferencesForType(ps[i].parameterType))
      && (form == AddressOf <==> !o.useReferencesForType(ps[i].parameterType) && ps[i].isOptional)
  {
    if |ps| > 0 {
      ForwardedCallArguments(o, ps[1..]);
      var r := CallArguments(o, ps);
      forall i | 0 < i < |ps| ensures r[i] == CallArguments(o, ps[1..])[i - 1] { }
    }
  }

  // ------------------------------------------------- return-value emission

  /** Runs emission lines: a guard line lets the next line run only when its
      variable holds a value. Gives the keys written and how each value is read. */
  function Written(es: seq<EmitLine>, present: Variable -> bool): seq<(string, WrittenValue)>
    decreases |es|
  {
    if |es| == 0 then []
    else
      match es[0]
      case SetKey(_, _, key, value) => [(key, value)] + Written(es[1..], present)
      case IfAssigned(v) =>
        if |es| == 1 then []
        else if present(v) then Written(es[1..], present) else Written(es[2..], present)
      case IfTruthy(v) =>
        if |es| == 1 then []
        else if present(v) then Written(es[1..], present) else Written(es[2..], present)
  }

  function VariableFor(t: Target, p: Parameter): Variable
  {
    if t == ResultObject then OutVariable(p.parameterName) else FormalVariable(p.parameterName)
  }

  /** The parameters whose value is written: the required ones and the optional ones that hold a value. */
  function WrittenParameters(t: Target, ps: seq<Parameter>, present: Variable -> bool): seq<Parameter>
  {
    if |ps| == 0 then []
    else
      var head := if !ps[0].isOptional || present(VariableFor(t, ps[0])) then [ps[0]] else [];
      head + WrittenParameters(t, ps[1..], present)
  }

  /** What one parameter's lines write, and that running them is compositional. */
  lemma WrittenHead(o: CppTypeOracle, t: Target, p: Parameter, rest: seq<EmitLine>, present: Variable -> bool)
    ensures Written(EmitParameter(o, t, p) + rest, present)
         == Written(EmitParameter(o, t, p), present) + Written(rest, present)
    ensures |Written(EmitParameter(o, t, p), present)| == (if !p.isOptional || present(VariableFor(t, p)) then 1 else 0)
  {
    var head := EmitParameter(o, t, p);
    if p.isOptional {
      WrittenGuarded(head[0], head[1], rest, present);
      WrittenGuarded(head[0], head[1], [], present);
      assert head + [] == head;
    } else {
      WrittenSet(head[0], rest, present);
      WrittenSet(head[0], [], present);
      assert head + [] == head;
    }
  }

  /** A guard line followed by a write: the write runs when the guarded variable holds a value. */
  lemma WrittenGuarded(g: EmitLine, w: EmitLine, rest: seq<EmitLine>, present: Variable -> bool)
    requires !g.SetKey? && w.SetKey?
    ensures Written([g, w] + rest, present)
         == (if present(g.guarded) then [(w.key, w.value)] else []) + Written(rest, present)
  {
    var es := [g, w] + rest;
    assert es[1..] == [w] + rest;
    assert es[2..] == rest;
    assert ([w] + rest)[1..] == rest;
  }

  /** An unguarded write always runs. */
  lemma WrittenSet(w: EmitLine, rest: seq<EmitLine>, present: Variable -> bool)
    requires w.SetKey?
    ensures Written([w] + rest, present) == [(w.key, w.value)] + Written(rest, present)
  {
    assert ([w] + rest)[1..] == rest;
  }

  /** The write of one parameter: its name, its variable, and the form the rule gives it. */
  predicate WritesAs(o: CppTypeOracle, t: Target, entry: (string, WrittenValue), p: Parameter)
  {
    var (key, value) := entry;
    key == p.parameterName
    && value.v == VariableFor(t, p)
    && (value.EnumConstant? <==> !p.isOptional && IsEnum(p.parameterType))
    && (value.Unwrapped? <==> p.isOptional && o.useWrapperForReturnType(p.parameterType))
  }

  /** The four-way rule, observed by running the emitted lines: exactly the
      required parameters and the optional ones that hold a value are written,
      in declared order; an optional wrapper value is unwrapped with
      `getValue()`, and only a required enum goes through its protocol constant. */
  lemma {:induction false} EmissionWritesRequiredAndPresent(o: CppTypeOracle, t: Target, ps: seq<Parameter>, present: Variable -> bool)
    ensures |Written(EmitParameters(o, t, ps), present)| == |WrittenParameters(t, ps, present)|
    ensures forall i :: 0 <= i < |WrittenParameters(t, ps, present)| ==>
      WritesAs(o, t, Written(EmitParameters(o, t, ps), present)[i], WrittenParameters(t, ps, present)[i])
  {
    if |ps| > 0 {
      EmissionWritesRequiredAndPresent(o, t, ps[1..], present);
      WrittenHead(o, t, ps[0], EmitParameters(o, t, ps[1..]), present);
      var w := Written(EmitParameters(o, t, ps), present);
      var wp := WrittenParameters(t, ps, present);
      var tail := Written(EmitParameters(o, t, ps[1..]), present);
      var tailP := WrittenParameters(t, ps[1..], present);
      if !ps[0].isOptional || present(VariableFor(t, ps[0])) {
        HeadWritesAs(o, t, ps[0], present);
        assert wp == [ps[0]] + tailP;
        forall i | 0 < i < |wp| ensures w[i] == tail[i - 1] && wp[i] == tailP[i - 1] { }
      } else {
        assert wp == tailP;
      }
    }
  }

  /** A parameter that is written writes one entry, of the right form. */
  lemma HeadWritesAs(o: CppTypeOracle, t: Target, p: Parameter, present: Variable -> bool)
    requires !p.isOptional || present(VariableFor(t, p))
    ensures |Written(EmitParameter(o, t, p), present)| == 1
    ensures WritesAs(o, t, Written(EmitParameter(o, t, p), present)[0], p)
  {
    var head := EmitParameter(o, t, p);
    if p.isOptional {
      WrittenGuarded(head[0], head[1], [], present);
      assert head + [] == head;
    } else {
      WrittenSet(head[0], [], present);
      assert head + [] == head;
    }
  }

  /** The keys the emission can write are the return parameter names, in order. */
  function SetKeys(es: seq<EmitLine>): seq<string>
  {
    if |es| == 0 then [] else (if es[0].SetKey? then [es[0].key] else []) + SetKeys(es[1..])
  }

  lemma {:induction false} SetKeysAppend(a: seq<EmitLine>, b: seq<EmitLine>)
    ensures SetKeys(a + b) == SetKeys(a) + SetKeys(b)
  {
    if |a| > 0 {
      assert (a + b)[1..] == a[1..] + b;
      SetKeysAppend(a[1..], b);
    } else {
      assert a + b == b;
    }
  }

  lemma {:induction false} EmissionKeys(o: CppTypeOracle, t: Target, ps: seq<Parameter>)
    ensures SetKeys(EmitParameters(o, t, ps)) == ParameterNames(ps)
  {
    if |ps| > 0 {
      EmissionKeys(o, t, ps[1..]);
      SetKeysAppend(EmitParameter(o, t, ps[0]), EmitParameters(o, t, ps[1..]));
      EmitParameterKey(o, t, ps[0]);
      assert ParameterNames(ps) == [ps[0].parameterName] + ParameterNames(ps[1..]);
    }
  }

  /** One parameter's emission sets exactly its own key. */
  lemma EmitParameterKey(o: CppTypeOracle, t: Target, p: Parameter)
    ensures SetKeys(EmitParameter(o, t, p)) == [p.parameterName]
  {
    var head := EmitParameter(o, t, p);
    if p.isOptional {
      assert head[1..][1..] == [];
      assert SetKeys(head[1..]) == [p.parameterName];
    } else {
      assert head[1..] == [];
    }
  }

  /** The callback class of an async command is named after the command and
      writes the return parameters with the same rule as the synchronous path. */
  lemma AsyncCallbackShape(o: CppTypeOracle, d: Domain, c: Command)
    ensures AsyncCallbackFor(o, d, c).callbackName == Ucfirst(c.commandName) + "Callback"
    ensures AsyncCallbackFor(o, d, c).formalParameters == c.returnParameters
    ensures SetKeys(AsyncCallbackFor(o, d, c).assignments) == ParameterNames(c.returnParameters)
    ensures forall present: Variable -> bool ::
      |Written(AsyncCallbackFor(o, d, c).assignments, present)| == |WrittenParameters(CallbackMessage, c.returnParameters, present)|
  {
    EmissionKeys(o, CallbackMessage, c.returnParameters);
    forall present: Variable -> bool
      ensures |Written(AsyncCallbackFor(o, d, c).assignments, present)| == |WrittenParameters(CallbackMessage, c.returnParameters, present)|
    {
      EmissionWritesRequiredAndPresent(o, CallbackMessage, c.returnParameters, present);
    }
  }

  // ------------------------------------------------- command implementation

  lemma {:induction false} OutDeclarationsAreDeclarations(ps: seq<Parameter>)
    ensures |OutDeclarations(ps)| == |ps|
    ensures forall i :: 0 <= i < |ps| ==> OutDeclarations(ps)[i] == DeclareOut(ps[i])
  {
    if |ps| > 0 {
      OutDeclarationsAreDeclarations(ps[1..]);
      forall i | 0 < i < |ps| ensures OutDeclarations(ps)[i] == DeclareOut(ps[i]) {
        assert OutDeclarations(ps)[i] == OutDeclarations(ps[1..])[i - 1];
      }
    }
  }

  lemma {:induction false} EmitLinesAreEmits(es: seq<EmitLine>)
    ensures |EmitLines(es)| == |es|
    ensures forall i :: 0 <= i < |es| ==> EmitLines(es)[i] == Emit(es[i])
  {
    if |es| > 0 {
      EmitLinesAreEmits(es[1..]);
      forall i | 0 < i < |es| ensures EmitLines(es)[i] == Emit(es[i]) {
        assert EmitLines(es)[i] == EmitLines(es[1..])[i - 1];
      }
    }
  }

  /** Index of the alternate-dispatcher call in a command's implementation. */
  function AlternateIndex(d: Domain, c: Command): nat
  {
    |CommandHeader(d, c)| + 2
  }

  /** Index of the agent call in a command's implementation. */
  function AgentIndex(o: CppTypeOracle, d: Domain, c: Command): nat
  {
    |BeforeAgent(o, d, c)|
  }

  /** No line before the agent call sends a response or writes a result. */
  lemma BeforeAgentQuiet(o: CppTypeOracle, d: Domain, c: Command)
    ensures forall l :: l in BeforeAgent(o, d, c) ==> !l.SendResponse? && !l.Emit? && !l.CallAgent?
    ensures forall i :: 0 <= i < |BeforeAgent(o, d, c)| && BeforeAgent(o, d, c)[i].CallAlternate? ==> i == AlternateIndex(d, c)
    ensures BeforeAgent(o, d, c)[AlternateIndex(d, c) - 1] == IfAlternateDispatcher
    ensures BeforeAgent(o, d, c)[AlternateIndex(d, c)] == CallAlternate(c.commandName, AlternateArguments(o, c))
    ensures BeforeAgent(o, d, c)[AlternateIndex(d, c) + 1] == ReturnStatement
    ensures c.isAsync ==> BeforeAgent(o, d, c)[|BeforeAgent(o, d, c)| - 1] == CreateCallback(d.domainName, CallbackName(c))
  {
    SetupInert(d, c);
    var h, setup := CommandHeader(d, c), InvocationSetup(d, c);
    assert forall k :: 0 <= k < |h| ==> Inert(h[k]);
    BeforeLayout(h, CallAlternate(c.commandName, AlternateArguments(o, c)), setup);
  }

  /** A line that neither calls out nor answers. */
  predicate Inert(l: Line)
  {
    !l.SendResponse? && !l.Emit? && !l.CallAgent? && !l.CallAlternate?
  }

  /** The declarations before the agent call are inert; an async command's end
      with the callback. */
  lemma SetupInert(d: Domain, c: Command)
    ensures forall k :: 0 <= k < |InvocationSetup(d, c)| ==> Inert(InvocationSetup(d, c)[k])
    ensures c.isAsync ==> InvocationSetup(d, c)[|InvocationSetup(d, c)| - 1] == CreateCallback(d.domainName, CallbackName(c))
  {
    OutDeclarationsAreDeclarations(c.returnParameters);
    var setup := InvocationSetup(d, c);
    forall k | 0 <= k < |setup| ensures Inert(setup[k]) {
      if !c.isAsync && k >= 2 {
        assert setup[k] == OutDeclarations(c.returnParameters)[k - 2];
      }
    }
  }

  /** Where the alternate block sits between inert header and setup lines. */
  lemma BeforeLayout(h: seq<Line>, alternate: Line, setup: seq<Line>)
    requires forall k :: 0 <= k < |h| ==> Inert(h[k])
    requires forall k :: 0 <= k < |setup| ==> Inert(setup[k])
    requires alternate.CallAlternate?
    ensures var lines := h + [IfAlternateDispatchersEnabled, IfAlternateDispatcher, alternate, ReturnStatement, CloseBlock, EndIf, Text("")] + setup;
      && (forall l :: l in lines ==> !l.SendResponse? && !l.Emit? && !l.CallAgent?)
      && (forall i :: 0 <= i < |lines| && lines[i].CallAlternate? ==> i == |h| + 2)
      && lines[|h| + 1] == IfAlternateDispatcher
      && lines[|h| + 2] == alternate
      && lines[|h| + 3] == ReturnStatement
      && (|setup| > 0 ==> lines[|lines| - 1] == setup[|setup| - 1])
  {
    var alt := [IfAlternateDispatchersEnabled, IfAlternateDispatcher, alternate, ReturnStatement, CloseBlock, EndIf, Text("")];
    var lines := h + alt + setup;
    forall i | 0 <= i < |lines| ensures i == |h| + 2 || Inert(lines[i]) {
      if i < |h| {
        assert lines[i] == h[i];
      } else if i < |h| + 7 {
        assert lines[i] == alt[i - |h|];
      } else {
        assert lines[i] == setup[i - |h| - 7];
      }
    }
    forall l | l in lines ensures !l.SendResponse? && !l.Emit? && !l.CallAgent? {
      var i :| 0 <= i < |lines| && lines[i] == l;
    }
  }

  /** The index form of the first property above. */
  lemma BeforeAgentSilent(o: CppTypeOracle, d: Domain, c: Command)
    ensures forall i :: 0 <= i < |BeforeAgent(o, d, c)| ==>
      !BeforeAgent(o, d, c)[i].SendResponse? && !BeforeAgent(o, d, c)[i].Emit?
  {
    BeforeAgentQuiet(o, d, c);
    var before := BeforeAgent(o, d, c);
    forall i | 0 <= i < |before| ensures !before[i].SendResponse? && !before[i].Emit? {
      assert before[i] in before;
    }
  }

  lemma CompletionQuiet(o: CppTypeOracle, c: Command)
    ensures forall l :: l in AfterAgent(o, c) ==> !l.CallAgent? && !l.CallAlternate?
    ensures c.isAsync ==> forall l :: l in AfterAgent(o, c) ==> !l.SendResponse? && !l.Emit?
  {
    var es := EmitParameters(o, ResultObject, c.returnParameters);
    EmitLinesOnlyEmit(es);
    QuietAround(CompletionLines(o, c), c.isAsync);
  }

  /** A completion without agent or alternate calls, and for an async command
      without responses or writes, keeps that when wrapped in the blank line
      and the closing brace. */
  lemma QuietAround(comp: seq<Line>, isAsync: bool)
    requires forall l :: l in comp ==> !l.CallAgent? && !l.CallAlternate?
    requires isAsync ==> forall l :: l in comp ==> !l.SendResponse? && !l.Emit?
    ensures forall l :: l in [Text("")] + comp + [CloseBody] ==> !l.CallAgent? && !l.CallAlternate?
    ensures isAsync ==> forall l :: l in [Text("")] + comp + [CloseBody] ==> !l.SendResponse? && !l.Emit?
  {
  }

  /** The completion calls neither the agent nor the alternate dispatcher. */
  lemma CompletionCallsNothing(o: CppTypeOracle, c: Command)
    ensures forall l :: l in CompletionLines(o, c) ==> !l.CallAgent? && !l.CallAlternate?
  {
    EmitLinesOnlyEmit(EmitParameters(o, ResultObject, c.returnParameters));
  }

  lemma EmitLinesOnlyEmit(es: seq<EmitLine>)
    ensures forall l :: l in EmitLines(es) ==> l.Emit?
  {
    EmitLinesAreEmits(es);
    forall l | l in EmitLines(es) ensures l.Emit? {
      var i :| 0 <= i < |EmitLines(es)| && EmitLines(es)[i] == l;
    }
  }

  /** Where the parts of a command's implementation sit: the lines before the
      agent call, the call, a blank line, the completion and the closing brace. */
  lemma CommandLinesAt(o: CppTypeOracle, d: Domain, c: Command)
    ensures |CommandLines(o, d, c)| == |BeforeAgent(o, d, c)| + |CompletionLines(o, c)| + 3
    ensures forall i :: 0 <= i < |BeforeAgent(o, d, c)| ==> CommandLines(o, d, c)[i] == BeforeAgent(o, d, c)[i]
    ensures CommandLines(o, d, c)[|BeforeAgent(o, d, c)|] == CallAgent(c.commandName, AgentArguments(o, c))
    ensures CommandLines(o, d, c)[|BeforeAgent(o, d, c)| + 1] == Text("")
    ensures forall i :: 0 <= i < |CompletionLines(o, c)| ==>
      CommandLines(o, d, c)[|BeforeAgent(o, d, c)| + 2 + i] == CompletionLines(o, c)[i]
    ensures CommandLines(o, d, c)[|CommandLines(o, d, c)| - 1] == CloseBody
  {
    LayoutAt(BeforeAgent(o, d, c), CallAgent(c.commandName, AgentArguments(o, c)), CompletionLines(o, c));
  }

  /** The positions in `before + [call] + AfterAgent`, for any parts. */
  lemma LayoutAt(before: seq<Line>, call: Line, comp: seq<Line>)
    ensures |before + [call] + ([Text("")] + comp + [CloseBody])| == |before| + |comp| + 3
    ensures forall i :: 0 <= i < |before| ==> (before + [call] + ([Text("")] + comp + [CloseBody]))[i] == before[i]
    ensures (before + [call] + ([Text("")] + comp + [CloseBody]))[|before|] == call
    ensures (before + [call] + ([Text("")] + comp + [CloseBody]))[|before| + 1] == Text("")
    ensures forall i :: 0 <= i < |comp| ==> (before + [call] + ([Text("")] + comp + [CloseBody]))[|before| + 2 + i] == comp[i]
    ensures (before + [call] + ([Text("")] + comp + [CloseBody]))[|before| + |comp| + 2] == CloseBody
  {
  }

  /** The alternate dispatcher is tried first: its same-named method gets
      `callId` and the forwarded call parameters, and the implementation
      returns before the agent is called; the agent gets the error string,
      the same forwarded parameters and then the callback or the out slots.
      Each of the two calls occurs once. */
  lemma AlternateDispatcherShortCircuits(o: CppTypeOracle, d: Domain, c: Command)
    ensures 0 < AlternateIndex(d, c) < AlternateIndex(d, c) + 1 < AgentIndex(o, d, c) < |CommandLines(o, d, c)|
    ensures CommandLines(o, d, c)[AlternateIndex(d, c) - 1] == IfAlternateDispatcher
    ensures CommandLines(o, d, c)[AlternateIndex(d, c)]
         == CallAlternate(c.commandName, [CallIdArgument] + CallArguments(o, c.callParameters))
    ensures CommandLines(o, d, c)[AlternateIndex(d, c) + 1] == ReturnStatement
    ensures CommandLines(o, d, c)[AgentIndex(o, d, c)] == CallAgent(c.commandName, AgentArguments(o, c))
    ensures AgentArguments(o, c)[..|CallArguments(o, c.callParameters)| + 1] == [ErrorArgument] + CallArguments(o, c.callParameters)
    ensures forall i :: 0 <= i < |CommandLines(o, d, c)| && CommandLines(o, d, c)[i].CallAgent? ==> i == AgentIndex(o, d, c)
    ensures forall i :: 0 <= i < |CommandLines(o, d, c)| && CommandLines(o, d, c)[i].CallAlternate? ==> i == AlternateIndex(d, c)
  {
    BeforeAgentQuiet(o, d, c);
    CommandLinesAt(o, d, c);
    CallsOnce(o, d, c);
    AgentArgumentsStartWithError(o, c);
  }

  /** The agent and the alternate dispatcher are each called on one line only. */
  lemma CallsOnce(o: CppTypeOracle, d: Domain, c: Command)
    ensures forall i :: 0 <= i < |CommandLines(o, d, c)| && CommandLines(o, d, c)[i].CallAgent? ==> i == AgentIndex(o, d, c)
    ensures forall i :: 0 <= i < |CommandLines(o, d, c)| && CommandLines(o, d, c)[i].CallAlternate? ==> i == AlternateIndex(d, c)
  {
    BeforeAgentQuiet(o, d, c);
    CompletionCallsNothing(o, c);
    CallsOnceIn(BeforeAgent(o, d, c), CallAgent(c.commandName, AgentArguments(o, c)), CompletionLines(o, c), AlternateIndex(d, c));
  }

  /** With one alternate call before the agent call and no call after it,
      each is called on one line of `before + [call] + AfterAgent`. */
  lemma CallsOnceIn(before: seq<Line>, call: Line, comp: seq<Line>, alternate: nat)
    requires forall l :: l in before ==> !l.CallAgent?
    requires forall i :: 0 <= i < |before| && before[i].CallAlternate? ==> i == alternate
    requires call.CallAgent?
    requires forall l :: l in comp ==> !l.CallAgent? && !l.CallAlternate?
    ensures forall i ::
      (0 <= i < |before + [call] + ([Text("")] + comp + [CloseBody])| &&
       (before + [call] + ([Text("")] + comp + [CloseBody]))[i].CallAgent?) ==> i == |before|
    ensures forall i ::
      (0 <= i < |before + [call] + ([Text("")] + comp + [CloseBody])| &&
       (before + [call] + ([Text("")] + comp + [CloseBody]))[i].CallAlternate?) ==> i == alternate
  {
    LayoutAt(before, call, comp);
    HoldsAfterCall(before, call, comp, (l: Line) => !l.CallAgent? && !l.CallAlternate?);
    var lines := before + [call] + ([Text("")] + comp + [CloseBody]);
    forall i | 0 <= i < |before| ensures !lines[i].CallAgent? {
      assert before[i] in before;
    }
  }

  /** The agent gets the error string first, then the forwarded call parameters. */
  lemma AgentArgumentsStartWithError(o: CppTypeOracle, c: Command)
    ensures AgentArguments(o, c)[..|CallArguments(o, c.callParameters)| + 1] == [ErrorArgument] + CallArguments(o, c.callParameters)
  {
    var forwarded := CallArguments(o, c.callParameters);
    assert AgentArguments(o, c)[..|forwarded| + 1] == [ErrorArgument] + forwarded;
  }

  /** An async command passes its callback last; on an immediate error the
      implementation disables the callback, reports a server error and
      returns, and it never sends a response or writes a result itself. */
  lemma AsyncCommandCompletion(o: CppTypeOracle, d: Domain, c: Command)
    requires c.isAsync
    ensures AgentArguments(o, c)[|AgentArguments(o, c)| - 1] == CallbackArgument
    ensures CommandLines(o, d, c)[AgentIndex(o, d, c) - 1] == CreateCallback(d.domainName, Ucfirst(c.commandName) + "Callback")
    ensures CommandLines(o, d, c)[AgentIndex(o, d, c) + 2..AgentIndex(o, d, c) + 6]
         == [IfError, DisableCallback, ReportServerError, ReturnStatement]
    ensures forall i :: 0 <= i < |CommandLines(o, d, c)| ==>
      !CommandLines(o, d, c)[i].SendResponse? && !CommandLines(o, d, c)[i].Emit?
  {
    AsyncCommandSilent(o, d, c);
    SetupInert(d, c);
    var before, comp := BeforeAgent(o, d, c), CompletionLines(o, c);
    var setup := InvocationSetup(d, c);
    assert before[|before| - 1] == setup[|setup| - 1];
    CommandLinesAt(o, d, c);
    assert CommandLines(o, d, c)[|before| + 2..|before| + 6] == comp[..4];
  }

  /** No line of an async command's implementation sends a response or writes a result. */
  lemma AsyncCommandSilent(o: CppTypeOracle, d: Domain, c: Command)
    requires c.isAsync
    ensures forall i :: 0 <= i < |CommandLines(o, d, c)| ==>
      !CommandLines(o, d, c)[i].SendResponse? && !CommandLines(o, d, c)[i].Emit?
  {
    BeforeAgentSilent(o, d, c);
    var before, call, comp := BeforeAgent(o, d, c), CallAgent(c.commandName, AgentArguments(o, c)), CompletionLines(o, c);
    HoldsThroughout(before, call, comp, (l: Line) => !l.SendResponse? && !l.Emit?);
  }

  /** A property of every part holds of every line of `before + [call] + AfterAgent`. */
  lemma HoldsThroughout(before: seq<Line>, call: Line, comp: seq<Line>, P: Line -> bool)
    requires forall i :: 0 <= i < |before| ==> P(before[i])
    requires P(call) && P(Text("")) && P(CloseBody)
    requires forall i :: 0 <= i < |comp| ==> P(comp[i])
    ensures forall i :: 0 <= i < |before + [call] + ([Text("")] + comp + [CloseBody])| ==>
      P((before + [call] + ([Text("")] + comp + [CloseBody]))[i])
  {
    LayoutAt(before, call, comp);
    var lines := before + [call] + ([Text("")] + comp + [CloseBody]);
    forall i | 0 <= i < |lines| ensures P(lines[i]) {
      if |before| + 2 <= i < |lines| - 1 {
        assert lines[i] == comp[i - |before| - 2];
      }
    }
  }

  /** A property of the completion and the blank line holds of every line
      after the call in `before + [call] + AfterAgent`. */
  lemma HoldsAfterCall(before: seq<Line>, call: Line, comp: seq<Line>, P: Line -> bool)
    requires P(Text("")) && P(CloseBody)
    requires forall l :: l in comp ==> P(l)
    ensures forall i :: |before| < i < |before + [call] + ([Text("")] + comp + [CloseBody])| ==>
      P((before + [call] + ([Text("")] + comp + [CloseBody]))[i])
  {
    LayoutAt(before, call, comp);
    var lines := before + [call] + ([Text("")] + comp + [CloseBody]);
    forall i | |before| < i < |lines| ensures P(lines[i]) {
      if |before| + 2 <= i < |lines| - 1 {
        assert lines[i] == comp[i - |before| - 2];
        assert comp[i - |before| - 2] in comp;
      }
    }
  }

  /** The completion of a synchronous command sends the response last and once. */
  lemma SyncCompletionResponds(o: CppTypeOracle, c: Command)
    requires !c.isAsync
    ensures |CompletionLines(o, c)| > 0 && CompletionLines(o, c)[|CompletionLines(o, c)| - 1] == SendResponse
    ensures forall i :: 0 <= i < |CompletionLines(o, c)| - 1 ==> !CompletionLines(o, c)[i].SendResponse?
  {
    EmitLinesAreEmits(EmitParameters(o, ResultObject, c.returnParameters));
  }

  /** The completion of a synchronous command writes results only after its opening test
      and before the line that precedes the response. */
  lemma SyncCompletionWrites(o: CppTypeOracle, c: Command)
    requires !c.isAsync
    ensures forall i :: 0 <= i < |CompletionLines(o, c)| && CompletionLines(o, c)[i].Emit? ==>
      0 < i < |CompletionLines(o, c)| - 2
  {
    EmitLinesAreEmits(EmitParameters(o, ResultObject, c.returnParameters));
  }

  /** With return values, the completion opens with the `!error.length()` test
      (braced when there are several values) followed by the emission of the
      return values. */
  lemma SyncCompletionOpens(o: CppTypeOracle, c: Command)
    requires !c.isAsync && |c.returnParameters| > 0
    ensures CompletionLines(o, c)[0] == IfNoError(|c.returnParameters| > 1)
    ensures 1 + |EmitParameters(o, ResultObject, c.returnParameters)| <= |CompletionLines(o, c)|
    ensures CompletionLines(o, c)[1..1 + |EmitParameters(o, ResultObject, c.returnParameters)|]
         == EmitLines(EmitParameters(o, ResultObject, c.returnParameters))
  {
    var es := EmitParameters(o, ResultObject, c.returnParameters);
    EmitLinesAreEmits(es);
    var comp := CompletionLines(o, c);
    var close := if |c.returnParameters| > 1 then CloseBlock else Text("");
    assert comp == [IfNoError(|c.returnParameters| > 1)] + EmitLines(es) + [close, SendResponse];
    assert comp[1..1 + |es|] == EmitLines(es);
  }

  /** A synchronous command sends exactly one response, as its last statement. */
  lemma SyncCommandResponds(o: CppTypeOracle, d: Domain, c: Command)
    requires !c.isAsync
    ensures AgentIndex(o, d, c) + 3 <= |CommandLines(o, d, c)|
    ensures CommandLines(o, d, c)[|CommandLines(o, d, c)| - 2] == SendResponse
    ensures forall i :: 0 <= i < |CommandLines(o, d, c)| && CommandLines(o, d, c)[i].SendResponse? ==>
      i == |CommandLines(o, d, c)| - 2
  {
    BeforeAgentSilent(o, d, c);
    SyncCompletionResponds(o, c);
    ResponseLast(BeforeAgent(o, d, c), CallAgent(c.commandName, AgentArguments(o, c)), CompletionLines(o, c));
  }

  /** A completion whose last line is its only response keeps it as the line
      before the closing brace. */
  lemma ResponseLast(before: seq<Line>, call: Line, comp: seq<Line>)
    requires forall i :: 0 <= i < |before| ==> !before[i].SendResponse?
    requires !call.SendResponse?
    requires 0 < |comp| && comp[|comp| - 1] == SendResponse
    requires forall i :: 0 <= i < |comp| && comp[i].SendResponse? ==> i == |comp| - 1
    ensures |before| + 3 <= |before + [call] + ([Text("")] + comp + [CloseBody])|
    ensures (before + [call] + ([Text("")] + comp + [CloseBody]))[|before| + |comp| + 1] == SendResponse
    ensures forall i ::
      (0 <= i < |before + [call] + ([Text("")] + comp + [CloseBody])| &&
       (before + [call] + ([Text("")] + comp + [CloseBody]))[i].SendResponse?) ==> i == |before| + |comp| + 1
  {
    LayoutAt(before, call, comp);
    var lines := before + [call] + ([Text("")] + comp + [CloseBody]);
    forall i | 0 <= i < |lines| && lines[i].SendResponse? ensures i == |before| + |comp| + 1 {
      if |before| + 2 <= i < |lines| - 1 {
        assert lines[i] == comp[i - |before| - 2];
      }
    }
  }

  /** A synchronous command writes a result only after the agent call and the
      `!error.length()` test, and before the response. */
  lemma SyncCommandWritesAfterTest(o: CppTypeOracle, d: Domain, c: Command)
    requires !c.isAsync
    ensures forall i :: 0 <= i < |CommandLines(o, d, c)| && CommandLines(o, d, c)[i].Emit? ==>
      AgentIndex(o, d, c) + 2 < i < |CommandLines(o, d, c)| - 2
  {
    BeforeAgentSilent(o, d, c);
    SyncCompletionWrites(o, c);
    EmitsInside(BeforeAgent(o, d, c), CallAgent(c.commandName, AgentArguments(o, c)), CompletionLines(o, c));
  }

  /** Writes that sit strictly inside the completion's first and last two
      lines sit after the blank line that follows the call. */
  lemma EmitsInside(before: seq<Line>, call: Line, comp: seq<Line>)
    requires forall i :: 0 <= i < |before| ==> !before[i].Emit?
    requires !call.Emit?
    requires forall i :: 0 <= i < |comp| && comp[i].Emit? ==> 0 < i < |comp| - 2
    ensures forall i ::
      (0 <= i < |before + [call] + ([Text("")] + comp + [CloseBody])| &&
       (before + [call] + ([Text("")] + comp + [CloseBody]))[i].Emit?) ==> |before| + 2 < i < |before| + |comp| + 1
  {
    LayoutAt(before, call, comp);
    var lines := before + [call] + ([Text("")] + comp + [CloseBody]);
    forall i | 0 <= i < |lines| && lines[i].Emit? ensures |before| + 2 < i < |before| + |comp| + 1 {
      if |before| + 2 <= i < |lines| - 1 {
        assert lines[i] == comp[i - |before| - 2];
      }
    }
  }
}
