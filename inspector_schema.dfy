/**
 * The protocol schema that both inspector code generators consume: domains
 * holding commands and events, each with typed, possibly optional parameters.
 * The schema loader itself (models.py) is not part of this model; the schema
 * arrives here as an already checked value.
 */
module InspectorSchema {

  /** The four kinds of protocol type a parameter can have. */
  datatype ProtocolType =
    | PrimitiveType(typeName: string)
    | EnumType(typeName: string, enumValues: seq<string>)
    | ArrayType(elementType: ProtocolType)
    | ObjectType(typeName: string)

  /** `Type.is_enum()` of the schema model. */
  predicate IsEnum(t: ProtocolType)
  {
    t.EnumType?
  }

  datatype Parameter = Parameter(parameterName: string, isOptional: bool, parameterType: ProtocolType)

  datatype Command = Command(
    commandName: string,
    isAsync: bool,
    callParameters: seq<Parameter>,
    returnParameters: seq<Parameter>)

  datatype Event = Event(eventName: string, eventParameters: seq<Parameter>)

  datatype Domain = Domain(domainName: string, commands: seq<Command>, events: seq<Event>)

  /** The names of the commands of a domain, in declared order. */
  function CommandNames(cs: seq<Command>): (r: seq<string>)
    ensures |r| == |cs|
    ensures forall i :: 0 <= i < |cs| ==> r[i] == cs[i].commandName
  {
    if |cs| == 0 then [] else [cs[0].commandName] + CommandNames(cs[1..])
  }

  /** The names of a parameter list, in declared order. */
  function ParameterNames(ps: seq<Parameter>): (r: seq<string>)
    ensures |r| == |ps|
    ensures forall i :: 0 <= i < |ps| ==> r[i] == ps[i].parameterName
  {
    if |ps| == 0 then [] else [ps[0].parameterName] + ParameterNames(ps[1..])
  }

  /** ASCII upper-casing of one character; other characters are unchanged. */
  function UpperChar(c: char): (r: char)
    ensures 'a' <= c <= 'z' ==> 'A' <= r <= 'Z' && r as int == c as int - 32
    ensures !('a' <= c <= 'z') ==> r == c
  {
    if 'a' <= c <= 'z' then (c as int - 32) as char else c
  }

  /** `ucfirst` of generator.py: the first character upper-cased, the rest kept. */
  function Ucfirst(s: string): (r: string)
    ensures |r| == |s|
    ensures |s| > 0 ==> r[0] == UpperChar(s[0]) && r[1..] == s[1..]
  {
    if |s| == 0 then s else [UpperChar(s[0])] + s[1..]
  }
}
