/**
 * `ResourceRequestBase.h`: the fields of a resource request, its URL
 * constructor, and the template pair `encodeWithoutPlatformData` /
 * `decodeWithoutPlatformData` that stream the request to and from an IPC
 * encoder.
 *
 * The encoder and decoder are templates this model does not see: here an
 * encoder is a growing sequence of typed tokens and a decoder reads them
 * back from a position, a read failing when the next token is missing or
 * of another kind (and then consuming nothing). `URL.h`, `HTTPHeaderMap.h`
 * and `ResourceLoadPriority.h` are not part of this model: a URL is the
 * string it was parsed from (`URL(ParsedURLString, s)` takes an already
 * canonical string), a header map is a sequence of name/value pairs, and
 * the priorities are listed below. Doubles are `real`.
 */
module ResourceRequestCoding {
  /** `ResourceRequestCachePolicy`. */
  datatype CachePolicy = UseProtocolCachePolicy | ReloadIgnoringCacheData | ReturnCacheDataElseLoad | ReturnCacheDataDontLoad

  /** `ResourceLoadPriority`. */
  datatype Priority = VeryLowPriority | LowPriority | MediumPriority | HighPriority | VeryHighPriority

  datatype URL = URL(text: string)

  /** A URL built from the empty string. */
  const EmptyURL := URL("")

  type HeaderMap = seq<(string, string)>

  /** The nine fields the coder streams, in declaration order. */
  datatype RequestFields = RequestFields(
    url: URL, timeoutInterval: real, firstPartyForCookies: URL, httpMethod: string,
    httpHeaderFields: HeaderMap, encodingFallbackArray: seq<string>, cachePolicy: CachePolicy,
    allowCookies: bool, priority: Priority)

  /** One value written by the encoder. */
  datatype Token =
    | StringToken(s: string)
    | DoubleToken(d: real)
    | HeadersToken(h: HeaderMap)
    | StringListToken(l: seq<string>)
    | CachePolicyToken(c: CachePolicy)
    | BoolToken(b: bool)
    | PriorityToken(p: Priority)

  /** The kind of value a read asks for. */
  datatype TokenKind = StringKind | DoubleKind | HeadersKind | StringListKind | CachePolicyKind | BoolKind | PriorityKind

  function KindOf(t: Token): TokenKind
  {
    match t
    case StringToken(_) => StringKind
    case DoubleToken(_) => DoubleKind
    case HeadersToken(_) => HeadersKind
    case StringListToken(_) => StringListKind
    case CachePolicyToken(_) => CachePolicyKind
    case BoolToken(_) => BoolKind
    case PriorityToken(_) => PriorityKind
  }

  /** What `encodeWithoutPlatformData` writes: url, timeout, first party
      for cookies, method, headers, fallback array, cache policy, cookie
      flag and priority, in that order. */
  function Wire(f: RequestFields): (ts: seq<Token>)
    ensures |ts| == 9
  {
    [StringToken(f.url.text), DoubleToken(f.timeoutInterval), StringToken(f.firstPartyForCookies.text),
     StringToken(f.httpMethod), HeadersToken(f.httpHeaderFields), StringListToken(f.encodingFallbackArray),
     CachePolicyToken(f.cachePolicy), BoolToken(f.allowCookies), PriorityToken(f.priority)]
  }

  /** The kind of the j-th field on the wire. */
  function WireKind(j: nat): TokenKind
    requires j < 9
  {
    [StringKind, DoubleKind, StringKind, StringKind, HeadersKind, StringListKind, CachePolicyKind, BoolKind, PriorityKind][j]
  }

  /** How many reads succeed once the first k have: the reads stop at the
      first token that is missing or of the wrong kind. */
  function ReadFrom(ts: seq<Token>, k: nat): (n: nat)
    requires k <= 9
    ensures k <= n <= 9 && (n == k || n <= |ts|)
    decreases 9 - k
  {
    if k < 9 && k < |ts| && KindOf(ts[k]) == WireKind(k) then ReadFrom(ts, k + 1) else k
  }

  /** How many of the nine reads succeed on these tokens. */
  function FieldsRead(ts: seq<Token>): (n: nat)
    ensures n <= 9 && n <= |ts|
  {
    ReadFrom(ts, 0)
  }

  /** The j-th read stores its token into the j-th field. */
  function Store(f: RequestFields, t: Token, j: nat): RequestFields
  {
    match t
    case StringToken(s) =>
      if j == 0 then f.(url := URL(s))
      else if j == 2 then f.(firstPartyForCookies := URL(s))
      else if j == 3 then f.(httpMethod := s)
      else f
    case DoubleToken(d) => if j == 1 then f.(timeoutInterval := d) else f
    case HeadersToken(h) => if j == 4 then f.(httpHeaderFields := h) else f
    case StringListToken(l) => if j == 5 then f.(encodingFallbackArray := l) else f
    case CachePolicyToken(c) => if j == 6 then f.(cachePolicy := c) else f
    case BoolToken(b) => if j == 7 then f.(allowCookies := b) else f
    case PriorityToken(p) => if j == 8 then f.(priority := p) else f
  }

  /** The fields once the first k reads have stored what they read. */
  function Overwritten(f: RequestFields, ts: seq<Token>, k: nat): RequestFields
    requires k <= |ts|
  {
    if k == 0 then f else Store(Overwritten(f, ts, k - 1), ts[k - 1], k - 1)
  }

  /** The wire form of a request has every token of the kind its read asks
      for. */
  lemma WireKinds(f: RequestFields, rest: seq<Token>, j: nat)
    requires j < 9
    ensures KindOf((Wire(f) + rest)[j]) == WireKind(j)
  {
  }

  lemma {:induction false} WireReadsFrom(f: RequestFields, rest: seq<Token>, k: nat)
    requires k <= 9
    ensures ReadFrom(Wire(f) + rest, k) == 9
    decreases 9 - k
  {
    if k < 9 {
      WireKinds(f, rest, k);
      WireReadsFrom(f, rest, k + 1);
    }
  }

  /** An encoding is read back in full, whatever follows it, and restores
      exactly the nine fields. */
  lemma WireDecodes(f: RequestFields, g: RequestFields, rest: seq<Token>)
    ensures FieldsRead(Wire(f) + rest) == 9
    ensures Overwritten(g, Wire(f) + rest, 9) == f
  {
    WireReadsFrom(f, rest, 0);
    var ts := Wire(f) + rest;
    assert Overwritten(g, ts, 1) == g.(url := f.url);
    assert Overwritten(g, ts, 2) == g.(url := f.url, timeoutInterval := f.timeoutInterval);
    assert Overwritten(g, ts, 3) == g.(url := f.url, timeoutInterval := f.timeoutInterval,
      firstPartyForCookies := f.firstPartyForCookies);
    assert Overwritten(g, ts, 4) == g.(url := f.url, timeoutInterval := f.timeoutInterval,
      firstPartyForCookies := f.firstPartyForCookies, httpMethod := f.httpMethod);
    assert Overwritten(g, ts, 5) == f.(encodingFallbackArray := g.encodingFallbackArray, cachePolicy := g.cachePolicy,
      allowCookies := g.allowCookies, priority := g.priority);
    assert Overwritten(g, ts, 6) == f.(cachePolicy := g.cachePolicy, allowCookies := g.allowCookies, priority := g.priority);
    assert Overwritten(g, ts, 7) == f.(allowCookies := g.allowCookies, priority := g.priority);
    assert Overwritten(g, ts, 8) == f.(priority := g.priority);
  }

  /** The reads past the k-th leave a field stored by one of the first k
      as it is. */
  lemma {:induction false} OverwrittenKeepsLater(f: RequestFields, ts: seq<Token>, k: nat)
    requires k <= |ts| && k <= 8
    ensures Overwritten(f, ts, k).priority == f.priority
    ensures k <= 7 ==> Overwritten(f, ts, k).allowCookies == f.allowCookies
    ensures k <= 3 ==> Overwritten(f, ts, k).httpMethod == f.httpMethod
  {
    if k > 0 {
      OverwrittenKeepsLater(f, ts, k - 1);
    }
  }

  /** A decoding that fails part-way leaves the fields it had not reached as
      they were: at least the priority, the last one read. */
  lemma FailedDecodeKeepsUnread(f: RequestFields, ts: seq<Token>)
    requires FieldsRead(ts) < 9
    ensures Overwritten(f, ts, FieldsRead(ts)).priority == f.priority
    ensures FieldsRead(ts) <= 7 ==> Overwritten(f, ts, FieldsRead(ts)).allowCookies == f.allowCookies
    ensures FieldsRead(ts) <= 3 ==> Overwritten(f, ts, FieldsRead(ts)).httpMethod == f.httpMethod
  {
    OverwrittenKeepsLater(f, ts, FieldsRead(ts));
  }

  /** An IPC encoder: the tokens written so far. */
  class Encoder {
    var tokens: seq<Token>

    constructor ()
      ensures tokens == []
    {
      tokens := [];
    }

    /** `encoder << value` and `encodeEnum`: one more token. */
    method Encode(t: Token)
      modifies this
      ensures tokens == old(tokens) + [t]
    {
      tokens := tokens + [t];
    }
  }

  /** An IPC decoder: the tokens and the position of the next read. */
  class Decoder {
    const tokens: seq<Token>
    var position: nat

    ghost predicate Valid()
      reads this
    {
      position <= |tokens|
    }

    constructor (tokens: seq<Token>)
      ensures this.tokens == tokens && position == 0 && Valid()
    {
      this.tokens := tokens;
      position := 0;
    }

    /** The tokens not yet read. */
    function Rest(): seq<Token>
      requires Valid()
      reads this
    {
      tokens[position..]
    }

    /** `decoder.decode(x)` or `decodeEnum(x)`: the next token if it is of
        the kind wanted, which it consumes; otherwise failure, consuming
        nothing. */
    method Decode(kind: TokenKind) returns (ok: bool, t: Token)
      requires Valid()
      modifies this
      ensures Valid()
      ensures ok <==> old(position) < |tokens| && KindOf(tokens[old(position)]) == kind
      ensures ok ==> t == tokens[old(position)] && position == old(position) + 1
      ensures !ok ==> position == old(position)
    {
      if position < |tokens| && KindOf(tokens[position]) == kind {
        t := tokens[position];
        position := position + 1;
        ok := true;
      } else {
        ok, t := false, BoolToken(false);
      }
    }
  }

  /** `ResourceRequestBase`: the streamed fields, the body and the flags. */
  class ResourceRequestBase {
    var fields: RequestFields
    /** `m_httpBody` is set. */
    var hasHttpBody: bool
    var resourceRequestUpdated: bool
    var platformRequestUpdated: bool
    var resourceRequestBodyUpdated: bool
    var platformRequestBodyUpdated: bool
    var reportUploadProgress: bool
    var reportLoadTiming: bool
    var reportRawHeaders: bool
    var hiddenFromInspector: bool

    /** `ResourceRequestBase(const URL&, ResourceRequestCachePolicy)`: the
        default timeout, method "GET", cookies allowed, low priority, no
        body, the platform request not yet updated and no reporting. */
    constructor (url: URL, policy: CachePolicy, defaultTimeoutInterval: real)
      ensures fields == RequestFields(url, defaultTimeoutInterval, EmptyURL, "GET", [], [], policy, true, LowPriority)
      ensures !hasHttpBody && resourceRequestUpdated && !platformRequestUpdated
      ensures resourceRequestBodyUpdated && !platformRequestBodyUpdated
      ensures !reportUploadProgress && !reportLoadTiming && !reportRawHeaders && !hiddenFromInspector
    {
      fields := RequestFields(url, defaultTimeoutInterval, EmptyURL, "GET", [], [], policy, true, LowPriority);
      hasHttpBody := false;
      resourceRequestUpdated := true;
      platformRequestUpdated := false;
      resourceRequestBodyUpdated := true;
      platformRequestBodyUpdated := false;
      reportUploadProgress := false;
      reportLoadTiming := false;
      reportRawHeaders := false;
      hiddenFromInspector := false;
    }

    /** `encodeWithoutPlatformData`: for a request with no body whose
        platform request is not updated, writes the nine fields in order;
        the body is never written. */
    method EncodeWithoutPlatformData(encoder: Encoder)
      requires !hasHttpBody && !platformRequestUpdated
      modifies encoder
      ensures encoder.tokens == old(encoder.tokens) + Wire(fields)
    {
      encoder.Encode(StringToken(fields.url.text));
      encoder.Encode(DoubleToken(fields.timeoutInterval));
      encoder.Encode(StringToken(fields.firstPartyForCookies.text));
      encoder.Encode(StringToken(fields.httpMethod));
      encoder.Encode(HeadersToken(fields.httpHeaderFields));
      encoder.Encode(StringListToken(fields.encodingFallbackArray));
      encoder.Encode(CachePolicyToken(fields.cachePolicy));
      encoder.Encode(BoolToken(fields.allowCookies));
      encoder.Encode(PriorityToken(fields.priority));
    }

    /** After the first j reads of a decoding that started at position p
        with the tokens ts still to read and the fields f. */
    ghost predicate DecodedUpTo(decoder: Decoder, ts: seq<Token>, p: nat, f: RequestFields, j: nat)
      reads this, decoder
    {
      j <= 9 && j <= |ts| && decoder.Valid() && p <= |decoder.tokens| && decoder.tokens[p..] == ts &&
      decoder.position == p + j && FieldsRead(ts) == ReadFrom(ts, j) && fields == Overwritten(f, ts, j)
    }

    /** The decoding has stopped: the fields and the position are what the
        reads that succeed leave. */
    ghost predicate DecodingDone(decoder: Decoder, ts: seq<Token>, p: nat, f: RequestFields)
      reads this, decoder
    {
      decoder.Valid() && fields == Overwritten(f, ts, FieldsRead(ts)) && decoder.position == p + FieldsRead(ts)
    }

    /** One `decoder.decode(field)` of the decoding: reads the token the
        j-th field asks for and stores it; a failed read stores nothing. */
    method DecodeField(decoder: Decoder, j: nat, ghost ts: seq<Token>, ghost p: nat, ghost f: RequestFields)
      returns (read: bool)
      requires j < 9 && DecodedUpTo(decoder, ts, p, f, j)
      modifies this`fields, decoder
      ensures read <==> ReadFrom(ts, j) > j
      ensures read ==> DecodedUpTo(decoder, ts, p, f, j + 1)
      ensures !read ==> DecodingDone(decoder, ts, p, f) && FieldsRead(ts) < 9
      ensures read && j == 8 ==> DecodingDone(decoder, ts, p, f) && FieldsRead(ts) == 9
    {
      var t;
      read, t := decoder.Decode(WireKind(j));
      if read {
        assert ts[j] == t;
        fields := Store(fields, t, j);
      }
    }

    /** `decodeWithoutPlatformData`: reads the nine fields in the same
        order, storing each as it is read, and fails at the first read that
        fails, the fields read before it already overwritten. */
    method DecodeWithoutPlatformData(decoder: Decoder) returns (ok: bool)
      requires decoder.Valid()
      modifies this`fields, decoder
      ensures decoder.Valid()
      ensures ok <==> FieldsRead(old(decoder.Rest())) == 9
      ensures fields == Overwritten(old(fields), old(decoder.Rest()), FieldsRead(old(decoder.Rest())))
      ensures decoder.position == old(decoder.position) + FieldsRead(old(decoder.Rest()))
    {
      ghost var ts, p, f := decoder.Rest(), decoder.position, fields;
      ok := DecodeField(decoder, 0, ts, p, f);
      if !ok {
        return;
      }
      ok := DecodeField(decoder, 1, ts, p, f);
      if !ok {
        return;
      }
      ok := DecodeField(decoder, 2, ts, p, f);
      if !ok {
        return;
      }
      ok := DecodeField(decoder, 3, ts, p, f);
      if !ok {
        return;
      }
      ok := DecodeField(decoder, 4, ts, p, f);
      if !ok {
        return;
      }
      ok := DecodeField(decoder, 5, ts, p, f);
      if !ok {
        return;
      }
      ok := DecodeField(decoder, 6, ts, p, f);
      if !ok {
        return;
      }
      ok := DecodeField(decoder, 7, ts, p, f);
      if !ok {
        return;
      }
      ok := DecodeField(decoder, 8, ts, p, f);
    }
  }

  /** Encoding a request and decoding the tokens into another request
      gives that request the first one's nine fields. */
  method EncodeThenDecode(source: ResourceRequestBase, target: ResourceRequestBase) returns (ok: bool)
    requires !source.hasHttpBody && !source.platformRequestUpdated && source != target
    modifies target`fields
    ensures ok && target.fields == source.fields
  {
    var encoder := new Encoder();
    source.EncodeWithoutPlatformData(encoder);
    var decoder := new Decoder(encoder.tokens);
    WireDecodes(source.fields, target.fields, []);
    assert decoder.Rest() == Wire(source.fields) + [];
    ok := target.DecodeWithoutPlatformData(decoder);
  }
}
