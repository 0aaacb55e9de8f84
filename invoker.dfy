/**
 * The invoker: posts a message to every function the routing table matches and
 * reports one response per function on its `Responses` channel.
 *
 * The channel is the sequence `responses`, appended to in send order. The HTTP
 * client is an oracle `Http` that tells what becomes of each request; the request
 * context is dropped.
 */
module Invocation {
  import opened Wrappers
  import opened Routing
  import opened Options

  type Bytes = seq<bv8>

  /** Go's `http.Header`: a name maps to its values. */
  type Header = map<string, seq<string>>

  /** `http.StatusServiceUnavailable`. */
  const StatusServiceUnavailable := 503

  const MethodPost := "POST"

  const TopicHeader := "X-Topic"
  const CallbackHeader := "X-Callback-Url"
  const ContentTypeHeader := "Content-Type"

  /** A request as `invokeFunction` prepares it. */
  datatype HttpRequest = HttpRequest(verb: string, url: string, body: Bytes, headers: map<string, string>)

  /** What becomes of a request. */
  datatype HttpOutcome =
    | RequestInvalid(cause: string)    // `http.NewRequest` refuses it
    | TransportFailed(cause: string)   // `Client.Do` fails
    | BodyUnreadable                   // the response body cannot be read
    | Responded(status: int, header: Header, body: Option<Bytes>)  // `None`: no response body

  type Http = HttpRequest -> HttpOutcome

  /** What `invokeFunction` returns: body, status code, header and error. */
  datatype FunctionReply = FunctionReply(body: Option<Bytes>, status: int, header: Option<Header>, err: Option<string>)

  function Request(gwURL: string, message: Bytes, headers: map<string, string>): HttpRequest {
    HttpRequest(MethodPost, gwURL, message, headers)
  }

  /**
   * Go's `invokeFunction`. A request that cannot be built or sent gives 503 and
   * the error. A body that cannot be read gives 503 as well but no error, since
   * the code returns the (nil) transport error there. Otherwise the real status.
   */
  function InvokeFunction(gwURL: string, message: Bytes, headers: map<string, string>, http: Http): (r: FunctionReply)
    ensures var outcome := http(Request(gwURL, message, headers));
      && (r.err.Some? <==> outcome.RequestInvalid? || outcome.TransportFailed?)
      && (r.err.Some? ==> r.err.value == outcome.cause)
      && (!outcome.Responded? ==> r.status == StatusServiceUnavailable && r.body.None? && r.header.None?)
      && (outcome.Responded? ==> r == FunctionReply(outcome.body, outcome.status, Some(outcome.header), None))
  {
    match http(Request(gwURL, message, headers))
    case RequestInvalid(e) => FunctionReply(None, StatusServiceUnavailable, None, Some(e))
    case TransportFailed(e) => FunctionReply(None, StatusServiceUnavailable, None, Some(e))
    case BodyUnreadable => FunctionReply(None, StatusServiceUnavailable, None, None)
    case Responded(status, header, body) => FunctionReply(body, status, Some(header), None)
  }

  /** The errors a response can carry; the second wraps the error of `invokeFunction`. */
  datatype InvokeError = NoMessageToSend | UnableToInvoke(functionName: string, cause: string)

  /** Go's `InvokerResponse` without its context. */
  datatype InvokerResponse = InvokerResponse(
    body: Option<Bytes>,
    header: Option<Header>,
    status: int,
    error: Option<InvokeError>,
    topic: string,
    functionName: string)

  /** The response sent when the message is empty: only the error is set. */
  const NoMessageResponse := InvokerResponse(None, None, 0, Some(NoMessageToSend), "", "")

  /** The target of one invocation: the gateway URL, a slash, the function reference. */
  function FunctionURL(gatewayURL: string, functionName: string): (url: string)
    ensures |url| == |gatewayURL| + 1 + |functionName|
    ensures url[..|gatewayURL|] == gatewayURL && url[|gatewayURL|] == '/'
    ensures url[|gatewayURL| + 1..] == functionName
  {
    gatewayURL + "/" + functionName
  }

  /** The response reported for `functionName` after `invokeFunction` gave `reply`. */
  function ResponseFor(reply: FunctionReply, functionName: string, topic: string): (res: InvokerResponse)
    ensures reply.err.Some? ==>
      && res.error == Some(UnableToInvoke(functionName, reply.err.value))
      && res.body.None? && res.header.None? && res.status == 0 && res.topic == "" && res.functionName == ""
    ensures reply.err.None? ==>
      && res.error.None?
      && res.body == reply.body && res.header == reply.header && res.status == reply.status
      && res.topic == topic && res.functionName == functionName
  {
    if reply.err.Some? then InvokerResponse(None, None, 0, Some(UnableToInvoke(functionName, reply.err.value)), "", "")
    else InvokerResponse(reply.body, reply.header, reply.status, None, topic, functionName)
  }

  /** The responses for the matched functions `fns`, in order. */
  function Dispatched(gatewayURL: string, headers: map<string, string>, topic: string, message: Bytes, fns: seq<string>, http: Http)
    : seq<InvokerResponse>
  {
    if fns == [] then []
    else
      var fn := fns[|fns| - 1];
      Dispatched(gatewayURL, headers, topic, message, fns[..|fns| - 1], http)
        + [ResponseFor(InvokeFunction(FunctionURL(gatewayURL, fn), message, headers, http), fn, topic)]
  }

  /** Everything one `InvokeWithContext` call sends: the no-message error first, if due, then every dispatch. */
  function Emitted(gatewayURL: string, headers: map<string, string>, topic: string, message: Bytes, fns: seq<string>, http: Http)
    : seq<InvokerResponse>
  {
    (if |message| == 0 then [NoMessageResponse] else []) + Dispatched(gatewayURL, headers, topic, message, fns, http)
  }

  /** Exactly one response per matched function, the `i`-th about the `i`-th function, posted to its URL. */
  lemma {:induction false} DispatchedAt(gatewayURL: string, headers: map<string, string>, topic: string, message: Bytes, fns: seq<string>, http: Http)
    ensures |Dispatched(gatewayURL, headers, topic, message, fns, http)| == |fns|
    ensures forall i :: 0 <= i < |fns| ==>
      Dispatched(gatewayURL, headers, topic, message, fns, http)[i]
      == ResponseFor(InvokeFunction(FunctionURL(gatewayURL, fns[i]), message, headers, http), fns[i], topic)
    decreases |fns|
  {
    if fns != [] {
      var init := fns[..|fns| - 1];
      DispatchedAt(gatewayURL, headers, topic, message, init, http);
      forall i | 0 <= i < |init| ensures init[i] == fns[i] { }
    }
  }

  /**
   * An empty message is reported first, and the functions are invoked all the same;
   * otherwise the responses are exactly the dispatches.
   */
  lemma EmptyMessageStillDispatches(gatewayURL: string, headers: map<string, string>, topic: string, message: Bytes, fns: seq<string>, http: Http)
    ensures var out := Emitted(gatewayURL, headers, topic, message, fns, http);
      && (|message| == 0 ==>
            |out| == |fns| + 1 && out[0] == NoMessageResponse && out[1..] == Dispatched(gatewayURL, headers, topic, message, fns, http))
      && (|message| > 0 ==> out == Dispatched(gatewayURL, headers, topic, message, fns, http) && |out| == |fns|)
  {
    DispatchedAt(gatewayURL, headers, topic, message, fns, http);
  }

  /** A response body that cannot be read is reported as a success with status 503 and no body. */
  lemma UnreadableBodyLooksLikeSuccess(gatewayURL: string, headers: map<string, string>, topic: string, message: Bytes, fns: seq<string>, http: Http, i: nat)
    requires i < |fns|
    requires http(Request(FunctionURL(gatewayURL, fns[i]), message, headers)).BodyUnreadable?
    ensures var out := Dispatched(gatewayURL, headers, topic, message, fns, http);
      |out| == |fns| && out[i] == InvokerResponse(None, None, StatusServiceUnavailable, None, topic, fns[i])
  {
    DispatchedAt(gatewayURL, headers, topic, message, fns, http);
  }

  /**
   * The headers `getHeaders` intends: `X-Topic` when the topic is to be sent and is
   * not empty, `X-Callback-Url` and `Content-Type` when configured, nothing else.
   */
  function RequestHeaders(sendTopic: bool, callbackURL: string, contentType: string, topic: string): (h: map<string, string>)
    ensures TopicHeader in h <==> sendTopic && topic != ""
    ensures CallbackHeader in h <==> callbackURL != ""
    ensures ContentTypeHeader in h <==> contentType != ""
    ensures TopicHeader in h ==> h[TopicHeader] == topic
    ensures CallbackHeader in h ==> h[CallbackHeader] == callbackURL
    ensures ContentTypeHeader in h ==> h[ContentTypeHeader] == contentType
    ensures h.Keys <= {TopicHeader, CallbackHeader, ContentTypeHeader}
  {
    var withTopic: map<string, string> := if sendTopic && topic != "" then map[TopicHeader := topic] else map[];
    var withCallback := if callbackURL != "" then withTopic[CallbackHeader := callbackURL] else withTopic;
    if contentType != "" then withCallback[ContentTypeHeader := contentType] else withCallback
  }

  /** The panic of a write into a nil Go map. */
  datatype NilMapWrite = NilMapWrite(key: string)

  /** One assignment `headers[key] = value` when `headers` may be nil (`None`). */
  function AssignEntry(headers: Option<map<string, string>>, key: string, value: string): Result<Option<map<string, string>>, NilMapWrite> {
    match headers
    case None => Failure(NilMapWrite(key))
    case Some(h) => Success(Some(h[key := value]))
  }

  /**
   * `getHeaders` as the code stands: the named result starts as a nil map and the
   * first assignment into it panics.
   */
  function GetHeadersAsWritten(sendTopic: bool, callbackURL: string, contentType: string, topic: string)
    : (r: Result<Option<map<string, string>>, NilMapWrite>)
    ensures r.Success? ==> r.value.None?
  {
    var headers: Option<map<string, string>> := None;
    var r1 := if sendTopic && topic != "" then AssignEntry(headers, TopicHeader, topic) else Success(headers);
    if r1.Failure? then r1
    else
      var r2 := if callbackURL != "" then AssignEntry(r1.value, CallbackHeader, callbackURL) else r1;
      if r2.Failure? then r2
      else if contentType != "" then AssignEntry(r2.value, ContentTypeHeader, contentType) else r2
  }

  /** The code as written panics exactly when the intended header map is not empty. */
  lemma GetHeadersPanicsWhenHeadersDue(sendTopic: bool, callbackURL: string, contentType: string, topic: string)
    ensures GetHeadersAsWritten(sendTopic, callbackURL, contentType, topic).Failure?
        <==> RequestHeaders(sendTopic, callbackURL, contentType, topic) != map[]
  {
    var h := RequestHeaders(sendTopic, callbackURL, contentType, topic);
    if h == map[] {
      assert TopicHeader !in h && CallbackHeader !in h && ContentTypeHeader !in h;
    } else {
      var k :| k in h;
    }
  }

  /** A connector configured to send topics crashes on its first topic. */
  lemma GetHeadersAsWrittenCounterexample()
    ensures GetHeadersAsWritten(true, "", "", "t") == Failure(NilMapWrite(TopicHeader))
    ensures RequestHeaders(true, "", "", "t") == map[TopicHeader := "t"]
  {
  }

  /** Go's `Invoker`; the HTTP client is the `http` argument of the invoking methods. */
  class Invoker {
    var printResponse: bool
    var gatewayURL: string
    var contentType: string
    var callbackURL: string
    var sendTopic: bool
    var responses: seq<InvokerResponse>

    /** Go's `NewInvoker`: the settings as given and nothing sent yet. */
    constructor (gatewayURL: string, contentType: string, callbackURL: string, printResponse: bool, sendTopic: bool)
      ensures this.gatewayURL == gatewayURL && this.contentType == contentType && this.callbackURL == callbackURL
      ensures this.printResponse == printResponse && this.sendTopic == sendTopic
      ensures responses == []
    {
      this.printResponse := printResponse;
      this.gatewayURL := gatewayURL;
      this.contentType := contentType;
      this.callbackURL := callbackURL;
      this.sendTopic := sendTopic;
      responses := [];
    }

    /** The headers of every request for `topic`. */
    function Headers(topic: string): map<string, string>
      reads this
    {
      RequestHeaders(sendTopic, callbackURL, contentType, topic)
    }

    /** Go's `getHeaders`, starting from an empty map rather than a nil one. */
    method GetHeaders(topic: string) returns (headers: map<string, string>)
      ensures headers == RequestHeaders(sendTopic, callbackURL, contentType, topic)
    {
      headers := map[];
      if sendTopic && topic != "" {
        headers := headers[TopicHeader := topic];
      }
      if callbackURL != "" {
        headers := headers[CallbackHeader := callbackURL];
      }
      if contentType != "" {
        headers := headers[ContentTypeHeader := contentType];
      }
    }

    /**
     * Go's `InvokeWithContext`, with the routing table's keys visited in `order`:
     * sends what `Emitted` lists, in that order, and changes nothing else.
     */
    method InvokeWithContext(topicMap: TopicMap, topic: string, message: Bytes, order: seq<string>, http: Http)
      requires IsEnumeration(order, topicMap.lookup.Keys)
      modifies this`responses
      ensures responses == old(responses)
        + Emitted(gatewayURL, Headers(topic), topic, message, Matched(topicMap.lookup, topicMap.matchFunc, topic, order), http)
    {
      if |message| == 0 {
        responses := responses + [NoMessageResponse];
      }
      var matchedFunctions := topicMap.Match(topic, order);
      DispatchAll(topic, message, matchedFunctions, http);
    }

    /** The loop of `InvokeWithContext`: one post, and one response, per matched function in turn. */
    method DispatchAll(topic: string, message: Bytes, matchedFunctions: seq<string>, http: Http)
      modifies this`responses
      ensures responses == old(responses) + Dispatched(gatewayURL, Headers(topic), topic, message, matchedFunctions, http)
    {
      for i := 0 to |matchedFunctions|
        invariant responses == old(responses) + Dispatched(gatewayURL, Headers(topic), topic, message, matchedFunctions[..i], http)
      {
        var matchedFunction := matchedFunctions[i];
        var gwURL := FunctionURL(gatewayURL, matchedFunction);
        var headers := GetHeaders(topic);
        var reply := InvokeFunction(gwURL, message, headers, http);
        assert matchedFunctions[..i + 1][..i] == matchedFunctions[..i];
        if reply.err.Some? {
          responses := responses + [InvokerResponse(None, None, 0, Some(UnableToInvoke(matchedFunction, reply.err.value)), "", "")];
        } else {
          responses := responses + [InvokerResponse(reply.body, reply.header, reply.status, None, topic, matchedFunction)];
        }
      }
      assert matchedFunctions[..|matchedFunctions|] == matchedFunctions;
    }

    /** Go's `Invoke`: `InvokeWithContext` with a background context. */
    method Invoke(topicMap: TopicMap, topic: string, message: Bytes, order: seq<string>, http: Http)
      requires IsEnumeration(order, topicMap.lookup.Keys)
      modifies this`responses
      ensures responses == old(responses)
        + Emitted(gatewayURL, Headers(topic), topic, message, Matched(topicMap.lookup, topicMap.matchFunc, topic, order), http)
    {
      InvokeWithContext(topicMap, topic, message, order, http);
    }
  }

  /**
   * The precedence of the option records, seen in the request: the `X-Topic` header
   * carries the per-call topic, and a per-call callback URL or content type that is
   * set is the one sent.
   */
  lemma EffectiveHeaders(invoker: InvokerOptions, contentType: string, call: InvokeOptions)
    ensures var s := Effective(invoker, contentType, call);
      var h := RequestHeaders(s.sendTopic, s.callbackURL, s.contentType, s.topic);
      && (invoker.sendTopic && call.topic != "" ==> h[TopicHeader] == call.topic)
      && (!invoker.sendTopic ==> TopicHeader !in h)
      && (call.asyncCallbackURL != "" ==> h[CallbackHeader] == call.asyncCallbackURL)
      && (call.asyncCallbackURL == "" ==> (CallbackHeader in h <==> invoker.asyncCallbackURL != ""))
      && (call.contentType != "" ==> h[ContentTypeHeader] == call.contentType)
      && (call.contentType == "" && contentType != "" ==> h[ContentTypeHeader] == contentType)
  {
  }

  /**
   * An invoker that sends topics, with a default content type, called with a topic,
   * a callback URL and a content type of its own: the request carries all three
   * per-call values.
   */
  lemma SuccessWithOptions(defaultContentType: string, topic: string, callbackURL: string, contentType: string)
    requires topic != "" && callbackURL != "" && contentType != ""
    ensures var invoker := ApplyInvokerAll([WithInvokerSendTopic(true)], ZeroInvokerOptions);
      var call := ApplyInvokeAll([WithInvokeTopic(topic), WithInvokeAsyncCallbackURL(callbackURL), WithInvokeContentType(contentType)], ZeroInvokeOptions);
      var s := Effective(invoker, defaultContentType, call);
      RequestHeaders(s.sendTopic, s.callbackURL, s.contentType, s.topic)
      == map[TopicHeader := topic, CallbackHeader := callbackURL, ContentTypeHeader := contentType]
  {
    var os := [WithInvokeTopic(topic), WithInvokeAsyncCallbackURL(callbackURL), WithInvokeContentType(contentType)];
    assert os[1..] == [WithInvokeAsyncCallbackURL(callbackURL), WithInvokeContentType(contentType)];
    assert os[1..][1..] == [WithInvokeContentType(contentType)];
    assert [WithInvokerSendTopic(true)][1..] == [];
    var call := ApplyInvokeAll(os, ZeroInvokeOptions);
    var o1 := ApplyInvoke(os[0], ZeroInvokeOptions);
    var o2 := ApplyInvoke(os[1], o1);
    var o3 := ApplyInvoke(os[2], o2);
    assert call == ApplyInvokeAll(os[1..], o1);
    assert ApplyInvokeAll(os[1..], o1) == ApplyInvokeAll(os[1..][1..], o2);
    assert ApplyInvokeAll(os[1..][1..], o2) == ApplyInvokeAll([], o3);
    assert call == InvokeOptions(topic, callbackURL, contentType);
    var s := Effective(ApplyInvokerAll([WithInvokerSendTopic(true)], ZeroInvokerOptions), defaultContentType, call);
    var h := RequestHeaders(s.sendTopic, s.callbackURL, s.contentType, s.topic);
    var want := map[TopicHeader := topic, CallbackHeader := callbackURL, ContentTypeHeader := contentType];
    assert h.Keys == want.Keys;
  }
}
