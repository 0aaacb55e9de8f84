/**
 * The controller: owns the routing table, the invoker and the subscribers, hands
 * every invoker response to all subscribers, and refreshes the table from the
 * gateway.
 *
 * Locks, goroutines, the channel and the ticker are gone: delivering the pending
 * responses and refreshing the table are explicit steps, the gateway's state at
 * each refresh is a `Registry` argument, and `log.Fatalln` ends the process, which
 * is the flag `terminated`.
 */
module Control {
  import opened Wrappers
  import opened Routing
  import opened LookupBuilder
  import opened Options
  import opened Invocation

  /** Go's `ControllerConfig` without its two durations. */
  datatype ControllerConfig = ControllerConfig(
    gatewayURL: string,
    printResponse: bool,
    printResponseBody: bool,
    printRequestBody: bool,
    topicAnnotationDelimiter: string,
    asyncFunctionInvocation: bool,
    asyncFunctionCallbackURL: string,
    printSync: bool,
    contentType: string,
    basicAuth: bool,
    userAgent: string,
    namespace: string,
    sendTopic: bool,
    topicMatcher: Option<Matcher>)

  /** Go's `gatewayRoute`: the gateway's asynchronous or synchronous function route. */
  function GatewayRoute(config: ControllerConfig): (route: string)
    ensures config.asyncFunctionInvocation ==> route == config.gatewayURL + "/async-function"
    ensures !config.asyncFunctionInvocation ==> route == config.gatewayURL + "/function"
  {
    config.gatewayURL + "/" + (if config.asyncFunctionInvocation then "async-function" else "function")
  }

  /** A function is posted to under the route the configuration selects. */
  lemma InvocationURL(config: ControllerConfig, functionName: string)
    ensures FunctionURL(GatewayRoute(config), functionName)
         == config.gatewayURL + (if config.asyncFunctionInvocation then "/async-function/" else "/function/") + functionName
  {
  }

  /**
   * The invoker options `NewController` passes, in order. Applied to the zero
   * options they carry exactly the configured user agent, callback URL and topic flag.
   */
  function ControllerInvokerOptions(config: ControllerConfig): (os: seq<InvokerOptionFunc>)
    ensures ApplyInvokerAll(os, ZeroInvokerOptions)
         == InvokerOptions(config.sendTopic, config.asyncFunctionCallbackURL, config.userAgent)
  {
    var os := [WithInvokerUserAgent(config.userAgent),
               WithInvokerAsyncCallbackURL(config.asyncFunctionCallbackURL),
               WithInvokerSendTopic(config.sendTopic)];
    var o1 := ApplyInvoker(os[0], ZeroInvokerOptions);
    var o2 := ApplyInvoker(os[1], o1);
    assert ApplyInvokerAll(os, ZeroInvokerOptions) == ApplyInvokerAll(os[1..], o1);
    assert ApplyInvokerAll(os[1..], o1) == ApplyInvokerAll(os[1..][1..], o2);
    assert ApplyInvokerAll(os[1..][1..], o2) == ApplyInvokerAll([], ApplyInvoker(os[2], o2));
    os
  }

  /** The lookup builder `BeginMapBuilder` sets up. */
  function LookupBuilderFor(config: ControllerConfig): (b: FunctionLookupBuilder)
    ensures b.gatewayURL == config.gatewayURL
    ensures b.topicDelimiter == config.topicAnnotationDelimiter
    ensures b.namespace == config.namespace
  {
    FunctionLookupBuilder(config.gatewayURL, config.topicAnnotationDelimiter, config.namespace)
  }

  /** A `ResponseSubscriber`: the built-in printer, or one registered from outside. */
  datatype Subscriber = ResponsePrinter(printBody: bool) | External(id: nat)

  /** One call of `Response` on a subscriber. */
  datatype Delivery = Delivery(subscriber: Subscriber, response: InvokerResponse)

  /** Handing `res` to each subscriber in turn. */
  function FanOut(subscribers: seq<Subscriber>, res: InvokerResponse): seq<Delivery> {
    if subscribers == [] then []
    else FanOut(subscribers[..|subscribers| - 1], res) + [Delivery(subscribers[|subscribers| - 1], res)]
  }

  /** Handing each of `responses` in turn to every subscriber. */
  function Broadcast(responses: seq<InvokerResponse>, subscribers: seq<Subscriber>): seq<Delivery> {
    if responses == [] then []
    else Broadcast(responses[..|responses| - 1], subscribers) + FanOut(subscribers, responses[|responses| - 1])
  }

  /** Every subscriber gets the response exactly once, in subscription order. */
  lemma {:induction false} FanOutAt(subscribers: seq<Subscriber>, res: InvokerResponse)
    ensures |FanOut(subscribers, res)| == |subscribers|
    ensures forall j :: 0 <= j < |subscribers| ==> FanOut(subscribers, res)[j] == Delivery(subscribers[j], res)
    decreases |subscribers|
  {
    if subscribers != [] {
      var init := subscribers[..|subscribers| - 1];
      FanOutAt(init, res);
      forall j | 0 <= j < |init| ensures init[j] == subscribers[j] { }
    }
  }

  /** Every response is handed to every subscriber: the deliveries number responses times subscribers. */
  lemma {:induction false} BroadcastLength(responses: seq<InvokerResponse>, subscribers: seq<Subscriber>)
    ensures |Broadcast(responses, subscribers)| == |responses| * |subscribers|
    decreases |responses|
  {
    if responses != [] {
      var m := |responses| - 1;
      BroadcastLength(responses[..m], subscribers);
      FanOutAt(subscribers, responses[m]);
      assert (m + 1) * |subscribers| == m * |subscribers| + |subscribers|;
    }
  }

  /** Delivering two batches of responses one after the other. */
  lemma {:induction false} BroadcastConcat(a: seq<InvokerResponse>, b: seq<InvokerResponse>, subscribers: seq<Subscriber>)
    ensures Broadcast(a + b, subscribers) == Broadcast(a, subscribers) + Broadcast(b, subscribers)
    decreases |b|
  {
    if b == [] {
      assert a + b == a;
    } else {
      var n := |b| - 1;
      var last := FanOut(subscribers, b[n]);
      assert (a + b)[..|a + b| - 1] == a + b[..n];
      assert (a + b)[|a + b| - 1] == b[n];
      assert Broadcast(a + b, subscribers) == Broadcast(a + b[..n], subscribers) + last;
      assert Broadcast(b, subscribers) == Broadcast(b[..n], subscribers) + last;
      BroadcastConcat(a, b[..n], subscribers);
      var x, y := Broadcast(a, subscribers), Broadcast(b[..n], subscribers);
      assert (x + y) + last == x + (y + last);
    }
  }

  /**
   * Responses are delivered in the order they were sent, each one to all subscribers
   * before the next: the `i`-th response's deliveries sit between those of the
   * earlier and of the later responses.
   */
  lemma BroadcastAt(responses: seq<InvokerResponse>, subscribers: seq<Subscriber>, i: nat)
    requires i < |responses|
    ensures Broadcast(responses, subscribers)
         == Broadcast(responses[..i], subscribers) + FanOut(subscribers, responses[i]) + Broadcast(responses[i + 1..], subscribers)
  {
    assert responses == responses[..i] + [responses[i]] + responses[i + 1..];
    BroadcastConcat(responses[..i] + [responses[i]], responses[i + 1..], subscribers);
    BroadcastConcat(responses[..i], [responses[i]], subscribers);
    assert [responses[i]][..0] == [];
  }

  /** The table and the process state a series of refreshes leaves. */
  datatype SyncState = SyncState(lookup: Lookup, terminated: bool)

  /**
   * Refreshing once per registry snapshot: a successful build replaces the table,
   * a failed one ends the process and nothing after it runs.
   */
  function Refreshed(b: FunctionLookupBuilder, snapshots: seq<Registry>, lookup: Lookup): SyncState {
    if snapshots == [] then SyncState(lookup, false)
    else
      match Built(b, snapshots[0])
      case Failure(_) => SyncState(lookup, true)
      case Success(m) => Refreshed(b, snapshots[1..], m)
  }

  /** The process ends exactly when some refresh fails to build. */
  lemma {:induction false} RefreshTerminates(b: FunctionLookupBuilder, snapshots: seq<Registry>, lookup: Lookup)
    ensures Refreshed(b, snapshots, lookup).terminated
        <==> exists i :: 0 <= i < |snapshots| && Built(b, snapshots[i]).Failure?
    decreases |snapshots|
  {
    if snapshots != [] {
      match Built(b, snapshots[0])
      case Failure(_) =>
      case Success(m) =>
        RefreshTerminates(b, snapshots[1..], m);
        if exists i :: 0 <= i < |snapshots| && Built(b, snapshots[i]).Failure? {
          var i :| 0 <= i < |snapshots| && Built(b, snapshots[i]).Failure?;
          assert snapshots[1..][i - 1] == snapshots[i];
        }
        if exists i :: 0 <= i < |snapshots[1..]| && Built(b, snapshots[1..][i]).Failure? {
          var i :| 0 <= i < |snapshots[1..]| && Built(b, snapshots[1..][i]).Failure?;
          assert snapshots[i + 1] == snapshots[1..][i];
        }
    }
  }

  /** When every refresh succeeds, the table is exactly the last one built. */
  lemma {:induction false} RefreshKeepsLatest(b: FunctionLookupBuilder, snapshots: seq<Registry>, lookup: Lookup)
    requires snapshots != []
    requires forall r :: r in snapshots ==> Built(b, r).Success?
    ensures Refreshed(b, snapshots, lookup) == SyncState(Built(b, snapshots[|snapshots| - 1]).value, false)
    decreases |snapshots|
  {
    assert snapshots[0] in snapshots;
    var m := Built(b, snapshots[0]).value;
    if |snapshots| > 1 {
      var rest := snapshots[1..];
      assert forall r :: r in rest ==> r in snapshots;
      RefreshKeepsLatest(b, rest, m);
      assert rest[|rest| - 1] == snapshots[|snapshots| - 1];
    } else {
      assert snapshots[1..] == [];
    }
  }

  /** After the process has ended, further ticks change nothing. */
  lemma {:induction false} RefreshStopsAfterFailure(b: FunctionLookupBuilder, snapshots: seq<Registry>, more: seq<Registry>, lookup: Lookup)
    requires Refreshed(b, snapshots, lookup).terminated
    ensures Refreshed(b, snapshots + more, lookup) == Refreshed(b, snapshots, lookup)
    decreases |snapshots|
  {
    assert snapshots != [];
    assert (snapshots + more)[0] == snapshots[0];
    match Built(b, snapshots[0])
    case Failure(_) =>
    case Success(m) =>
      assert (snapshots + more)[1..] == snapshots[1..] + more;
      RefreshStopsAfterFailure(b, snapshots[1..], more, m);
  }

  /** Go's `controller`. */
  class Controller {
    var config: ControllerConfig
    var invoker: Invoker
    var topicMap: TopicMap
    var subscribers: seq<Subscriber>
    var delivered: seq<Delivery>
    var terminated: bool

    /**
     * Go's `NewController`: an invoker on the configured route with the configured
     * options, an empty table with the configured match rule, and the response
     * printer as the only subscriber when responses are to be printed.
     */
    constructor (config: ControllerConfig)
      ensures this.config == config
      ensures fresh(invoker) && fresh(topicMap)
      ensures invoker.gatewayURL == GatewayRoute(config) && invoker.contentType == config.contentType
      ensures invoker.callbackURL == config.asyncFunctionCallbackURL && invoker.sendTopic == config.sendTopic
      ensures invoker.printResponse == config.printResponse && invoker.responses == []
      ensures topicMap.lookup == map[]
      ensures forall topic, key :: Accepts(topicMap.matchFunc, topic, key) == Accepts(config.topicMatcher, topic, key)
      ensures subscribers == if config.printResponse then [ResponsePrinter(config.printResponseBody)] else []
      ensures delivered == [] && !terminated
    {
      var options := ApplyInvokerAll(ControllerInvokerOptions(config), ZeroInvokerOptions);
      this.config := config;
      invoker := new Invoker(GatewayRoute(config), config.contentType, options.asyncCallbackURL, config.printResponse, options.sendTopic);
      topicMap := new TopicMap(config.topicMatcher);
      subscribers := [];
      delivered := [];
      terminated := false;
      new;
      if config.printResponse {
        Subscribe(ResponsePrinter(config.printResponseBody));
      }
    }

    /** Go's `Subscribe`: one more subscriber at the end; there is no removal. */
    method Subscribe(subscriber: Subscriber)
      modifies this`subscribers
      ensures subscribers == old(subscribers) + [subscriber]
    {
      subscribers := subscribers + [subscriber];
    }

    /** The body of the delivery goroutine for one response: every subscriber, in order. */
    method Deliver(res: InvokerResponse)
      modifies this`delivered
      ensures delivered == old(delivered) + FanOut(subscribers, res)
    {
      for j := 0 to |subscribers|
        invariant delivered == old(delivered) + FanOut(subscribers[..j], res)
      {
        assert subscribers[..j + 1][..j] == subscribers[..j];
        delivered := delivered + [Delivery(subscribers[j], res)];
      }
      assert subscribers[..|subscribers|] == subscribers;
    }

    /** The delivery goroutine draining the channel: each pending response, oldest first. */
    method DeliverPending()
      modifies this`delivered, invoker`responses
      ensures invoker.responses == []
      ensures delivered == old(delivered) + Broadcast(old(invoker.responses), subscribers)
    {
      ghost var taken: seq<InvokerResponse> := [];
      while invoker.responses != []
        invariant taken + invoker.responses == old(invoker.responses)
        invariant delivered == old(delivered) + Broadcast(taken, subscribers)
        decreases |invoker.responses|
      {
        var res := invoker.responses[0];
        invoker.responses := invoker.responses[1..];
        Deliver(res);
        assert (taken + [res])[..|taken|] == taken;
        assert Broadcast(taken + [res], subscribers) == Broadcast(taken, subscribers) + FanOut(subscribers, res);
        taken := taken + [res];
      }
      assert taken == old(invoker.responses);
    }

    /** Go's `Invoke`: the invoker dispatches to the functions the table matches. */
    method Invoke(topic: string, message: Bytes, order: seq<string>, http: Http)
      requires IsEnumeration(order, topicMap.lookup.Keys)
      modifies invoker`responses
      ensures invoker.responses == old(invoker.responses)
        + Emitted(invoker.gatewayURL, invoker.Headers(topic), topic, message, Matched(topicMap.lookup, topicMap.matchFunc, topic, order), http)
    {
      invoker.InvokeWithContext(topicMap, topic, message, order, http);
    }

    /**
     * Go's `synchronizeLookups` over a finite run: a refresh on `initial` right away,
     * then one per tick; a failed build ends the process.
     */
    method SynchronizeLookups(lookupBuilder: FunctionLookupBuilder, initial: Registry, ticks: seq<Registry>)
      requires !terminated
      modifies this`terminated, topicMap
      ensures SyncState(topicMap.lookup, terminated) == Refreshed(lookupBuilder, [initial] + ticks, old(topicMap.lookup))
      ensures topicMap.matchFunc == old(topicMap.matchFunc)
    {
      var snapshots := [initial] + ticks;
      for i := 0 to |snapshots|
        invariant !terminated
        invariant Refreshed(lookupBuilder, snapshots, old(topicMap.lookup)) == Refreshed(lookupBuilder, snapshots[i..], topicMap.lookup)
        invariant topicMap.matchFunc == old(topicMap.matchFunc)
      {
        assert snapshots[i..][1..] == snapshots[i + 1..];
        var lookups, err := Build(lookupBuilder, snapshots[i]);
        if err.Some? {
          terminated := true;
          return;
        }
        topicMap.Sync(lookups);
      }
      assert snapshots[|snapshots|..] == [];
    }

    /** Go's `BeginMapBuilder`: a builder on the configured gateway, delimiter and namespace, then the refreshes. */
    method BeginMapBuilder(initial: Registry, ticks: seq<Registry>)
      requires !terminated
      modifies this`terminated, topicMap
      ensures SyncState(topicMap.lookup, terminated) == Refreshed(LookupBuilderFor(config), [initial] + ticks, old(topicMap.lookup))
    {
      var lookupBuilder := LookupBuilderFor(config);
      SynchronizeLookups(lookupBuilder, initial, ticks);
    }

    /** Go's `Topics`: the table's keys, each once. */
    method Topics() returns (topics: seq<string>)
      ensures IsEnumeration(topics, topicMap.lookup.Keys)
      ensures |topics| == |topicMap.lookup|
    {
      topics := topicMap.Topics();
    }
  }
}
