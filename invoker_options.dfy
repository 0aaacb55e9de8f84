/**
 * Functional options for the invoker and for a single invocation.
 *
 * Each Go `With*` constructor returns a closure that overwrites one field of the
 * options record it is given. Here an option is a value naming that field and the
 * value to store, and applying it yields the updated record.
 */
module Options {
  import opened Wrappers

  /** Invoker-wide settings; `ZeroInvokerOptions` is Go's zero value. */
  datatype InvokerOptions = InvokerOptions(sendTopic: bool, asyncCallbackURL: string, userAgent: string)

  const ZeroInvokerOptions := InvokerOptions(false, "", "")

  /** Go's `InvokerOptionFunc`s, one constructor per `With*` function. */
  datatype InvokerOptionFunc =
    | WithInvokerSendTopic(sendTopic: bool)
    | WithInvokerAsyncCallbackURL(callbackURL: string)
    | WithInvokerUserAgent(userAgent: string)

  /** Settings for one invocation. */
  datatype InvokeOptions = InvokeOptions(topic: string, asyncCallbackURL: string, contentType: string)

  const ZeroInvokeOptions := InvokeOptions("", "", "")

  /** Go's `InvokeOptionFunc`s. */
  datatype InvokeOptionFunc =
    | WithInvokeTopic(topic: string)
    | WithInvokeAsyncCallbackURL(callbackURL: string)
    | WithInvokeContentType(contentType: string)

  /** The field an option writes: 0, 1 or 2 in the order the record declares them. */
  function InvokerField(o: InvokerOptionFunc): nat {
    match o
    case WithInvokerSendTopic(_) => 0
    case WithInvokerAsyncCallbackURL(_) => 1
    case WithInvokerUserAgent(_) => 2
  }

  function InvokeField(o: InvokeOptionFunc): nat {
    match o
    case WithInvokeTopic(_) => 0
    case WithInvokeAsyncCallbackURL(_) => 1
    case WithInvokeContentType(_) => 2
  }

  /** Running the closure of `o` on `opts`: the option's field gets its value, the others stay. */
  function ApplyInvoker(o: InvokerOptionFunc, opts: InvokerOptions): (r: InvokerOptions)
    ensures InvokerField(o) != 0 ==> r.sendTopic == opts.sendTopic
    ensures InvokerField(o) != 1 ==> r.asyncCallbackURL == opts.asyncCallbackURL
    ensures InvokerField(o) != 2 ==> r.userAgent == opts.userAgent
    ensures o.WithInvokerSendTopic? ==> r.sendTopic == o.sendTopic
    ensures o.WithInvokerAsyncCallbackURL? ==> r.asyncCallbackURL == o.callbackURL
    ensures o.WithInvokerUserAgent? ==> r.userAgent == o.userAgent
  {
    match o
    case WithInvokerSendTopic(v) => opts.(sendTopic := v)
    case WithInvokerAsyncCallbackURL(v) => opts.(asyncCallbackURL := v)
    case WithInvokerUserAgent(v) => opts.(userAgent := v)
  }

  function ApplyInvoke(o: InvokeOptionFunc, opts: InvokeOptions): (r: InvokeOptions)
    ensures InvokeField(o) != 0 ==> r.topic == opts.topic
    ensures InvokeField(o) != 1 ==> r.asyncCallbackURL == opts.asyncCallbackURL
    ensures InvokeField(o) != 2 ==> r.contentType == opts.contentType
    ensures o.WithInvokeTopic? ==> r.topic == o.topic
    ensures o.WithInvokeAsyncCallbackURL? ==> r.asyncCallbackURL == o.callbackURL
    ensures o.WithInvokeContentType? ==> r.contentType == o.contentType
  {
    match o
    case WithInvokeTopic(v) => opts.(topic := v)
    case WithInvokeAsyncCallbackURL(v) => opts.(asyncCallbackURL := v)
    case WithInvokeContentType(v) => opts.(contentType := v)
  }

  /** Options for different fields can be applied in either order. */
  lemma InvokerOptionsCommute(a: InvokerOptionFunc, b: InvokerOptionFunc, opts: InvokerOptions)
    requires InvokerField(a) != InvokerField(b)
    ensures ApplyInvoker(a, ApplyInvoker(b, opts)) == ApplyInvoker(b, ApplyInvoker(a, opts))
  {
  }

  /** Of two options for the same field, the later one decides. */
  lemma InvokerOptionLaterWins(a: InvokerOptionFunc, b: InvokerOptionFunc, opts: InvokerOptions)
    requires InvokerField(a) == InvokerField(b)
    ensures ApplyInvoker(b, ApplyInvoker(a, opts)) == ApplyInvoker(b, opts)
  {
  }

  lemma InvokeOptionsCommute(a: InvokeOptionFunc, b: InvokeOptionFunc, opts: InvokeOptions)
    requires InvokeField(a) != InvokeField(b)
    ensures ApplyInvoke(a, ApplyInvoke(b, opts)) == ApplyInvoke(b, ApplyInvoke(a, opts))
  {
  }

  lemma InvokeOptionLaterWins(a: InvokeOptionFunc, b: InvokeOptionFunc, opts: InvokeOptions)
    requires InvokeField(a) == InvokeField(b)
    ensures ApplyInvoke(b, ApplyInvoke(a, opts)) == ApplyInvoke(b, opts)
  {
  }

  /** Running a list of options front to back, as a variadic `opts ...` parameter is consumed. */
  function ApplyInvokerAll(os: seq<InvokerOptionFunc>, opts: InvokerOptions): InvokerOptions {
    if os == [] then opts else ApplyInvokerAll(os[1..], ApplyInvoker(os[0], opts))
  }

  function ApplyInvokeAll(os: seq<InvokeOptionFunc>, opts: InvokeOptions): InvokeOptions {
    if os == [] then opts else ApplyInvokeAll(os[1..], ApplyInvoke(os[0], opts))
  }

  /** The value the last option of `os` that `pick` recognises carries, or `fallback` if none does. */
  function LastSet<O, V>(os: seq<O>, pick: O -> Option<V>, fallback: V): V {
    if os == [] then fallback
    else
      match pick(os[|os| - 1])
      case Some(v) => v
      case None => LastSet(os[..|os| - 1], pick, fallback)
  }

  function SendTopicSet(o: InvokerOptionFunc): Option<bool> {
    if o.WithInvokerSendTopic? then Some(o.sendTopic) else None
  }

  function InvokerCallbackSet(o: InvokerOptionFunc): Option<string> {
    if o.WithInvokerAsyncCallbackURL? then Some(o.callbackURL) else None
  }

  function UserAgentSet(o: InvokerOptionFunc): Option<string> {
    if o.WithInvokerUserAgent? then Some(o.userAgent) else None
  }

  function TopicSet(o: InvokeOptionFunc): Option<string> {
    if o.WithInvokeTopic? then Some(o.topic) else None
  }

  function InvokeCallbackSet(o: InvokeOptionFunc): Option<string> {
    if o.WithInvokeAsyncCallbackURL? then Some(o.callbackURL) else None
  }

  function ContentTypeSet(o: InvokeOptionFunc): Option<string> {
    if o.WithInvokeContentType? then Some(o.contentType) else None
  }

  /** The field-wise reading of a list of invoker options: each field holds its last setting. */
  function InvokerSettings(os: seq<InvokerOptionFunc>, opts: InvokerOptions): InvokerOptions {
    InvokerOptions(
      LastSet(os, SendTopicSet, opts.sendTopic),
      LastSet(os, InvokerCallbackSet, opts.asyncCallbackURL),
      LastSet(os, UserAgentSet, opts.userAgent))
  }

  function InvokeSettings(os: seq<InvokeOptionFunc>, opts: InvokeOptions): InvokeOptions {
    InvokeOptions(
      LastSet(os, TopicSet, opts.topic),
      LastSet(os, InvokeCallbackSet, opts.asyncCallbackURL),
      LastSet(os, ContentTypeSet, opts.contentType))
  }

  /** Applying one more option at the end of a list. */
  lemma {:induction false} ApplyInvokerAllSnoc(os: seq<InvokerOptionFunc>, o: InvokerOptionFunc, opts: InvokerOptions)
    ensures ApplyInvokerAll(os + [o], opts) == ApplyInvoker(o, ApplyInvokerAll(os, opts))
    decreases |os|
  {
    if os != [] {
      assert (os + [o])[1..] == os[1..] + [o];
      ApplyInvokerAllSnoc(os[1..], o, ApplyInvoker(os[0], opts));
    }
  }

  lemma {:induction false} ApplyInvokeAllSnoc(os: seq<InvokeOptionFunc>, o: InvokeOptionFunc, opts: InvokeOptions)
    ensures ApplyInvokeAll(os + [o], opts) == ApplyInvoke(o, ApplyInvokeAll(os, opts))
    decreases |os|
  {
    if os != [] {
      assert (os + [o])[1..] == os[1..] + [o];
      ApplyInvokeAllSnoc(os[1..], o, ApplyInvoke(os[0], opts));
    }
  }

  /** Applying invoker options in order leaves each field at the value of its last setter. */
  lemma {:induction false} InvokerOptionsLastWins(os: seq<InvokerOptionFunc>, opts: InvokerOptions)
    ensures ApplyInvokerAll(os, opts) == InvokerSettings(os, opts)
    decreases |os|
  {
    if os != [] {
      var init, o := os[..|os| - 1], os[|os| - 1];
      assert os == init + [o];
      ApplyInvokerAllSnoc(init, o, opts);
      InvokerOptionsLastWins(init, opts);
    }
  }

  /** Applying invocation options in order leaves each field at the value of its last setter. */
  lemma {:induction false} InvokeOptionsLastWins(os: seq<InvokeOptionFunc>, opts: InvokeOptions)
    ensures ApplyInvokeAll(os, opts) == InvokeSettings(os, opts)
    decreases |os|
  {
    if os != [] {
      var init, o := os[..|os| - 1], os[|os| - 1];
      assert os == init + [o];
      ApplyInvokeAllSnoc(init, o, opts);
      InvokeOptionsLastWins(init, opts);
    }
  }

  /** What an invocation runs with once the per-call options are laid over the invoker's. */
  datatype CallSettings = CallSettings(topic: string, sendTopic: bool, callbackURL: string, contentType: string)

  /**
   * The precedence the option comments promise: a per-call callback URL or content
   * type that is set overrides the invoker's; the topic only exists per call.
   * An empty string counts as unset, as for every other optional string here.
   */
  function Effective(invoker: InvokerOptions, contentType: string, call: InvokeOptions): (s: CallSettings)
    ensures s.topic == call.topic && s.sendTopic == invoker.sendTopic
    ensures call.asyncCallbackURL != "" ==> s.callbackURL == call.asyncCallbackURL
    ensures call.asyncCallbackURL == "" ==> s.callbackURL == invoker.asyncCallbackURL
    ensures call.contentType != "" ==> s.contentType == call.contentType
    ensures call.contentType == "" ==> s.contentType == contentType
  {
    CallSettings(
      call.topic,
      invoker.sendTopic,
      if call.asyncCallbackURL != "" then call.asyncCallbackURL else invoker.asyncCallbackURL,
      if call.contentType != "" then call.contentType else contentType)
  }

  /** Without per-call options the invoker's own settings apply unchanged. */
  lemma EffectiveWithoutCallOptions(invoker: InvokerOptions, contentType: string)
    ensures Effective(invoker, contentType, ApplyInvokeAll([], ZeroInvokeOptions))
         == CallSettings("", invoker.sendTopic, invoker.asyncCallbackURL, contentType)
  {
  }
}
