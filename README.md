# connector-sdk `types` core in Dafny

This project models the routing core of the OpenFaaS connector SDK. A connector
receives messages on named topics and invokes every OpenFaaS function that has
declared interest in the topic through its `topic` annotation. The core is the
Go package `types`:

- `TopicMap` (topic_map.go): the routing table from topic to function
  references, with a replaceable topic matcher, `Match`, `Sync` and `Topics`.
- `FunctionLookupBuilder` (function_list_builder.go): queries the gateway for
  namespaces and functions, splits every `topic` annotation on the configured
  delimiter, trims the pieces and builds the table.
- `Invoker` (invoker.go): posts a message to every function the topic matches
  and emits one `InvokerResponse` per invocation. The message-empty error and
  the gateway's 503 are included.
- The functional options (invoker_options.go): `With*` closures that overwrite
  one field of `InvokerOptions` / `InvokeOptions`.
- The controller (controller.go): wires the invoker to the routing table, fans
  every response out to the subscribers, and refreshes the table from the
  gateway, exiting on the first failure.

Modules:

- `GoStrings` (go_strings.dfy): the parts of Go's `strings` package the builder
  uses, with `Join` as the partner of `Split`.
- `Routing` (topic_map.dfy)
- `LookupBuilder` (function_list_builder.dfy)
- `Options` (invoker_options.dfy)
- `Invocation` (invoker.dfy)
- `Control` (controller.dfy)
- `Wrappers` (wrappers.dfy): `Option` and `Result`.

Go map iteration order is unspecified. Wherever the source ranges over a map,
the model handles it in one of two ways:

- It takes the iteration order as an argument `order`, constrained by
  `IsEnumeration` to list every key exactly once. `MatchedOrderIndependent`
  proves that the matched functions are the same multiset for every such order.
- Or it lets the loop pick keys with `:|`, as `TopicMap.Topics` does.

The HTTP client and the gateway's SDK calls become parameters:

- `Http` is a function from a request to its outcome.
- `Registry` holds the gateway's answer to the namespace query and to each
  function query.

The invoker's unbuffered response channel becomes the sequence `responses`.
The controller's reader goroutine becomes the explicit step `DeliverPending`.

## Model

| member | source | states |
|---|---|---|
| GoStrings.TrimSpace | types/function_list_builder.go:96 | `strings.TrimSpace`: the result is the infix of the key between all-white-space borders; it neither starts nor ends with white space; it is empty exactly when the key is all white space |
| GoStrings.TrimSpaceOfTrimmed | types/function_list_builder.go:96 | a key with no white space at either end is left unchanged by trimming |
| GoStrings.Index | types/function_list_builder.go:78 | `strings.Index`: -1 exactly when the separator occurs nowhere; otherwise the first position where it occurs |
| GoStrings.Contains | types/function_list_builder.go:78 | the `strings.Count(topicNames, topicDelimiter) > 0` test: true exactly when the delimiter occurs somewhere in the annotation |
| GoStrings.Split | types/function_list_builder.go:80 | `strings.Split` yields at least one piece, and the annotation itself as the only piece exactly when the delimiter does not occur |
| GoStrings.JoinSplit | types/function_list_builder.go:80 | joining the pieces of `strings.Split` with the separator gives back the annotation |
| GoStrings.SplitPiecesFree | types/function_list_builder.go:80 | no piece of a split contains the separator |
| GoStrings.SplitPieceFree | types/function_list_builder.go:80 | the piece at any index of a split is free of the separator |
| GoStrings.SplitSeparatorAlone | types/function_list_builder.go:80 | the delimiter alone splits into two empty pieces |
| GoStrings.SplitJoin | types/function_list_builder.go:80 | pieces free of a one-character delimiter, joined and split again, come back unchanged |
| Routing.MatchedConcat | types/topic_map.go:46-50 | the matches over two consecutive key runs are the matches of the first run followed by those of the second |
| Routing.MatchedUnsetIsDefault | types/topic_map.go:41-44 | a map with no matcher matches exactly as one holding `defaultMatchTopic` |
| Routing.MatchedDefaultDistinct | types/topic_map.go:12-14 | with the default matcher and each key visited once, `Match` returns the functions registered under the topic itself, or nothing |
| Routing.MatchedDefault | types/topic_map.go:36-53 | with the default matcher and any enumeration of the keys, `Match` returns `lookup[topic]` when the topic is a key and the empty list otherwise |
| Routing.MatchedOrigin | types/topic_map.go:46-50 | a function is matched if and only if some key the matcher accepts lists it |
| Routing.MatchedSplitAt | types/topic_map.go:46-50 | the matches are those before key `i`, then key `i`'s own contribution, then those after |
| Routing.MatchedWithout | types/topic_map.go:46-50 | removing one key from the visiting order removes exactly that key's contribution from the matched multiset |
| Routing.MatchedOrderIndependent | types/topic_map.go:46-50 | any two visiting orders over the same keys give the same multiset of matched functions, whatever Go's map order is |
| Routing.MatchedKeepsDuplicates | types/topic_map.go:46-50 | a function listed under two accepted keys is returned twice, because `Match` does not deduplicate |
| Routing.DefaultMatchTopic | types/topic_map.go:12-14 | `defaultMatchTopic` accepts exactly when the received topic and the registered key have the same length and agree character by character |
| Routing.TopicMap.constructor | types/topic_map.go:16-28 | `NewTopicMap`: an empty table, and always a matcher, which is the given one or `defaultMatchTopic` when none is given |
| Routing.TopicMap.Literal | types/topic_map.go:30-34 | a `TopicMap` struct literal holds the given table and may leave `matchFunc` unset, which `MatchedUnsetIsDefault` shows matches like `defaultMatchTopic` |
| Routing.TopicMap.Match | types/topic_map.go:36-53 | the loop appends, key by key in the given order, the functions of every key the matcher accepts |
| Routing.TopicMap.Sync | types/topic_map.go:55-60 | the table is replaced by the new one and the matcher is kept |
| Routing.TopicMap.Topics | types/topic_map.go:62-72 | every topic of the table, each exactly once |
| LookupBuilder.AppendServiceMap | types/function_list_builder.go:94-113 | a blank key leaves the table unchanged; otherwise the trimmed key's list gains `function.namespace` at the end, a new key starts a one-element list, and every other key is unchanged |
| LookupBuilder.FunctionPath | types/function_list_builder.go:103-108 | the recorded reference is the function name alone when the namespace is empty, and otherwise the name, a `.` and the namespace |
| LookupBuilder.AppendServiceMapEntries | types/function_list_builder.go:94-113 | under every topic, the list afterwards is the old list plus the function path once if the key trims to that non-empty topic, and nothing otherwise |
| LookupBuilder.TopicKeys | types/function_list_builder.go:78-87 | at least one key; with a non-empty delimiter the keys are exactly the pieces of `strings.Split`, so the `strings.Count` guard changes nothing; with an empty delimiter the whole annotation is the one key; either way the keys joined with the delimiter give back the annotation |
| LookupBuilder.AppendAllExtends | types/function_list_builder.go:82-84 | appending keys only lengthens lists and never removes a topic or a registration |
| LookupBuilder.AppendAllKeys | types/function_list_builder.go:82-84 | the topics afterwards are the old ones plus the trimmed non-blank keys |
| LookupBuilder.AppendAllBlank | types/function_list_builder.go:96-98 | keys that are all white space add nothing |
| LookupBuilder.AppendAllEntries | types/function_list_builder.go:82-84 | under every topic, the keys of one annotation append the function path once per key that trims to that topic, in key order |
| LookupBuilder.AddFunction | types/function_list_builder.go:72-89 | a function without annotations or without a `topic` annotation changes nothing; otherwise no registration is lost and the topics gained are exactly the trimmed non-blank keys of its annotation |
| LookupBuilder.AddFunctionEntries | types/function_list_builder.go:72-89 | under every topic, adding one function appends its path once per annotation key naming that topic and nothing else |
| LookupBuilder.DelimiterAloneAddsNothing | types/function_list_builder.go:78-84 | an annotation that is just the delimiter registers the function under no topic |
| LookupBuilder.ServiceMapAfterExtends | types/function_list_builder.go:69-92 | processing functions never drops an earlier registration |
| LookupBuilder.ServiceMapAfterUnannotated | types/function_list_builder.go:72-76 | functions without a `topic` annotation leave the table unchanged |
| LookupBuilder.ServiceMapAfterKeys | types/function_list_builder.go:69-92 | the topics of the built table are exactly the old topics plus the trimmed non-blank annotation keys of the functions |
| LookupBuilder.ServiceMapAfterEntries | types/function_list_builder.go:69-92 | under every topic, the built table holds the old list followed by each function's path once per annotation key naming that topic, in function order |
| LookupBuilder.ServiceMapAfterRegisters | types/function_list_builder.go:69-92 | every annotated function is registered under every non-blank key of its annotation, trimmed |
| LookupBuilder.BuildServiceMap | types/function_list_builder.go:69-92 | the loop leaves the table that processing the functions in order gives |
| LookupBuilder.QueriedNamespaces | types/function_list_builder.go:43-56 | the configured namespace alone when one is set; otherwise the namespace query's error, or its namespaces, with an empty answer replaced by the one default namespace `""` |
| LookupBuilder.CollectSucceeds | types/function_list_builder.go:58-64 | collecting over the namespaces succeeds if and only if every namespace's function query succeeds |
| LookupBuilder.CollectConcat | types/function_list_builder.go:58-64 | namespaces are processed left to right, each continuing the table of the previous ones, and a failure stops the build |
| LookupBuilder.CollectExtends | types/function_list_builder.go:58-64 | a successful collection only adds to the table it started from |
| LookupBuilder.CollectOne | types/function_list_builder.go:58-64 | one namespace: its function query's error wrapped with the namespace, or the table after its functions |
| LookupBuilder.CollectEntries | types/function_list_builder.go:58-64 | for any namespaces, under every topic a successful collection holds the old list followed by what each namespace's functions register there, namespace by namespace in the order given |
| LookupBuilder.BuildEntries | types/function_list_builder.go:43-66 | under every topic, the table a successful `Build` returns lists the registrations of the queried namespaces in namespace order |
| LookupBuilder.BuildFixedNamespace | types/function_list_builder.go:43-56 | with a namespace configured, the namespace query is never consulted and only that namespace is built |
| LookupBuilder.BuildWithoutNamespaces | types/function_list_builder.go:43-64 | when no namespace is configured and the gateway lists none, `Build` reads the functions of the default namespace `""` only |
| LookupBuilder.BuildFails | types/function_list_builder.go:43-64 | `Build` fails if and only if the namespace query fails while no namespace is configured, or a function query of a queried namespace fails |
| LookupBuilder.Build | types/function_list_builder.go:39-67 | returns no error exactly when the specified build succeeds; on error it returns an empty map and the first error; otherwise the built table |
| LookupBuilder.AppendPlainKey | types/function_list_builder.go:96-109 | a key with no white space at either end is used verbatim |
| LookupBuilder.SingleTopic | types/function_list_builder.go:76-87 | an annotation with one plain topic and no delimiter registers the function under that topic |
| LookupBuilder.AppendThreeFresh | types/function_list_builder.go:82-84 | three distinct plain keys each map to the single path |
| LookupBuilder.OneFunctionThreeTopics | types/function_list_builder.go:78-84 | a function annotated with three distinct topics joined by the delimiter is registered under all three |
| LookupBuilder.BespokeDelimiterYieldsThreeKeys | types/function_list_builder_test.go:201-238 | with delimiter `\|`, the annotation `topic1\|topic2\|topic3,withcomma` yields exactly those three topics |
| LookupBuilder.BuildFollowsNamespaceOrder | types/function_list_builder_test.go:390-467 | for two namespaces with one function each on one topic: with no namespace configured, both functions are registered in namespace order; with the second configured, only its function |
| LookupBuilder.BuildTwoNamespacesExample | types/function_list_builder_test.go:390-467 | `echo.openfaas-fn` and `figlet.namespace2` under `topic1`, or only `figlet.namespace2` when the builder is restricted to `namespace2` |
| Options.ApplyInvoker | types/invoker_options.go:18-39 | every invoker option overwrites its own field with its value and leaves the other two alone |
| Options.ApplyInvoke | types/invoker_options.go:57-78 | every invocation option overwrites its own field with its value and leaves the other two alone |
| Options.InvokerOptionsCommute | types/invoker_options.go:18-39 | invoker options for different fields commute |
| Options.InvokerOptionLaterWins | types/invoker_options.go:18-39 | of two invoker options for the same field, the later one decides |
| Options.InvokeOptionsCommute | types/invoker_options.go:57-78 | invocation options for different fields commute |
| Options.InvokeOptionLaterWins | types/invoker_options.go:57-78 | of two invocation options for the same field, the later one decides |
| Options.ApplyInvokerAllSnoc | types/invoker_options.go:18-39 | applying one more option at the end applies it to the result of the others |
| Options.ApplyInvokeAllSnoc | types/invoker_options.go:57-78 | the same for invocation options |
| Options.InvokerOptionsLastWins | types/invoker_options.go:7-39 | after a list of invoker options, each field holds the value of the last option that sets it, or its previous value |
| Options.InvokeOptionsLastWins | types/invoker_options.go:46-78 | after a list of invocation options, each field holds the value of the last option that sets it, or its previous value |
| Options.Effective | types/invoker_options.go:49-54 | a per-call callback URL or content type that is set overrides the invoker's; the topic comes from the call; the topic flag comes from the invoker |
| Options.EffectiveWithoutCallOptions | types/invoker_options.go:49-54 | with no per-call options the invoker's callback URL and content type apply |
| Invocation.InvokeFunction | types/invoker.go:111-147 | a request that cannot be built or sent gives 503, no body and the error; an unreadable body gives 503 with no error; otherwise the gateway's status, header and body |
| Invocation.FunctionURL | types/invoker.go:73 | the invocation target is the gateway URL, then `/`, then the function reference, with nothing else |
| Invocation.ResponseFor | types/invoker.go:78-93 | an invocation error becomes a response holding only the wrapped error; otherwise body, status, header, function and topic are reported |
| Invocation.DispatchedAt | types/invoker.go:69-94 | exactly one response per matched function, in match order, the `i`-th about the `i`-th function posted at `gatewayURL/function` |
| Invocation.EmptyMessageStillDispatches | types/invoker.go:62-69 | an empty message yields the no-message error first and then still dispatches every matched function |
| Invocation.UnreadableBodyLooksLikeSuccess | types/invoker.go:137-141 | a reply whose body cannot be read is reported as a 503 with no error, under the function's name and topic |
| Invocation.RequestHeaders | types/invoker.go:98-109 | `X-Topic` exactly when the topic is to be sent and is non-empty; `X-Callback-Url` and `Content-Type` exactly when configured; each holds its value; no other header |
| Invocation.GetHeadersAsWritten | types/invoker.go:98-109 | as written, `getHeaders` never succeeds with anything but a nil map |
| Invocation.GetHeadersPanicsWhenHeadersDue | types/invoker.go:98-109 | as written, `getHeaders` panics exactly when some header is due |
| Invocation.GetHeadersAsWrittenCounterexample | types/invoker.go:99-100 | with `SendTopic` set and topic `t`, the code writes into the nil map, where the intended result is `X-Topic: t` |
| Invocation.Invoker.constructor | types/invoker.go:43-53 | `NewInvoker`: the settings as given and no response sent |
| Invocation.Invoker.GetHeaders | types/invoker.go:98-109 | the successive conditional writes produce the intended header map |
| Invocation.Invoker.InvokeWithContext | types/invoker.go:61-95 | appends the no-message error if the message is empty, then one response per function `Match` returns, in order, each from posting the message with the invoker's headers |
| Invocation.Invoker.DispatchAll | types/invoker.go:69-94 | the loop appends exactly the responses `Dispatched` specifies, one per matched function in order |
| Invocation.Invoker.Invoke | types/invoker.go:56-58 | the same effect as `InvokeWithContext` |
| Invocation.EffectiveHeaders | types/invoker_options.go:49-54 | built from the effective settings, the per-call callback URL and content type are the ones sent |
| Invocation.SuccessWithOptions | types/invoker_test.go:75-106 | topic sending on and a per-call topic, callback URL and content type: the request carries exactly those three headers |
| Control.GatewayRoute | types/controller.go:157-162 | `gatewayURL/async-function` for asynchronous invocation, `gatewayURL/function` otherwise |
| Control.InvocationURL | types/controller.go:51-53 | each function is posted at the selected route followed by `/` and its name |
| Control.ControllerInvokerOptions | types/controller.go:53-60 | the option functions `NewController` passes, applied to unset options, give exactly the configured user agent, callback URL and topic flag |
| Control.LookupBuilderFor | types/controller.go:117-121 | the builder `BeginMapBuilder` makes carries the configured gateway URL, topic delimiter and namespace |
| Control.FanOutAt | types/controller.go:82-84 | one delivery per subscriber, in subscription order, each with the response |
| Control.BroadcastLength | types/controller.go:77-87 | every response reaches every subscriber: responses times subscribers deliveries |
| Control.BroadcastConcat | types/controller.go:77-87 | responses are delivered in the order they were sent |
| Control.BroadcastAt | types/controller.go:77-87 | the `i`-th response's fan-out sits between those of earlier and of later responses |
| Control.RefreshTerminates | types/controller.go:131-135 | the refresh loop ends the process if and only if some build fails |
| Control.RefreshKeepsLatest | types/controller.go:131-148 | while every build succeeds, the table is the one built from the latest snapshot |
| Control.RefreshStopsAfterFailure | types/controller.go:133-135 | after a failed build, later ticks change nothing |
| Control.Controller.constructor | types/controller.go:49-90 | the invoker posts at the gateway route with the configured content type, callback URL and topic flag; the table is empty with the configured matcher; the response printer is the only subscriber exactly when responses are printed |
| Control.Controller.Subscribe | types/controller.go:96-100 | the subscriber is appended |
| Control.Controller.Deliver | types/controller.go:81-85 | one response is handed to every subscriber in order |
| Control.Controller.DeliverPending | types/controller.go:77-87 | all pending responses are taken off the channel, in order, and each is handed to every subscriber |
| Control.Controller.Invoke | types/controller.go:104-112 | the controller's invoker invokes the functions its table matches for the topic |
| Control.Controller.SynchronizeLookups | types/controller.go:127-149 | builds at start and at every tick, syncing the table after each success and stopping the process at the first failure |
| Control.Controller.BeginMapBuilder | types/controller.go:116-125 | the refresh loop runs with a builder made from the configured delimiter and namespace |
| Control.Controller.Topics | types/controller.go:153-155 | every topic of the controller's table, each exactly once |

## Left out

- HTTP is an oracle (`Http`): `http.NewRequest`, `Client.Do` and `ioutil.ReadAll` are reduced to their four possible outcomes. Header canonicalisation by `Header.Add` is not modelled.
- Invocation.Dispatched: the `Http` oracle is a function of the request alone, so repeated identical posts are assumed to get the same outcome. This happens when `Match` returns a function twice. Go's `Client.Do` may answer them differently, for example a time-out and then a 200, and `InvokeWithContext` and `Dispatched` do not capture that.
- Request contexts (`context.Context`) and the `Context` field of `InvokerResponse` are dropped; cancellation is not modelled.
- Goroutines, the `sync.RWMutex`, the unbuffered channel and the ticker are sequentialised. The channel is a sequence that `DeliverPending` drains. Each tick is one more `Registry` snapshot, and the unbounded loop is a finite list of ticks.
- The gateway SDK calls (`GetNamespaces`, `GetFunctions`) are the two fields of `Registry`; `url.Parse`, `sdk.NewClient`, `MakeClient` and credentials.go are not part of this model.
- Logging (`log.Printf`, `PrintSync`) and what a `ResponsePrinter` prints are not modelled; a subscriber is only recorded as receiving the response.
- `ControllerConfig`'s `UpstreamTimeout` and `RebuildInterval` durations are dropped.
- Go strings are byte strings; the model uses `seq<char>` for names and `seq<bv8>` for message bodies. `unicode.IsSpace` is given by its list of characters.
- `strings.Count(s, sep) > 0` is modelled as `Contains`, an occurrence test; only the comparison with zero matters to the source.
- `appendServiceMap` mutates the Go map in place and returns it; the model returns the updated map value. That is the same as long as callers use the result, which they do.
- controller.go was written against a newer invoker API than invoker.go holds: `NewInvoker` with a print-request-body flag and option functions, and `InvokeWithTopic` with headers and per-call options. The model wires invoker.go's `NewInvoker` with the values those options carry, as `ControllerInvokerOptions` states. The `UserAgent` and `PrintRequestBody` settings have no field in invoker.go's `Invoker` and are dropped.
- Control.Controller.Invoke: the extra HTTP headers and per-call options of controller.go's `Invoke` are not passed on, because invoker.go's `InvokeWithContext` has no parameters for them. Their precedence is modelled separately by `Options.Effective` and `Invocation.EffectiveHeaders`.
- The tests of the newer invoker API (response `Duration`, `Function` set on errors) are not modelled; they test code outside invoker.go.
- Options.Effective: the precedence comes from the field comments, since no code merges the two records; an empty per-call string counts as unset.
- Invocation.Invoker.GetHeaders models the intended header map, not the nil-map panic; see Findings.
- `NewFunctionLookupBuilder` never sets the builder's `GatewayURL`; the model's `FunctionLookupBuilder` keeps the field, and nothing reads it.
- `InvokeWithContext` does not return after sending the no-message error; the model follows the code and dispatches anyway (`EmptyMessageStillDispatches`). The error response also leaves `Function` and `Topic` empty, as the code does.
- Invocation.Invoker.InvokeWithContext: the message is a byte-sequence value, not a `*[]byte` pointer, so the nil-pointer panic of `len(*message)` is not modelled. The same holds for `Control.Controller.Invoke`, which passes the message on.
- An unreadable response body returns the transport error, which is nil at that point, so the response carries no error (`UnreadableBodyLooksLikeSuccess`); the model follows the code.

## Findings

| source | as written | input that shows it | evidently intended | confidence | as-written member | corrected member |
|---|---|---|---|---|---|---|
| types/invoker.go:98-109 | `getHeaders` assigns into its named result `headers`, which is a nil map, so the first header write panics | invoker with `SendTopic` true and topic `t` (or any configured callback URL or content type) | start from an empty map and return the configured headers | not executed | Invocation.GetHeadersAsWritten, Invocation.GetHeadersAsWrittenCounterexample | Invocation.Invoker.GetHeaders |
