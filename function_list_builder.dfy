/**
 * The lookup builder: turns the `topic` annotations of the functions deployed on
 * the gateway into the topic -> function-reference table the router uses.
 *
 * The OpenFaaS SDK calls `GetNamespaces` and `GetFunctions` are inputs here: a
 * `Registry` value holds what they answer.
 */
module LookupBuilder {
  import opened Wrappers
  import opened GoStrings
  import opened Routing

  /** The fields of faas-provider's `FunctionStatus` that the builder reads; nil annotations are `None`. */
  datatype FunctionStatus = FunctionStatus(name: string, annotations: Option<map<string, string>>)

  /** The annotation that lists the topics a function subscribes to. */
  const TopicAnnotation := "topic"

  /** The reference `appendServiceMap` records: `fn.namespace`, or `function` without a namespace. */
  function FunctionPath(functionName: string, namespace: string): (path: string)
    ensures |namespace| == 0 ==> path == functionName
    ensures |namespace| > 0 ==>
      && |path| == |functionName| + 1 + |namespace|
      && path[..|functionName|] == functionName
      && path[|functionName|] == '.'
      && path[|functionName| + 1..] == namespace
  {
    if |namespace| > 0 then functionName + "." + namespace else functionName
  }

  /** The list stored under `k`, or the empty list where Go would read a nil slice. */
  function Entries(sm: Lookup, k: string): seq<string> {
    if k in sm then sm[k] else []
  }

  /**
   * Go's `appendServiceMap`: the trimmed key gains `fn.namespace` at the end of
   * its list; a key that is empty after trimming changes nothing.
   */
  function AppendServiceMap(key: string, functionName: string, namespace: string, sm: Lookup): (r: Lookup)
    ensures AllSpace(key) ==> r == sm
    ensures !AllSpace(key) ==>
      var k := TrimSpace(key);
      && r.Keys == sm.Keys + {k}
      && r[k] == (if k in sm then sm[k] else []) + [FunctionPath(functionName, namespace)]
      && forall other :: other in sm && other != k ==> r[other] == sm[other]
  {
    var key := TrimSpace(key);
    if |key| > 0 then
      sm[key := (if key in sm then sm[key] else []) + [FunctionPath(functionName, namespace)]]
    else
      sm
  }

  /**
   * The keys `buildServiceMap` reads off a `topic` annotation: its pieces around the
   * delimiter when the delimiter is non-empty and occurs in it, else the whole value.
   * The occurrence test changes nothing: with a non-empty delimiter the keys are
   * always the pieces of `strings.Split`, and they join back into the annotation.
   */
  function TopicKeys(topicNames: string, topicDelimiter: string): (keys: seq<string>)
    ensures |keys| >= 1
    ensures Join(keys, topicDelimiter) == topicNames
    ensures |topicDelimiter| > 0 ==> keys == Split(topicNames, topicDelimiter)
    ensures |topicDelimiter| == 0 ==> keys == [topicNames]
  {
    if |topicDelimiter| > 0 && Contains(topicNames, topicDelimiter) then
      JoinSplit(topicNames, topicDelimiter);
      Split(topicNames, topicDelimiter)
    else
      [topicNames]
  }

  /** `appendServiceMap` applied to each key in turn. */
  function AppendAll(keys: seq<string>, functionName: string, namespace: string, sm: Lookup): Lookup
  {
    if keys == [] then sm else AppendAll(keys[1..], functionName, namespace, AppendServiceMap(keys[0], functionName, namespace, sm))
  }

  /** Whether a function carries a `topic` annotation at all. */
  predicate HasTopic(f: FunctionStatus) {
    f.annotations.Some? && TopicAnnotation in f.annotations.value
  }

  /** The keys of the `topic` annotation of `f`. */
  function TopicsOf(f: FunctionStatus, topicDelimiter: string): seq<string>
    requires HasTopic(f)
  {
    TopicKeys(f.annotations.value[TopicAnnotation], topicDelimiter)
  }

  /** One copy of `path` for every piece of `keys` that trims to the topic `k`, in piece order. */
  function PiecePaths(keys: seq<string>, path: string, k: string): seq<string> {
    if keys == [] then []
    else (if k != [] && TrimSpace(keys[0]) == k then [path] else []) + PiecePaths(keys[1..], path, k)
  }

  /** What `f` is registered with under the topic `k`: once per annotation piece naming `k`. */
  function FunctionEntries(f: FunctionStatus, topicDelimiter: string, namespace: string, k: string): seq<string> {
    if HasTopic(f) then PiecePaths(TopicsOf(f, topicDelimiter), FunctionPath(f.name, namespace), k) else []
  }

  /** What a list of functions is registered with under the topic `k`, function by function. */
  function RegisteredUnder(functions: seq<FunctionStatus>, topicDelimiter: string, namespace: string, k: string): seq<string> {
    if functions == [] then []
    else FunctionEntries(functions[0], topicDelimiter, namespace, k) + RegisteredUnder(functions[1..], topicDelimiter, namespace, k)
  }

  /** `appendServiceMap` adds the path under the trimmed key, once, and under no other topic. */
  lemma AppendServiceMapEntries(key: string, functionName: string, namespace: string, sm: Lookup, k: string)
    ensures Entries(AppendServiceMap(key, functionName, namespace, sm), k)
         == Entries(sm, k) + (if k != [] && TrimSpace(key) == k then [FunctionPath(functionName, namespace)] else [])
  {
  }

  /** Appending a list of keys adds, under each topic, the path once per piece naming that topic. */
  lemma {:induction false} AppendAllEntries(keys: seq<string>, functionName: string, namespace: string, sm: Lookup, k: string)
    ensures Entries(AppendAll(keys, functionName, namespace, sm), k)
         == Entries(sm, k) + PiecePaths(keys, FunctionPath(functionName, namespace), k)
  {
    if keys != [] {
      var path := FunctionPath(functionName, namespace);
      var next := AppendServiceMap(keys[0], functionName, namespace, sm);
      var first := if k != [] && TrimSpace(keys[0]) == k then [path] else [];
      var rest := PiecePaths(keys[1..], path, k);
      var after := AppendAll(keys[1..], functionName, namespace, next);
      AppendServiceMapEntries(keys[0], functionName, namespace, sm, k);
      AppendAllEntries(keys[1..], functionName, namespace, next, k);
      assert AppendAll(keys, functionName, namespace, sm) == after;
      assert PiecePaths(keys, path, k) == first + rest;
      AppendStep(Entries(sm, k), Entries(next, k), Entries(after, k), first, rest);
    }
  }

  /** What one function adds to the table: nothing without a `topic` annotation. */
  function AddFunction(f: FunctionStatus, topicDelimiter: string, namespace: string, sm: Lookup): (r: Lookup)
    ensures !HasTopic(f) ==> r == sm
    ensures Extends(r, sm)
    ensures r.Keys == sm.Keys + (if HasTopic(f) then AddedKeys(TopicsOf(f, topicDelimiter)) else {})
  {
    if HasTopic(f) then
      var keys := TopicsOf(f, topicDelimiter);
      AppendAllExtends(keys, f.name, namespace, sm);
      AppendAllKeys(keys, f.name, namespace, sm);
      AppendAll(keys, f.name, namespace, sm)
    else
      sm
  }

  /** Under the topic `k`, adding `f` appends the path of `f` once per annotation piece naming `k`. */
  lemma AddFunctionEntries(f: FunctionStatus, topicDelimiter: string, namespace: string, sm: Lookup, k: string)
    ensures Entries(AddFunction(f, topicDelimiter, namespace, sm), k)
         == Entries(sm, k) + FunctionEntries(f, topicDelimiter, namespace, k)
  {
    if HasTopic(f) {
      AppendAllEntries(TopicsOf(f, topicDelimiter), f.name, namespace, sm, k);
    }
  }

  /** The table `buildServiceMap` returns: `sm` with every function of `functions` added in turn. */
  function ServiceMapAfter(functions: seq<FunctionStatus>, topicDelimiter: string, namespace: string, sm: Lookup): Lookup
  {
    if functions == [] then sm
    else ServiceMapAfter(functions[1..], topicDelimiter, namespace, AddFunction(functions[0], topicDelimiter, namespace, sm))
  }

  /** `sm` extends `base`: no key is lost and every list keeps its entries, in order, at its front. */
  ghost predicate Extends(sm: Lookup, base: Lookup) {
    forall k :: k in base ==> k in sm && base[k] <= sm[k]
  }

  /** The keys a list of annotation pieces adds: the non-blank ones, trimmed. */
  ghost function AddedKeys(keys: seq<string>): set<string> {
    if keys == [] then {}
    else (if AllSpace(keys[0]) then {} else {TrimSpace(keys[0])}) + AddedKeys(keys[1..])
  }

  /** Appending a list of keys keeps every existing entry, in order, at the front of its list. */
  lemma {:induction false} AppendAllExtends(keys: seq<string>, functionName: string, namespace: string, sm: Lookup)
    ensures Extends(AppendAll(keys, functionName, namespace, sm), sm)
  {
    if keys != [] {
      var next := AppendServiceMap(keys[0], functionName, namespace, sm);
      AppendAllExtends(keys[1..], functionName, namespace, next);
    }
  }

  /** Appending a list of keys adds exactly its non-blank pieces, trimmed, as keys. */
  lemma {:induction false} AppendAllKeys(keys: seq<string>, functionName: string, namespace: string, sm: Lookup)
    ensures AppendAll(keys, functionName, namespace, sm).Keys == sm.Keys + AddedKeys(keys)
  {
    if keys != [] {
      var next := AppendServiceMap(keys[0], functionName, namespace, sm);
      AppendAllKeys(keys[1..], functionName, namespace, next);
    }
  }

  /** Pieces that are all blank leave the table as it was. */
  lemma {:induction false} AppendAllBlank(keys: seq<string>, functionName: string, namespace: string, sm: Lookup)
    requires forall p :: p in keys ==> AllSpace(p)
    ensures AppendAll(keys, functionName, namespace, sm) == sm
  {
    if keys != [] {
      assert keys[0] in keys;
      AppendAllBlank(keys[1..], functionName, namespace, sm);
    }
  }

  /** An annotation that is just the delimiter adds no key. */
  lemma DelimiterAloneAddsNothing(name: string, topicDelimiter: string, namespace: string, sm: Lookup)
    requires |topicDelimiter| > 0
    ensures AddFunction(FunctionStatus(name, Some(map[TopicAnnotation := topicDelimiter])), topicDelimiter, namespace, sm) == sm
  {
    SplitSeparatorAlone(topicDelimiter);
    AppendAllBlank(["", ""], name, namespace, sm);
  }

  /** Building keeps every entry already in the table. */
  lemma {:induction false} ServiceMapAfterExtends(functions: seq<FunctionStatus>, topicDelimiter: string, namespace: string, sm: Lookup)
    ensures Extends(ServiceMapAfter(functions, topicDelimiter, namespace, sm), sm)
  {
    if functions != [] {
      var next := AddFunction(functions[0], topicDelimiter, namespace, sm);
      if HasTopic(functions[0]) {
        AppendAllExtends(TopicKeys(functions[0].annotations.value[TopicAnnotation], topicDelimiter), functions[0].name, namespace, sm);
      }
      ServiceMapAfterExtends(functions[1..], topicDelimiter, namespace, next);
    }
  }

  /** Functions with nil annotations or without a `topic` annotation contribute nothing. */
  lemma {:induction false} ServiceMapAfterUnannotated(functions: seq<FunctionStatus>, topicDelimiter: string, namespace: string, sm: Lookup)
    requires forall f :: f in functions ==> !HasTopic(f)
    ensures ServiceMapAfter(functions, topicDelimiter, namespace, sm) == sm
  {
    if functions != [] {
      assert functions[0] in functions;
      ServiceMapAfterUnannotated(functions[1..], topicDelimiter, namespace, sm);
    }
  }

  /** The topics a list of functions adds: the trimmed non-blank pieces of every `topic` annotation. */
  ghost function AnnotatedTopics(functions: seq<FunctionStatus>, topicDelimiter: string): set<string> {
    if functions == [] then {}
    else
      (if HasTopic(functions[0]) then AddedKeys(TopicsOf(functions[0], topicDelimiter)) else {})
        + AnnotatedTopics(functions[1..], topicDelimiter)
  }

  /** Appending `first` and then `rest` appends `first + rest`. */
  lemma AppendStep(before: seq<string>, middle: seq<string>, after: seq<string>, first: seq<string>, rest: seq<string>)
    requires middle == before + first && after == middle + rest
    ensures after == before + (first + rest)
  {
  }

  /** The topics of the built table are the old ones plus every trimmed non-blank annotation piece, and nothing else. */
  lemma {:induction false} ServiceMapAfterKeys(functions: seq<FunctionStatus>, topicDelimiter: string, namespace: string, sm: Lookup)
    ensures ServiceMapAfter(functions, topicDelimiter, namespace, sm).Keys == sm.Keys + AnnotatedTopics(functions, topicDelimiter)
  {
    if functions != [] {
      ServiceMapAfterKeys(functions[1..], topicDelimiter, namespace, AddFunction(functions[0], topicDelimiter, namespace, sm));
    }
  }

  /**
   * Under every topic the built table holds the old list, followed by the path of
   * each function once per annotation piece naming that topic, in function order.
   */
  lemma {:induction false} ServiceMapAfterEntries(functions: seq<FunctionStatus>, topicDelimiter: string, namespace: string, sm: Lookup, k: string)
    ensures Entries(ServiceMapAfter(functions, topicDelimiter, namespace, sm), k)
         == Entries(sm, k) + RegisteredUnder(functions, topicDelimiter, namespace, k)
  {
    if functions != [] {
      var next := AddFunction(functions[0], topicDelimiter, namespace, sm);
      var first := FunctionEntries(functions[0], topicDelimiter, namespace, k);
      var rest := RegisteredUnder(functions[1..], topicDelimiter, namespace, k);
      var after := ServiceMapAfter(functions[1..], topicDelimiter, namespace, next);
      ServiceMapAfterEntries(functions[1..], topicDelimiter, namespace, next, k);
      AddFunctionEntries(functions[0], topicDelimiter, namespace, sm, k);
      assert ServiceMapAfter(functions, topicDelimiter, namespace, sm) == after;
      assert RegisteredUnder(functions, topicDelimiter, namespace, k) == first + rest;
      AppendStep(Entries(sm, k), Entries(next, k), Entries(after, k), first, rest);
    }
  }

  /** A piece that is not blank puts the path under its trimmed form. */
  lemma {:induction false} PiecePathsHas(keys: seq<string>, path: string, j: nat)
    requires j < |keys| && TrimSpace(keys[j]) != []
    ensures path in PiecePaths(keys, path, TrimSpace(keys[j]))
  {
    var k := TrimSpace(keys[j]);
    var first := if TrimSpace(keys[0]) == k then [path] else [];
    assert PiecePaths(keys, path, k) == first + PiecePaths(keys[1..], path, k);
    if j > 0 {
      assert keys[1..][j - 1] == keys[j];
      PiecePathsHas(keys[1..], path, j - 1);
    } else {
      assert first == [path];
    }
  }

  /** Whatever one function of the list is registered with, the list is registered with. */
  lemma {:induction false} RegisteredUnderHas(functions: seq<FunctionStatus>, topicDelimiter: string, namespace: string, k: string, i: nat, x: string)
    requires i < |functions| && x in FunctionEntries(functions[i], topicDelimiter, namespace, k)
    ensures x in RegisteredUnder(functions, topicDelimiter, namespace, k)
  {
    if i > 0 {
      assert functions[1..][i - 1] == functions[i];
      RegisteredUnderHas(functions[1..], topicDelimiter, namespace, k, i - 1, x);
    }
  }

  /** Every annotated function ends up under every non-blank piece of its annotation, trimmed. */
  lemma ServiceMapAfterRegisters(functions: seq<FunctionStatus>, topicDelimiter: string, namespace: string, sm: Lookup, i: nat, j: nat)
    requires i < |functions| && HasTopic(functions[i])
    requires j < |TopicsOf(functions[i], topicDelimiter)| && !AllSpace(TopicsOf(functions[i], topicDelimiter)[j])
    ensures var k := TrimSpace(TopicsOf(functions[i], topicDelimiter)[j]);
      var r := ServiceMapAfter(functions, topicDelimiter, namespace, sm);
      k in r && FunctionPath(functions[i].name, namespace) in r[k]
  {
    var keys := TopicsOf(functions[i], topicDelimiter);
    var k := TrimSpace(keys[j]);
    var path := FunctionPath(functions[i].name, namespace);
    PiecePathsHas(keys, path, j);
    RegisteredUnderHas(functions, topicDelimiter, namespace, k, i, path);
    ServiceMapAfterEntries(functions, topicDelimiter, namespace, sm, k);
  }

  /** Go's `buildServiceMap`: loops over the functions and over the keys of each `topic` annotation. */
  method BuildServiceMap(functions: seq<FunctionStatus>, topicDelimiter: string, namespace: string, serviceMap: Lookup)
    returns (result: Lookup)
    ensures result == ServiceMapAfter(functions, topicDelimiter, namespace, serviceMap)
  {
    result := serviceMap;
    for i := 0 to |functions|
      invariant ServiceMapAfter(functions, topicDelimiter, namespace, serviceMap)
             == ServiceMapAfter(functions[i..], topicDelimiter, namespace, result)
    {
      var fn := functions[i];
      assert functions[i..][1..] == functions[i + 1..];
      ghost var before := result;
      if fn.annotations.Some? {
        var annotations := fn.annotations.value;
        if TopicAnnotation in annotations {
          var topicNames := annotations[TopicAnnotation];
          var topicSlice := TopicKeys(topicNames, topicDelimiter);
          for j := 0 to |topicSlice|
            invariant AppendAll(topicSlice, fn.name, namespace, before)
                   == AppendAll(topicSlice[j..], fn.name, namespace, result)
          {
            assert topicSlice[j..][1..] == topicSlice[j + 1..];
            result := AppendServiceMap(topicSlice[j], fn.name, namespace, result);
          }
          assert topicSlice[|topicSlice|..] == [];
        }
      }
    }
    assert functions[|functions|..] == [];
  }

  /** `FunctionLookupBuilder`: the settings `Build` reads. */
  datatype FunctionLookupBuilder = FunctionLookupBuilder(gatewayURL: string, topicDelimiter: string, namespace: string)

  /** What the gateway answers to `GetNamespaces` and, per namespace, to `GetFunctions`. */
  datatype Registry = Registry(
    namespaces: Result<seq<string>, string>,
    functions: string -> Result<seq<FunctionStatus>, string>)

  /** The errors `Build` returns: the SDK's, the second wrapped with the namespace it concerns. */
  datatype BuildError = NamespacesUnavailable(cause: string) | FunctionsUnavailable(namespace: string, cause: string)

  /** The namespaces `Build` queries: the configured one, else the enumerated ones, else the default `""`. */
  function QueriedNamespaces(b: FunctionLookupBuilder, registry: Registry): (r: Result<seq<string>, BuildError>)
    ensures b.namespace != "" ==> r == Success([b.namespace])
    ensures b.namespace == "" && registry.namespaces.Failure? ==> r == Failure(NamespacesUnavailable(registry.namespaces.error))
    ensures b.namespace == "" && registry.namespaces == Success([]) ==> r == Success([""])
    ensures b.namespace == "" && registry.namespaces.Success? && registry.namespaces.value != [] ==> r == Success(registry.namespaces.value)
    ensures r.Success? ==> |r.value| >= 1
  {
    if b.namespace == "" then
      match registry.namespaces
      case Failure(e) => Failure(NamespacesUnavailable(e))
      case Success(nss) => Success(if |nss| == 0 then [""] else nss)
    else
      Success([b.namespace])
  }

  /** The table after adding the functions of each namespace in turn; the first failing lookup is the error. */
  function Collect(namespaces: seq<string>, topicDelimiter: string, getFunctions: string -> Result<seq<FunctionStatus>, string>, sm: Lookup)
    : Result<Lookup, BuildError>
  {
    if namespaces == [] then Success(sm)
    else
      match getFunctions(namespaces[0])
      case Failure(e) => Failure(FunctionsUnavailable(namespaces[0], e))
      case Success(functions) =>
        Collect(namespaces[1..], topicDelimiter, getFunctions, ServiceMapAfter(functions, topicDelimiter, namespaces[0], sm))
  }

  /** What `Build` computes. */
  function Built(b: FunctionLookupBuilder, registry: Registry): Result<Lookup, BuildError>
  {
    match QueriedNamespaces(b, registry)
    case Failure(e) => Failure(e)
    case Success(namespaces) => Collect(namespaces, b.topicDelimiter, registry.functions, map[])
  }

  /** Collecting succeeds exactly when every namespace's function lookup does. */
  lemma {:induction false} CollectSucceeds(namespaces: seq<string>, topicDelimiter: string, getFunctions: string -> Result<seq<FunctionStatus>, string>, sm: Lookup)
    ensures Collect(namespaces, topicDelimiter, getFunctions, sm).Success?
        <==> forall i :: 0 <= i < |namespaces| ==> getFunctions(namespaces[i]).Success?
  {
    if namespaces != [] {
      var r := getFunctions(namespaces[0]);
      if r.Success? {
        CollectSucceeds(namespaces[1..], topicDelimiter, getFunctions, ServiceMapAfter(r.value, topicDelimiter, namespaces[0], sm));
        forall i | 1 <= i < |namespaces| ensures namespaces[i] == namespaces[1..][i - 1] { }
      }
    }
  }

  /** Namespaces are processed in order: collecting `a + b` collects `a`, then `b` on top of it. */
  lemma {:induction false} CollectConcat(a: seq<string>, b: seq<string>, topicDelimiter: string, getFunctions: string -> Result<seq<FunctionStatus>, string>, sm: Lookup)
    ensures Collect(a + b, topicDelimiter, getFunctions, sm)
         == match Collect(a, topicDelimiter, getFunctions, sm)
            case Failure(e) => Failure(e)
            case Success(m) => Collect(b, topicDelimiter, getFunctions, m)
  {
    if a == [] {
      assert a + b == b;
    } else {
      assert (a + b)[0] == a[0] && (a + b)[1..] == a[1..] + b;
      var r := getFunctions(a[0]);
      if r.Success? {
        CollectConcat(a[1..], b, topicDelimiter, getFunctions, ServiceMapAfter(r.value, topicDelimiter, a[0], sm));
      }
    }
  }

  /** Successful collecting keeps every entry already in the table. */
  lemma {:induction false} CollectExtends(namespaces: seq<string>, topicDelimiter: string, getFunctions: string -> Result<seq<FunctionStatus>, string>, sm: Lookup)
    requires Collect(namespaces, topicDelimiter, getFunctions, sm).Success?
    ensures Extends(Collect(namespaces, topicDelimiter, getFunctions, sm).value, sm)
  {
    if namespaces != [] {
      var r := getFunctions(namespaces[0]);
      var next := ServiceMapAfter(r.value, topicDelimiter, namespaces[0], sm);
      ServiceMapAfterExtends(r.value, topicDelimiter, namespaces[0], sm);
      CollectExtends(namespaces[1..], topicDelimiter, getFunctions, next);
    }
  }

  /**
   * What collecting over `namespaces` registers under the topic `k`: namespace by
   * namespace, what its functions register there; nothing from a failed lookup on.
   */
  function CollectedUnder(namespaces: seq<string>, topicDelimiter: string, getFunctions: string -> Result<seq<FunctionStatus>, string>, k: string)
    : seq<string>
  {
    if namespaces == [] then []
    else
      match getFunctions(namespaces[0])
      case Failure(_) => []
      case Success(functions) =>
        RegisteredUnder(functions, topicDelimiter, namespaces[0], k) + CollectedUnder(namespaces[1..], topicDelimiter, getFunctions, k)
  }

  /** Under every topic a successful collection appends, in namespace order, what each namespace's functions register. */
  lemma {:induction false} CollectEntries(namespaces: seq<string>, topicDelimiter: string, getFunctions: string -> Result<seq<FunctionStatus>, string>, sm: Lookup, k: string)
    requires Collect(namespaces, topicDelimiter, getFunctions, sm).Success?
    ensures Entries(Collect(namespaces, topicDelimiter, getFunctions, sm).value, k)
         == Entries(sm, k) + CollectedUnder(namespaces, topicDelimiter, getFunctions, k)
  {
    if namespaces != [] {
      var ns := namespaces[0];
      var functions := getFunctions(ns).value;
      var next := ServiceMapAfter(functions, topicDelimiter, ns, sm);
      var first := RegisteredUnder(functions, topicDelimiter, ns, k);
      var rest := CollectedUnder(namespaces[1..], topicDelimiter, getFunctions, k);
      var after := Collect(namespaces[1..], topicDelimiter, getFunctions, next);
      ServiceMapAfterEntries(functions, topicDelimiter, ns, sm, k);
      CollectEntries(namespaces[1..], topicDelimiter, getFunctions, next, k);
      assert Collect(namespaces, topicDelimiter, getFunctions, sm) == after;
      assert CollectedUnder(namespaces, topicDelimiter, getFunctions, k) == first + rest;
      AppendStep(Entries(sm, k), Entries(next, k), Entries(after.value, k), first, rest);
    }
  }

  /** The list `Build` returns under any topic: the queried namespaces' registrations, in namespace order. */
  lemma BuildEntries(b: FunctionLookupBuilder, registry: Registry, k: string)
    requires Built(b, registry).Success?
    ensures QueriedNamespaces(b, registry).Success?
    ensures Entries(Built(b, registry).value, k)
         == CollectedUnder(QueriedNamespaces(b, registry).value, b.topicDelimiter, registry.functions, k)
  {
    var namespaces := QueriedNamespaces(b, registry).value;
    CollectEntries(namespaces, b.topicDelimiter, registry.functions, map[], k);
  }

  /** Collecting over a single namespace is building its functions' table, or its lookup error. */
  lemma CollectOne(namespace: string, topicDelimiter: string, getFunctions: string -> Result<seq<FunctionStatus>, string>, sm: Lookup)
    ensures getFunctions(namespace).Failure? ==>
      Collect([namespace], topicDelimiter, getFunctions, sm) == Failure(FunctionsUnavailable(namespace, getFunctions(namespace).error))
    ensures getFunctions(namespace).Success? ==>
      Collect([namespace], topicDelimiter, getFunctions, sm) == Success(ServiceMapAfter(getFunctions(namespace).value, topicDelimiter, namespace, sm))
  {
    assert [namespace][1..] == [];
  }

  /**
   * With a namespace configured, `Build` asks only about that namespace: what the
   * namespace enumeration would answer makes no difference.
   */
  lemma BuildFixedNamespace(b: FunctionLookupBuilder, registry: Registry, enumerated: Result<seq<string>, string>)
    requires b.namespace != ""
    ensures Built(b, registry) == Built(b, registry.(namespaces := enumerated))
    ensures registry.functions(b.namespace).Failure? ==>
      Built(b, registry) == Failure(FunctionsUnavailable(b.namespace, registry.functions(b.namespace).error))
    ensures registry.functions(b.namespace).Success? ==>
      Built(b, registry) == Success(ServiceMapAfter(registry.functions(b.namespace).value, b.topicDelimiter, b.namespace, map[]))
  {
    CollectOne(b.namespace, b.topicDelimiter, registry.functions, map[]);
  }

  /** When the gateway lists no namespace at all, `Build` reads the functions of the default namespace `""`. */
  lemma BuildWithoutNamespaces(b: FunctionLookupBuilder, registry: Registry)
    requires b.namespace == "" && registry.namespaces == Success([])
    ensures registry.functions("").Failure? ==>
      Built(b, registry) == Failure(FunctionsUnavailable("", registry.functions("").error))
    ensures registry.functions("").Success? ==>
      Built(b, registry) == Success(ServiceMapAfter(registry.functions("").value, b.topicDelimiter, "", map[]))
  {
    CollectOne("", b.topicDelimiter, registry.functions, map[]);
  }

  /** Any failed namespace or function lookup makes `Build` fail; otherwise it succeeds. */
  lemma BuildFails(b: FunctionLookupBuilder, registry: Registry)
    ensures Built(b, registry).Failure?
        <==> || (b.namespace == "" && registry.namespaces.Failure?)
             || (exists ns :: ns in QueriedNamespaces(b, registry).value && registry.functions(ns).Failure?)
  {
    var q := QueriedNamespaces(b, registry);
    if q.Success? {
      CollectSucceeds(q.value, b.topicDelimiter, registry.functions, map[]);
      if exists ns :: ns in q.value && registry.functions(ns).Failure? {
        var ns :| ns in q.value && registry.functions(ns).Failure?;
        var i :| 0 <= i < |q.value| && q.value[i] == ns;
      }
    }
  }

  /** Go's `FunctionLookupBuilder.Build`; on an error the table returned is empty. */
  method Build(b: FunctionLookupBuilder, registry: Registry) returns (serviceMap: Lookup, err: Option<BuildError>)
    ensures err.None? <==> Built(b, registry).Success?
    ensures err.Some? ==> serviceMap == map[] && err.value == Built(b, registry).error
    ensures err.None? ==> serviceMap == Built(b, registry).value
  {
    var namespaces: seq<string>;
    if b.namespace == "" {
      match registry.namespaces {
        case Failure(e) =>
          return map[], Some(NamespacesUnavailable(e));
        case Success(nss) =>
          namespaces := nss;
      }
    } else {
      namespaces := [b.namespace];
    }
    serviceMap := map[];
    if |namespaces| == 0 {
      namespaces := [""];
    }
    assert QueriedNamespaces(b, registry) == Success(namespaces);
    for i := 0 to |namespaces|
      invariant Built(b, registry) == Collect(namespaces[i..], b.topicDelimiter, registry.functions, serviceMap)
    {
      var namespace := namespaces[i];
      assert namespaces[i..][1..] == namespaces[i + 1..];
      match registry.functions(namespace) {
        case Failure(e) =>
          return map[], Some(FunctionsUnavailable(namespace, e));
        case Success(functions) =>
          serviceMap := BuildServiceMap(functions, b.topicDelimiter, namespace, serviceMap);
      }
    }
    assert namespaces[|namespaces|..] == [];
    err := None;
  }

  /** A key that is neither empty nor surrounded by white space. */
  predicate PlainKey(key: string) {
    key != [] && Unpadded(key)
  }

  /** A key without surrounding white space is recorded as it is. */
  lemma AppendPlainKey(key: string, functionName: string, namespace: string, sm: Lookup)
    requires PlainKey(key)
    ensures AppendServiceMap(key, functionName, namespace, sm)
         == sm[key := (if key in sm then sm[key] else []) + [FunctionPath(functionName, namespace)]]
  {
    TrimSpaceOfTrimmed(key);
  }

  /** A single key without surrounding white space and without the delimiter is recorded as it is. */
  lemma SingleTopic(name: string, topic: string, topicDelimiter: char, namespace: string, sm: Lookup)
    requires PlainKey(topic)
    requires forall k :: 0 <= k < |topic| ==> topic[k] != topicDelimiter
    ensures AddFunction(FunctionStatus(name, Some(map[TopicAnnotation := topic])), [topicDelimiter], namespace, sm)
         == sm[topic := (if topic in sm then sm[topic] else []) + [FunctionPath(name, namespace)]]
  {
    AbsentCharNotContained(topic, topicDelimiter);
    assert TopicKeys(topic, [topicDelimiter]) == [topic];
    var f := FunctionStatus(name, Some(map[TopicAnnotation := topic]));
    assert HasTopic(f) && f.annotations.value[TopicAnnotation] == topic;
    AppendPlainKey(topic, name, namespace, sm);
    assert [topic][1..] == [];
    assert AppendAll([topic], name, namespace, sm) == AppendAll([], name, namespace, AppendServiceMap(topic, name, namespace, sm));
  }

  /** Appending a plain key first records it as it is, then appends the remaining keys. */
  lemma AppendAllPlainFirst(key: string, rest: seq<string>, functionName: string, namespace: string, sm: Lookup)
    requires PlainKey(key)
    ensures AppendAll([key] + rest, functionName, namespace, sm)
         == AppendAll(rest, functionName, namespace, sm[key := (if key in sm then sm[key] else []) + [FunctionPath(functionName, namespace)]])
  {
    AppendPlainKey(key, functionName, namespace, sm);
    assert ([key] + rest)[1..] == rest;
  }

  /** A plain key new to the table starts a one-element list. */
  lemma AppendAllFreshFirst(key: string, rest: seq<string>, functionName: string, namespace: string, sm: Lookup)
    requires PlainKey(key) && key !in sm
    ensures AppendAll([key] + rest, functionName, namespace, sm)
         == AppendAll(rest, functionName, namespace, sm[key := [FunctionPath(functionName, namespace)]])
  {
    AppendAllPlainFirst(key, rest, functionName, namespace, sm);
    assert [] + [FunctionPath(functionName, namespace)] == [FunctionPath(functionName, namespace)];
  }

  /** Three distinct plain keys new to an empty table each get a one-element list. */
  lemma AppendThreeFresh(k1: string, k2: string, k3: string, functionName: string, namespace: string)
    requires PlainKey(k1) && PlainKey(k2) && PlainKey(k3)
    requires k1 != k2 && k1 != k3 && k2 != k3
    ensures var path := [FunctionPath(functionName, namespace)];
      AppendAll([k1, k2, k3], functionName, namespace, map[]) == map[k1 := path, k2 := path, k3 := path]
  {
    var path := [FunctionPath(functionName, namespace)];
    assert [k1, k2, k3] == [k1] + [k2, k3] && [k2, k3] == [k2] + [k3] && [k3] == [k3] + [];
    AppendAllFreshFirst(k1, [k2, k3], functionName, namespace, map[]);
    AppendAllFreshFirst(k2, [k3], functionName, namespace, map[k1 := path]);
    AppendAllFreshFirst(k3, [], functionName, namespace, map[k1 := path, k2 := path]);
  }

  /** The keys of an annotation that joins delimiter-free pieces are those pieces. */
  lemma JoinedKeys(parts: seq<string>, topicDelimiter: char)
    requires |parts| >= 1
    requires forall part :: part in parts ==> forall k :: 0 <= k < |part| ==> part[k] != topicDelimiter
    ensures TopicKeys(Join(parts, [topicDelimiter]), [topicDelimiter]) == parts
  {
    SplitJoin(parts, topicDelimiter);
  }

  /** A function whose annotation joins three distinct plain keys with the delimiter is recorded under each of them. */
  lemma OneFunctionThreeTopics(name: string, topicDelimiter: char, namespace: string, k1: string, k2: string, k3: string)
    requires PlainKey(k1) && PlainKey(k2) && PlainKey(k3)
    requires k1 != k2 && k1 != k3 && k2 != k3
    requires forall part :: part in [k1, k2, k3] ==> forall k :: 0 <= k < |part| ==> part[k] != topicDelimiter
    ensures var path := [FunctionPath(name, namespace)];
      ServiceMapAfter([FunctionStatus(name, Some(map[TopicAnnotation := Join([k1, k2, k3], [topicDelimiter])]))], [topicDelimiter], namespace, map[])
      == map[k1 := path, k2 := path, k3 := path]
  {
    var topics := Join([k1, k2, k3], [topicDelimiter]);
    var f := FunctionStatus(name, Some(map[TopicAnnotation := topics]));
    JoinedKeys([k1, k2, k3], topicDelimiter);
    assert HasTopic(f) && f.annotations.value[TopicAnnotation] == topics;
    AppendThreeFresh(k1, k2, k3, name, namespace);
    assert [f][1..] == [];
    assert ServiceMapAfter([f], [topicDelimiter], namespace, map[]) == AddFunction(f, [topicDelimiter], namespace, map[]);
  }

  /** The annotation of the bespoke-delimiter test is its three keys joined with `|`. */
  lemma BespokeAnnotation()
    ensures Join(["topic1", "topic2", "topic3,withcomma"], "|") == "topic1|topic2|topic3,withcomma"
  {
    var k1, k2, k3 := "topic1", "topic2", "topic3,withcomma";
    assert [k1, k2, k3][1..] == [k2, k3] && [k2, k3][1..] == [k3];
    assert Join([k3], "|") == k3;
    assert Join([k2, k3], "|") == k2 + "|" + k3;
    assert Join([k1, k2, k3], "|") == k1 + "|" + (k2 + "|" + k3);
  }

  /** The keys of the bespoke-delimiter test are plain, distinct and free of `|`. */
  lemma BespokeKeys()
    ensures PlainKey("topic1") && PlainKey("topic2") && PlainKey("topic3,withcomma")
    ensures "topic1" != "topic2" && "topic1" != "topic3,withcomma" && "topic2" != "topic3,withcomma"
    ensures forall part :: part in ["topic1", "topic2", "topic3,withcomma"] ==> forall k :: 0 <= k < |part| ==> part[k] != '|'
  {
    var k1, k2, k3 := "topic1", "topic2", "topic3,withcomma";
    assert k1[5] != k2[5] && k1[5] != k3[5] && k2[5] != k3[5];
  }

  /** `"topic1|topic2|topic3,withcomma"` split on `"|"` gives three keys; the comma stays inside the third. */
  lemma BespokeDelimiterYieldsThreeKeys(name: string, namespace: string)
    ensures var path := [FunctionPath(name, namespace)];
      ServiceMapAfter([FunctionStatus(name, Some(map[TopicAnnotation := "topic1|topic2|topic3,withcomma"]))], "|", namespace, map[])
      == map["topic1" := path, "topic2" := path, "topic3,withcomma" := path]
  {
    BespokeAnnotation();
    BespokeKeys();
    OneFunctionThreeTopics(name, '|', namespace, "topic1", "topic2", "topic3,withcomma");
  }

  /** A registry with two namespaces, one function in each, both subscribed to the same topic. */
  function TwoNamespaces(n1: string, n2: string, f1: string, f2: string, topic: string): Registry {
    var annotations := Some(map[TopicAnnotation := topic]);
    Registry(
      Success([n1, n2]),
      ns => if ns == n1 then Success([FunctionStatus(f1, annotations)])
            else if ns == n2 then Success([FunctionStatus(f2, annotations)])
            else Success([]))
  }

  /** Two namespaces: without a namespace filter the list under a topic follows the namespace order; with one, only that namespace counts. */
  lemma BuildFollowsNamespaceOrder(n1: string, n2: string, f1: string, f2: string, topic: string, topicDelimiter: char, gatewayURL: string)
    requires n1 != n2 && n2 != ""
    requires PlainKey(topic) && forall k :: 0 <= k < |topic| ==> topic[k] != topicDelimiter
    ensures Built(FunctionLookupBuilder(gatewayURL, [topicDelimiter], ""), TwoNamespaces(n1, n2, f1, f2, topic))
         == Success(map[topic := [FunctionPath(f1, n1), FunctionPath(f2, n2)]])
    ensures Built(FunctionLookupBuilder(gatewayURL, [topicDelimiter], n2), TwoNamespaces(n1, n2, f1, f2, topic))
         == Success(map[topic := [FunctionPath(f2, n2)]])
  {
    var annotations := Some(map[TopicAnnotation := topic]);
    var first, second := FunctionStatus(f1, annotations), FunctionStatus(f2, annotations);
    var registry := TwoNamespaces(n1, n2, f1, f2, topic);
    var delim := [topicDelimiter];
    SingleTopic(f1, topic, topicDelimiter, n1, map[]);
    assert [] + [FunctionPath(f1, n1)] == [FunctionPath(f1, n1)];
    var one := map[topic := [FunctionPath(f1, n1)]];
    assert [first][1..] == [] && [second][1..] == [];
    assert ServiceMapAfter([first], delim, n1, map[]) == one;
    SingleTopic(f2, topic, topicDelimiter, n2, one);
    assert topic in one && one[topic] + [FunctionPath(f2, n2)] == [FunctionPath(f1, n1), FunctionPath(f2, n2)];
    assert one[topic := [FunctionPath(f1, n1), FunctionPath(f2, n2)]] == map[topic := [FunctionPath(f1, n1), FunctionPath(f2, n2)]];
    assert ServiceMapAfter([second], delim, n2, one) == map[topic := [FunctionPath(f1, n1), FunctionPath(f2, n2)]];
    SingleTopic(f2, topic, topicDelimiter, n2, map[]);
    assert [] + [FunctionPath(f2, n2)] == [FunctionPath(f2, n2)];
    assert ServiceMapAfter([second], delim, n2, map[]) == map[topic := [FunctionPath(f2, n2)]];
    var nss := [n1, n2];
    assert nss[1..] == [n2] && nss[1..][1..] == [];
    assert registry.functions(n1) == Success([first]);
    assert registry.functions(n2) == Success([second]);
    assert Collect(nss, delim, registry.functions, map[]) == Collect([n2], delim, registry.functions, one);
    assert Collect([n2], delim, registry.functions, one) == Collect([], delim, registry.functions, ServiceMapAfter([second], delim, n2, one));
    assert Collect([n2], delim, registry.functions, map[]) == Collect([], delim, registry.functions, ServiceMapAfter([second], delim, n2, map[]));
  }

  /** The builder test's registry: `echo` in `openfaas-fn`, `figlet` in `namespace2`, both on `topic1`. */
  lemma BuildTwoNamespacesExample()
    ensures Built(FunctionLookupBuilder("", ",", ""), TwoNamespaces("openfaas-fn", "namespace2", "echo", "figlet", "topic1"))
         == Success(map["topic1" := ["echo.openfaas-fn", "figlet.namespace2"]])
    ensures Built(FunctionLookupBuilder("", ",", "namespace2"), TwoNamespaces("openfaas-fn", "namespace2", "echo", "figlet", "topic1"))
         == Success(map["topic1" := ["figlet.namespace2"]])
  {
    assert FunctionPath("echo", "openfaas-fn") == "echo.openfaas-fn";
    assert FunctionPath("figlet", "namespace2") == "figlet.namespace2";
    BuildFollowsNamespaceOrder("openfaas-fn", "namespace2", "echo", "figlet", "topic1", ',', "");
  }
}
