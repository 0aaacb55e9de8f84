/**
 * The topic routing table: a replaceable map from topic to an ordered list of
 * function references, queried through a pluggable match rule.
 *
 * Go ranges over a map in an unspecified order. `Match` therefore takes the order
 * in which the keys are visited as a parameter, `order`, which may be any
 * enumeration of the table's keys; every property below holds for all of them.
 * `Topics` instead picks the next key arbitrarily, as the range loop does.
 */
module Routing {
  import opened Wrappers

  /** Go's `MatchTopicFunc`: is a received topic routed to a registered key? */
  type Matcher = (string, string) -> bool

  /** The table's contents: topic key to function references (`name.namespace`). */
  type Lookup = map<string, seq<string>>

  /** Go's `defaultMatchTopic`: exact string equality. */
  function DefaultMatchTopic(topicReceived: string, topicFunction: string): (r: bool)
    ensures r <==> |topicReceived| == |topicFunction| && forall i :: 0 <= i < |topicReceived| ==> topicReceived[i] == topicFunction[i]
  {
    topicReceived == topicFunction
  }

  /** The rule a table whose `matchFunc` field is `m` applies; an unset field means the default rule. */
  function Accepts(m: Option<Matcher>, topic: string, key: string): bool {
    match m
    case None => DefaultMatchTopic(topic, key)
    case Some(f) => f(topic, key)
  }

  predicate Distinct(s: seq<string>) {
    forall i, j :: 0 <= i < j < |s| ==> s[i] != s[j]
  }

  /** `order` lists every key of `keys` exactly once: one possible map iteration order. */
  ghost predicate IsEnumeration(order: seq<string>, keys: set<string>) {
    && Distinct(order)
    && forall k :: k in order <==> k in keys
  }

  /**
   * What `Match(topic)` returns when the keys are visited in `order`: for each key
   * the rule accepts, that key's whole list, in stored order, with no deduplication.
   */
  function Matched(lookup: Lookup, m: Option<Matcher>, topic: string, order: seq<string>): seq<string>
    requires forall k :: k in order ==> k in lookup
  {
    if order == [] then []
    else
      var key := order[|order| - 1];
      Matched(lookup, m, topic, order[..|order| - 1]) + (if Accepts(m, topic, key) then lookup[key] else [])
  }

  /** Visiting `a` and then `b` concatenates the two results. */
  lemma {:induction false} MatchedConcat(lookup: Lookup, m: Option<Matcher>, topic: string, a: seq<string>, b: seq<string>)
    requires forall k :: k in a + b ==> k in lookup
    ensures Matched(lookup, m, topic, a + b) == Matched(lookup, m, topic, a) + Matched(lookup, m, topic, b)
    decreases |b|
  {
    if b == [] {
      assert a + b == a;
    } else {
      var b' := b[..|b| - 1];
      assert (a + b)[..|a + b| - 1] == a + b';
      MatchedConcat(lookup, m, topic, a, b');
    }
  }

  /** A table whose matcher is unset matches exactly like one holding `defaultMatchTopic`. */
  lemma {:induction false} MatchedUnsetIsDefault(lookup: Lookup, topic: string, order: seq<string>)
    requires forall k :: k in order ==> k in lookup
    ensures Matched(lookup, None, topic, order) == Matched(lookup, Some(DefaultMatchTopic), topic, order)
    decreases |order|
  {
    if order != [] {
      MatchedUnsetIsDefault(lookup, topic, order[..|order| - 1]);
    }
  }

  lemma {:induction false} MatchedDefaultDistinct(lookup: Lookup, topic: string, order: seq<string>)
    requires Distinct(order) && forall k :: k in order ==> k in lookup
    ensures Matched(lookup, None, topic, order) == if topic in order then lookup[topic] else []
    decreases |order|
  {
    if order != [] {
      var init := order[..|order| - 1];
      MatchedDefaultDistinct(lookup, topic, init);
      assert order == init + [order[|order| - 1]];
      if topic == order[|order| - 1] {
        assert topic !in init;
      }
    }
  }

  /**
   * With the default rule, `Match(t)` is exactly `lookup[t]`, in stored order, when
   * `t` is a key, and empty otherwise, whatever the iteration order.
   */
  lemma MatchedDefault(lookup: Lookup, topic: string, order: seq<string>)
    requires IsEnumeration(order, lookup.Keys)
    ensures Matched(lookup, None, topic, order) == if topic in lookup then lookup[topic] else []
  {
    MatchedDefaultDistinct(lookup, topic, order);
  }

  /** Every matched reference comes from the list of an accepted key, and every entry of such a list is matched. */
  lemma {:induction false} MatchedOrigin(lookup: Lookup, m: Option<Matcher>, topic: string, order: seq<string>, x: string)
    requires forall k :: k in order ==> k in lookup
    ensures x in Matched(lookup, m, topic, order) <==> exists k :: k in order && Accepts(m, topic, k) && x in lookup[k]
    decreases |order|
  {
    if order != [] {
      var init := order[..|order| - 1];
      var key := order[|order| - 1];
      MatchedOrigin(lookup, m, topic, init, x);
      assert order == init + [key];
      if x in Matched(lookup, m, topic, order) && x !in Matched(lookup, m, topic, init) {
        assert Accepts(m, topic, key) && x in lookup[key];
      }
    }
  }

  /** The part of the result a single key contributes. */
  function Contribution(lookup: Lookup, m: Option<Matcher>, topic: string, key: string): seq<string>
    requires key in lookup
  {
    if Accepts(m, topic, key) then lookup[key] else []
  }

  /** The result splits around the contribution of the key at position `i`. */
  lemma MatchedSplitAt(lookup: Lookup, m: Option<Matcher>, topic: string, order: seq<string>, i: nat)
    requires forall k :: k in order ==> k in lookup
    requires i < |order|
    ensures Matched(lookup, m, topic, order)
         == Matched(lookup, m, topic, order[..i]) + Contribution(lookup, m, topic, order[i]) + Matched(lookup, m, topic, order[i + 1..])
  {
    assert order == order[..i + 1] + order[i + 1..];
    MatchedConcat(lookup, m, topic, order[..i + 1], order[i + 1..]);
    assert order[..i + 1][..i] == order[..i];
  }

  /** Taking the element at `j` out of a distinct sequence leaves a distinct sequence of the other elements. */
  lemma RemoveAt(s: seq<string>, j: nat)
    requires Distinct(s) && j < |s|
    ensures Distinct(s[..j] + s[j + 1..])
    ensures forall k :: k in s[..j] + s[j + 1..] <==> k in s && k != s[j]
  {
    var rest := s[..j] + s[j + 1..];
    forall p, q | 0 <= p < q < |rest| ensures rest[p] != rest[q] {
      var p' := if p < j then p else p + 1;
      var q' := if q < j then q else q + 1;
      assert rest[p] == s[p'] && rest[q] == s[q'];
    }
    forall k ensures k in rest <==> k in s && k != s[j] {
      if k in rest {
        var p :| 0 <= p < |rest| && rest[p] == k;
        var p' := if p < j then p else p + 1;
        assert rest[p] == s[p'];
      }
      if k in s && k != s[j] {
        var p :| 0 <= p < |s| && s[p] == k;
        assert p != j;
        if p < j { assert rest[p] == k; } else { assert rest[p - 1] == k; }
      }
    }
  }

  /** `a` and `b` hold the same elements. */
  ghost predicate SameElements(a: seq<string>, b: seq<string>) {
    forall k :: k in a <==> k in b
  }

  /** Dropping the same element from two enumerations of one set leaves two enumerations of one set. */
  lemma DropMatchingElement(o1: seq<string>, o2: seq<string>, j: nat)
    requires Distinct(o1) && Distinct(o2)
    requires forall k :: k in o1 <==> k in o2
    requires o1 != [] && j < |o2| && o2[j] == o1[|o1| - 1]
    ensures Distinct(o1[..|o1| - 1]) && Distinct(o2[..j] + o2[j + 1..])
    ensures SameElements(o1[..|o1| - 1], o2[..j] + o2[j + 1..])
  {
    var n := |o1| - 1;
    var init, rest := o1[..n], o2[..j] + o2[j + 1..];
    RemoveAt(o1, n);
    RemoveAt(o2, j);
    assert o1[..n] + o1[n + 1..] == init;
    forall k ensures k in init <==> k in rest {
      assert k in init <==> k in o1 && k != o1[n];
      assert k in rest <==> k in o2 && k != o2[j];
    }
  }

  lemma FirstElement(s: seq<string>)
    requires s != []
    ensures s[0] in s
  {
  }

  /** Leaving the key at `j` out of the visit removes exactly its contribution. */
  lemma MatchedWithout(lookup: Lookup, m: Option<Matcher>, topic: string, order: seq<string>, j: nat)
    requires forall k :: k in order ==> k in lookup
    requires j < |order|
    ensures forall k :: k in order[..j] + order[j + 1..] ==> k in lookup
    ensures multiset(Matched(lookup, m, topic, order))
         == multiset(Matched(lookup, m, topic, order[..j] + order[j + 1..])) + multiset(Contribution(lookup, m, topic, order[j]))
  {
    assert forall k :: k in order[..j] + order[j + 1..] ==> k in order;
    MatchedSplitAt(lookup, m, topic, order, j);
    MatchedConcat(lookup, m, topic, order[..j], order[j + 1..]);
  }

  /**
   * Every enumeration order yields the same references with the same multiplicities:
   * only the order of the per-key lists depends on the map's iteration order.
   */
  lemma {:induction false} MatchedOrderIndependent(lookup: Lookup, m: Option<Matcher>, topic: string, o1: seq<string>, o2: seq<string>)
    requires Distinct(o1) && Distinct(o2)
    requires forall k :: k in o1 <==> k in o2
    requires forall k :: k in o1 ==> k in lookup
    ensures multiset(Matched(lookup, m, topic, o1)) == multiset(Matched(lookup, m, topic, o2))
    decreases |o1|
  {
    if o1 == [] {
      if o2 != [] {
        FirstElement(o2);
        assert false;
      }
    } else {
      var n := |o1| - 1;
      var key := o1[n];
      assert key in o2;
      var j :| 0 <= j < |o2| && o2[j] == key;
      DropMatchingElement(o1, o2, j);
      MatchedWithout(lookup, m, topic, o2, j);
      assert forall k :: k in o1[..n] ==> k in o1;
      MatchedOrderIndependent(lookup, m, topic, o1[..n], o2[..j] + o2[j + 1..]);
      assert Matched(lookup, m, topic, o1) == Matched(lookup, m, topic, o1[..n]) + Contribution(lookup, m, topic, key);
    }
  }

  /** No deduplication: a reference listed under two accepted keys is matched at least twice. */
  lemma MatchedKeepsDuplicates(lookup: Lookup, m: Option<Matcher>, topic: string, order: seq<string>, i: nat, j: nat, fn: string)
    requires forall k :: k in order ==> k in lookup
    requires i < j < |order|
    requires Accepts(m, topic, order[i]) && Accepts(m, topic, order[j])
    requires fn in lookup[order[i]] && fn in lookup[order[j]]
    ensures multiset(Matched(lookup, m, topic, order))[fn] >= 2
  {
    var tail := order[i + 1..];
    MatchedSplitAt(lookup, m, topic, order, i);
    assert tail[j - i - 1] == order[j];
    MatchedSplitAt(lookup, m, topic, tail, j - i - 1);
    var ci := Contribution(lookup, m, topic, order[i]);
    var cj := Contribution(lookup, m, topic, order[j]);
    assert multiset(ci)[fn] >= 1 && multiset(cj)[fn] >= 1;
    assert multiset(Matched(lookup, m, topic, tail))[fn] >= multiset(cj)[fn];
  }

  /** Go's `TopicMap`: the current table and the match rule, replaced as a whole by `Sync`. */
  class TopicMap {
    var lookup: Lookup
    var matchFunc: Option<Matcher>

    /** Go's `NewTopicMap`: an empty table; an unset match rule is replaced by the default one. */
    constructor (matchFunc: Option<Matcher>)
      ensures lookup == map[]
      ensures this.matchFunc.Some?
      ensures matchFunc.Some? ==> this.matchFunc == matchFunc
      ensures forall topic, key :: Accepts(this.matchFunc, topic, key) == Accepts(matchFunc, topic, key)
    {
      lookup := map[];
      var rule: Matcher := if matchFunc.None? then DefaultMatchTopic else matchFunc.value;
      this.matchFunc := Some(rule);
    }

    /** A `TopicMap` written as a struct literal, whose `matchFunc` may be left unset. */
    constructor Literal(lookup: Lookup, matchFunc: Option<Matcher>)
      ensures this.lookup == lookup && this.matchFunc == matchFunc
    {
      this.lookup := lookup;
      this.matchFunc := matchFunc;
    }

    /** Go's `TopicMap.Match`, visiting the keys in `order`. */
    method Match(topicName: string, order: seq<string>) returns (values: seq<string>)
      requires IsEnumeration(order, lookup.Keys)
      ensures values == Matched(lookup, matchFunc, topicName, order)
    {
      values := [];
      var matchFunc: Matcher := if this.matchFunc.None? then DefaultMatchTopic else this.matchFunc.value;
      for i := 0 to |order|
        invariant values == Matched(lookup, this.matchFunc, topicName, order[..i])
      {
        var key := order[i];
        assert order[..i + 1][..i] == order[..i];
        if matchFunc(topicName, key) {
          values := values + lookup[key];
        }
      }
      assert order[..|order|] == order;
    }

    /** Go's `TopicMap.Sync`: the whole table is replaced; nothing of the old one survives. */
    method Sync(updated: Lookup)
      modifies this
      ensures lookup == updated
      ensures matchFunc == old(matchFunc)
    {
      lookup := updated;
    }

    /** Go's `TopicMap.Topics`: every key exactly once, in some order. */
    method Topics() returns (topics: seq<string>)
      ensures IsEnumeration(topics, lookup.Keys)
      ensures |topics| == |lookup|
    {
      topics := [];
      var remaining := lookup.Keys;
      while remaining != {}
        invariant remaining <= lookup.Keys
        invariant Distinct(topics)
        invariant forall k :: k in topics <==> k in lookup && k !in remaining
        invariant |topics| + |remaining| == |lookup.Keys|
        decreases remaining
      {
        var topic :| topic in remaining;
        topics := topics + [topic];
        remaining := remaining - {topic};
      }
    }
  }
}
