/** The queue topics of the worker, and their recovery from the keys cached in Redis. */
module QueueTopics {
  import opened Strings

  const PREFIX := "esl_q_queue"
  const CACHE := "bullQueueCache"

  /** The topic of a tenant, whose number is given as text, and a queue. */
  function TopicOf(tenant: string, queue: string): string { PREFIX + "::" + tenant + "::" + queue }

  function Topic(tenantId: int, queue: string): string { TopicOf(Decimal(tenantId), queue) }

  function CacheKey(topic: string): string { CACHE + "::" + topic }

  /** The topic that recovery adds for a cached key: none unless the key has four parts. */
  function Recovered(key: string): Option<string> {
    var works := Split(key, "::");
    if |works| != 4 then None
    else Some(TopicOf(match ParseInt(works[2]) case Some(n) => Decimal(n) case None => "NaN", works[3]))
  }

  lemma NoColonFirst(a: string, b: string)
    requires ':' !in a
    ensures Split(a + "::" + b, "::") == [a] + Split(b, "::")
  {
    var s := a + "::" + b;
    assert s[|a|..|a| + 2] == "::";
    FindLeast(s, "::", |a|);
    FindAt(s, "::");
    var k := Find(s, "::");
    assert s[k] == s[k..k + 2][0] == ':';
    SplitAfter(a, "::", b);
  }

  lemma DecimalNoColon(n: int)
    ensures ':' !in Decimal(n)
  {
  }

  lemma PartsOf(tenantId: int, queue: string)
    ensures Split(CacheKey(Topic(tenantId, queue)), "::") == [CACHE, PREFIX, Decimal(tenantId)] + Split(queue, "::")
  {
    hide Split, Find, Decimal;
    var tail := Decimal(tenantId) + "::" + queue;
    DecimalNoColon(tenantId);
    NoColonFirst(Decimal(tenantId), queue);
    NoColonFirst(PREFIX, tail);
    NoColonFirst(CACHE, PREFIX + "::" + tail);
    assert Topic(tenantId, queue) == PREFIX + "::" + tail;
  }

  /** A key gives back its own topic when the queue number holds no "::", and else nothing. */
  lemma KeyRoundTrip(tenantId: int, queue: string)
    ensures Recovered(CacheKey(Topic(tenantId, queue))) ==
            if Find(queue, "::") < 0 then Some(Topic(tenantId, queue)) else None
  {
    hide ParseInt, Decimal, Find;
    PartsOf(tenantId, queue);
    ParseIntDecimal(tenantId);
    var works := Split(CacheKey(Topic(tenantId, queue)), "::");
    assert |works| == 3 + |Split(queue, "::")|;
    assert works[2] == Decimal(tenantId) && works[3] == Split(queue, "::")[0];
  }

  /** A cached key spelled out. */
  lemma KeySpelled(tenantId: int, queue: string)
    ensures CacheKey(Topic(tenantId, queue)) == "bullQueueCache::esl_q_queue::" + Decimal(tenantId) + "::" + queue
  {
    hide Decimal;
    assert CacheKey(Topic(tenantId, queue)) ==
           ("bullQueueCache" + "::") + (("esl_q_queue" + "::") + Decimal(tenantId) + "::" + queue);
  }

  /** Any key of four parts is recovered, whatever its first two are: by the number its third part starts with, and its
      last part. A key of fewer parts is not. */
  lemma RecoversParts(a: string, b: string, c: string, d: string)
    requires ':' !in a && ':' !in b && ':' !in c && Find(d, "::") < 0
    ensures Recovered(a + "::" + (b + "::" + (c + "::" + d))) ==
            Some("esl_q_queue::" + (match ParseInt(c) case Some(n) => Decimal(n) case None => "NaN") + "::" + d)
    ensures Recovered(a + "::" + (b + "::" + d)) == Recovered(a + "::" + d) == Recovered(d) == None
  {
    hide Find, ParseInt, Decimal;
    NoColonFirst(a, d);
    NoColonFirst(b, d);
    NoColonFirst(c, d);
    NoColonFirst(a, b + "::" + d);
    NoColonFirst(b, c + "::" + d);
    NoColonFirst(a, b + "::" + (c + "::" + d));
    assert Split(d, "::") == [d];
    var number := match ParseInt(c) case Some(n) => Decimal(n) case None => "NaN";
    assert TopicOf(number, d) == "esl_q_queue::" + number + "::" + d by { assert PREFIX + "::" == "esl_q_queue::"; }
  }

  /** A topic belongs to one tenant and one queue number. */
  lemma TopicsDistinct(tenantId: int, queue: string, tenantId': int, queue': string)
    ensures Topic(tenantId, queue) == Topic(tenantId', queue') <==> tenantId == tenantId' && queue == queue'
  {
    hide Split, Find, Decimal, ParseInt;
    if Topic(tenantId, queue) == Topic(tenantId', queue') {
      PartsOf(tenantId, queue);
      PartsOf(tenantId', queue');
      var works := Split(CacheKey(Topic(tenantId, queue)), "::");
      assert works[2] == Decimal(tenantId) && works[2] == Decimal(tenantId');
      ParseIntDecimal(tenantId);
      ParseIntDecimal(tenantId');
      var head := PREFIX + "::" + Decimal(tenantId) + "::";
      assert Topic(tenantId, queue) == head + queue && Topic(tenantId', queue') == head + queue';
      assert (head + queue)[|head|..] == queue && (head + queue')[|head|..] == queue';
    }
  }

  /** The queues a worker was asked for, as tenant and number. */
  type Asked = seq<(int, string)>

  predicate IsTopicOf(asked: Asked, topic: string) {
    exists i :: 0 <= i < |asked| && Topic(asked[i].0, asked[i].1) == topic
  }

  predicate IsKeyOf(asked: Asked, key: string) {
    exists i :: 0 <= i < |asked| && CacheKey(Topic(asked[i].0, asked[i].1)) == key
  }

  predicate IsRecovered(keys: seq<string>, topic: string) {
    exists k :: 0 <= k < |keys| && Recovered(keys[k]) == Some(topic)
  }

  /** Recovery from the cached keys, in any order, rebuilds exactly the topics asked for when, and only
      when, no queue number holds "::". */
  lemma RecoveryExact(asked: Asked, keys: seq<string>)
    requires forall key :: key in keys <==> IsKeyOf(asked, key)
    ensures (forall topic :: IsRecovered(keys, topic) <==> IsTopicOf(asked, topic)) <==>
            forall i :: 0 <= i < |asked| ==> Find(asked[i].1, "::") < 0
  {
    hide Find, Recovered, Topic, CacheKey;
    forall i | 0 <= i < |asked| ensures CacheKey(Topic(asked[i].0, asked[i].1)) in keys {
    }
    if forall i :: 0 <= i < |asked| ==> Find(asked[i].1, "::") < 0 {
      forall topic ensures IsRecovered(keys, topic) <==> IsTopicOf(asked, topic) {
        RecoversTopic(asked, keys, topic);
      }
    }
    if forall topic :: IsRecovered(keys, topic) <==> IsTopicOf(asked, topic) {
      forall i | 0 <= i < |asked| ensures Find(asked[i].1, "::") < 0 {
        assert IsTopicOf(asked, Topic(asked[i].0, asked[i].1));
        RecoveredIsPlain(asked, keys, i);
      }
    }
  }

  lemma RecoversTopic(asked: Asked, keys: seq<string>, topic: string)
    requires forall key :: key in keys <==> IsKeyOf(asked, key)
    requires forall i :: 0 <= i < |asked| ==> Find(asked[i].1, "::") < 0
    ensures IsRecovered(keys, topic) <==> IsTopicOf(asked, topic)
  {
    hide Find, Recovered, Topic, CacheKey;
    if IsRecovered(keys, topic) {
      var k :| 0 <= k < |keys| && Recovered(keys[k]) == Some(topic);
      assert keys[k] in keys;
      var i :| 0 <= i < |asked| && CacheKey(Topic(asked[i].0, asked[i].1)) == keys[k];
      KeyRoundTrip(asked[i].0, asked[i].1);
    }
    if IsTopicOf(asked, topic) {
      var i :| 0 <= i < |asked| && Topic(asked[i].0, asked[i].1) == topic;
      KeyRoundTrip(asked[i].0, asked[i].1);
      assert IsKeyOf(asked, CacheKey(topic));
      var k :| 0 <= k < |keys| && keys[k] == CacheKey(topic);
    }
  }

  lemma RecoveredIsPlain(asked: Asked, keys: seq<string>, i: nat)
    requires forall key :: key in keys <==> IsKeyOf(asked, key)
    requires i < |asked| && IsRecovered(keys, Topic(asked[i].0, asked[i].1))
    ensures Find(asked[i].1, "::") < 0
  {
    hide Find, Recovered, Topic, CacheKey;
    var topic := Topic(asked[i].0, asked[i].1);
    var k :| 0 <= k < |keys| && Recovered(keys[k]) == Some(topic);
    assert keys[k] in keys;
    var j :| 0 <= j < |asked| && CacheKey(Topic(asked[j].0, asked[j].1)) == keys[k];
    KeyRoundTrip(asked[j].0, asked[j].1);
    KeyRoundTrip(asked[i].0, asked[i].1);
  }

  /** The worker: topics and queues in parallel arrays; a queue is named by the number it was made as. */
  class Worker {
    var queueTopics: seq<string>
    var queues: seq<nat>
    var made: nat
    var cachedKeys: set<string>

    ghost predicate Valid()
      reads this
    {
      && |queues| == |queueTopics|
      && (forall i, j :: 0 <= i < j < |queueTopics| ==> queueTopics[i] != queueTopics[j] && queues[i] != queues[j])
      && (forall i :: 0 <= i < |queues| ==> queues[i] < made)
      && (forall i :: 0 <= i < |queueTopics| ==> CacheKey(queueTopics[i]) in cachedKeys)
    }

    constructor (cachedKeys: set<string>)
      ensures Valid() && queueTopics == [] && this.cachedKeys == cachedKeys
    {
      queueTopics, queues, made := [], [], 0;
      this.cachedKeys := cachedKeys;
    }

    /** The queue of a topic: made at the end of the arrays unless it is there; what was there keeps its place. */
    method Add(tenant: string, queueNumber: string) returns (queue: nat)
      requires Valid()
      modifies this
      ensures Valid()
      ensures var topic := TopicOf(tenant, queueNumber);
              && (exists i :: 0 <= i < |queueTopics| && queueTopics[i] == topic && queues[i] == queue)
              && (if topic in old(queueTopics) then
                    queueTopics == old(queueTopics) && queues == old(queues) && cachedKeys == old(cachedKeys)
                  else
                    && queueTopics == old(queueTopics) + [topic] && queues == old(queues) + [queue]
                    && queue !in old(queues) && cachedKeys == old(cachedKeys) + {CacheKey(topic)})
    {
      var qNameTopic := TopicOf(tenant, queueNumber);
      var index := IndexOf(qNameTopic);
      if index < 0 {
        queue := made;
        made := made + 1;
        queueTopics := queueTopics + [qNameTopic];
        queues := queues + [queue];
        cachedKeys := cachedKeys + {CacheKey(qNameTopic)};
        assert queueTopics[|queueTopics| - 1] == qNameTopic && queues[|queues| - 1] == queue;
      } else {
        queue := queues[index];
      }
    }

    method IndexOf(name: string) returns (i: int)
      ensures -1 <= i < |queueTopics| && (i >= 0 ==> queueTopics[i] == name)
      ensures i < 0 <==> name !in queueTopics
    {
      i := 0;
      while i < |queueTopics| && queueTopics[i] != name
        invariant 0 <= i <= |queueTopics|
        invariant name !in queueTopics[..i]
      {
        i := i + 1;
      }
      if i == |queueTopics| {
        i := -1;
      }
    }

    method GetQueueByName(name: string) returns (queue: Option<nat>)
      requires Valid()
      ensures queue == None <==> name !in queueTopics
      ensures queue.Some? ==> exists i :: 0 <= i < |queueTopics| && queueTopics[i] == name && queues[i] == queue.value
    {
      var index := IndexOf(name);
      queue := if index > -1 then Some(queues[index]) else None;
    }

    /** Add a queue for a cached key, if it reads back. */
    method AddRecovered(key: string)
      requires Valid()
      modifies this
      ensures Valid() && old(queueTopics) <= queueTopics && old(queues) <= queues
      ensures forall topic :: topic in queueTopics <==> topic in old(queueTopics) || Recovered(key) == Some(topic)
    {
      hide Split, ParseInt, Decimal, CacheKey, TopicOf;
      var works := Split(key, "::");
      if |works| == 4 {
        var n := ParseInt(works[2]);
        var _ := Add(match n case Some(t) => Decimal(t) case None => "NaN", works[3]);
      }
    }

    /** Add a queue for every cached key that reads back. */
    method ReadyCacheBullQueue(keys: seq<string>)
      requires Valid()
      modifies this
      ensures Valid() && old(queueTopics) <= queueTopics && old(queues) <= queues
      ensures forall topic :: topic in queueTopics <==> topic in old(queueTopics) || IsRecovered(keys, topic)
    {
      hide Recovered, CacheKey;
      var i := 0;
      while i < |keys|
        invariant 0 <= i <= |keys|
        invariant Valid() && old(queueTopics) <= queueTopics && old(queues) <= queues
        invariant forall topic :: topic in queueTopics <==> topic in old(queueTopics) || IsRecovered(keys[..i], topic)
      {
        RecoveredMore(keys, i);
        AddRecovered(keys[i]);
        i := i + 1;
      }
      assert keys[..i] == keys;
    }
  }

  lemma RecoveredMore(keys: seq<string>, i: nat)
    requires i < |keys|
    ensures forall topic :: IsRecovered(keys[..i + 1], topic) <==>
              IsRecovered(keys[..i], topic) || Recovered(keys[i]) == Some(topic)
  {
    hide Recovered;
    forall topic ensures IsRecovered(keys[..i + 1], topic) <==>
        IsRecovered(keys[..i], topic) || Recovered(keys[i]) == Some(topic) {
      if IsRecovered(keys[..i], topic) {
        var k :| 0 <= k < i && Recovered(keys[..i][k]) == Some(topic);
        assert keys[..i + 1][k] == keys[..i][k];
      }
      assert keys[..i + 1][i] == keys[i];
    }
  }
}
