/** From a write request to the shard writers: key resolution, validation, grouping by shard. */
module Routing {
  import opened Bytes
  import opened Keys
  import opened BlockIds
  import opened Format

  datatype ProtoEvent = ProtoEvent(partitionKey: Bytes, eventType: uint32, timestampNs: int64, payload: Bytes)

  /** code 0 stands for no error. */
  datatype WriteResponse = WriteResponse(accepted: uint32, partitionKeys: seq<Bytes>, code: nat)

  // ----- conversion -----

  /** A missing key is replaced by a generated one. */
  function ResolvePartitionKey(key: Bytes, uuid: Bytes): Bytes {
    if |key| > 0 then key else uuid
  }

  function ResolveTimestamp(ts: int64, clock: int64): int64 {
    if ts != 0 then ts else clock
  }

  /** The generated key and the clock reading an event would get. */
  datatype Stamp = Stamp(uuid: Bytes, clock: int64)

  /**
   * Events and keys stay aligned with the request, and every event carries the hash of its own key: the key it was
   * sent with, or a generated one if it was sent with none. So for its timestamp, where zero stands for none.
   */
  method ProtoEventsToBlock(hash: Bytes -> uint64, events: seq<ProtoEvent>, stamps: seq<Stamp>)
    returns (out: seq<Event>, keys: seq<Bytes>)
    requires |stamps| == |events|
    ensures |out| == |keys| == |events|
    ensures forall i :: 0 <= i < |events| && events[i].partitionKey != [] ==> keys[i] == events[i].partitionKey
    ensures forall i :: 0 <= i < |events| && events[i].partitionKey == [] ==> keys[i] == stamps[i].uuid
    ensures forall i :: 0 <= i < |events| ==> out[i].keyHash == hash(keys[i]) && out[i].payload == events[i].payload
    ensures forall i :: 0 <= i < |events| && events[i].timestampNs != 0 ==> out[i].timestamp == events[i].timestampNs
    ensures forall i :: 0 <= i < |events| && events[i].timestampNs == 0 ==> out[i].timestamp == stamps[i].clock
  {
    out, keys := [], [];
    for i := 0 to |events|
      invariant |out| == |keys| == i
      invariant forall j :: 0 <= j < i ==> keys[j] == ResolvePartitionKey(events[j].partitionKey, stamps[j].uuid)
      invariant forall j :: 0 <= j < i ==>
        out[j] == Event(hash(keys[j]), ResolveTimestamp(events[j].timestampNs, stamps[j].clock), events[j].payload)
    {
      var key := ResolvePartitionKey(events[i].partitionKey, stamps[i].uuid);
      keys := keys + [key];
      out := out + [Event(hash(key), ResolveTimestamp(events[i].timestampNs, stamps[i].clock), events[i].payload)];
    }
  }

  // ----- grouping -----

  predicate TypesFit(events: seq<ProtoEvent>) {
    forall i :: 0 <= i < |events| ==> events[i].eventType <= 255
  }

  /** The shard of each event of a request. */
  function Shards(hash: Bytes -> uint64, events: seq<ProtoEvent>, keys: seq<Bytes>): (r: seq<ShardID>)
    requires |keys| == |events| && TypesFit(events)
    ensures |r| == |events|
  {
    seq(|events|, i requires 0 <= i < |events| => ShardFor(hash(keys[i]), events[i].eventType))
  }

  /** The events sent to shard s, in request order. */
  function RoutedTo(shards: seq<ShardID>, events: seq<Event>, s: ShardID): seq<Event>
    requires |shards| == |events|
  {
    if events == [] then []
    else
      var n := |events| - 1;
      RoutedTo(shards[..n], events[..n], s) + if shards[n] == s then [events[n]] else []
  }

  /** The request positions sent to shard s, in order. */
  function Positions(shards: seq<ShardID>, s: ShardID): seq<nat> {
    if shards == [] then []
    else
      var n := |shards| - 1;
      Positions(shards[..n], s) + if shards[n] == s then [n] else []
  }

  /** A shard receives exactly the events at its own positions, and in their order. */
  lemma {:induction false} RoutedInOrder(shards: seq<ShardID>, events: seq<Event>, s: ShardID)
    requires |shards| == |events|
    ensures forall i :: i in Positions(shards, s) <==> 0 <= i < |shards| && shards[i] == s
    ensures forall a, b :: 0 <= a < b < |Positions(shards, s)| ==> Positions(shards, s)[a] < Positions(shards, s)[b]
    ensures |RoutedTo(shards, events, s)| == |Positions(shards, s)|
    ensures forall a :: 0 <= a < |Positions(shards, s)| ==>
      0 <= Positions(shards, s)[a] < |events| && RoutedTo(shards, events, s)[a] == events[Positions(shards, s)[a]]
  {
    if events != [] {
      var n := |events| - 1;
      RoutedInOrder(shards[..n], events[..n], s);
      var before := Positions(shards[..n], s);
      forall a | 0 <= a < |before| ensures before[a] < n { assert before[a] in before; }
    }
  }

  /** Events of one partition key and type share a shard whose upper byte is the type, so they keep their order. */
  lemma SameKeySameShard(hash: Bytes -> uint64, events: seq<ProtoEvent>, keys: seq<Bytes>, i: nat, j: nat)
    requires |keys| == |events| && TypesFit(events) && i < |events| && j < |events|
    requires keys[i] == keys[j] && events[i].eventType == events[j].eventType
    ensures Shards(hash, events, keys)[i] == Shards(hash, events, keys)[j]
    ensures Shards(hash, events, keys)[i] / 256 == events[i].eventType
  {}

  /** All events of a request, listed shard by shard. */
  function Gathered(shards: seq<ShardID>, events: seq<Event>, order: seq<ShardID>): seq<Event>
    requires |shards| == |events|
  {
    if order == [] then []
    else Gathered(shards, events, order[..|order| - 1]) + RoutedTo(shards, events, order[|order| - 1])
  }

  predicate Distinct(order: seq<ShardID>) {
    forall i, j :: 0 <= i < j < |order| ==> order[i] != order[j]
  }

  lemma {:induction false} GatheredStep(shards: seq<ShardID>, events: seq<Event>, order: seq<ShardID>)
    requires |shards| == |events| > 0 && Distinct(order)
    ensures var n := |events| - 1;
      multiset(Gathered(shards, events, order)) ==
      multiset(Gathered(shards[..n], events[..n], order)) + if shards[n] in order then multiset{events[n]}
          else multiset{}
  {
    var n := |events| - 1;
    if order != [] {
      var init, last := order[..|order| - 1], order[|order| - 1];
      assert order == init + [last];
      GatheredStep(shards, events, init);
      assert last !in init;
    }
  }

  /** No event is lost, duplicated or sent to two shards: the groups, in any order, are the request's events. */
  lemma {:induction false} GroupsPartition(shards: seq<ShardID>, events: seq<Event>, order: seq<ShardID>)
    requires |shards| == |events| && Distinct(order) && forall i :: 0 <= i < |shards| ==> shards[i] in order
    ensures multiset(Gathered(shards, events, order)) == multiset(events)
  {
    hide Gathered, Distinct;
    if events == [] {
      NothingGathered(shards, events, order);
    } else {
      var n := |events| - 1;
      GatheredStep(shards, events, order);
      forall i | 0 <= i < n ensures shards[..n][i] in order { assert shards[i] in order; }
      GroupsPartition(shards[..n], events[..n], order);
      assert shards[n] in order;
      assert events == events[..n] + [events[n]];
    }
  }

  lemma {:induction false} NothingGathered(shards: seq<ShardID>, events: seq<Event>, order: seq<ShardID>)
    requires |shards| == |events| == 0
    ensures Gathered(shards, events, order) == []
  {
    if order != [] { NothingGathered(shards, events, order[..|order| - 1]); }
  }

  /** A missing group or queue is empty. */
  function Queue(queues: map<ShardID, seq<Event>>, s: ShardID): seq<Event> {
    if s in queues then queues[s] else []
  }

  /** The grouping loop. */
  method GroupByShard(hash: Bytes -> uint64, protos: seq<ProtoEvent>, keys: seq<Bytes>, events: seq<Event>)
    returns (groups: map<ShardID, seq<Event>>)
    requires |keys| == |events| == |protos| && TypesFit(protos)
    ensures groups.Keys == set s | s in Shards(hash, protos, keys)
    ensures forall s :: s in groups ==> groups[s] == RoutedTo(Shards(hash, protos, keys), events, s)
  {
    hide RoutedTo, Shards;
    groups := map[];
    ghost var shards := Shards(hash, protos, keys);
    GroupedNone(shards, events);
    for i := 0 to |protos|
      invariant Grouped(groups, shards, events, i)
    {
      var shard := ShardFor(hash(keys[i]), protos[i].eventType);
      ShardAt(hash, protos, keys, i);
      GroupedStep(groups, shards, events, i);
      groups := groups[shard := Queue(groups, shard) + [events[i]]];
    }
    GroupedAll(groups, shards, events);
  }

  /** The first i events are in their groups, and there are no other groups. */
  ghost predicate Grouped(groups: map<ShardID, seq<Event>>, shards: seq<ShardID>, events: seq<Event>, i: nat)
    requires i <= |shards| == |events|
  {
    && (forall s: ShardID :: s in groups <==> s in shards[..i])
    && (forall s: ShardID :: Queue(groups, s) == RoutedTo(shards[..i], events[..i], s))
  }

  lemma ShardAt(hash: Bytes -> uint64, protos: seq<ProtoEvent>, keys: seq<Bytes>, i: nat)
    requires i < |keys| == |protos| && TypesFit(protos)
    ensures Shards(hash, protos, keys)[i] == ShardFor(hash(keys[i]), protos[i].eventType)
  {}

  lemma GroupedNone(shards: seq<ShardID>, events: seq<Event>)
    requires |shards| == |events|
    ensures Grouped(map[], shards, events, 0)
  {
    assert shards[..0] == [] && events[..0] == [];
  }

  lemma RoutedOneMore(shards: seq<ShardID>, events: seq<Event>, i: nat, s: ShardID)
    requires i < |shards| == |events|
    ensures RoutedTo(shards[..i + 1], events[..i + 1], s) == RoutedTo(shards[..i], events[..i], s) + if shards[i] == s
        then [events[i]] else []
  {
    assert shards[..i + 1][..i] == shards[..i] && events[..i + 1][..i] == events[..i];
  }

  lemma GroupedStep(groups: map<ShardID, seq<Event>>, shards: seq<ShardID>, events: seq<Event>, i: nat)
    requires i < |shards| == |events| && Grouped(groups, shards, events, i)
    ensures Grouped(groups[shards[i] := Queue(groups, shards[i]) + [events[i]]], shards, events, i + 1)
  {
    hide RoutedTo;
    var groups' := groups[shards[i] := Queue(groups, shards[i]) + [events[i]]];
    assert shards[..i + 1] == shards[..i] + [shards[i]];
    forall s: ShardID
      ensures Queue(groups', s) == RoutedTo(shards[..i + 1], events[..i + 1], s)
    {
      RoutedOneMore(shards, events, i, s);
    }
  }

  lemma GroupedAll(groups: map<ShardID, seq<Event>>, shards: seq<ShardID>, events: seq<Event>)
    requires |shards| == |events| && Grouped(groups, shards, events, |shards|)
    ensures groups.Keys == set s | s in shards
    ensures forall s :: s in groups ==> groups[s] == RoutedTo(shards, events, s)
  {
    hide RoutedTo;
    assert shards[..|shards|] == shards && events[..|events|] == events;
    forall s | s in groups ensures groups[s] == RoutedTo(shards, events, s) { assert Queue(groups, s) == groups[s]; }
  }

  // ----- the server -----

  /** The shards in order were written in full; every other queue is as before. */
  ghost predicate Delivered(q0: map<ShardID, seq<Event>>, q: map<ShardID, seq<Event>>, shards: seq<ShardID>,
                            events: seq<Event>, order: seq<ShardID>)
    requires |shards| == |events|
  {
    forall s: ShardID :: Queue(q, s) == Queue(q0, s) + if s in order then RoutedTo(shards, events, s) else []
  }

  /** As Delivered, but shard cut, not among order, only got its first n events. */
  ghost predicate CutShort(q0: map<ShardID, seq<Event>>, q: map<ShardID, seq<Event>>, shards: seq<ShardID>,
                           events: seq<Event>, order: seq<ShardID>, cut: ShardID, n: nat)
    requires |shards| == |events|
  {
    && cut !in order && n < |RoutedTo(shards, events, cut)|
    && Queue(q, cut) == Queue(q0, cut) + RoutedTo(shards, events, cut)[..n]
    && forall s: ShardID :: s != cut ==>
          Queue(q, s) == Queue(q0, s) + if s in order then RoutedTo(shards, events, s) else []
  }

  lemma DeliverOne(q0: map<ShardID, seq<Event>>, q: map<ShardID, seq<Event>>, shards: seq<ShardID>, events: seq<Event>,
                   order: seq<ShardID>, s: ShardID)
    requires |shards| == |events| && Delivered(q0, q, shards, events, order) && s !in order
    ensures Delivered(q0, q[s := Queue(q, s) + RoutedTo(shards, events, s)], shards, events, order + [s])
  {
    hide RoutedTo;
    var q' := q[s := Queue(q, s) + RoutedTo(shards, events, s)];
    forall t: ShardID
      ensures Queue(q', t) == Queue(q0, t) + if t in order + [s] then RoutedTo(shards, events, t) else []
    {
      assert Queue(q, t) == Queue(q0, t) + if t in order then RoutedTo(shards, events, t) else [];
      if t == s { assert Queue(q0, s) + [] == Queue(q0, s); }
    }
  }

  lemma DeliverNone(q: map<ShardID, seq<Event>>, shards: seq<ShardID>, events: seq<Event>)
    requires |shards| == |events|
    ensures Delivered(q, q, shards, events, [])
  {
    forall s: ShardID ensures Queue(q, s) == Queue(q, s) + [] {}
  }

  lemma CutOne(q0: map<ShardID, seq<Event>>, q: map<ShardID, seq<Event>>, shards: seq<ShardID>, events: seq<Event>,
               order: seq<ShardID>, s: ShardID, n: nat)
    requires |shards| == |events| && Delivered(q0, q, shards, events, order) && s !in order
    requires n < |RoutedTo(shards, events, s)|
    ensures CutShort(q0, q[s := Queue(q, s) + RoutedTo(shards, events, s)[..n]], shards, events, order, s, n)
  {
    hide RoutedTo, Delivered;
    var q' := q[s := Queue(q, s) + RoutedTo(shards, events, s)[..n]];
    DeliveredAt(q0, q, shards, events, order, s);
    assert Queue(q0, s) + [] == Queue(q0, s);
    forall t: ShardID | t != s
      ensures Queue(q', t) == Queue(q0, t) + if t in order then RoutedTo(shards, events, t) else []
    {
      DeliveredAt(q0, q, shards, events, order, t);
    }
  }

  lemma DeliveredAt(q0: map<ShardID, seq<Event>>, q: map<ShardID, seq<Event>>, shards: seq<ShardID>, events: seq<Event>,
                    order: seq<ShardID>, s: ShardID)
    requires |shards| == |events| && Delivered(q0, q, shards, events, order)
    ensures Queue(q, s) == Queue(q0, s) + if s in order then RoutedTo(shards, events, s) else []
  {}

  class IngestionServer {
    var queues: map<ShardID, seq<Event>> // one writer per shard, created when first needed

    constructor ()
      ensures queues == map[]
    {
      queues := map[];
    }

    /** ShardWriter.Write: everything, or a proper prefix when the caller gives up on a full ring. */
    method WriteShard(s: ShardID, events: seq<Event>) returns (ok: bool, n: nat)
      modifies this
      ensures n <= |events| && (ok <==> n == |events|)
      ensures queues == old(queues)[s := Queue(old(queues), s) + events[..n]]
    {
      n :| 0 <= n <= |events|;
      ok := n == |events|;
      queues := queues[s := Queue(queues, s) + events[..n]];
    }

    /**
     * handleBatch. A batch with one event type above 255 is refused whole. An accepted batch is delivered
     * whole: every shard gets its own events in order and together they are the batch. When a writer gives up,
     * the answer says none was accepted although some shards got all of their events and one a prefix.
     */
    method HandleBatch(hash: Bytes -> uint64, protos: seq<ProtoEvent>, stamps: seq<Stamp>)
      returns (resp: WriteResponse, ghost events: seq<Event>, ghost order: seq<ShardID>, ghost cut: ShardID,
               ghost n: nat)
      requires |stamps| == |protos|
      modifies this
      ensures |resp.partitionKeys| == |events| == |protos| && Distinct(order)
      ensures forall i :: 0 <= i < |protos| && protos[i].partitionKey != [] ==>
        resp.partitionKeys[i] == protos[i].partitionKey
      ensures forall i :: 0 <= i < |protos| && protos[i].partitionKey == [] ==> resp.partitionKeys[i] == stamps[i].uuid
      ensures forall i :: 0 <= i < |protos| ==> events[i].keyHash == hash(resp.partitionKeys[i])
      ensures forall i :: 0 <= i < |protos| ==> events[i].payload == protos[i].payload
      ensures forall i :: 0 <= i < |protos| && protos[i].timestampNs != 0 ==>
        events[i].timestamp == protos[i].timestampNs
      ensures forall i :: 0 <= i < |protos| && protos[i].timestampNs == 0 ==> events[i].timestamp == stamps[i].clock
      ensures resp.code in {0, 1, 2} && (resp.code == 1 <==> !TypesFit(protos))
      ensures resp.code == 1 ==> queues == old(queues)
      ensures resp.code == 0 ==> Delivered(old(queues), queues, Shards(hash, protos, resp.partitionKeys), events, order)
      ensures resp.code == 0 ==>
        multiset(Gathered(Shards(hash, protos, resp.partitionKeys), events, order)) == multiset(events)
      ensures resp.code == 2 ==>
        CutShort(old(queues), queues, Shards(hash, protos, resp.partitionKeys), events, order, cut, n)
      ensures resp.accepted == if resp.code == 0 then |protos| % 0x1_0000_0000 else 0
    {
      hide RoutedTo, Delivered, CutShort, Gathered, Shards;
      order, cut, n := [], 0, 0;
      var blockEvents, keys := ProtoEventsToBlock(hash, protos, stamps);
      events := blockEvents;
      for i := 0 to |protos|
        invariant forall j :: 0 <= j < i ==> protos[j].eventType <= 255
        invariant queues == old(queues)
      {
        if protos[i].eventType > 255 { return WriteResponse(0, keys, 1), events, order, cut, n; }
      }
      var groups := GroupByShard(hash, protos, keys, blockEvents);
      ghost var shards := Shards(hash, protos, keys);
      var left := groups.Keys;
      DeliverNone(queues, shards, events);
      while left != {}
        invariant left <= groups.Keys && Distinct(order) && forall s :: s in groups.Keys <==> s in left || s in order
        invariant forall s :: s in left ==> s !in order
        invariant Delivered(old(queues), queues, shards, events, order)
        decreases left
      {
        var s :| s in left;
        left := left - {s};
        ghost var q := queues;
        var ok, k := WriteShard(s, groups[s]);
        if !ok {
          CutOne(old(queues), q, shards, events, order, s, k);
          return WriteResponse(0, keys, 2), events, order, s, k;
        }
        assert groups[s][..k] == groups[s];
        DeliverOne(old(queues), q, shards, events, order, s);
        order := order + [s];
      }
      forall i | 0 <= i < |shards| ensures shards[i] in order { assert shards[i] in groups.Keys; }
      GroupsPartition(shards, events, order);
      resp := WriteResponse(|protos| % 0x1_0000_0000, keys, 0);
    }
  }
}
