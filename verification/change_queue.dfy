/** What stands between the cluster cache, which must not be kept waiting, and a target, which may be busy: a queue with
    at most one entry a resource, which absorbs every further change to it. */
module ChangeQueues {
  import opened Kubernetes

  /** One folded change for each waiting key, and the keys in the order they will be served. */
  datatype QueueState = QueueState(order: seq<ResourceKey>, queued: map<ResourceKey, ResourceChange>)

  const EMPTY_QUEUE := QueueState([], map[])

  ghost predicate Indexed(q: QueueState) {
    && (forall i, j :: 0 <= i < j < |q.order| ==> q.order[i] != q.order[j])
    && (forall k :: k in q.order <==> k in q.queued)
  }

  /** What the loop's select picks next. A ready reader is picked only while something is queued. */
  datatype Event = Arrive(change: ResourceChange) | ReaderReady | Cancelled

  datatype Delivery = Delivery(key: ResourceKey, change: ResourceChange)

  datatype Service = Service(final: QueueState, delivered: seq<Delivery>)

  /** Whatever reaches the queue came from the cache, which never announces a change with neither side. */
  ghost predicate FromCache(events: seq<Event>) {
    forall e :: e in events && e.Arrive? ==> e.change.HasSide()
  }

  function Accept(q: QueueState, change: ResourceChange): QueueState
    requires change.HasSide()
  {
    var key := change.Key();
    if key in q.queued then
      q.(queued := q.queued[key := q.queued[key].(newRes := change.newRes)])
    else
      QueueState(q.order + [key], q.queued[key := change])
  }

  function Send(q: QueueState): QueueState
    requires q.order != []
  {
    QueueState(q.order[1..], q.queued - {q.order[0]})
  }

  ghost function Serve(q: QueueState, events: seq<Event>): Service
    requires Indexed(q) && FromCache(events)
    decreases |events|
  {
    if events == [] then Service(q, [])
    else
      StepsStayIndexed(q, events[0]);
      match events[0]
      case Cancelled => Service(q, [])
      case Arrive(change) => Serve(Accept(q, change), events[1..])
      case ReaderReady =>
        if q.order == [] then Serve(q, events[1..])
        else
          var rest := Serve(Send(q), events[1..]);
          Service(rest.final, [Delivery(q.order[0], q.queued[q.order[0]])] + rest.delivered)
  }

  lemma StepsStayIndexed(q: QueueState, e: Event)
    requires Indexed(q)
    ensures e.Arrive? && e.change.HasSide() ==> Indexed(Accept(q, e.change))
    ensures q.order != [] ==> Indexed(Send(q)) && q.order[0] in q.queued
  {
    if q.order != [] {
      assert q.order[0] in q.order;
      forall k ensures k in q.order[1..] <==> k in Send(q).queued {
        assert k in q.order <==> k == q.order[0] || k in q.order[1..];
      }
    }
  }

  /** However changes and reads interleave, the queue stays an insertion-ordered map: at most one entry a resource. */
  lemma {:induction false} QueueStaysIndexed(q: QueueState, events: seq<Event>)
    requires Indexed(q) && FromCache(events)
    ensures Indexed(Serve(q, events).final)
    decreases |events|
  {
    if events != [] {
      StepsStayIndexed(q, events[0]);
      match events[0]
      case Cancelled =>
      case Arrive(change) => QueueStaysIndexed(Accept(q, change), events[1..]);
      case ReaderReady => QueueStaysIndexed(if q.order == [] then q else Send(q), events[1..]);
    }
  }

  /** Nothing that would come after the cancellation has any effect. */
  lemma {:induction false} CancellingEndsService(q: QueueState, before: seq<Event>, after: seq<Event>)
    requires Indexed(q) && FromCache(before + [Cancelled] + after) && FromCache(before)
    ensures Serve(q, before + [Cancelled] + after) == Serve(q, before)
    decreases |before|
  {
    var events := before + [Cancelled] + after;
    if before == [] {
      assert events[0] == Cancelled;
    } else {
      StepsStayIndexed(q, before[0]);
      assert events[1..] == before[1..] + [Cancelled] + after && before[0] in before;
      match before[0]
      case Cancelled =>
      case Arrive(change) => CancellingEndsService(Accept(q, change), before[1..], after);
      case ReaderReady => CancellingEndsService(if q.order == [] then q else Send(q), before[1..], after);
    }
  }

  method Run(events: seq<Event>)
    returns (order: seq<ResourceKey>, queued: map<ResourceKey, ResourceChange>, delivered: seq<Delivery>)
    requires FromCache(events)
    ensures Service(QueueState(order, queued), delivered) == Serve(EMPTY_QUEUE, events)
  {
    order, queued, delivered := [], map[], [];
    ghost var expected := Serve(EMPTY_QUEUE, events);
    assert expected.delivered == delivered + expected.delivered;
    var i := 0;
    while i < |events|
      invariant i <= |events|
      invariant Indexed(QueueState(order, queued))
      invariant FromCache(events[i..])
      invariant expected.final == Serve(QueueState(order, queued), events[i..]).final
      invariant expected.delivered == delivered + Serve(QueueState(order, queued), events[i..]).delivered
    {
      StepsStayIndexed(QueueState(order, queued), events[i]);
      assert events[i..][1..] == events[i + 1..];
      match events[i] {
        case Cancelled =>
          return;
        case Arrive(change) =>
          var key := change.Key();
          if key in queued {
            var existing := queued[key].(newRes := change.newRes);
            queued := queued[key := existing];
          } else {
            queued := queued[key := change];
            order := order + [key];
          }
        case ReaderReady =>
          if |order| > 0 {
            var next := queued[order[0]];
            delivered := delivered + [Delivery(order[0], next)];
            queued := queued - {order[0]};
            order := order[1..];
          }
      }
      i := i + 1;
    }
  }

  // ---------- fairness ----------

  function Sends(events: seq<Event>): nat {
    if events == [] then 0 else (if events[0].ReaderReady? then 1 else 0) + Sends(events[1..])
  }

  /** After some sends, the resource that waited at position i was the i-th delivered or has moved up by that many. */
  ghost predicate ServedInTurn(served: Service, key: ResourceKey, i: nat, sends: nat) {
    if sends > i then
      |served.delivered| > i && served.delivered[i].key == key
    else
      && |served.delivered| == sends
      && i - sends < |served.final.order|
      && served.final.order[i - sends] == key
  }

  /** A resource waiting at position i is delivered by exactly the (i+1)-th send, however many changes arrive
      meanwhile; until then every send moves it one place forward. */
  lemma {:induction false} DeliveredInTurn(q: QueueState, events: seq<Event>, i: nat)
    requires Indexed(q) && FromCache(events) && Cancelled !in events
    requires i < |q.order|
    ensures ServedInTurn(Serve(q, events), q.order[i], i, Sends(events))
    decreases |events|
  {
    if events != [] {
      var rest := events[1..];
      assert Cancelled !in rest;
      StepsStayIndexed(q, events[0]);
      match events[0]
      case Arrive(change) =>
        var accepted := Accept(q, change);
        assert accepted.order[i] == q.order[i];
        DeliveredInTurn(accepted, rest, i);
      case ReaderReady =>
        var after := Serve(Send(q), rest);
        assert Serve(q, events).delivered[1..] == after.delivered;
        if i > 0 {
          assert Send(q).order[i - 1] == q.order[i];
          DeliveredInTurn(Send(q), rest, i - 1);
        }
    }
  }

  // ---------- replaying what was delivered ----------

  /** The arriving changes are announced one after another by a cluster that starts out as live. */
  ghost predicate Follows(live: World, events: seq<Event>)
    decreases |events|
  {
    events == [] ||
    match events[0]
    case Cancelled => true
    case ReaderReady => Follows(live, events[1..])
    case Arrive(change) =>
      && change.HasSide() && Announces(live, change.Key(), change)
      && Follows(Install(live, change.Key(), change.newRes), events[1..])
  }

  /** The cluster after everything the queue accepted. */
  ghost function LiveAfter(live: World, events: seq<Event>): World
    requires FromCache(events)
    decreases |events|
  {
    if events == [] then live
    else match events[0]
      case Cancelled => live
      case ReaderReady => LiveAfter(live, events[1..])
      case Arrive(change) => LiveAfter(Install(live, change.Key(), change.newRes), events[1..])
  }

  /** Deliveries are a run of announcements too, although one may have neither side. */
  ghost predicate FollowsDeliveries(seen: World, delivered: seq<Delivery>)
    decreases |delivered|
  {
    delivered == [] ||
    (var d := delivered[0];
     Announces(seen, d.key, d.change) && FollowsDeliveries(Install(seen, d.key, d.change.newRes), delivered[1..]))
  }

  function Replay(seen: World, delivered: seq<Delivery>): World
    decreases |delivered|
  {
    if delivered == [] then seen
    else Replay(Install(seen, delivered[0].key, delivered[0].change.newRes), delivered[1..])
  }

  /** What the reader has seen trails the live cluster by exactly the pending folds: each goes from what was seen
      to what is live, and everything else is up to date. */
  ghost predicate Trails(seen: World, live: World, q: QueueState) {
    && (forall k :: k in q.queued ==>
          q.queued[k].About(k) && q.queued[k].oldRes == Lookup(seen, k) && q.queued[k].newRes == Lookup(live, k))
    && (forall k :: k !in q.queued ==> Lookup(seen, k) == Lookup(live, k))
  }

  lemma AcceptTrails(seen: World, live: World, q: QueueState, change: ResourceChange)
    requires Trails(seen, live, q) && change.HasSide() && Announces(live, change.Key(), change)
    ensures Trails(seen, Install(live, change.Key(), change.newRes), Accept(q, change))
  {
  }

  lemma SendTrails(seen: World, live: World, q: QueueState)
    requires Indexed(q) && Trails(seen, live, q) && q.order != []
    ensures var k := q.order[0];
            k in q.queued && Announces(seen, k, q.queued[k])
            && Trails(Install(seen, k, q.queued[k].newRes), live, Send(q))
  {
    assert q.order[0] in q.order;
  }

  /** At every point, replaying what was delivered and then the pending folds reaches the same resources as
      replaying every accepted change. */
  lemma {:induction false} FoldingLosesNothing(seen: World, live: World, q: QueueState, events: seq<Event>)
    requires Indexed(q) && FromCache(events) && Trails(seen, live, q) && Follows(live, events)
    ensures var served := Serve(q, events);
            && FollowsDeliveries(seen, served.delivered)
            && Trails(Replay(seen, served.delivered), LiveAfter(live, events), served.final)
    decreases |events|
  {
    if events != [] {
      StepsStayIndexed(q, events[0]);
      match events[0]
      case Cancelled =>
      case Arrive(change) =>
        AcceptTrails(seen, live, q, change);
        FoldingLosesNothing(seen, Install(live, change.Key(), change.newRes), Accept(q, change), events[1..]);
      case ReaderReady =>
        if q.order == [] {
          FoldingLosesNothing(seen, live, q, events[1..]);
        } else {
          SendTrails(seen, live, q);
          var k := q.order[0];
          FoldingLosesNothing(Install(seen, k, q.queued[k].newRes), live, Send(q), events[1..]);
          assert Serve(q, events).delivered[1..] == Serve(Send(q), events[1..]).delivered;
        }
    }
  }

  /** A drained queue has delivered the live cluster. */
  lemma DrainedReaderIsUpToDate(seen: World, live: World, q: QueueState)
    requires Indexed(q) && Trails(seen, live, q) && q.order == []
    ensures seen == live
  {
    forall k ensures Lookup(seen, k) == Lookup(live, k) && (k in seen <==> k in live) {
      assert k !in q.order;
    }
    assert forall k :: k in seen ==> Lookup(seen, k) == Lookup(live, k) && seen[k] == live[k];
  }
}
