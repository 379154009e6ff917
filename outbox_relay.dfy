/** One tick of an outbox publisher, shared by both services: select the oldest
    unpublished rows, route each by its event type, publish and mark the
    routable ones, and persist all marks with one SaveChanges. */
module OutboxRelay {
  import opened Common
  import opened OutboxMessages
  import opened Messaging

  /** Take(20). */
  const BatchSize: nat := 20

  /** A routing switch: event type to queue; a type it lacks routes nowhere. */
  type Routes = map<string, QueueName>

  /** Where a tick throws, if it does. PublishFault(k): the k-th publish of the
      tick (counting from 0), with its queue declaration, throws. */
  datatype TickFault = NoFault | ConnectFault | PublishFault(at: nat) | SaveFault

  /** The outbox table after a tick and the messages the tick handed to the broker. */
  datatype TickResult = TickResult(table: seq<OutboxRow>, sent: seq<Delivery>)

  /** Where(o => !o.Published), in table order. */
  function Unpublished(t: seq<OutboxRow>): (u: seq<OutboxRow>)
    ensures forall r :: r in u <==> r in t && !r.published
    ensures multiset(u) <= multiset(t)
  {
    if t == [] then []
    else
      assert t == [t[0]] + t[1..];
      (if t[0].published then [] else [t[0]]) + Unpublished(t[1..])
  }

  ghost predicate OldestFirst(s: seq<OutboxRow>)
  {
    forall i, j :: 0 <= i < j < |s| ==> s[i].occurredAt <= s[j].occurredAt
  }

  lemma HeadIsOldest(s: seq<OutboxRow>)
    requires OldestFirst(s) && s != []
    ensures forall e :: e in s ==> s[0].occurredAt <= e.occurredAt
  {
    forall e | e in s ensures s[0].occurredAt <= e.occurredAt {
      var k :| 0 <= k < |s| && s[k] == e;
    }
  }

  lemma PrependOldest(h: OutboxRow, s: seq<OutboxRow>)
    requires OldestFirst(s)
    requires forall e :: e in s ==> h.occurredAt <= e.occurredAt
    ensures OldestFirst([h] + s)
  {
    var r := [h] + s;
    forall i, j | 0 <= i < j < |r| ensures r[i].occurredAt <= r[j].occurredAt {
      if i == 0 {
        assert r[j] in s;
      } else {
        assert r[i] == s[i - 1] && r[j] == s[j - 1];
      }
    }
  }

  function InsertByAge(x: OutboxRow, s: seq<OutboxRow>): (r: seq<OutboxRow>)
    requires OldestFirst(s)
    ensures OldestFirst(r)
    ensures multiset(r) == multiset(s) + multiset{x}
  {
    if s == [] || x.occurredAt <= s[0].occurredAt then
      if s == [] then [x]
      else
        HeadIsOldest(s);
        PrependOldest(x, s);
        [x] + s
    else
      var head, tail := s[0], s[1..];
      assert s == [head] + tail;
      assert OldestFirst(tail) by {
        forall i, j | 0 <= i < j < |tail| ensures tail[i].occurredAt <= tail[j].occurredAt {
          assert tail[i] == s[i + 1] && tail[j] == s[j + 1];
        }
      }
      var rest := InsertByAge(x, tail);
      HeadIsOldest(s);
      forall e | e in rest ensures head.occurredAt <= e.occurredAt {
        assert e in multiset(rest);
        assert e == x || e in multiset(tail);
      }
      PrependOldest(head, rest);
      [head] + rest
  }

  /** OrderBy(o => o.OccurredAt), ties in table order. */
  function SortByAge(s: seq<OutboxRow>): (r: seq<OutboxRow>)
    ensures OldestFirst(r)
    ensures multiset(r) == multiset(s)
  {
    if s == [] then []
    else
      assert s == [s[0]] + s[1..];
      InsertByAge(s[0], SortByAge(s[1..]))
  }

  /** The waiting rows, sorted, are unpublished rows of the table, each at most
      as often as in the table. */
  lemma SortedWaiting(t: seq<OutboxRow>)
    ensures forall r :: r in SortByAge(Unpublished(t)) ==> r in t && !r.published
    ensures multiset(SortByAge(Unpublished(t))) <= multiset(t)
  {
    var sorted := SortByAge(Unpublished(t));
    forall r | r in sorted ensures r in t && !r.published {
      assert r in multiset(sorted);
      assert r in Unpublished(t);
    }
  }

  /** The first n rows of an ordered sequence are ordered, and come from it. */
  lemma OldestPrefix(s: seq<OutboxRow>, n: nat)
    requires n <= |s| && OldestFirst(s)
    ensures OldestFirst(s[..n]) && multiset(s[..n]) <= multiset(s)
    ensures forall r :: r in s[..n] ==> r in s
  {
    assert s == s[..n] + s[n..];
    forall i, j | 0 <= i < j < n ensures s[..n][i].occurredAt <= s[..n][j].occurredAt {
      assert s[..n][i] == s[i] && s[..n][j] == s[j];
    }
  }

  /** The batch one tick works on: the unpublished rows, oldest first, at most
      BatchSize of them. */
  function SelectBatch(t: seq<OutboxRow>): (b: seq<OutboxRow>)
    ensures |b| <= BatchSize && OldestFirst(b)
    ensures forall r :: r in b ==> r in t && !r.published
    ensures multiset(b) <= multiset(t)
  {
    var sorted := SortByAge(Unpublished(t));
    SortedWaiting(t);
    if |sorted| <= BatchSize then sorted
    else
      OldestPrefix(sorted, BatchSize);
      sorted[..BatchSize]
  }

  /** The batch holds the oldest unpublished rows: an unpublished row is left
      out only when the batch is full and every batch row is at least as old. */
  lemma BatchHoldsOldest(t: seq<OutboxRow>, r: OutboxRow)
    requires r in t && !r.published && r !in SelectBatch(t)
    ensures |SelectBatch(t)| == BatchSize
    ensures forall q :: q in SelectBatch(t) ==> q.occurredAt <= r.occurredAt
  {
    var sorted := SortByAge(Unpublished(t));
    assert r in multiset(Unpublished(t));
    assert r in sorted;
    var k :| 0 <= k < |sorted| && sorted[k] == r;
    assert |sorted| > BatchSize;
    assert k >= BatchSize;
    forall q | q in SelectBatch(t) ensures q.occurredAt <= r.occurredAt {
      var j :| 0 <= j < BatchSize && sorted[j] == q;
    }
  }

  /** The batch is empty exactly when no row is waiting. */
  lemma EmptyBatchMeansAllPublished(t: seq<OutboxRow>)
    ensures SelectBatch(t) == [] <==> forall r :: r in t ==> r.published
  {
    var u := Unpublished(t);
    var sorted := SortByAge(u);
    if SelectBatch(t) == [] {
      assert |sorted| == 0;
      assert multiset(u) == multiset{};
    } else {
      var q := SelectBatch(t)[0];
      assert q in SelectBatch(t);
    }
  }

  /** The message a routable row becomes. */
  function DeliveryOf(r: OutboxRow, routes: Routes): Delivery
    requires r.eventType in routes
  {
    Delivery(routes[r.eventType], r.payload)
  }

  /** The messages a pass over the rows publishes: one per routable row, in
      row order; a row the switch does not route is skipped. */
  function Sent(rows: seq<OutboxRow>, routes: Routes): (ds: seq<Delivery>)
    ensures |ds| <= |rows|
  {
    if rows == [] then []
    else
      var last := rows[|rows| - 1];
      Sent(rows[..|rows| - 1], routes) + (if last.eventType in routes then [DeliveryOf(last, routes)] else [])
  }

  /** The marks a pass over the rows keeps for SaveChanges: each routable row's
      id to the row marked as published. */
  function Pending(rows: seq<OutboxRow>, routes: Routes, now: Timestamp): (p: map<Guid, OutboxRow>)
    ensures forall id :: id in p ==> p[id].id == id && p[id].published && p[id].publishedAt == Some(now)
  {
    if rows == [] then map[]
    else
      var last := rows[|rows| - 1];
      var init := Pending(rows[..|rows| - 1], routes, now);
      if last.eventType in routes then init[last.id := MarkPublishedRow(last, now)] else init
  }

  /** Extending the pass by one row extends the deliveries and the marks by
      that row's, if it is routable. */
  lemma PassStep(rows: seq<OutboxRow>, i: nat, routes: Routes, now: Timestamp)
    requires i < |rows|
    ensures Sent(rows[..i + 1], routes)
      == Sent(rows[..i], routes) + (if rows[i].eventType in routes then [DeliveryOf(rows[i], routes)] else [])
    ensures Pending(rows[..i + 1], routes, now)
      == if rows[i].eventType in routes
         then Pending(rows[..i], routes, now)[rows[i].id := MarkPublishedRow(rows[i], now)]
         else Pending(rows[..i], routes, now)
  {
    assert rows[..i + 1][..i] == rows[..i];
  }

  /** What a pass over a prefix sends is a prefix of what the whole pass sends. */
  lemma {:induction false} SentPrefix(rows: seq<OutboxRow>, i: nat, routes: Routes)
    requires i <= |rows|
    ensures |Sent(rows[..i], routes)| <= |Sent(rows, routes)|
    ensures Sent(rows[..i], routes) == Sent(rows, routes)[..|Sent(rows[..i], routes)|]
    decreases |rows| - i
  {
    if i == |rows| {
      assert rows[..i] == rows;
    } else {
      SentPrefix(rows, i + 1, routes);
      PassStep(rows, i, routes, 0);
      var a := Sent(rows[..i], routes);
      var b := Sent(rows[..i + 1], routes);
      var c := Sent(rows, routes);
      assert a == b[..|a|];
      assert c[..|b|][..|a|] == c[..|a|];
    }
  }

  /** A pass that stops at a routable row has sent a proper prefix of what the
      whole pass sends. */
  lemma StopsBeforeRoutable(rows: seq<OutboxRow>, i: nat, routes: Routes)
    requires i < |rows| && rows[i].eventType in routes
    ensures |Sent(rows[..i], routes)| < |Sent(rows, routes)|
    ensures Sent(rows[..i], routes) == Sent(rows, routes)[..|Sent(rows[..i], routes)|]
  {
    PassStep(rows, i, routes, 0);
    SentPrefix(rows, i + 1, routes);
    SentPrefix(rows, i, routes);
  }

  /** The marks are exactly the routable rows', each marked as published. */
  lemma {:induction false} PendingMarksRoutable(rows: seq<OutboxRow>, routes: Routes, now: Timestamp)
    ensures forall r :: r in rows && r.eventType in routes ==> r.id in Pending(rows, routes, now)
    ensures forall id :: id in Pending(rows, routes, now) ==>
      exists r :: r in rows && r.eventType in routes && r.id == id
        && Pending(rows, routes, now)[id] == MarkPublishedRow(r, now)
  {
    if rows != [] {
      var init := rows[..|rows| - 1];
      var last := rows[|rows| - 1];
      assert rows == init + [last];
      PendingMarksRoutable(init, routes, now);
      var p := Pending(rows, routes, now);
      forall id | id in p
        ensures exists r :: r in rows && r.eventType in routes && r.id == id && p[id] == MarkPublishedRow(r, now)
      {
        if id == last.id && last.eventType in routes {
          assert last in rows;
        } else {
          assert id in Pending(init, routes, now);
          var r :| r in init && r.eventType in routes && r.id == id
            && Pending(init, routes, now)[id] == MarkPublishedRow(r, now);
          assert r in rows;
        }
      }
    }
  }

  /** SaveChanges of the marks: each row with a mark is replaced by it. */
  function ApplyPending(t: seq<OutboxRow>, pending: map<Guid, OutboxRow>): (t': seq<OutboxRow>)
    ensures |t'| == |t|
  {
    seq(|t|, i requires 0 <= i < |t| => if t[i].id in pending then pending[t[i].id] else t[i])
  }

  /** What one tick does to the outbox table and to the broker. */
  function Tick(t: seq<OutboxRow>, routes: Routes, fault: TickFault, now: Timestamp): (r: TickResult)
    ensures |r.table| == |t| && |r.sent| <= BatchSize
    ensures forall i :: 0 <= i < |t| ==>
      r.table[i].id == t[i].id && (r.table[i] == t[i] || (r.table[i].published && r.table[i].publishedAt == Some(now)))
    ensures fault == ConnectFault || fault == SaveFault ==> r.table == t
  {
    var batch := SelectBatch(t);
    if batch == [] || fault == ConnectFault then TickResult(t, [])
    else
      var sent := Sent(batch, routes);
      if fault.PublishFault? && fault.at < |sent| then TickResult(t, sent[..fault.at])
      else if fault == SaveFault then TickResult(t, sent)
      else TickResult(ApplyPending(t, Pending(batch, routes, now)), sent)
  }

  /** The publishing loop of a tick over its batch: each routable row is
      published and its mark kept, until the publish `fault` names throws.
      `completed` tells whether the loop ran to the end. */
  method PublishBatch(batch: seq<OutboxRow>, routes: Routes, broker: Broker, fault: TickFault, now: Timestamp)
    returns (completed: bool, pending: map<Guid, OutboxRow>)
    requires forall r :: r in batch ==> r.WellFormed()
    modifies broker
    ensures completed <==> !(fault.PublishFault? && fault.at < |Sent(batch, routes)|)
    ensures completed ==> pending == Pending(batch, routes, now)
    ensures completed ==> broker.log == old(broker.log) + Sent(batch, routes)
    ensures !completed ==>
      (fault.PublishFault? && fault.at < |Sent(batch, routes)|
       && broker.log == old(broker.log) + Sent(batch, routes)[..fault.at])
    ensures broker.acks == old(broker.acks)
  {
    pending := map[];
    var publishes := 0;
    var i := 0;
    while i < |batch|
      invariant 0 <= i <= |batch|
      invariant publishes == |Sent(batch[..i], routes)|
      invariant pending == Pending(batch[..i], routes, now)
      invariant broker.log == old(broker.log) + Sent(batch[..i], routes)
      invariant broker.acks == old(broker.acks)
      invariant !(fault.PublishFault? && fault.at < publishes)
    {
      var msg := batch[i];
      PassStep(batch, i, routes, now);
      if msg.eventType in routes {
        var queue := routes[msg.eventType];
        if fault == PublishFault(publishes) {
          StopsBeforeRoutable(batch, i, routes);
          return false, pending;
        }
        broker.Publish(Delivery(queue, msg.payload));
        var entity := new OutboxMessage.Load(msg);
        entity.MarkAsPublished(now);
        pending := pending[entity.id := entity.Row()];
        publishes := publishes + 1;
      }
      i := i + 1;
    }
    assert batch[..i] == batch;
    completed := true;
  }

  /** One iteration of the publisher loop. The table is what the tick's query
      reads; the result is what its SaveChanges commits (the same table when
      the tick throws). */
  method RunTick(t: seq<OutboxRow>, routes: Routes, broker: Broker, fault: TickFault, now: Timestamp)
    returns (t': seq<OutboxRow>)
    requires TableWellFormed(t)
    modifies broker
    ensures t' == Tick(t, routes, fault, now).table
    ensures broker.log == old(broker.log) + Tick(t, routes, fault, now).sent
    ensures broker.acks == old(broker.acks)
  {
    var batch := SelectBatch(t);
    if |batch| == 0 || fault == ConnectFault {
      return t;
    }
    var completed, pending := PublishBatch(batch, routes, broker, fault, now);
    if !completed || fault == SaveFault {
      return t;
    }
    t' := ApplyPending(t, pending);
  }
}

/** What a tick guarantees: which rows it marks, that a marked row's message
    went to the broker first, and that a failed tick resends. */
module OutboxRelayFacts {
  import opened Common
  import opened OutboxMessages
  import opened Messaging
  import opened OutboxRelay

  /** The deliveries of a pass are exactly those of its routable rows. */
  lemma {:induction false} SentOfRoutable(rows: seq<OutboxRow>, routes: Routes)
    ensures forall r :: r in rows && r.eventType in routes ==> DeliveryOf(r, routes) in Sent(rows, routes)
    ensures forall d :: d in Sent(rows, routes) ==>
      exists r :: r in rows && r.eventType in routes && d == DeliveryOf(r, routes)
  {
    if rows != [] {
      var init := rows[..|rows| - 1];
      var last := rows[|rows| - 1];
      assert rows == init + [last];
      SentOfRoutable(init, routes);
    }
  }

  /** A pass over rows none of which is routable sends and marks nothing. */
  lemma {:induction false} NothingRoutable(rows: seq<OutboxRow>, routes: Routes, now: Timestamp)
    requires forall r :: r in rows ==> r.eventType !in routes
    ensures Sent(rows, routes) == [] && Pending(rows, routes, now) == map[]
  {
    if rows != [] {
      var init := rows[..|rows| - 1];
      assert rows == init + [rows[|rows| - 1]];
      NothingRoutable(init, routes, now);
    }
  }

  /** Committing the marks of a pass over rows of the table marks exactly the
      routable ones among those rows and leaves every other row as it was. */
  lemma ApplyPendingRows(t: seq<OutboxRow>, rows: seq<OutboxRow>, routes: Routes, now: Timestamp)
    requires UniqueIds(t)
    requires forall r :: r in rows ==> r in t
    ensures forall i :: 0 <= i < |t| ==>
      ApplyPending(t, Pending(rows, routes, now))[i]
        == if t[i] in rows && t[i].eventType in routes then MarkPublishedRow(t[i], now) else t[i]
  {
    var p := Pending(rows, routes, now);
    PendingMarksRoutable(rows, routes, now);
    forall i | 0 <= i < |t|
      ensures ApplyPending(t, p)[i]
        == if t[i] in rows && t[i].eventType in routes then MarkPublishedRow(t[i], now) else t[i]
    {
      if t[i].id in p {
        var r :| r in rows && r.eventType in routes && r.id == t[i].id && p[t[i].id] == MarkPublishedRow(r, now);
        var k :| 0 <= k < |t| && t[k] == r;
        assert k == i;
      }
    }
  }

  /** Whether a tick reaches its SaveChanges. */
  predicate Commits(t: seq<OutboxRow>, routes: Routes, fault: TickFault)
  {
    fault == NoFault || (fault.PublishFault? && fault.at >= |Sent(SelectBatch(t), routes)|)
  }

  /** A tick changes a row only by marking it, and marks exactly the routable
      rows of its batch when it commits; rows outside the batch, unroutable
      rows and every row of a failed tick stay as they were. No row is added
      or removed. */
  lemma TickRows(t: seq<OutboxRow>, routes: Routes, fault: TickFault, now: Timestamp)
    requires UniqueIds(t)
    ensures |Tick(t, routes, fault, now).table| == |t|
    ensures forall i :: 0 <= i < |t| ==>
      Tick(t, routes, fault, now).table[i]
        == if Commits(t, routes, fault) && t[i] in SelectBatch(t) && t[i].eventType in routes
           then MarkPublishedRow(t[i], now) else t[i]
  {
    var batch := SelectBatch(t);
    if batch == [] {
      NothingRoutable(batch, routes, now);
      assert forall i :: 0 <= i < |t| ==> t[i] !in batch;
    } else if fault != ConnectFault {
      ApplyPendingRows(t, batch, routes, now);
    }
  }

  /** A tick keeps the table's invariant. */
  lemma TickKeepsTable(t: seq<OutboxRow>, routes: Routes, fault: TickFault, now: Timestamp)
    requires TableWellFormed(t)
    ensures TableWellFormed(Tick(t, routes, fault, now).table)
  {
    var t' := Tick(t, routes, fault, now).table;
    TickRows(t, routes, fault, now);
    assert forall i :: 0 <= i < |t| ==> t'[i].id == t[i].id && t'[i].WellFormed();
  }

  /** The no-gap invariant: every published row is routable and its message is
      in the broker's log. */
  ghost predicate Delivered(t: seq<OutboxRow>, routes: Routes, log: seq<Delivery>)
  {
    forall r :: r in t && r.published ==> r.eventType in routes && DeliveryOf(r, routes) in log
  }

  /** A tick keeps the no-gap invariant: a row it marks was sent in that tick. */
  lemma TickKeepsDelivered(t: seq<OutboxRow>, routes: Routes, fault: TickFault, now: Timestamp, log: seq<Delivery>)
    requires UniqueIds(t) && Delivered(t, routes, log)
    ensures Delivered(Tick(t, routes, fault, now).table, routes, log + Tick(t, routes, fault, now).sent)
  {
    var res := Tick(t, routes, fault, now);
    var batch := SelectBatch(t);
    TickRows(t, routes, fault, now);
    SentOfRoutable(batch, routes);
    forall r | r in res.table && r.published
      ensures r.eventType in routes && DeliveryOf(r, routes) in log + res.sent
    {
      var i :| 0 <= i < |res.table| && res.table[i] == r;
      if Commits(t, routes, fault) && t[i] in batch && t[i].eventType in routes {
        assert DeliveryOf(t[i], routes) in res.sent;
      } else {
        assert t[i] in t;
      }
    }
  }

  /** A tick that commits publishes every routable row of its batch, in batch
      order, and marks each one. */
  lemma CommittedTickPublishesRoutable(t: seq<OutboxRow>, routes: Routes, fault: TickFault, now: Timestamp)
    requires UniqueIds(t) && Commits(t, routes, fault)
    ensures Tick(t, routes, fault, now).sent == Sent(SelectBatch(t), routes)
    ensures forall i :: 0 <= i < |t| && t[i] in SelectBatch(t) && t[i].eventType in routes ==>
      Tick(t, routes, fault, now).table[i].published
  {
    TickRows(t, routes, fault, now);
    if SelectBatch(t) == [] {
      NothingRoutable(SelectBatch(t), routes, now);
    }
  }

  /** A failed tick persists no mark, so the next tick sends the same messages
      again: delivery is at least once, with duplicates. */
  lemma FailedTickResends(t: seq<OutboxRow>, routes: Routes, fault: TickFault, now: Timestamp, later: Timestamp)
    requires !Commits(t, routes, fault)
    ensures Tick(t, routes, fault, now).table == t
    ensures Tick(t, routes, fault, now).sent
      == Tick(Tick(t, routes, fault, now).table, routes, NoFault, later).sent[..|Tick(t, routes, fault, now).sent|]
  {
    FailedTickSendsPrefix(t, routes, fault, now);
    FaultFreeTickSendsPass(t, routes, later);
  }

  /** A tick that does not commit leaves the table and has sent a prefix of
      the pass over its batch. */
  lemma FailedTickSendsPrefix(t: seq<OutboxRow>, routes: Routes, fault: TickFault, now: Timestamp)
    requires !Commits(t, routes, fault)
    ensures Tick(t, routes, fault, now).table == t
    ensures var sent := Tick(t, routes, fault, now).sent;
      |sent| <= |Sent(SelectBatch(t), routes)| && sent == Sent(SelectBatch(t), routes)[..|sent|]
  {
    var batch := SelectBatch(t);
    var sent := Sent(batch, routes);
    var k := if batch == [] || fault == ConnectFault then 0
             else if fault.PublishFault? && fault.at < |sent| then fault.at
             else |sent|;
    assert Tick(t, routes, fault, now) == TickResult(t, sent[..k]);
  }

  /** A tick that does not throw sends the whole pass over its batch. */
  lemma FaultFreeTickSendsPass(t: seq<OutboxRow>, routes: Routes, now: Timestamp)
    ensures Tick(t, routes, NoFault, now).sent == Sent(SelectBatch(t), routes)
  {
    if SelectBatch(t) == [] {
      assert Sent(SelectBatch(t), routes) == [];
    }
  }

  /** Head-of-line blocking: when no row of the batch is routable, every tick
      sends nothing and changes nothing, so the same batch comes back. */
  lemma UnroutableBatchIsStuck(t: seq<OutboxRow>, routes: Routes, fault: TickFault, now: Timestamp)
    requires forall r :: r in SelectBatch(t) ==> r.eventType !in routes
    ensures Tick(t, routes, fault, now) == TickResult(t, [])
  {
    var batch := SelectBatch(t);
    NothingRoutable(batch, routes, now);
    if batch != [] && fault != ConnectFault {
      assert ApplyPending(t, map[]) == t;
    }
  }
}
