/**
 The event bus: publishing fans a message out to the bounded queue of every subscriber
 of the channel and keeps the newest payload of each event for subscribers to come.

 `Publisher` is the bus as it runs, one operation at a time under its lock. `Step` is the
 same on values, with the histories that the theorems about whole runs speak of; every
 operation of a `Session`, a publisher with its subscriptions, is one such step.
 */
module EventBus {
  import opened Common

  const QUEUE_MAXSIZE := 200

  /** Payloads are only stored and handed on. */
  type Payload = int

  datatype Message = Message(event: string, data: Payload)

  // ------------------------------------------------------------- values

  /** `d[event] = data` on a dictionary in insertion order. */
  function Assign(entries: seq<Message>, m: Message): seq<Message> {
    if entries == [] then [m]
    else if entries[0].event == m.event then [m] + entries[1..]
    else [entries[0]] + Assign(entries[1..], m)
  }

  function Fold(entries: seq<Message>, ms: seq<Message>): seq<Message> {
    if ms == [] then entries else Assign(Fold(entries, ms[..|ms| - 1]), ms[|ms| - 1])
  }

  /** What a dictionary holds for an event. */
  function ValueOf(entries: seq<Message>, event: string): Option<Payload> {
    if entries == [] then None
    else if entries[0].event == event then Some(entries[0].data)
    else ValueOf(entries[1..], event)
  }

  predicate Distinct(entries: seq<Message>) {
    forall i, j | 0 <= i < j < |entries| :: entries[i].event != entries[j].event
  }

  /** A queue after the newest message was offered: what does not fit empties it first. */
  function Offered(items: seq<Message>, m: Message): seq<Message> {
    if |items| < QUEUE_MAXSIZE then items + [m] else [m]
  }

  function EntriesOf(latest: map<string, seq<Message>>, channel: string): seq<Message> {
    if channel in latest then latest[channel] else []
  }

  // ------------------------------------------------------------ the bus itself

  class Queue {
    var items: seq<Message>

    constructor ()
      ensures items == []
    {
      items := [];
    }

    /** `put_nowait`; false stands for the `QueueFull` it raises. */
    method PutNowait(m: Message) returns (ok: bool)
      modifies this
      ensures ok == (|old(items)| < 200)
      ensures items == if ok then old(items) + [m] else old(items)
    {
      ok := |items| < QUEUE_MAXSIZE;
      if ok {
        items := items + [m];
      }
    }

    method Get() returns (m: Message)
      requires items != []
      modifies this
      ensures old(items) == [m] + items
    {
      m := items[0];
      items := items[1..];
    }
  }

  class Publisher {
    var subscribers: map<string, seq<Queue>>
    var latest: map<string, seq<Message>>

    constructor ()
      ensures subscribers == map[] && latest == map[] && Valid()
    {
      subscribers := map[];
      latest := map[];
    }

    /** No channel has an empty list, and no queue is listed twice. */
    ghost predicate Valid()
      reads this
    {
      && (forall c | c in subscribers :: subscribers[c] != [])
      && (forall c, i, j | c in subscribers && 0 <= i < j < |subscribers[c]| :: subscribers[c][i] != subscribers[c][j])
      && (forall c, d, i, j | c in subscribers && d in subscribers && c != d
            && 0 <= i < |subscribers[c]| && 0 <= j < |subscribers[d]| :: subscribers[c][i] != subscribers[d][j])
      && (forall c | c in latest :: Distinct(latest[c]))
    }

    /** The queues that receive what is published on a channel. */
    function Listening(channel: string): seq<Queue>
      reads this
    {
      if channel in subscribers then subscribers[channel] else []
    }

    /** A queue is listed for one channel. */
    lemma ListedOnce(q: Queue, c: string, d: string)
      requires Valid() && q in Listening(c) && q in Listening(d)
      ensures c == d
    {
    }

    /** Never reports a dead queue: an emptied queue accepts a message. */
    static method OfferNewest(queue: Queue, m: Message) returns (ok: bool)
      modifies queue
      ensures ok && queue.items == Offered(old(queue.items), m)
    {
      ok := queue.PutNowait(m);
      if !ok {
        while queue.items != []
          decreases |queue.items|
        {
          queue.items := queue.items[1..];
        }
        ok := queue.PutNowait(m);
      }
    }

    method Remember(channel: string, m: Message)
      requires Valid()
      modifies this`latest
      ensures Valid() && latest == old(latest)[channel := Assign(EntriesOf(old(latest), channel), m)]
    {
      AssignKeepsDistinct(EntriesOf(latest, channel), m);
      latest := latest[channel := Assign(EntriesOf(latest, channel), m)];
    }

    /** The program also removes the queues that `OfferNewest` reports dead; there are none. */
    method Publish(channel: string, event: string, data: Payload)
      requires Valid()
      modifies this, Listening(channel)
      ensures Valid() && subscribers == old(subscribers)
      ensures latest == old(latest)[channel := Assign(EntriesOf(old(latest), channel), Message(event, data))]
      ensures forall c :: Listening(c) == old(Listening(c))
      ensures forall q | q in Listening(channel) :: q.items == Offered(old(q.items), Message(event, data))
    {
      Remember(channel, Message(event, data));
      ghost var remembered := latest;
      var queues := Listening(channel);
      if queues == [] {
        return;
      }
      var m := Message(event, data);
      for i := 0 to |queues|
        invariant Valid() && subscribers == old(subscribers) && latest == remembered
        invariant forall j | 0 <= j < i :: queues[j].items == Offered(old(queues[j].items), m)
        invariant forall j | i <= j < |queues| :: queues[j].items == old(queues[j].items)
      {
        var alive := OfferNewest(queues[i], m);
        assert alive;
      }
    }

    /** A new queue and the snapshot its reader is shown first. */
    method Subscribe(channel: string) returns (queue: Queue, snapshot: seq<Message>)
      requires Valid() && forall c, i | c in subscribers && 0 <= i < |subscribers[c]| :: allocated(subscribers[c][i])
      modifies this
      ensures Valid() && fresh(queue) && queue.items == [] && latest == old(latest)
      ensures subscribers == old(subscribers)[channel := old(Listening(channel)) + [queue]]
      ensures Listening(channel) == old(Listening(channel)) + [queue]
      ensures forall c | c != channel :: Listening(c) == old(Listening(c))
      ensures snapshot == EntriesOf(latest, channel)
    {
      queue := new Queue();
      subscribers := subscribers[channel := Listening(channel) + [queue]];
      snapshot := EntriesOf(latest, channel);
    }

    /** Leaving twice, or after the channel is gone, changes nothing. */
    method Unsubscribe(channel: string, queue: Queue)
      requires Valid()
      modifies this
      ensures Valid() && latest == old(latest)
      ensures Listening(channel) == Without(old(Listening(channel)), [queue])
      ensures forall c | c != channel :: Listening(c) == old(Listening(c))
    {
      if channel in subscribers {
        var queues := Without(subscribers[channel], [queue]);
        subscribers := if queues == [] then subscribers - {channel} else subscribers[channel := queues];
      }
    }
  }

  /** A list without some queues; every queue is listed once. */
  function Without(queues: seq<Queue>, gone: seq<Queue>): (r: seq<Queue>)
    ensures forall i | 0 <= i < |r| :: r[i] in queues && r[i] !in gone
    ensures forall i | 0 <= i < |queues| :: queues[i] !in gone ==> queues[i] in r
    ensures (forall i, j | 0 <= i < j < |queues| :: queues[i] != queues[j]) ==>
              forall i, j | 0 <= i < j < |r| :: r[i] != r[j]
  {
    if queues == [] then []
    else (if queues[0] in gone then [] else [queues[0]]) + Without(queues[1..], gone)
  }

  lemma {:induction false} AssignKeepsDistinct(entries: seq<Message>, m: Message)
    requires Distinct(entries)
    ensures Distinct(Assign(entries, m))
    ensures forall i | 0 <= i < |Assign(entries, m)| ::
              || Assign(entries, m)[i].event == m.event
              || exists j | 0 <= j < |entries| :: entries[j].event == Assign(entries, m)[i].event
  {
    if entries != [] && entries[0].event != m.event {
      AssignKeepsDistinct(entries[1..], m);
      var r := Assign(entries[1..], m);
      forall i | 0 <= i < |r|
        ensures r[i].event != entries[0].event
      {
        if r[i].event != m.event {
          var j :| 0 <= j < |entries[1..]| && entries[1..][j].event == r[i].event;
          assert entries[j + 1].event == r[i].event;
        }
      }
      forall i | 0 <= i < |Assign(entries, m)|
        ensures Assign(entries, m)[i].event == m.event
                || exists j | 0 <= j < |entries| :: entries[j].event == Assign(entries, m)[i].event
      {
        if i > 0 && r[i - 1].event != m.event {
          var j :| 0 <= j < |entries[1..]| && entries[1..][j].event == r[i - 1].event;
          assert entries[j + 1].event == r[i - 1].event;
        }
      }
    }
  }

  // ------------------------------------------------------------ runs of the bus

  /** A reader with its history: everything published on its channel since it
      subscribed, the positions of the messages it took, and the position of the first
      message after the last overflow. */
  datatype Reader = Reader(
    channel: string, snapshot: seq<Message>, shown: nat,
    queue: seq<Message>, published: seq<Message>, taken: seq<nat>, start: nat)

  datatype Bus = Bus(latest: map<string, seq<Message>>, readers: map<nat, Reader>)

  datatype Event =
    | Published(channel: string, event: string, data: Payload)
    | Subscribed(id: nat, channel: string)
    | Shown(id: nat)
    | Taken(id: nat)
    | Left(id: nat)

  const Silent := Bus(map[], map[])

  function Receive(r: Reader, m: Message): Reader {
    r.(queue := Offered(r.queue, m), published := r.published + [m],
       start := if |r.queue| < QUEUE_MAXSIZE then r.start else |r.published|)
  }

  /** One step; what is not possible in a state changes nothing. */
  function Step(b: Bus, e: Event): Bus {
    match e
    case Published(channel, event, data) =>
      var m := Message(event, data);
      Bus(b.latest[channel := Assign(EntriesOf(b.latest, channel), m)],
          map id | id in b.readers ::
            if b.readers[id].channel == channel then Receive(b.readers[id], m) else b.readers[id])
    case Subscribed(id, channel) =>
      if id in b.readers then b
      else b.(readers := b.readers[id := Reader(channel, EntriesOf(b.latest, channel), 0, [], [], [], 0)])
    case Shown(id) =>
      if id in b.readers && b.readers[id].shown < |b.readers[id].snapshot| then
        b.(readers := b.readers[id := b.readers[id].(shown := b.readers[id].shown + 1)])
      else b
    case Taken(id) =>
      if id in b.readers && b.readers[id].shown == |b.readers[id].snapshot| && b.readers[id].queue != [] then
        b.(readers := b.readers[id := Take(b.readers[id])])
      else b
    case Left(id) => b.(readers := b.readers - {id})
  }

  function Take(r: Reader): Reader
    requires r.queue != []
  {
    r.(queue := r.queue[1..], taken := r.taken + [if |r.queue| <= |r.published| then |r.published| - |r.queue| else 0])
  }

  function Run(b: Bus, events: seq<Event>): Bus {
    if events == [] then b else Step(Run(b, events[..|events| - 1]), events[|events| - 1])
  }

  /** How many messages have left the queue, taken or dropped. */
  function Gone(r: Reader): int {
    |r.published| - |r.queue|
  }

  /** The queue is what was published last; what was taken before it is in order, without
      duplicates, and complete since the last overflow. */
  ghost predicate Ordered(r: Reader) {
    && |r.queue| <= QUEUE_MAXSIZE && 0 <= Gone(r) && r.queue == r.published[Gone(r)..]
    && r.start <= Gone(r)
    && (forall i, j | 0 <= i < j < |r.taken| :: r.taken[i] < r.taken[j])
    && (forall i | 0 <= i < |r.taken| :: r.taken[i] < Gone(r))
    && Gone(r) - r.start <= |r.taken|
    && (forall k | |r.taken| - (Gone(r) - r.start) <= k < |r.taken| :: r.taken[k] == Gone(r) - (|r.taken| - k))
    && (r.start == 0 ==> |r.taken| == Gone(r))
  }

  /** The bus holds, for the channel of a reader, its snapshot brought up to date. */
  ghost predicate Tracked(r: Reader, latest: map<string, seq<Message>>) {
    && Distinct(r.snapshot) && EntriesOf(latest, r.channel) == Fold(r.snapshot, r.published)
    && r.shown <= |r.snapshot| && (r.taken != [] ==> r.shown == |r.snapshot|)
  }

  ghost predicate Good(b: Bus) {
    && (forall c | c in b.latest :: Distinct(b.latest[c]))
    && (forall id | id in b.readers :: Ordered(b.readers[id]) && Tracked(b.readers[id], b.latest))
  }

  lemma ReceiveKeepsOrder(r: Reader, m: Message)
    requires Ordered(r)
    ensures Ordered(Receive(r, m))
  {
    var s := Receive(r, m);
    if |r.queue| < QUEUE_MAXSIZE {
      assert s.published[Gone(s)..] == r.published[Gone(r)..] + [m];
    } else {
      assert s.published[Gone(s)..] == [m];
    }
  }

  lemma TakeKeepsOrder(r: Reader)
    requires Ordered(r) && r.queue != []
    ensures Ordered(Take(r))
  {
    var s := Take(r);
    assert Gone(s) == Gone(r) + 1;
    assert s.published[Gone(s)..] == r.published[Gone(r)..][1..];
    assert s.taken == r.taken + [Gone(r)];
  }

  lemma ReceiveIsTracked(r: Reader, latest: map<string, seq<Message>>, m: Message)
    requires Tracked(r, latest)
    ensures Tracked(Receive(r, m), latest[r.channel := Assign(EntriesOf(latest, r.channel), m)])
  {
    assert (r.published + [m])[..|r.published + [m]| - 1] == r.published;
  }

  lemma OtherIsTracked(r: Reader, latest: map<string, seq<Message>>, channel: string, entries: seq<Message>)
    requires Tracked(r, latest) && r.channel != channel
    ensures Tracked(r, latest[channel := entries])
  {
  }

  lemma PublishKeepsGood(b: Bus, channel: string, event: string, data: Payload)
    requires Good(b)
    ensures Good(Step(b, Published(channel, event, data)))
  {
    hide Ordered, Distinct, Tracked, Receive, Assign, EntriesOf;
    var m := Message(event, data);
    var entries := Assign(EntriesOf(b.latest, channel), m);
    DistinctEntries(b, channel);
    AssignKeepsDistinct(EntriesOf(b.latest, channel), m);
    forall id | id in b.readers
      ensures Ordered(Receive(b.readers[id], m))
      ensures b.readers[id].channel == channel ==> Tracked(Receive(b.readers[id], m), b.latest[channel := entries])
      ensures b.readers[id].channel != channel ==> Tracked(b.readers[id], b.latest[channel := entries])
    {
      ReceiveKeepsOrder(b.readers[id], m);
      if b.readers[id].channel == channel {
        ReceiveIsTracked(b.readers[id], b.latest, m);
      } else {
        OtherIsTracked(b.readers[id], b.latest, channel, entries);
      }
    }
  }

  lemma StepKeepsGood(b: Bus, e: Event)
    requires Good(b)
    ensures Good(Step(b, e))
  {
    hide Ordered, Distinct;
    match e
    case Published(channel, event, data) => PublishKeepsGood(b, channel, event, data);
    case Subscribed(id, channel) =>
      DistinctEntries(b, channel);
      NewIsOrdered(channel, EntriesOf(b.latest, channel));
    case Shown(id) =>
      if id in b.readers && b.readers[id].shown < |b.readers[id].snapshot| {
        ShownKeepsOrder(b.readers[id]);
      }
    case Taken(id) =>
      if id in b.readers && b.readers[id].shown == |b.readers[id].snapshot| && b.readers[id].queue != [] {
        TakeKeepsOrder(b.readers[id]);
      }
    case Left(_) =>
  }

  lemma NewIsOrdered(channel: string, snapshot: seq<Message>)
    ensures Ordered(Reader(channel, snapshot, 0, [], [], [], 0))
  {
  }

  lemma ShownKeepsOrder(r: Reader)
    requires Ordered(r)
    ensures Ordered(r.(shown := r.shown + 1))
  {
  }

  lemma DistinctEntries(b: Bus, channel: string)
    requires Good(b)
    ensures Distinct(EntriesOf(b.latest, channel))
  {
  }

  /** EVERY RUN IS ORDERLY: whatever is published, subscribed, read and left in whatever
      order, each queue is a contiguous end of what was published since its reader came,
      and each reader took messages in order and never twice. */
  lemma {:induction false} EveryRunIsOrderly(events: seq<Event>)
    ensures Good(Run(Silent, events))
  {
    if events != [] {
      EveryRunIsOrderly(events[..|events| - 1]);
      StepKeepsGood(Run(Silent, events[..|events| - 1]), events[|events| - 1]);
    }
  }

  // --------------------------------------------------- the bus and its runs

  datatype Subscription = Subscription(channel: string, queue: Queue, snapshot: seq<Message>)

  ghost predicate Shows(s: Subscription, shown: nat, r: Reader)
    reads s.queue
  {
    s.channel == r.channel && s.snapshot == r.snapshot && shown == r.shown && s.queue.items == r.queue
  }

  lemma StepPublished(b: Bus, channel: string, event: string, data: Payload)
    ensures var next, m := Step(b, Published(channel, event, data)), Message(event, data);
            && next.latest == b.latest[channel := Assign(EntriesOf(b.latest, channel), m)]
            && next.readers.Keys == b.readers.Keys
            && forall id | id in b.readers ::
                 && (b.readers[id].channel == channel ==>
                       next.readers[id] == b.readers[id].(
                         queue := Offered(b.readers[id].queue, m), published := next.readers[id].published,
                         start := next.readers[id].start))
                 && (b.readers[id].channel != channel ==> next.readers[id] == b.readers[id])
  {
  }

  lemma StepSubscribed(b: Bus, id: nat, channel: string)
    requires id !in b.readers
    ensures Step(b, Subscribed(id, channel))
            == b.(readers := b.readers[id := Reader(channel, EntriesOf(b.latest, channel), 0, [], [], [], 0)])
  {
  }

  lemma StepShown(b: Bus, id: nat)
    requires id in b.readers && b.readers[id].shown < |b.readers[id].snapshot|
    ensures Step(b, Event.Shown(id))
            == b.(readers := b.readers[id := b.readers[id].(shown := b.readers[id].shown + 1)])
  {
  }

  lemma StepTaken(b: Bus, id: nat)
    requires id in b.readers && b.readers[id].shown == |b.readers[id].snapshot| && b.readers[id].queue != []
    ensures Step(b, Taken(id)) == b.(readers := b.readers[id := Take(b.readers[id])])
  {
  }

  lemma StepLeft(b: Bus, id: nat)
    ensures Step(b, Left(id)) == b.(readers := b.readers - {id})
  {
  }

  /** A publisher with the subscriptions that are being read, and how much of its snapshot
      each of them was shown. `bus` is the same on values; every operation is one step of
      it. */
  class Session {
    const publisher: Publisher
    var subscriptions: map<nat, Subscription>
    var shown: map<nat, nat>
    ghost var bus: Bus
    /** every queue that was ever listed */
    ghost var queues: set<Queue>

    /** The subscriptions are what the publisher lists. */
    ghost predicate Linked()
      reads this`subscriptions, this`queues, publisher
    {
      && publisher.Valid()
      && (forall c, q | q in publisher.Listening(c) :: q in queues)
      && (forall id | id in subscriptions ::
            subscriptions[id].queue in publisher.Listening(subscriptions[id].channel))
      && (forall id, other | id in subscriptions && other in subscriptions && id != other ::
            subscriptions[id].queue != subscriptions[other].queue)
    }

    ghost predicate Mirrored()
      reads this, publisher, queues
    {
      && publisher.latest == bus.latest && subscriptions.Keys == shown.Keys == bus.readers.Keys
      && (forall id | id in subscriptions :: subscriptions[id].queue in queues)
      && (forall id | id in subscriptions :: Shows(subscriptions[id], shown[id], bus.readers[id]))
    }

    ghost predicate Valid()
      reads this, publisher, queues
    {
      Linked() && Mirrored()
    }

    constructor ()
      ensures Valid() && bus == Silent && fresh(publisher)
    {
      publisher := new Publisher();
      subscriptions := map[];
      shown := map[];
      bus := Silent;
      queues := {};
    }

    method Publish(channel: string, event: string, data: Payload)
      requires Valid()
      modifies this`bus, publisher, queues
      ensures Valid() && bus == Step(old(bus), Published(channel, event, data))
    {
      hide Assign, Offered, EntriesOf, Step, Linked;
      Heard(channel);
      StepPublished(bus, channel, event, data);
      FanOut(channel, event, data);
      bus := Step(bus, Published(channel, event, data));
      forall id | id in subscriptions
        ensures Shows(subscriptions[id], shown[id], bus.readers[id])
      {
        assert old(Shows(subscriptions[id], shown[id], bus.readers[id]));
      }
    }

    /** A channel is heard by its subscriptions. */
    lemma Heard(channel: string)
      requires Linked()
      ensures forall q | q in publisher.Listening(channel) :: q in queues
      ensures forall id | id in subscriptions ::
                subscriptions[id].queue in publisher.Listening(channel) <==> subscriptions[id].channel == channel
    {
      forall id | id in subscriptions && subscriptions[id].queue in publisher.Listening(channel)
        ensures subscriptions[id].channel == channel
      {
        publisher.ListedOnce(subscriptions[id].queue, channel, subscriptions[id].channel);
      }
    }

    method FanOut(channel: string, event: string, data: Payload)
      requires Linked()
      modifies publisher, publisher.Listening(channel)
      ensures Linked()
      ensures var m := Message(event, data);
              && publisher.latest
                 == old(publisher.latest)[channel := Assign(EntriesOf(old(publisher.latest), channel), m)]
              && forall q | q in old(publisher.Listening(channel)) :: q.items == Offered(old(q.items), m)
    {
      hide Assign, Offered, EntriesOf, Publisher.Valid, Publisher.Listening;
      publisher.Publish(channel, event, data);
      forall c, q | q in publisher.Listening(c)
        ensures q in queues
      {
        assert q in old(publisher.Listening(c));
      }
    }

    method Register(id: nat, channel: string)
      requires Linked() && id !in subscriptions
      modifies this`subscriptions, this`queues, publisher
      ensures Linked() && publisher.latest == old(publisher.latest)
      ensures subscriptions.Keys == old(subscriptions.Keys) + {id}
      ensures forall i | i in old(subscriptions) :: subscriptions[i] == old(subscriptions)[i]
      ensures var s := subscriptions[id];
              && s.channel == channel && s.snapshot == EntriesOf(publisher.latest, channel)
              && fresh(s.queue) && s.queue.items == [] && queues == old(queues) + {s.queue}
      ensures forall q | q in old(queues) :: q.items == old(q.items)
    {
      hide EntriesOf, Publisher.Valid, Publisher.Listening;
      var queue, snapshot := publisher.Subscribe(channel);
      subscriptions := subscriptions[id := Subscription(channel, queue, snapshot)];
      queues := queues + {queue};
      forall c, q | q in publisher.Listening(c)
        ensures q in queues
      {
        assert q == queue || q in old(publisher.Listening(c));
      }
    }

    method Subscribe(id: nat, channel: string)
      requires Valid() && id !in subscriptions
      modifies this, publisher
      ensures Valid() && bus == Step(old(bus), Subscribed(id, channel))
    {
      hide Step, EntriesOf, Linked, Shows, Publisher.Valid, Publisher.Listening;
      StepSubscribed(bus, id, channel);
      ghost var was := subscriptions;
      Register(id, channel);
      ghost var entered := subscriptions[id];
      KeepShowing(was);
      assert subscriptions == was[id := entered];
      shown := shown[id := 0];
      bus := bus.(readers := bus.readers[id := Reader(channel, entered.snapshot, 0, [], [], [], 0)]);
      ShowsNew(entered, bus.readers[id]);
    }

    /** What was shown by subscriptions that stay is shown by them still. */
    twostate lemma KeepShowing(was: map<nat, Subscription>)
      requires old(Mirrored()) && was == old(subscriptions) && shown == old(shown) && bus == old(bus)
      requires forall id | id in was :: was[id].queue.items == old(was[id].queue.items)
      requires old(queues) <= queues
      ensures forall id | id in was :: Shows(was[id], shown[id], bus.readers[id]) && was[id].queue in queues
    {
      hide Linked, EntriesOf;
      forall id | id in was
        ensures Shows(was[id], shown[id], bus.readers[id]) && was[id].queue in queues
      {
        assert old(Shows(subscriptions[id], shown[id], bus.readers[id]));
      }
    }

    lemma ShowsNew(s: Subscription, r: Reader)
      requires r == Reader(s.channel, s.snapshot, 0, [], [], [], 0) && s.queue.items == []
      ensures Shows(s, 0, r)
    {
    }

    /** What a subscriber is given next: the snapshot, then its queue; None means that
        nothing is there yet. */
    method Next(id: nat) returns (m: Option<Message>)
      requires Valid() && id in subscriptions
      modifies this`shown, this`bus, subscriptions[id].queue
      ensures Valid()
      ensures var r := old(bus.readers[id]);
              if r.shown < |r.snapshot| then m == Some(r.snapshot[r.shown]) && bus == Step(old(bus), Event.Shown(id))
              else if r.shown == |r.snapshot| && r.queue != []
              then m == Some(r.queue[0]) && bus == Step(old(bus), Taken(id))
              else m.None? && bus == old(bus)
    {
      hide Step, Linked;
      OtherQueues(id);
      var s := subscriptions[id];
      if shown[id] < |s.snapshot| {
        StepShown(bus, id);
        m := Some(s.snapshot[shown[id]]);
        shown := shown[id := shown[id] + 1];
        bus := Step(bus, Event.Shown(id));
      } else if shown[id] == |s.snapshot| && s.queue.items != [] {
        StepTaken(bus, id);
        var first := s.queue.Get();
        m := Some(first);
        bus := Step(bus, Taken(id));
      } else {
        m := None;
      }
    }

    lemma OtherQueues(id: nat)
      requires Linked() && id in subscriptions
      ensures forall other | other in subscriptions && other != id ::
                subscriptions[other].queue != subscriptions[id].queue
    {
    }

    method Unregister(id: nat)
      requires Linked() && id in subscriptions
      modifies this`subscriptions, publisher
      ensures Linked() && publisher.latest == old(publisher.latest) && subscriptions == old(subscriptions) - {id}
    {
      hide Publisher.Valid, Publisher.Listening;
      var gone := subscriptions[id];
      publisher.Unsubscribe(gone.channel, gone.queue);
      subscriptions := subscriptions - {id};
      forall c, q | q in publisher.Listening(c)
        ensures q in queues
      {
        assert q in old(publisher.Listening(c));
      }
      forall i | i in subscriptions
        ensures subscriptions[i].queue in publisher.Listening(subscriptions[i].channel)
      {
        assert subscriptions[i].queue in old(publisher.Listening(subscriptions[i].channel));
      }
    }

    method Close(id: nat)
      requires Valid() && id in subscriptions
      modifies this, publisher
      ensures Valid() && bus == Step(old(bus), Left(id))
    {
      hide Step, Linked, Shows;
      StepLeft(bus, id);
      Unregister(id);
      shown := shown - {id};
      bus := Step(bus, Left(id));
      forall i | i in subscriptions
        ensures Shows(subscriptions[i], shown[i], bus.readers[i])
      {
        assert old(Shows(subscriptions[i], shown[i], bus.readers[i]));
      }
    }
  }

  // -------------------------------------------------- what a reader ends up with

  /** The messages a reader took out of its queue. */
  function Received(r: Reader): seq<Message>
    requires forall i | 0 <= i < |r.taken| :: r.taken[i] < |r.published|
  {
    seq(|r.taken|, i requires 0 <= i < |r.taken| => r.published[r.taken[i]])
  }

  /** Everything a reader sees once it has drained its queue. */
  ghost function Seen(r: Reader): seq<Message>
    requires Ordered(r)
  {
    r.snapshot + Received(r) + r.queue
  }

  lemma {:induction false} FoldConcat(entries: seq<Message>, a: seq<Message>, b: seq<Message>)
    ensures Fold(entries, a + b) == Fold(Fold(entries, a), b)
  {
    if b == [] {
      assert a + b == a;
    } else {
      assert (a + b)[..|a + b| - 1] == a + b[..|b| - 1];
      FoldConcat(entries, a, b[..|b| - 1]);
    }
  }

  lemma {:induction false} AssignNew(entries: seq<Message>, m: Message)
    requires forall i | 0 <= i < |entries| :: entries[i].event != m.event
    ensures Assign(entries, m) == entries + [m]
  {
    if entries != [] {
      AssignNew(entries[1..], m);
    }
  }

  /** THE NEWEST PAYLOADS ARE A DICTIONARY in the order of its keys' first publication: a new
      event goes to the end, one that is there keeps its place, and each is found under its
      name. */
  lemma {:induction false} EntriesAreADictionary(entries: seq<Message>, m: Message, data: Payload)
    requires Distinct(entries)
    ensures (forall i | 0 <= i < |entries| :: entries[i].event != m.event) ==> Assign(entries, m) == entries + [m]
    ensures forall i | 0 <= i < |entries| && entries[i].event == m.event :: Assign(entries, m) == entries[i := m]
    ensures ValueOf(entries, m.event) == Some(data) <==> Message(m.event, data) in entries
  {
    if entries != [] {
      var front, rest := [entries[0]], entries[1..];
      assert entries == front + rest;
      EntriesAreADictionary(rest, m, data);
      assert (forall i | 0 <= i < |entries| :: entries[i].event != m.event) ==>
          forall i | 0 <= i < |rest| :: rest[i].event != m.event by {
        assert forall i | 0 <= i < |rest| :: rest[i] == entries[i + 1];
      }
      forall i | 0 <= i < |entries| && entries[i].event == m.event
        ensures Assign(entries, m) == entries[i := m]
      {
        if i > 0 {
          assert rest[i - 1] == entries[i] && entries[0].event != m.event;
          assert entries[i := m] == front + rest[i - 1 := m];
        } else {
          assert entries[0 := m] == [m] + rest;
        }
      }
      if entries[0].event == m.event {
        assert forall i | 0 <= i < |rest| :: rest[i] == entries[i + 1] && rest[i].event != m.event;
      }
    }
  }

  lemma {:induction false} FoldOfSnapshot(snapshot: seq<Message>)
    requires Distinct(snapshot)
    ensures Fold([], snapshot) == snapshot
  {
    if snapshot != [] {
      var front := snapshot[..|snapshot| - 1];
      FoldOfSnapshot(front);
      AssignNew(front, snapshot[|snapshot| - 1]);
      assert snapshot == front + [snapshot[|snapshot| - 1]];
    }
  }

  /** What was received ends with everything published since the last overflow. */
  lemma SeenEnds(r: Reader)
    requires Ordered(r)
    ensures r.start <= Gone(r) <= |r.published| && forall i | 0 <= i < |r.taken| :: r.taken[i] < |r.published|
    ensures var n := |r.taken| - (Gone(r) - r.start);
            && 0 <= n
            && Received(r) + r.queue == Received(r)[..n] + r.published[r.start..]
            && (r.start == 0 ==> n == 0)
  {
    var n := |r.taken| - (Gone(r) - r.start);
    var a, b := Received(r)[n..], r.published[r.start..Gone(r)];
    assert |a| == |b|;
    forall i | 0 <= i < |a|
      ensures a[i] == b[i]
    {
      assert r.taken[n + i] == r.start + i;
    }
    assert a == b;
    assert r.published[r.start..] == b + r.published[Gone(r)..];
    assert Received(r) == Received(r)[..n] + a;
  }

  /** WITHOUT OVERFLOW NOTHING IS LOST: snapshot, taken and waiting messages together
      rebuild exactly what the bus holds for the channel. */
  lemma ReaderCatchesUp(r: Reader, latest: map<string, seq<Message>>)
    requires Ordered(r) && Tracked(r, latest) && r.start == 0
    ensures Received(r) + r.queue == r.published
    ensures Fold([], Seen(r)) == EntriesOf(latest, r.channel)
  {
    hide Ordered, Distinct;
    SeenEnds(r);
    assert Seen(r) == r.snapshot + r.published by {
      assert r.snapshot + Received(r) + r.queue == r.snapshot + (Received(r) + r.queue);
    }
    FoldConcat([], r.snapshot, r.published);
    FoldOfSnapshot(r.snapshot);
  }

  function LastOf(ms: seq<Message>, event: string): Option<Payload> {
    if ms == [] then None
    else if ms[|ms| - 1].event == event then Some(ms[|ms| - 1].data)
    else LastOf(ms[..|ms| - 1], event)
  }

  lemma {:induction false} ValueOfAssign(entries: seq<Message>, m: Message, event: string)
    ensures ValueOf(Assign(entries, m), event) == if event == m.event then Some(m.data) else ValueOf(entries, event)
  {
    if entries != [] && entries[0].event != m.event {
      ValueOfAssign(entries[1..], m, event);
    }
  }

  /** A fold holds the last payload of each event. */
  lemma {:induction false} ValueOfFold(entries: seq<Message>, ms: seq<Message>, event: string)
    ensures ValueOf(Fold(entries, ms), event)
            == if LastOf(ms, event).Some? then LastOf(ms, event) else ValueOf(entries, event)
  {
    if ms != [] {
      ValueOfFold(entries, ms[..|ms| - 1], event);
      ValueOfAssign(Fold(entries, ms[..|ms| - 1]), ms[|ms| - 1], event);
    }
  }

  lemma {:induction false} LastOfConcat(a: seq<Message>, b: seq<Message>, event: string)
    ensures LastOf(a + b, event) == if LastOf(b, event).Some? then LastOf(b, event) else LastOf(a, event)
  {
    if b == [] {
      assert a + b == a;
    } else {
      assert (a + b)[..|a + b| - 1] == a + b[..|b| - 1];
      LastOfConcat(a, b[..|b| - 1], event);
    }
  }

  lemma ValueOfParts(before: seq<Message>, snapshot: seq<Message>, published: seq<Message>, start: nat, event: string)
    requires start <= |published|
    ensures ValueOf(Fold([], before + published[start..]), event)
            == if LastOf(published[start..], event).Some? then ValueOf(Fold(snapshot, published), event)
               else ValueOf(Fold([], before), event)
  {
    var since := published[start..];
    LastOfConcat(before, since, event);
    ValueOfFold([], before + since, event);
    ValueOfFold([], before, event);
    ValueOfFold(snapshot, published, event);
    assert published == published[..start] + since;
    LastOfConcat(published[..start], since, event);
  }

  /** AFTER AN OVERFLOW A READER IS RIGHT ABOUT WHAT IS PUBLISHED AGAIN: for every event,
      it ends with the value on the bus if that event was published since, and otherwise
      with whatever it had taken before. */
  lemma ReaderAfterOverflow(r: Reader, latest: map<string, seq<Message>>, event: string)
    requires Ordered(r) && Tracked(r, latest)
    ensures var n := |r.taken| - (Gone(r) - r.start);
            ValueOf(Fold([], Seen(r)), event)
            == if LastOf(r.published[r.start..], event).Some? then ValueOf(EntriesOf(latest, r.channel), event)
               else ValueOf(Fold([], r.snapshot + Received(r)[..n]), event)
  {
    hide Ordered, Distinct, Fold, ValueOf, LastOf;
    SeenEnds(r);
    var n := |r.taken| - (Gone(r) - r.start);
    var before, since := r.snapshot + Received(r)[..n], r.published[r.start..];
    assert Seen(r) == before + since by {
      assert r.snapshot + Received(r) + r.queue == r.snapshot + (Received(r) + r.queue);
    }
    ValueOfParts(before, r.snapshot, r.published, r.start, event);
  }

  /** Where an event was published last. */
  function LastIndex(ms: seq<Message>, event: string): (k: Option<nat>)
    ensures k.None? ==> forall i | 0 <= i < |ms| :: ms[i].event != event
    ensures k.Some? ==> k.value < |ms| && ms[k.value].event == event
    ensures k.Some? ==> forall i | k.value < i < |ms| :: ms[i].event != event
  {
    if ms == [] then None
    else if ms[|ms| - 1].event == event then Some(|ms| - 1)
    else LastIndex(ms[..|ms| - 1], event)
  }

  lemma {:induction false} LastOfIndexed(ms: seq<Message>, event: string)
    ensures LastOf(ms, event)
            == if LastIndex(ms, event).Some? then Some(ms[LastIndex(ms, event).value].data) else None
  {
    if ms != [] {
      LastOfIndexed(ms[..|ms| - 1], event);
    }
  }

  /** The reader took the last publication of an event, or it waits in the queue, or there
      was none since the reader came. */
  ghost predicate Informed(r: Reader, event: string) {
    var last := LastIndex(r.published, event);
    last.None? || last.value in r.taken || Gone(r) <= last.value
  }

  /** The last publication of an event says something new. */
  ghost predicate FreshlySaid(r: Reader, event: string) {
    var last := LastIndex(r.published, event);
    last.Some? ==>
      && ValueOf(r.snapshot, event) != Some(r.published[last.value].data)
      && forall i | 0 <= i < last.value && r.published[i].event == event ::
           r.published[i].data != r.published[last.value].data
  }

  /** The positions a reader took or has waiting. */
  ghost function Positions(r: Reader): seq<nat>
    requires 0 <= Gone(r)
  {
    r.taken + seq(|r.queue|, i requires 0 <= i < |r.queue| => Gone(r) + i)
  }

  /** What a reader took and has waiting, in terms of positions. */
  lemma PositionsAre(r: Reader)
    requires Ordered(r)
    ensures forall i | 0 <= i < |r.taken| :: r.taken[i] < |r.published|
    ensures var p, ms := Positions(r), Received(r) + r.queue;
            && At(r.published, p, ms)
            && (forall k | Gone(r) <= k < |r.published| :: k in p) && (forall k | k in r.taken :: k in p)
            && (forall k | k in p :: k in r.taken || Gone(r) <= k)
  {
    var p, ms := Positions(r), Received(r) + r.queue;
    forall i | 0 <= i < |p|
      ensures p[i] < |r.published| && ms[i] == r.published[p[i]] && (i >= |r.taken| ==> p[i] == Gone(r) + i - |r.taken|)
    {
    }
    forall k | Gone(r) <= k < |r.published|
      ensures k in p
    {
      assert p[|r.taken| + k - Gone(r)] == k;
    }
    forall k | k in r.taken
      ensures k in p
    {
      var i :| 0 <= i < |r.taken| && r.taken[i] == k;
      assert p[i] == k;
    }
  }

  ghost predicate At(published: seq<Message>, p: seq<nat>, ms: seq<Message>) {
    && |p| == |ms| && (forall i, j | 0 <= i < j < |p| :: p[i] < p[j])
    && (forall i | 0 <= i < |p| :: p[i] < |published| && ms[i] == published[p[i]])
  }

  /** The last publication is at one of the positions. */
  lemma LastIsThere(published: seq<Message>, p: seq<nat>, ms: seq<Message>, event: string, k: nat)
    requires At(published, p, ms) && k < |p| && LastIndex(published, event) == Some(p[k])
    ensures LastOf(ms, event) == Some(published[p[k]].data)
  {
    hide LastIndex, LastOf;
    LastOfIndexed(ms, event);
    var found := LastIndex(ms, event);
    assert ms[k].event == event;
  }

  /** What is found at the positions was published no later than the last publication. */
  lemma FoundBefore(published: seq<Message>, p: seq<nat>, ms: seq<Message>, event: string) returns (k: nat)
    requires At(published, p, ms) && LastOf(ms, event).Some?
    ensures k < |p| && published[p[k]].event == event && LastOf(ms, event) == Some(published[p[k]].data)
    ensures LastIndex(published, event).Some? && p[k] <= LastIndex(published, event).value
  {
    hide LastIndex, LastOf;
    LastOfIndexed(ms, event);
    k := LastIndex(ms, event).value;
  }

  /** The newest message of an event among those at some ascending positions. */
  lemma LastAmong(published: seq<Message>, p: seq<nat>, ms: seq<Message>, event: string)
    requires At(published, p, ms)
    ensures var last := LastIndex(published, event);
            && (last.None? ==> LastOf(ms, event).None?)
            && (last.Some? && last.value in p ==> LastOf(ms, event) == Some(published[last.value].data))
            && (last.Some? && last.value !in p && LastOf(ms, event).Some? ==>
                  exists i | 0 <= i < last.value ::
                    published[i].event == event && LastOf(ms, event) == Some(published[i].data))
  {
    hide LastIndex, LastOf, At;
    var last := LastIndex(published, event);
    if last.Some? && last.value in p {
      var k :| 0 <= k < |p| && p[k] == last.value;
      LastIsThere(published, p, ms, event, k);
    } else if LastOf(ms, event).Some? {
      var k := FoundBefore(published, p, ms, event);
      assert p[k] in p;
    }
  }

  /** A READER IS RIGHT EXACTLY WHEN IT IS INFORMED: once it has drained its queue it holds
      what the bus holds for an event if that event's last publication reached it, and,
      where that publication said something new, only then. */
  lemma RightIffInformed(r: Reader, latest: map<string, seq<Message>>, event: string)
    requires Ordered(r) && Tracked(r, latest)
    ensures var held, current := ValueOf(Fold([], Seen(r)), event), ValueOf(EntriesOf(latest, r.channel), event);
            && (Informed(r, event) ==> held == current)
            && (FreshlySaid(r, event) ==> (held == current <==> Informed(r, event)))
  {
    hide Ordered, Distinct, Fold, ValueOf, LastOf, Positions, LastIndex, At;
    SeenEnds(r);
    PositionsAre(r);
    var p, ms := Positions(r), Received(r) + r.queue;
    assert Seen(r) == r.snapshot + ms by {
      assert r.snapshot + Received(r) + r.queue == r.snapshot + (Received(r) + r.queue);
    }
    FoldConcat([], r.snapshot, ms);
    FoldOfSnapshot(r.snapshot);
    ValueOfFold(r.snapshot, ms, event);
    ValueOfFold(r.snapshot, r.published, event);
    LastOfIndexed(r.published, event);
    LastAmong(r.published, p, ms, event);
  }

  // ------------------------------------------------------- an event that is lost

  const COMPLETE := Message("complete", 1)
  const PROGRESS := Message("progress", 0)

  /** A reader that does not read, one completion, and then `n` progress messages. */
  function Burst(n: nat): seq<Event> {
    if n == 0 then [Subscribed(0, "scan"), Published("scan", COMPLETE.event, COMPLETE.data)]
    else Burst(n - 1) + [Published("scan", PROGRESS.event, PROGRESS.data)]
  }

  function Backlog(n: nat): (ms: seq<Message>)
    ensures |ms| == n + 1
  {
    if n == 0 then [COMPLETE] else Backlog(n - 1) + [PROGRESS]
  }

  lemma PublishToOne(r: Reader, entries: seq<Message>, m: Message)
    requires r.channel == "scan"
    ensures Step(Bus(map["scan" := entries], map[0 := r]), Published("scan", m.event, m.data))
            == Bus(map["scan" := Assign(entries, m)], map[0 := Receive(r, m)])
  {
    hide Assign, Receive;
    var b := Bus(map["scan" := entries], map[0 := r]);
    var next := Step(b, Published("scan", m.event, m.data));
    assert Message(m.event, m.data) == m;
    assert next.latest == map["scan" := Assign(entries, m)];
    assert next.readers == map[0 := Receive(r, m)];
  }

  lemma AssignProgress()
    ensures Assign([], COMPLETE) == [COMPLETE]
    ensures Assign([COMPLETE], PROGRESS) == [COMPLETE, PROGRESS]
    ensures Assign([COMPLETE, PROGRESS], PROGRESS) == [COMPLETE, PROGRESS]
    ensures COMPLETE.event == "complete" && PROGRESS.event != "complete"
  {
    assert COMPLETE.event[0] != PROGRESS.event[0];
    assert [COMPLETE][1..] == [] && [COMPLETE, PROGRESS][1..] == [PROGRESS] && [PROGRESS][1..] == [];
  }

  function After(n: nat): Bus {
    Bus(map["scan" := if n == 0 then [COMPLETE] else [COMPLETE, PROGRESS]],
        map[0 := Reader("scan", [], 0, Backlog(n), Backlog(n), [], 0)])
  }

  lemma BurstStart()
    ensures Run(Silent, Burst(0)) == After(0)
  {
    hide Assign;
    var b := Step(Silent, Subscribed(0, "scan"));
    assert Run(Silent, [Subscribed(0, "scan")]) == b by {
      assert [Subscribed(0, "scan")][..0] == [];
    }
    var e := Published("scan", COMPLETE.event, COMPLETE.data);
    assert Burst(0)[..1] == [Subscribed(0, "scan")];
    assert Run(Silent, Burst(0)) == Step(b, e);
    AssignProgress();
    assert [] + [COMPLETE] == [COMPLETE];
    assert Step(b, e).latest == After(0).latest;
    assert Step(b, e).readers == After(0).readers;
  }

  lemma BurstStep(n: nat)
    requires n > 0
    ensures Run(Silent, Burst(n)) == Step(Run(Silent, Burst(n - 1)), Published("scan", PROGRESS.event, PROGRESS.data))
  {
    hide Step;
    assert Burst(n)[..|Burst(n)| - 1] == Burst(n - 1);
  }

  lemma {:induction false} BurstFills(n: nat)
    requires n < QUEUE_MAXSIZE
    ensures Run(Silent, Burst(n)) == After(n)
  {
    hide Run, Burst, Step, Assign;
    if n == 0 {
      BurstStart();
    } else {
      BurstFills(n - 1);
      BurstStep(n);
      PublishToOne(After(n - 1).readers[0], After(n - 1).latest["scan"], PROGRESS);
      AssignProgress();
    }
  }

  /** THE NEWEST STATE CAN BE MISSED: a completion that one overflow drops is never seen by
      the reader it was queued for, although the bus still holds it for readers to come. */
  lemma OverflowLosesCompletion()
    ensures var b := Run(Silent, Burst(QUEUE_MAXSIZE));
            && 0 in b.readers && Ordered(b.readers[0])
            && ValueOf(Fold([], Seen(b.readers[0])), "complete") == None
            && ValueOf(EntriesOf(b.latest, "scan"), "complete") == Some(1)
  {
    hide Run, Burst, Step, Assign;
    var n := QUEUE_MAXSIZE;
    BurstFills(n - 1);
    BurstStep(n);
    PublishToOne(After(n - 1).readers[0], After(n - 1).latest["scan"], PROGRESS);
    AssignProgress();
    var r := Receive(After(n - 1).readers[0], PROGRESS);
    assert Seen(r) == [PROGRESS];
    ValueOfFold([], [PROGRESS], "complete");
  }
}
