/**
 The bounded, numbered event list of the agent-event handler, and the batch a listener pulls from it.
 The list is a window over the log of all events ever appended: `Window(log, evicted)`.
 */
module AgentEventList {
  import opened Wrappers

  const MAX_MESSAGE_LEN: nat := 1000

  type Payload = string

  datatype Event = Event(index: nat, payload: Payload)

  /** A stored row of the event table. */
  datatype StoredEvent = StoredEvent(createTime: int, payload: Payload)

  /** The order of the start-up query. */
  predicate NewestFirst(rows: seq<StoredEvent>) {
    forall i, j :: 0 <= i < j < |rows| ==> rows[i].createTime >= rows[j].createTime
  }

  function Payloads(rows: seq<StoredEvent>): (r: seq<Payload>)
    ensures |r| == |rows|
  {
    seq(|rows|, k requires 0 <= k < |rows| => rows[k].payload)
  }

  /** Events number `evicted + 1` up to `|log|`, oldest first. */
  function Window(log: seq<Payload>, evicted: nat): (w: seq<Event>)
    requires evicted <= |log|
    ensures |w| == |log| - evicted
    ensures forall k :: 0 <= k < |w| ==> w[k] == Event(evicted + k + 1, log[evicted + k])
  {
    seq(|log| - evicted, k requires 0 <= k < |log| - evicted => Event(evicted + k + 1, log[evicted + k]))
  }

  /** All events of `list` with an index above `offset`, in list order. */
  function EventsAbove(list: seq<Event>, offset: nat): seq<Event> {
    if list == [] then []
    else if list[0].index > offset then [list[0]] + EventsAbove(list[1..], offset)
    else EventsAbove(list[1..], offset)
  }

  lemma {:induction false} EventsAboveConcat(a: seq<Event>, b: seq<Event>, offset: nat)
    ensures EventsAbove(a + b, offset) == EventsAbove(a, offset) + EventsAbove(b, offset)
  {
    if a == [] {
      assert a + b == b;
    } else {
      EventsAboveConcat(a[1..], b, offset);
      assert (a + b)[0] == a[0] && (a + b)[1..] == a[1..] + b;
      ConcatAssociates([a[0]], EventsAbove(a[1..], offset), EventsAbove(b, offset));
    }
  }

  lemma {:induction false} NoneAbove(list: seq<Event>, offset: nat)
    requires forall k :: 0 <= k < |list| ==> list[k].index <= offset
    ensures EventsAbove(list, offset) == []
  {
    if list == [] {
    } else {
      NoneAbove(list[1..], offset);
    }
  }

  lemma {:induction false} AllAbove(list: seq<Event>, offset: nat)
    requires forall k :: 0 <= k < |list| ==> list[k].index > offset
    ensures EventsAbove(list, offset) == list
  {
    if list == [] {
    } else {
      AllAbove(list[1..], offset);
    }
  }

  function Max(a: nat, b: nat): nat {
    if a < b then b else a
  }

  /** What a listener at `offset` still gets from the window: nothing it has passed, nothing evicted. */
  lemma {:induction false} EventsAboveWindow(log: seq<Payload>, evicted: nat, offset: nat)
    requires evicted <= |log|
    ensures EventsAbove(Window(log, evicted), offset)
         == if offset >= |log| then [] else Window(log, Max(offset, evicted))
  {
    var w := Window(log, evicted);
    if offset >= |log| {
      NoneAbove(w, offset);
    } else {
      var cut := Max(offset, evicted) - evicted;
      var passed, ahead := w[..cut], Window(log, evicted + cut);
      WindowSplits(log, evicted, cut);
      EventsAboveConcat(passed, ahead, offset);
      NoneAbove(passed, offset);
      AllAbove(ahead, offset);
    }
  }

  lemma {:induction false} WindowSplits(log: seq<Payload>, evicted: nat, cut: nat)
    requires evicted + cut <= |log|
    ensures Window(log, evicted) == Window(log, evicted)[..cut] + Window(log, evicted + cut)
  {
  }

  /** The list after one more event, with the source's eviction test. */
  function Appended(list: seq<Event>, eventOffset: nat, payload: Payload): seq<Event> {
    (if |list| > MAX_MESSAGE_LEN then list[1..] else list) + [Event(eventOffset + 1, payload)]
  }

  /** How many events have been evicted once `list` has taken one more. */
  function EvictedAfter(list: seq<Event>, evicted: nat): nat {
    if |list| > MAX_MESSAGE_LEN then evicted + 1 else evicted
  }

  /** The list holds exactly the newest events of the log, and it evicts only when it is full. */
  ghost predicate ListOf(list: seq<Event>, log: seq<Payload>, evicted: nat) {
    && evicted <= |log|
    && list == Window(log, evicted)
    && |list| <= MAX_MESSAGE_LEN + 1
    && (evicted > 0 ==> |list| == MAX_MESSAGE_LEN + 1)
  }

  lemma {:induction false} AppendedIsWindow(list: seq<Event>, log: seq<Payload>, evicted: nat, payload: Payload)
    requires ListOf(list, log, evicted)
    ensures ListOf(Appended(list, |log|, payload), log + [payload], EvictedAfter(list, evicted))
  {
  }

  /** The list after several more events. */
  function AppendedAll(list: seq<Event>, eventOffset: nat, more: seq<Payload>): seq<Event>
    decreases |more|
  {
    if more == [] then list
    else
      var n := |more| - 1;
      Appended(AppendedAll(list, eventOffset, more[..n]), eventOffset + n, more[n])
  }

  /** Evictions of a list that starts within the bound. */
  function EvictedBy(total: nat): nat {
    if total <= MAX_MESSAGE_LEN + 1 then 0 else total - (MAX_MESSAGE_LEN + 1)
  }

  /** From start-up on the list holds the last MAX_MESSAGE_LEN + 1 events of the log, or all of them. */
  lemma {:induction false} AppendedAllIsWindow(rows: seq<Payload>, more: seq<Payload>)
    requires |rows| <= MAX_MESSAGE_LEN
    ensures ListOf(AppendedAll(Window(rows, 0), |rows|, more), rows + more, EvictedBy(|rows| + |more|))
    decreases |more|
  {
    hide Window, Appended;
    if more == [] {
      assert rows + more == rows;
    } else {
      var n := |more| - 1;
      AppendedAllIsWindow(rows, more[..n]);
      var list := AppendedAll(Window(rows, 0), |rows|, more[..n]);
      AppendedIsWindow(list, rows + more[..n], EvictedBy(|rows| + n), more[n]);
      assert rows + more == (rows + more[..n]) + [more[n]];
    }
  }

  /**
   The stored history is numbered newest first, so the first eviction after start-up drops the newest stored event
   and keeps every older one.
   */
  lemma {:induction false} FirstEvictionDropsNewest(rows: seq<StoredEvent>, more: seq<Payload>)
    requires 0 < |rows| <= MAX_MESSAGE_LEN && NewestFirst(rows)
    requires |rows| + |more| == MAX_MESSAGE_LEN + 2
    ensures var start := Window(Payloads(rows), 0);
      var before := AppendedAll(start, |rows|, more[..|more| - 1]);
      var after := AppendedAll(start, |rows|, more);
      && |before| == |after| == MAX_MESSAGE_LEN + 1
      && before[0] == Event(1, rows[0].payload)
      && (forall k :: 0 <= k < |rows| ==> rows[k].createTime <= rows[0].createTime)
      && (forall k :: 1 <= k < |rows| ==> after[k - 1] == Event(k + 1, rows[k].payload))
      && forall e :: e in after ==> e.index != 1
  {
    AppendedAllIsWindow(Payloads(rows), more[..|more| - 1]);
    AppendedAllIsWindow(Payloads(rows), more);
  }

  lemma {:induction false} ScanTakes(list: seq<Event>, offset: nat, e: nat)
    requires 0 < e <= |list| && list[e - 1].index > offset
    ensures Reverse(EventsAbove(list[e - 1..], offset)) == Reverse(EventsAbove(list[e..], offset)) + [list[e - 1]]
  {
    var tail := EventsAbove(list[e..], offset);
    assert list[e - 1..][1..] == list[e..];
    assert EventsAbove(list[e - 1..], offset) == [list[e - 1]] + tail;
    assert ([list[e - 1]] + tail)[1..] == tail;
  }

  /** The scan may stop at the first event it has passed: the ones before it have smaller indices. */
  lemma {:induction false} ScanStops(log: seq<Payload>, evicted: nat, offset: nat, e: nat)
    requires evicted <= |log| && 0 < e <= |log| - evicted && Window(log, evicted)[e - 1].index <= offset
    ensures EventsAbove(Window(log, evicted), offset) == EventsAbove(Window(log, evicted)[e..], offset)
  {
    var list := Window(log, evicted);
    EventsAboveConcat(list[..e], list[e..], offset);
    NoneAbove(list[..e], offset);
    assert list == list[..e] + list[e..];
  }

  class AgentEventHandler {
    var eventList: seq<Event>
    var eventOffset: nat
    ghost var log: seq<Payload>
    ghost var evicted: nat

    ghost predicate Valid()
      reads this
    {
      ListOf(eventList, log, evicted) && eventOffset == |log|
    }

    /** `rows` is the answer of the start-up query, at most MAX_MESSAGE_LEN rows, newest first. */
    constructor LoadEventList(rows: seq<StoredEvent>)
      requires |rows| <= MAX_MESSAGE_LEN && NewestFirst(rows)
      ensures Valid() && log == Payloads(rows) && evicted == 0
      ensures eventList == Window(Payloads(rows), 0)
    {
      eventList, eventOffset, log, evicted := [], 0, Payloads(rows), 0;
      new;
      for i := 0 to |rows|
        invariant log == Payloads(rows) && evicted == 0
        invariant eventList == Window(Payloads(rows), 0)[..i]
      {
        eventList := eventList + [Event(i + 1, rows[i].payload)];
      }
      eventOffset := |eventList|;
    }

    method AddEventList(payload: Payload)
      requires Valid()
      modifies this
      ensures Valid()
      ensures log == old(log) + [payload]
      ensures evicted == EvictedAfter(old(eventList), old(evicted))
    {
      AppendedIsWindow(eventList, log, evicted, payload);
      evicted := EvictedAfter(eventList, evicted);
      if |eventList| > MAX_MESSAGE_LEN {
        eventList := eventList[1..];
      }
      eventList := eventList + [Event(eventOffset + 1, payload)];
      log := log + [payload];
      eventOffset := eventOffset + 1;
    }

    /** The early-breaking backward scan finds every event above `offset`, newest first. */
    method GetEvents(offset: nat) returns (events: seq<Event>)
      requires Valid()
      ensures events == Reverse(EventsAbove(eventList, offset))
    {
      events := [];
      var e := |eventList|;
      while e > 0
        invariant 0 <= e <= |eventList|
        invariant events == Reverse(EventsAbove(eventList[e..], offset))
        invariant forall k :: e <= k < |eventList| ==> eventList[k].index > offset
      {
        var event := eventList[e - 1];
        if event.index > offset {
          ScanTakes(eventList, offset, e);
          events := events + [event];
          e := e - 1;
        } else {
          ScanStops(log, evicted, offset, e);
          return;
        }
      }
      assert eventList[0..] == eventList;
    }
  }

  /**
   What a listener is sent while the producer is idle: batch after batch, each oldest first, until a fetch
   comes back empty. The offset grows by the batch length, not to the last index of the batch.
   */
  function Drained(list: seq<Event>, total: nat, offset: nat): seq<Event>
    decreases if offset <= total then total - offset else 0
  {
    var batch := EventsAbove(list, offset);
    if batch == [] || offset + |batch| > total then []
    else batch + Drained(list, total, offset + |batch|)
  }

  lemma {:induction false} DrainUnfolds(list: seq<Event>, log: seq<Payload>, evicted: nat, offset: nat)
    requires ListOf(list, log, evicted) && offset <= |log|
    ensures var batch := EventsAbove(list, offset);
      && (batch == [] <==> offset == |log|)
      && offset + |batch| <= |log|
      && Drained(list, |log|, offset) == batch + Drained(list, |log|, offset + |batch|)
  {
    EventsAboveWindow(log, evicted, offset);
    if offset == |log| {
      assert Drained(list, |log|, offset) == [];
    } else {
      assert |EventsAbove(list, offset)| == |log| - Max(offset, evicted) > 0;
    }
  }

  /** Draining always delivers `|log| - offset` events, however few distinct events the list still holds. */
  lemma {:induction false} DrainedLength(list: seq<Event>, log: seq<Payload>, evicted: nat, offset: nat)
    requires ListOf(list, log, evicted) && offset <= |log|
    ensures |Drained(list, |log|, offset)| == |log| - offset
    decreases |log| - offset
  {
    DrainUnfolds(list, log, evicted, offset);
    if offset >= |log| {
    } else {
      DrainedLength(list, log, evicted, offset + |EventsAbove(list, offset)|);
    }
  }

  lemma {:induction false} DrainedUnlapped(list: seq<Event>, log: seq<Payload>, evicted: nat, offset: nat)
    requires ListOf(list, log, evicted) && evicted <= offset <= |log|
    ensures Drained(list, |log|, offset) == Window(log, offset)
  {
    DrainUnfolds(list, log, evicted, offset);
    EventsAboveWindow(log, evicted, offset);
    if offset < |log| {
      DrainUnfolds(list, log, evicted, |log|);
      EventsAboveWindow(log, evicted, |log|);
      assert Drained(list, |log|, |log|) == [];
    }
  }

  lemma {:induction false} DrainedLapped(list: seq<Event>, log: seq<Payload>, evicted: nat, offset: nat)
    requires ListOf(list, log, evicted) && offset < evicted
    ensures Drained(list, |log|, offset) == list + Drained(list, |log|, offset + |list|)
  {
    DrainUnfolds(list, log, evicted, offset);
    EventsAboveWindow(log, evicted, offset);
  }

  /** Draining is gap-free and repeat-free exactly when nothing above `offset` has been evicted. */
  lemma {:induction false} DrainedOnce(list: seq<Event>, log: seq<Payload>, evicted: nat, offset: nat)
    requires ListOf(list, log, evicted) && offset <= |log|
    ensures Drained(list, |log|, offset) == Window(log, offset) <==> evicted <= offset
  {
    if evicted <= offset {
      DrainedUnlapped(list, log, evicted, offset);
    } else {
      DrainedLapped(list, log, evicted, offset);
      assert Drained(list, |log|, offset)[0] == list[0];
      assert Window(log, offset)[0].index == offset + 1;
    }
  }

  function Repeated(list: seq<Event>, times: nat): seq<Event> {
    if times == 0 then [] else list + Repeated(list, times - 1)
  }

  /** How often the offset must count through a list of `length` events to pass the list front. */
  function Laps(offset: nat, evicted: nat, length: nat): nat
    decreases evicted - offset
  {
    if offset >= evicted || length == 0 then 0 else 1 + Laps(offset + length, evicted, length)
  }

  /** Where the offset stands after those laps. */
  function LapsEnd(offset: nat, evicted: nat, length: nat): nat
    decreases evicted - offset
  {
    if offset >= evicted || length == 0 then offset else LapsEnd(offset + length, evicted, length)
  }

  /** Each lap moves the offset by the length of the list. */
  lemma {:induction false} LapsEndCounts(offset: nat, evicted: nat, length: nat)
    ensures LapsEnd(offset, evicted, length) == offset + Laps(offset, evicted, length) * length
    decreases evicted - offset
  {
    if offset >= evicted || length == 0 {
    } else {
      LapsEndCounts(offset + length, evicted, length);
      var laps := Laps(offset + length, evicted, length);
      assert (1 + laps) * length == length + laps * length;
    }
  }

  /**
   The exact stream of a lapped listener: the whole list again and again until the offset has counted past the
   list front, then the rest of the log once.
   */
  lemma {:induction false} DrainedRepeats(list: seq<Event>, log: seq<Payload>, evicted: nat, offset: nat)
    requires ListOf(list, log, evicted) && offset <= |log|
    ensures evicted <= LapsEnd(offset, evicted, |list|) <= |log|
    ensures Drained(list, |log|, offset)
         == Repeated(list, Laps(offset, evicted, |list|)) + Window(log, LapsEnd(offset, evicted, |list|))
    decreases |log| - offset
  {
    hide EventsAbove, Drained;
    if offset >= evicted {
      DrainedUnlapped(list, log, evicted, offset);
    } else {
      DrainedLapped(list, log, evicted, offset);
      var next := offset + |list|;
      DrainedRepeats(list, log, evicted, next);
      ConcatAssociates(list, Repeated(list, Laps(next, evicted, |list|)), Window(log, LapsEnd(next, evicted, |list|)));
    }
  }

  lemma {:induction false} DrainStep(list: seq<Event>, log: seq<Payload>, evicted: nat, offset: nat, sent: seq<Event>,
                                     batch: seq<Event>)
    requires ListOf(list, log, evicted) && offset <= |log| && batch == EventsAbove(list, offset)
    ensures batch == [] <==> offset == |log|
    ensures offset == |log| ==> Drained(list, |log|, offset) == []
    ensures offset + |batch| <= |log|
    ensures sent + Drained(list, |log|, offset) == (sent + batch) + Drained(list, |log|, offset + |batch|)
  {
    DrainUnfolds(list, log, evicted, offset);
    ConcatAssociates(sent, batch, Drained(list, |log|, offset + |batch|));
  }

  class AgentEventListener {
    var offset: nat

    constructor AddListener()
      ensures offset == 0
    {
      offset := 0;
    }

    /** The publisher loop with no stop request and an idle producer, up to the fetch that finds nothing. */
    method Publish(h: AgentEventHandler) returns (sent: seq<Event>)
      requires h.Valid() && offset <= h.eventOffset
      modifies this
      ensures sent == Drained(h.eventList, h.eventOffset, old(offset))
      ensures offset == h.eventOffset
    {
      hide EventsAbove, Reverse, Drained;
      ghost var list, log, whole := h.eventList, h.log, Drained(h.eventList, h.eventOffset, offset);
      sent := [];
      var events, above := Fetch(h);
      while events != []
        invariant offset <= |log|
        invariant above == EventsAbove(list, offset) == Reverse(events)
        invariant sent + Drained(list, |log|, offset) == whole
        decreases |log| - offset
      {
        DrainStep(list, log, h.evicted, offset, sent, above);
        var batch := OldestFirst(events);
        sent := sent + batch;
        offset := offset + |events|;
        events, above := Fetch(h);
      }
      DrainStep(list, log, h.evicted, offset, sent, above);
    }

    /** A fetch at the listener's offset; `above` is the same batch, oldest first. */
    method Fetch(h: AgentEventHandler) returns (events: seq<Event>, ghost above: seq<Event>)
      requires h.Valid()
      ensures above == EventsAbove(h.eventList, offset) == Reverse(events)
    {
      events := h.GetEvents(offset);
      above := EventsAbove(h.eventList, offset);
      ReverseTwice(above);
    }

    /** The inner loop: a batch is fetched newest first and sent from its last position down. */
    static method OldestFirst(events: seq<Event>) returns (sent: seq<Event>)
      ensures sent == Reverse(events)
    {
      sent := [];
      var i := |events| - 1;
      while i >= 0
        invariant -1 <= i < |events|
        invariant sent == Reverse(events)[..|events| - 1 - i]
      {
        sent := sent + [events[i]];
        i := i - 1;
      }
    }
  }
}
