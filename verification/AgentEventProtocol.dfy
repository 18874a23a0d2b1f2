/**
 The producer, the publisher goroutines and their websocket clients as interleaved atomic steps.
 `log`, `evicted`, `fetched`, `received`, `lapped` and `missed` only record what has happened.
 */
module AgentEventProtocol {
  import opened Wrappers
  import opened AgentEventList

  datatype ProducerPc =
    | Idle
    | Pushed   // list updated and unlocked, counter not yet bumped
    | Counted  // counter bumped, broadcast still to come

  datatype PublisherPc =
    | AtSelect
    | Fetching
    | Counting
    | Sending(next: nat)
    | Locking
    | Holding
    | Waiting
    | Relocking
    | Unlocking
    | Acking
    | Returned

  datatype ClientPc = Receiving | Writing | StopSending | StopAwaiting | Closing | Done

  datatype Listener = Listener(
    offset: nat,
    batch: seq<Event>,
    pub: PublisherPc,
    client: ClientPc,
    closed: bool,
    panicked: bool,
    fetched: seq<Event>,
    received: seq<Event>,
    lapped: bool,
    missed: bool)

  datatype State = State(
    list: seq<Event>,
    eventOffset: nat,
    producer: ProducerPc,
    lock: Option<nat>,
    listeners: map<nat, Listener>,
    log: seq<Payload>,
    evicted: nat)

  datatype Action =
    | SelectDefault | SelectStop | Fetch | Count | Send | SendOnClosed
    | TakeLock | CondWait | Relock | Unlock | Ack
    | WriteOk | WriteFail | SeeClosed | Close

  datatype Step =
    | Push(payload: Payload)
    | Bump
    | Broadcast
    | Open(id: nat)
    | Listen(id: nat, action: Action)

  // ---------- steps ----------

  const Fresh := Listener(0, [], AtSelect, Receiving, false, false, [], [], false, false)

  function Init(rows: seq<Payload>): State {
    State(Window(rows, 0), |rows|, Idle, None, map[], rows, 0)
  }

  predicate CanAct(l: Listener, a: Action, lock: Option<nat>) {
    match a
    case SelectDefault => l.pub.AtSelect? && !l.client.StopSending?
    case SelectStop => (l.pub.AtSelect? || l.pub.Sending?) && l.client.StopSending?
    case Fetch => l.pub.Fetching? && lock.None?
    case Count => l.pub.Counting?
    case Send => l.pub.Sending? && l.pub.next < |l.batch| && l.client.Receiving? && !l.closed
    case SendOnClosed => l.pub.Sending? && l.closed
    case TakeLock => l.pub.Locking? && lock.None?
    case CondWait => l.pub.Holding?
    case Relock => l.pub.Relocking? && lock.None?
    case Unlock => l.pub.Unlocking?
    case Ack => l.pub.Acking? && l.client.StopAwaiting?
    case WriteOk => l.client.Writing?
    case WriteFail => l.client.Writing?
    case SeeClosed => l.client.Receiving? && l.closed
    case Close => l.client.Closing?
  }

  function AfterFetch(l: Listener, list: seq<Event>, evicted: nat): Listener {
    var above := EventsAbove(list, l.offset);
    if above == [] then l.(pub := Locking, missed := false)
    else l.(pub := Counting, batch := Reverse(above), fetched := l.fetched + above,
            lapped := l.lapped || l.offset < evicted)
  }

  function AfterSend(l: Listener): Listener
    requires l.pub.Sending? && l.pub.next < |l.batch|
  {
    l.(received := l.received + [l.batch[l.pub.next]],
       client := Writing,
       pub := if l.pub.next == 0 then AtSelect else Sending(l.pub.next - 1))
  }

  function Act(l: Listener, a: Action, list: seq<Event>, evicted: nat, lock: Option<nat>): Listener
    requires CanAct(l, a, lock)
  {
    match a
    case SelectDefault => l.(pub := Fetching)
    case SelectStop => l.(pub := Acking, client := StopAwaiting)
    case Fetch => AfterFetch(l, list, evicted)
    case Count => l.(offset := l.offset + |l.batch|,
                     pub := if l.batch == [] then AtSelect else Sending(|l.batch| - 1))
    case Send => AfterSend(l)
    case SendOnClosed => l.(panicked := true, pub := Returned)
    case TakeLock => l.(pub := Holding)
    case CondWait => l.(pub := Waiting)
    case Relock => l.(pub := Unlocking)
    case Unlock => l.(pub := AtSelect)
    case Ack => l.(pub := Returned, client := Closing)
    case WriteOk => l.(client := Receiving)
    case WriteFail => l.(client := StopSending)
    case SeeClosed => l.(client := StopSending)
    case Close => l.(client := Done, closed := true, panicked := l.panicked || l.closed)
  }

  function LockAfter(lock: Option<nat>, id: nat, a: Action): Option<nat> {
    match a
    case TakeLock => Some(id)
    case Relock => Some(id)
    case CondWait => None
    case Unlock => None
    case _ => lock
  }

  /** A broadcast wakes only a publisher that is already waiting. */
  function Woken(l: Listener, total: nat): Listener {
    match l.pub
    case Waiting => l.(pub := Relocking)
    case Locking => l.(missed := l.missed || total > l.offset)
    case Holding => l.(missed := l.missed || total > l.offset)
    case _ => l
  }

  predicate Enabled(s: State, step: Step) {
    match step
    case Push(_) => s.producer.Idle? && s.lock.None?
    case Bump => s.producer.Pushed?
    case Broadcast => s.producer.Counted?
    case Open(id) => id !in s.listeners
    case Listen(id, a) => id in s.listeners && CanAct(s.listeners[id], a, s.lock)
  }

  function Apply(s: State, step: Step): State
    requires Enabled(s, step)
  {
    match step
    case Push(payload) =>
      s.(list := Appended(s.list, s.eventOffset, payload), producer := Pushed,
         log := s.log + [payload], evicted := EvictedAfter(s.list, s.evicted))
    case Bump => s.(eventOffset := s.eventOffset + 1, producer := Counted)
    case Broadcast =>
      s.(producer := Idle, listeners := map id | id in s.listeners :: Woken(s.listeners[id], |s.log|))
    case Open(id) => s.(listeners := s.listeners[id := Fresh])
    case Listen(id, a) =>
      s.(listeners := s.listeners[id := Act(s.listeners[id], a, s.list, s.evicted, s.lock)],
         lock := LockAfter(s.lock, id, a))
  }

  /** The state after `steps`, or None when one of them is not enabled. */
  function Exec(s: State, steps: seq<Step>): Option<State>
    decreases |steps|
  {
    if steps == [] then Some(s)
    else if Enabled(s, steps[0]) then Exec(Apply(s, steps[0]), steps[1..])
    else None
  }

  ghost predicate Reachable(s: State) {
    exists rows: seq<Payload>, steps ::
      |rows| <= MAX_MESSAGE_LEN && Exec(Init(rows), steps) == Some(s)
  }

  // ---------- invariant of one listener ----------

  ghost predicate Gapless(fetched: seq<Event>) {
    forall k :: 0 <= k < |fetched| ==> fetched[k].index == k + 1
  }

  /** The highest index fetched so far; batches end with the newest event of the list. */
  function Highest(fetched: seq<Event>): nat {
    if fetched == [] then 0 else fetched[|fetched| - 1].index
  }

  ghost predicate HasFetched(fetched: seq<Event>, i: nat) {
    exists k :: 0 <= k < |fetched| && fetched[k].index == i
  }

  function Counts(l: Listener): nat {
    if l.pub.Counting? then l.offset + |l.batch| else l.offset
  }

  predicate PcsAgree(l: Listener) {
    && (l.closed <==> l.client.Done?)
    && (l.pub.Acking? <==> l.client.StopAwaiting?)
    && (l.pub.Returned? <==> l.client.Closing? || l.client.Done?)
    && !l.panicked
  }

  predicate Delivery(l: Listener) {
    match l.pub
    case Counting => l.batch != [] && l.received + Reverse(l.batch) == l.fetched
    case Sending(next) => next < |l.batch| && l.received + Reverse(l.batch[..next + 1]) == l.fetched
    case Acking => l.received <= l.fetched
    case Returned => l.received <= l.fetched
    case _ => l.received == l.fetched
  }

  /** Everything fetched is a genuine event, and everything below the highest one was fetched or evicted. */
  ghost predicate FetchedFrom(fetched: seq<Event>, log: seq<Payload>, evicted: nat) {
    && |fetched| <= Highest(fetched) <= |log|
    && (forall k :: 0 <= k < |fetched| ==>
         1 <= fetched[k].index <= Highest(fetched) && fetched[k].payload == log[fetched[k].index - 1])
    && (forall i :: evicted < i <= Highest(fetched) ==> HasFetched(fetched, i))
  }

  ghost predicate Accounting(l: Listener, log: seq<Payload>, evicted: nat) {
    && |l.fetched| == Counts(l)
    && FetchedFrom(l.fetched, log, evicted)
    && (l.lapped <==> !Gapless(l.fetched))
  }

  predicate Parked(l: Listener) {
    l.pub.Locking? || l.pub.Holding? || l.pub.Waiting?
  }

  predicate Wakeups(l: Listener, total: nat, producer: ProducerPc) {
    Parked(l) ==>
      && (l.missed ==> total > l.offset)
      && (producer.Idle? && total > l.offset ==> l.missed)
  }

  ghost predicate ListenerInv(l: Listener, log: seq<Payload>, evicted: nat, producer: ProducerPc) {
    PcsAgree(l) && Delivery(l) && Accounting(l, log, evicted) && Wakeups(l, |log|, producer)
  }

  predicate HasLock(l: Listener) {
    l.pub.Holding? || l.pub.Unlocking?
  }

  ghost predicate LockInv(s: State) {
    && (s.lock.Some? ==> s.lock.value in s.listeners)
    && (forall id :: id in s.listeners ==> (HasLock(s.listeners[id]) <==> s.lock == Some(id)))
  }

  ghost predicate Inv(s: State) {
    && ListOf(s.list, s.log, s.evicted)
    && |s.log| == s.eventOffset + (if s.producer.Pushed? then 1 else 0)
    && LockInv(s)
    && (forall id :: id in s.listeners ==> ListenerInv(s.listeners[id], s.log, s.evicted, s.producer))
  }

  // ---------- preservation ----------

  lemma {:induction false} FetchKeepsFetchedFrom(fetched: seq<Event>, log: seq<Payload>, evicted: nat)
    requires FetchedFrom(fetched, log, evicted) && |fetched| < |log| && evicted < |log|
    ensures FetchedFrom(fetched + Window(log, Max(|fetched|, evicted)), log, evicted)
  {
    var n, start := |fetched|, Max(|fetched|, evicted);
    var above := Window(log, start);
    var all := fetched + above;
    assert all[|all| - 1] == above[|above| - 1];
    forall i | evicted < i <= |log| ensures HasFetched(all, i) {
      if i > start {
        assert all[n + (i - start - 1)] == above[i - start - 1];
      } else {
        assert HasFetched(fetched, i);
        var k :| 0 <= k < n && fetched[k].index == i;
        assert all[k] == fetched[k];
      }
    }
  }

  lemma {:induction false} FetchKeepsGapless(fetched: seq<Event>, log: seq<Payload>, evicted: nat)
    requires |fetched| < |log| && evicted < |log|
    ensures Gapless(fetched + Window(log, Max(|fetched|, evicted))) <==> Gapless(fetched) && evicted <= |fetched|
  {
    var n, above := |fetched|, Window(log, Max(|fetched|, evicted));
    var all := fetched + above;
    assert all[n] == above[0];
    assert forall k :: 0 <= k < n ==> all[k] == fetched[k];
    assert forall k :: n <= k < |all| ==> all[k] == above[k - n];
  }

  lemma {:induction false} FetchKeepsDelivery(l: Listener, list: seq<Event>, evicted: nat)
    requires PcsAgree(l) && Delivery(l) && l.pub.Fetching?
    ensures PcsAgree(AfterFetch(l, list, evicted)) && Delivery(AfterFetch(l, list, evicted))
  {
    ReverseTwice(EventsAbove(list, l.offset));
  }

  lemma {:induction false} FetchKeepsAccounting(l: Listener, list: seq<Event>, log: seq<Payload>, evicted: nat)
    requires ListOf(list, log, evicted) && Accounting(l, log, evicted) && l.pub.Fetching?
    ensures Accounting(AfterFetch(l, list, evicted), log, evicted)
  {
    hide FetchedFrom, Gapless, Reverse, EventsAbove;
    EventsAboveWindow(log, evicted, l.offset);
    if l.offset < |log| {
      FetchKeepsFetchedFrom(l.fetched, log, evicted);
      FetchKeepsGapless(l.fetched, log, evicted);
    }
  }

  lemma {:induction false} FetchKeepsInv(l: Listener, list: seq<Event>, log: seq<Payload>, evicted: nat,
                                         producer: ProducerPc)
    requires ListOf(list, log, evicted) && ListenerInv(l, log, evicted, producer) && l.pub.Fetching?
    ensures ListenerInv(AfterFetch(l, list, evicted), log, evicted, producer)
  {
    FetchKeepsDelivery(l, list, evicted);
    FetchKeepsAccounting(l, list, log, evicted);
    EventsAboveWindow(log, evicted, l.offset);
  }

  lemma {:induction false} SendKeepsDelivery(l: Listener)
    requires l.pub.Sending? && Delivery(l)
    ensures Delivery(AfterSend(l))
  {
    var i := l.pub.next;
    var rest := Reverse(l.batch[..i]);
    assert l.batch[..i + 1] == l.batch[..i] + [l.batch[i]];
    assert Reverse(l.batch[..i + 1]) == [l.batch[i]] + rest;
    ConcatAssociates(l.received, [l.batch[i]], rest);
    if i == 0 {
      assert l.batch[..1] == [l.batch[0]];
      assert rest == [];
    } else {
      assert l.batch[..(i - 1) + 1] == l.batch[..i];
    }
  }

  lemma {:induction false} ActKeepsDelivery(l: Listener, a: Action, list: seq<Event>, lock: Option<nat>,
                                            evicted: nat)
    requires CanAct(l, a, lock) && !a.Fetch? && PcsAgree(l) && Delivery(l)
    ensures PcsAgree(Act(l, a, list, evicted, lock)) && Delivery(Act(l, a, list, evicted, lock))
  {
    match a
    case Send => SendKeepsDelivery(l);
    case Count => assert l.batch[..|l.batch|] == l.batch;
    case _ =>
  }

  lemma {:induction false} ActKeepsInv(l: Listener, a: Action, list: seq<Event>, lock: Option<nat>,
                                       log: seq<Payload>, evicted: nat, producer: ProducerPc)
    requires ListOf(list, log, evicted) && ListenerInv(l, log, evicted, producer) && CanAct(l, a, lock)
    ensures ListenerInv(Act(l, a, list, evicted, lock), log, evicted, producer)
  {
    if a.Fetch? {
      FetchKeepsInv(l, list, log, evicted, producer);
    } else {
      ActKeepsDelivery(l, a, list, lock, evicted);
      var m := Act(l, a, list, evicted, lock);
      assert m.fetched == l.fetched && m.lapped == l.lapped && Counts(m) == Counts(l);
    }
  }

  lemma {:induction false} PushKeepsListener(l: Listener, log: seq<Payload>, evicted: nat, payload: Payload,
                                             evicted': nat)
    requires ListenerInv(l, log, evicted, Idle) && evicted <= evicted'
    ensures ListenerInv(l, log + [payload], evicted', Pushed)
  {
  }

  lemma {:induction false} PushKeepsInv(s: State, payload: Payload)
    requires Inv(s) && Enabled(s, Push(payload))
    ensures Inv(Apply(s, Push(payload)))
  {
    AppendedIsWindow(s.list, s.log, s.evicted, payload);
    var evicted' := EvictedAfter(s.list, s.evicted);
    forall id | id in s.listeners
      ensures ListenerInv(s.listeners[id], s.log + [payload], evicted', Pushed)
    {
      PushKeepsListener(s.listeners[id], s.log, s.evicted, payload, evicted');
    }
  }

  lemma {:induction false} BumpKeepsListener(l: Listener, log: seq<Payload>, evicted: nat)
    requires ListenerInv(l, log, evicted, Pushed)
    ensures ListenerInv(l, log, evicted, Counted)
  {
  }

  lemma {:induction false} BroadcastKeepsListener(l: Listener, log: seq<Payload>, evicted: nat)
    requires ListenerInv(l, log, evicted, Counted)
    ensures ListenerInv(Woken(l, |log|), log, evicted, Idle)
    ensures HasLock(Woken(l, |log|)) == HasLock(l)
  {
    hide FetchedFrom, Gapless, Reverse;
  }

  lemma {:induction false} ProducerKeepsInv(s: State, step: Step)
    requires Inv(s) && Enabled(s, step) && (step.Bump? || step.Broadcast?)
    ensures Inv(Apply(s, step))
  {
    forall id | id in s.listeners
      ensures step.Bump? ==> ListenerInv(s.listeners[id], s.log, s.evicted, Counted)
      ensures step.Broadcast? ==> ListenerInv(Woken(s.listeners[id], |s.log|), s.log, s.evicted, Idle)
      ensures HasLock(Woken(s.listeners[id], |s.log|)) == HasLock(s.listeners[id])
    {
      if step.Bump? {
        BumpKeepsListener(s.listeners[id], s.log, s.evicted);
      } else {
        BroadcastKeepsListener(s.listeners[id], s.log, s.evicted);
      }
    }
  }

  lemma {:induction false} ListenKeepsLock(s: State, id: nat, a: Action)
    requires LockInv(s) && Enabled(s, Listen(id, a))
    ensures LockInv(Apply(s, Listen(id, a)))
  {
    var l := s.listeners[id];
    var m := Act(l, a, s.list, s.evicted, s.lock);
    assert HasLock(m) <==> LockAfter(s.lock, id, a) == Some(id);
  }

  lemma {:induction false} ListenKeepsInv(s: State, id: nat, a: Action)
    requires Inv(s) && Enabled(s, Listen(id, a))
    ensures Inv(Apply(s, Listen(id, a)))
  {
    ListenKeepsLock(s, id, a);
    ActKeepsInv(s.listeners[id], a, s.list, s.lock, s.log, s.evicted, s.producer);
  }

  lemma {:induction false} StepKeepsInv(s: State, step: Step)
    requires Inv(s) && Enabled(s, step)
    ensures Inv(Apply(s, step))
  {
    match step
    case Push(payload) => PushKeepsInv(s, payload);
    case Listen(id, a) => ListenKeepsInv(s, id, a);
    case Open(id) =>
    case _ => ProducerKeepsInv(s, step);
  }

  lemma {:induction false} ExecKeepsInv(s: State, steps: seq<Step>)
    requires Inv(s) && Exec(s, steps).Some?
    ensures Inv(Exec(s, steps).value)
    decreases |steps|
  {
    if steps == [] {
    } else {
      StepKeepsInv(s, steps[0]);
      ExecKeepsInv(Apply(s, steps[0]), steps[1..]);
    }
  }

  lemma {:induction false} ReachableInv(s: State)
    requires Reachable(s)
    ensures Inv(s)
  {
    var rows: seq<Payload>, steps :| |rows| <= MAX_MESSAGE_LEN && Exec(Init(rows), steps) == Some(s);
    ExecKeepsInv(Init(rows), steps);
  }
}
