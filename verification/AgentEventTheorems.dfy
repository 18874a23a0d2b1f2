/** What every interleaving of producer, publishers and clients guarantees, and where it falls short. */
module AgentEventTheorems {
  import opened Wrappers
  import opened AgentEventList
  import opened AgentEventProtocol

  // ---------- closing ----------

  /** No send on a closed channel, no double close: the channel closes only after the publisher returned. */
  lemma {:induction false} ChannelNeverMisused(s: State, id: nat)
    requires Reachable(s) && id in s.listeners
    ensures !s.listeners[id].panicked
    ensures s.listeners[id].closed ==> s.listeners[id].pub.Returned?
    ensures s.listeners[id].client.Receiving? ==> !s.listeners[id].closed
    ensures !Enabled(s, Listen(id, SendOnClosed)) && !Enabled(s, Listen(id, SeeClosed))
  {
    ReachableInv(s);
  }

  predicate InStop(l: Listener) {
    l.client.StopSending? || l.client.StopAwaiting? || l.client.Closing? || l.client.Done?
  }

  lemma {:induction false} ActAfterStop(l: Listener, a: Action, list: seq<Event>, evicted: nat, lock: Option<nat>)
    requires CanAct(l, a, lock) && InStop(l)
    ensures InStop(Act(l, a, list, evicted, lock)) && Act(l, a, list, evicted, lock).received == l.received
  {
  }

  lemma {:induction false} StepAfterStop(s: State, step: Step, id: nat)
    requires Enabled(s, step) && id in s.listeners && InStop(s.listeners[id])
    ensures id in Apply(s, step).listeners
    ensures InStop(Apply(s, step).listeners[id])
    ensures Apply(s, step).listeners[id].received == s.listeners[id].received
  {
    hide Act;
    if step.Listen? && step.id == id {
      ActAfterStop(s.listeners[id], step.action, s.list, s.evicted, s.lock);
    }
  }

  /** Once the client has entered `stop`, no schedule delivers another event to it. */
  lemma {:induction false} NothingDeliveredAfterStop(s: State, steps: seq<Step>, id: nat)
    requires Exec(s, steps).Some? && id in s.listeners && InStop(s.listeners[id])
    ensures var t := Exec(s, steps).value;
      id in t.listeners && InStop(t.listeners[id]) && t.listeners[id].received == s.listeners[id].received
    decreases |steps|
  {
    if steps == [] {
    } else {
      StepAfterStop(s, steps[0], id);
      NothingDeliveredAfterStop(Apply(s, steps[0]), steps[1..], id);
    }
  }

  /** An upper bound on the moves a stopping listener still has to make, counting its wake-up. */
  function StopRank(l: Listener): nat {
    match l.client
    case StopAwaiting => 2
    case Closing => 1
    case Done => 0
    case _ =>
      match l.pub
      case AtSelect => 3
      case Sending(_) => 3
      case Counting => 4
      case Unlocking => 4
      case Relocking => 5
      case Waiting => 6
      case Holding => 7
      case Locking => 8
      case Fetching => 9
      case Acking => 2
      case Returned => 1
  }

  function Moves(steps: seq<Step>, id: nat): nat {
    if steps == [] then 0 else MoveOf(steps[0], id) + Moves(steps[1..], id)
  }

  function MoveOf(step: Step, id: nat): nat {
    if step.Listen? && step.id == id then 1 else 0
  }

  lemma {:induction false} ActLowersStopRank(l: Listener, a: Action, list: seq<Event>, evicted: nat,
                                             lock: Option<nat>)
    requires CanAct(l, a, lock) && PcsAgree(l) && InStop(l)
    ensures StopRank(Act(l, a, list, evicted, lock)) < StopRank(l)
  {
  }

  lemma {:induction false} StepLowersStopRank(s: State, step: Step, id: nat)
    requires Inv(s) && Enabled(s, step) && id in s.listeners && InStop(s.listeners[id])
    ensures id in Apply(s, step).listeners
    ensures StopRank(Apply(s, step).listeners[id]) + MoveOf(step, id) <= StopRank(s.listeners[id])
  {
    var l := s.listeners[id];
    if step.Listen? && step.id == id {
      ActLowersStopRank(l, step.action, s.list, s.evicted, s.lock);
    } else if step.Broadcast? {
      assert StopRank(Woken(l, |s.log|)) <= StopRank(l);
    }
  }

  /** Under every schedule a stopping listener makes at most nine more moves; its rank only falls. */
  lemma {:induction false} StopIsBounded(s: State, steps: seq<Step>, id: nat)
    requires Inv(s) && Exec(s, steps).Some? && id in s.listeners && InStop(s.listeners[id])
    ensures id in Exec(s, steps).value.listeners
    ensures StopRank(Exec(s, steps).value.listeners[id]) + Moves(steps, id) <= StopRank(s.listeners[id])
    ensures Moves(steps, id) <= 9
    decreases |steps|
  {
    if steps == [] {
    } else {
      var t := Apply(s, steps[0]);
      StepKeepsInv(s, steps[0]);
      StepAfterStop(s, steps[0], id);
      StepLowersStopRank(s, steps[0], id);
      StopIsBounded(t, steps[1..], id);
    }
  }

  /** The move a stopping listener can make next. */
  function NextStopAction(l: Listener): Action {
    match l.client
    case StopAwaiting => Ack
    case Closing => Close
    case _ =>
      match l.pub
      case Fetching => Fetch
      case Counting => Count
      case Locking => TakeLock
      case Holding => CondWait
      case Relocking => Relock
      case Unlocking => Unlock
      case _ => SelectStop
  }

  /**
   A stopping listener is never stuck except in `cond.Wait`, which only a broadcast ends, or behind another
   publisher that holds the lock and can release it at once.
   */
  lemma {:induction false} StopNeverStuck(s: State, id: nat)
    requires Reachable(s) && id in s.listeners && InStop(s.listeners[id])
    ensures var l := s.listeners[id];
      || l.client.Done?
      || (l.client.StopSending? && l.pub.Waiting?)
      || CanAct(l, NextStopAction(l), s.lock)
      || (exists other :: s.lock == Some(other) && other != id && other in s.listeners
           && (CanAct(s.listeners[other], CondWait, s.lock) || CanAct(s.listeners[other], Unlock, s.lock)))
  {
    hide Accounting, Delivery, Wakeups;
    ReachableInv(s);
    var l := s.listeners[id];
    if s.lock.Some? {
      assert s.lock == Some(s.lock.value) && HasLock(s.listeners[s.lock.value]);
    }
  }

  lemma {:induction false} StopRankEnds(l: Listener)
    requires PcsAgree(l) && InStop(l)
    ensures StopRank(l) == 0 <==> l.client.Done?
    ensures l.pub.Waiting? ==> StopRank(l) == 6
    ensures l.closed <==> l.client.Done?
  {
  }

  lemma {:induction false} StoppingRun(s: State, steps: seq<Step>, id: nat)
    requires Inv(s) && Exec(s, steps).Some? && id in s.listeners && InStop(s.listeners[id])
    requires StopRank(s.listeners[id]) <= 5
    ensures var t := Exec(s, steps).value;
      && id in t.listeners && !t.listeners[id].pub.Waiting?
      && Moves(steps, id) <= 5
      && (Moves(steps, id) == 5 ==> t.listeners[id].client.Done? && t.listeners[id].closed)
  {
    StopIsBounded(s, steps, id);
    ExecKeepsInv(s, steps);
    NothingDeliveredAfterStop(s, steps, id);
    StopRankEnds(Exec(s, steps).value.listeners[id]);
  }

  lemma {:induction false} BroadcastReaches(s: State, id: nat)
    requires s.producer.Counted? && id in s.listeners
    ensures id in Apply(s, Broadcast).listeners
    ensures Apply(s, Broadcast).listeners[id] == Woken(s.listeners[id], |s.log|)
  {
  }

  lemma {:induction false} BroadcastWakes(s: State, id: nat)
    requires id in s.listeners && s.producer.Counted?
    requires s.listeners[id].client.StopSending? && s.listeners[id].pub.Waiting?
    ensures var t := Apply(s, Broadcast);
      id in t.listeners && InStop(t.listeners[id]) && StopRank(t.listeners[id]) == 5
  {
    BroadcastReaches(s, id);
  }

  /** After the broadcast that wakes it, a stopping publisher never waits again, and five moves finish the stop. */
  lemma {:induction false} OneBroadcastCompletesStop(s: State, id: nat, steps: seq<Step>)
    requires Reachable(s) && id in s.listeners && s.producer.Counted?
    requires s.listeners[id].client.StopSending? && s.listeners[id].pub.Waiting?
    requires Exec(Apply(s, Broadcast), steps).Some?
    ensures var t := Exec(Apply(s, Broadcast), steps).value;
      && id in t.listeners && !t.listeners[id].pub.Waiting?
      && Moves(steps, id) <= 5
      && (Moves(steps, id) == 5 ==> t.listeners[id].client.Done? && t.listeners[id].closed)
  {
    ReachableInv(s);
    StepKeepsInv(s, Broadcast);
    BroadcastWakes(s, id);
    StoppingRun(Apply(s, Broadcast), steps, id);
  }

  // ---------- what a listener gets ----------

  /** An event is skipped only if it had been evicted: every index up to the highest fetched was fetched or is gone. */
  lemma {:induction false} SkippedOnlyIfEvicted(s: State, id: nat, i: nat)
    requires Reachable(s) && id in s.listeners
    ensures var l := s.listeners[id];
      && l.offset <= Highest(l.fetched) <= |s.log|
      && (1 <= i <= Highest(l.fetched) ==> HasFetched(l.fetched, i) || i <= s.evicted)
      && l.received <= l.fetched
      && (forall k :: 0 <= k < |l.fetched| ==>
           1 <= l.fetched[k].index <= |s.log| && l.fetched[k].payload == s.log[l.fetched[k].index - 1])
  {
    ReachableInv(s);
    var l := s.listeners[id];
    if l.pub.Sending? {
      assert l.received <= l.received + Reverse(l.batch[..l.pub.next + 1]);
    } else if l.pub.Counting? {
      assert l.received <= l.received + Reverse(l.batch);
    }
  }

  /** The offset counts fetched events, repeats included. */
  lemma {:induction false} OffsetCountsFetches(s: State, id: nat)
    requires Reachable(s) && id in s.listeners && !s.listeners[id].pub.Counting?
    ensures |s.listeners[id].fetched| == s.listeners[id].offset
  {
    ReachableInv(s);
  }

  /**
   The fetched stream is events 1, 2, 3, ... each exactly once if and only if no fetch of this listener found
   its offset below the list front; the client then has a prefix of the log.
   */
  lemma {:induction false} ExactlyOnceUnlessLapped(s: State, id: nat)
    requires Reachable(s) && id in s.listeners
    ensures var l := s.listeners[id];
      && |l.fetched| <= |s.log|
      && (l.fetched == Window(s.log, 0)[..|l.fetched|] <==> !l.lapped)
      && (!l.lapped ==> |l.received| <= |s.log| && l.received == Window(s.log, 0)[..|l.received|])
  {
    hide HasFetched, Delivery;
    ReachableInv(s);
    SkippedOnlyIfEvicted(s, id, 1);
    var l := s.listeners[id];
    var w := Window(s.log, 0);
    if !l.lapped {
      assert forall k :: 0 <= k < |l.fetched| ==> l.fetched[k] == w[k];
    } else {
      var k :| 0 <= k < |l.fetched| && l.fetched[k].index != k + 1;
      assert w[..|l.fetched|][k].index == k + 1;
    }
  }

  /** `lapped` is decided at the fetch: it turns true exactly when the offset lies below the list front. */
  lemma {:induction false} LappedAtFetch(s: State, id: nat)
    requires Reachable(s) && Enabled(s, Listen(id, Fetch))
    ensures var l, m := s.listeners[id], Apply(s, Listen(id, Fetch)).listeners[id];
      && (m.lapped <==> l.lapped || (s.list != [] && l.offset + 1 < s.list[0].index))
      && (m.pub.Locking? <==> l.offset == |s.log|)
  {
    hide HasFetched, Gapless, Delivery, Wakeups, LockInv, Reverse, EventsAbove;
    ReachableInv(s);
    EventsAboveWindow(s.log, s.evicted, s.listeners[id].offset);
  }

  function Indices(fetched: seq<Event>): set<nat> {
    set k | 0 <= k < |fetched| :: fetched[k].index
  }

  function UpTo(n: nat): (r: set<nat>)
    ensures |r| == n
    ensures forall i :: i in r <==> 1 <= i <= n
  {
    if n == 0 then {} else UpTo(n - 1) + {n}
  }

  /** Conservation: events lost = events sent twice + the gap between the highest index and the offset. */
  lemma {:induction false} LostEqualsRepeated(s: State, id: nat)
    requires Reachable(s) && id in s.listeners && !s.listeners[id].pub.Counting?
    ensures var l := s.listeners[id];
      var lost := UpTo(Highest(l.fetched)) - Indices(l.fetched);
      && (forall i :: i in lost ==> i <= s.evicted)
      && |lost| == (|l.fetched| - |Indices(l.fetched)|) + (Highest(l.fetched) - l.offset)
  {
    ReachableInv(s);
    var l := s.listeners[id];
    var all, seen := UpTo(Highest(l.fetched)), Indices(l.fetched);
    assert seen <= all;
    assert |all - seen| == |all| - |seen|;
    forall i | i in all - seen ensures i <= s.evicted {
      SkippedOnlyIfEvicted(s, id, i);
    }
  }

  // ---------- reaching the client ----------

  predicate Listening(l: Listener) {
    l.client.Receiving? || l.client.Writing?
  }

  /** Events the log holds beyond the offset. */
  function Ahead(l: Listener, total: nat): nat {
    if l.offset <= total then total - l.offset else 0
  }

  /** Moves a listener may still make, up to the next wait, before it has been sent everything there is. */
  function Toil(l: Listener, total: nat): nat {
    var r := 5 * Ahead(l, total);
    match l.pub
    case AtSelect => r + 4
    case Fetching => r + 3
    case Counting => 5 * Ahead(l.(offset := l.offset + |l.batch|), total) + 2 * |l.batch| + 5
    case Sending(next) => r + 2 * next + 6
    case Unlocking => r + 5
    case Relocking => r + 6
    case Locking => 2
    case Holding => 1
    case _ => 0
  }

  /** The same, counting a wake-up by the broadcast the producer still owes. */
  function Work(l: Listener, total: nat, producer: ProducerPc): nat {
    (if l.client.Writing? then 1 else 0) + Toil(l, total)
    + (if producer.Idle? then 0 else if Parked(l) then 5 * Ahead(l, total) + 6 else 6)
  }

  lemma {:induction false} FetchLowersWork(l: Listener, list: seq<Event>, log: seq<Payload>, evicted: nat,
                                           producer: ProducerPc)
    requires ListOf(list, log, evicted) && ListenerInv(l, log, evicted, producer) && l.pub.Fetching?
    ensures Work(AfterFetch(l, list, evicted), |log|, producer) < Work(l, |log|, producer)
  {
    hide Accounting, PcsAgree, Delivery, Reverse, EventsAbove;
    EventsAboveWindow(log, evicted, l.offset);
    var m := AfterFetch(l, list, evicted);
    if l.offset < |log| {
      assert m.pub.Counting? && m.offset == l.offset && |m.batch| == |log| - Max(l.offset, evicted) > 0;
      FetchPaysOff(l, m, |log|);
    } else {
      assert m.pub.Locking? && m.offset == l.offset;
    }
  }

  lemma {:induction false} FetchPaysOff(l: Listener, m: Listener, total: nat)
    requires l.pub.Fetching? && m.pub.Counting? && m.offset == l.offset < total && m.batch != []
    requires |m.batch| <= total - l.offset
    ensures Toil(m, total) < Toil(l, total)
  {
    assert Ahead(m.(offset := m.offset + |m.batch|), total) == Ahead(l, total) - |m.batch|;
  }

  lemma {:induction false} ActLowersWork(l: Listener, a: Action, list: seq<Event>, lock: Option<nat>,
                                         log: seq<Payload>, evicted: nat, producer: ProducerPc)
    requires ListOf(list, log, evicted) && ListenerInv(l, log, evicted, producer) && CanAct(l, a, lock)
    requires Listening(l) && !a.WriteFail?
    ensures Listening(Act(l, a, list, evicted, lock))
    ensures Work(Act(l, a, list, evicted, lock), |log|, producer) < Work(l, |log|, producer)
  {
    hide Accounting, Reverse, EventsAbove, Window;
    if a.Fetch? {
      FetchLowersWork(l, list, log, evicted, producer);
    }
  }

  /** Steps that neither add an event nor break this listener's connection. */
  predicate Calm(step: Step, id: nat) {
    !step.Push? && !(step.Listen? && step.id == id && step.action.WriteFail?)
  }

  lemma {:induction false} BroadcastKeepsWork(l: Listener, total: nat)
    requires Listening(l)
    ensures Work(Woken(l, total), total, Idle) <= Work(l, total, Counted)
    ensures Listening(Woken(l, total))
  {
  }

  lemma {:induction false} StepLowersWork(s: State, step: Step, id: nat)
    requires Inv(s) && Enabled(s, step) && Calm(step, id) && id in s.listeners && Listening(s.listeners[id])
    ensures var t := Apply(s, step);
      && t.log == s.log && id in t.listeners && Listening(t.listeners[id])
      && Work(t.listeners[id], |t.log|, t.producer) + MoveOf(step, id)
         <= Work(s.listeners[id], |s.log|, s.producer)
  {
    var l := s.listeners[id];
    if step.Listen? && step.id == id {
      ActLowersWork(l, step.action, s.list, s.lock, s.log, s.evicted, s.producer);
    } else if step.Broadcast? {
      BroadcastReaches(s, id);
      BroadcastKeepsWork(l, |s.log|);
    }
  }

  /**
   While no event is added and the connection holds, no schedule keeps a listener busy for ever: its moves are
   bounded by the work in sight.
   */
  lemma {:induction false} DeliveryIsBounded(s: State, steps: seq<Step>, id: nat)
    requires Inv(s) && Exec(s, steps).Some? && id in s.listeners && Listening(s.listeners[id])
    requires forall k :: 0 <= k < |steps| ==> Calm(steps[k], id)
    ensures var t := Exec(s, steps).value;
      && t.log == s.log && id in t.listeners && Listening(t.listeners[id])
      && Work(t.listeners[id], |t.log|, t.producer) + Moves(steps, id)
         <= Work(s.listeners[id], |s.log|, s.producer)
    decreases |steps|
  {
    if steps == [] {
    } else {
      StepKeepsInv(s, steps[0]);
      StepLowersWork(s, steps[0], id);
      DeliveryIsBounded(Apply(s, steps[0]), steps[1..], id);
    }
  }

  predicate CanRelease(s: State, id: nat) {
    && s.lock == Some(id) && id in s.listeners
    && (CanAct(s.listeners[id], CondWait, s.lock) || CanAct(s.listeners[id], Unlock, s.lock))
  }

  lemma {:induction false} HolderCanRelease(s: State)
    requires Inv(s) && s.lock.Some?
    ensures CanRelease(s, s.lock.value)
  {
    assert HasLock(s.listeners[s.lock.value]);
  }

  /**
   A listening listener that cannot move waits for a lock that another one can release at once, or it is in
   `cond.Wait` and its client has everything that was fetched for it; with the producer at rest its offset is then
   the end of the log exactly when no broadcast passed it by.
   */
  lemma {:induction false} QuietMeansDelivered(s: State, id: nat)
    requires Reachable(s) && id in s.listeners && Listening(s.listeners[id])
    requires forall a :: !CanAct(s.listeners[id], a, s.lock)
    ensures var l := s.listeners[id];
      || (s.lock.Some? && s.lock.value != id && CanRelease(s, s.lock.value))
      || (&& l.pub.Waiting? && l.received == l.fetched && |l.received| == l.offset
          && (s.producer.Idle? ==> (l.offset == |s.log| <==> !l.missed)))
  {
    ReachableInv(s);
    var l := s.listeners[id];
    var next := if l.client.Writing? then WriteOk else NextListenAction(l);
    assert !CanAct(l, next, s.lock);
    if s.lock.Some? {
      HolderCanRelease(s);
      assert !CanAct(l, CondWait, s.lock) && !CanAct(l, Unlock, s.lock);
    }
  }

  function NextProducerStep(s: State, payload: Payload): Step {
    match s.producer
    case Idle => Push(payload)
    case Pushed => Bump
    case Counted => Broadcast
  }

  /** The producer can always go on, at once or after one move of the listener that holds the lock. */
  lemma {:induction false} ProducerNeverStuck(s: State, payload: Payload)
    requires Reachable(s)
    ensures var next := NextProducerStep(s, payload);
      || Enabled(s, next)
      || (exists id, a :: s.lock == Some(id) && Enabled(s, Listen(id, a)) && Enabled(Apply(s, Listen(id, a)), next))
  {
    ReachableInv(s);
    if s.lock.Some? {
      var id := s.lock.value;
      HolderCanRelease(s);
      var a := if CanAct(s.listeners[id], CondWait, s.lock) then CondWait else Unlock;
      assert Enabled(s, Listen(id, a)) && Apply(s, Listen(id, a)).lock == None;
    }
  }

  function NextListenAction(l: Listener): Action {
    match l.pub
    case AtSelect => SelectDefault
    case Sending(_) => Send
    case _ => NextStopAction(l)
  }

  // ---------- wake-ups ----------

  /** A parked listener has unfetched events, while the producer rests, exactly when a broadcast passed it by. */
  lemma {:induction false} StrandedExactlyWhenMissed(s: State, id: nat)
    requires Reachable(s) && id in s.listeners && s.listeners[id].pub.Waiting? && s.producer.Idle?
    ensures |s.log| > s.listeners[id].offset <==> s.listeners[id].missed
  {
    ReachableInv(s);
  }

  /** The broadcast between the empty fetch and `cond.Wait` is lost: the event stays undelivered. */
  lemma {:induction false} WakeupCanBeLost() returns (s: State)
    ensures Reachable(s)
    ensures 0 in s.listeners && s.listeners[0].pub.Waiting? && s.listeners[0].client.Receiving?
    ensures s.producer.Idle? && |s.log| == 1 && s.listeners[0].received == []
  {
    var s0 := Init([]);
    var s1 := Apply(s0, Open(0));
    var s2 := Apply(s1, Listen(0, SelectDefault));
    var s3 := Apply(s2, Listen(0, Fetch));
    assert s3.listeners[0].pub.Locking?;
    var late := [Push("event"), Bump, Broadcast, Listen(0, TakeLock), Listen(0, CondWait)];
    s := MissTheBroadcast(s3, late);
    ExecTwo(s1, Listen(0, SelectDefault), Listen(0, Fetch), late);
    ExecOne(s0, Open(0), [Listen(0, SelectDefault), Listen(0, Fetch)] + late);
    ReachableBy([], [Open(0)] + ([Listen(0, SelectDefault), Listen(0, Fetch)] + late), s);
  }

  // ---------- what starts the stop ----------

  lemma {:induction false} ListeningOrStopping(l: Listener)
    ensures Listening(l) <==> !InStop(l)
  {
  }

  /** A failed write starts the stop, and from then on no schedule delivers the client another event. */
  lemma {:induction false} FailedWriteStops(s: State, id: nat, steps: seq<Step>)
    requires Reachable(s) && Enabled(s, Listen(id, WriteFail)) && Exec(Apply(s, Listen(id, WriteFail)), steps).Some?
    ensures InStop(Apply(s, Listen(id, WriteFail)).listeners[id])
    ensures var t := Exec(Apply(s, Listen(id, WriteFail)), steps).value;
      id in t.listeners && InStop(t.listeners[id]) && t.listeners[id].received == s.listeners[id].received
  {
    NothingDeliveredAfterStop(Apply(s, Listen(id, WriteFail)), steps, id);
  }

  lemma {:induction false} ActStartsStop(l: Listener, a: Action, list: seq<Event>, evicted: nat, lock: Option<nat>)
    requires CanAct(l, a, lock) && PcsAgree(l) && Listening(l)
    ensures InStop(Act(l, a, list, evicted, lock)) <==> a.WriteFail?
  {
  }

  /** Of all steps only its own failed write makes a listening client stop. */
  lemma {:induction false} OnlyFailedWriteStops(s: State, step: Step, id: nat)
    requires Inv(s) && Enabled(s, step) && id in s.listeners && Listening(s.listeners[id])
    ensures id in Apply(s, step).listeners
    ensures InStop(Apply(s, step).listeners[id]) <==> step == Listen(id, WriteFail)
  {
    hide Act;
    if step.Listen? && step.id == id {
      ActStartsStop(s.listeners[id], step.action, s.list, s.evicted, s.lock);
    } else if step.Broadcast? {
      BroadcastReaches(s, id);
    }
  }

  /** Over any run a listening client has stopped exactly when one of its writes failed. */
  lemma {:induction false} StoppedIffWriteFailed(s: State, steps: seq<Step>, id: nat)
    requires Inv(s) && Exec(s, steps).Some? && id in s.listeners && Listening(s.listeners[id])
    ensures id in Exec(s, steps).value.listeners
    ensures InStop(Exec(s, steps).value.listeners[id]) <==> Listen(id, WriteFail) in steps
    decreases |steps|
  {
    if steps == [] {
      ListeningOrStopping(s.listeners[id]);
    } else {
      var t := Apply(s, steps[0]);
      OnlyFailedWriteStops(s, steps[0], id);
      ListeningOrStopping(t.listeners[id]);
      if steps[0] == Listen(id, WriteFail) {
        NothingDeliveredAfterStop(t, steps[1..], id);
      } else {
        StepKeepsInv(s, steps[0]);
        StoppedIffWriteFailed(t, steps[1..], id);
      }
    }
  }

  /** An event the publisher sends is being written by the client next, and the write may go either way. */
  lemma {:induction false} SentMeansWriting(s: State, id: nat)
    requires Reachable(s) && Enabled(s, Listen(id, Send))
    ensures var l, t := s.listeners[id], Apply(s, Listen(id, Send));
      && t.listeners[id].received == l.received + [l.batch[l.pub.next]]
      && Enabled(t, Listen(id, WriteOk)) && Enabled(t, Listen(id, WriteFail))
      && Apply(t, Listen(id, WriteOk)).listeners[id].client.Receiving?
  {
  }

  /** While a publisher holds the lock nothing is pushed, fetched or locked. */
  lemma {:induction false} LockExcludes(s: State, id: nat)
    requires Reachable(s) && id in s.listeners && HasLock(s.listeners[id])
    ensures forall payload :: !Enabled(s, Push(payload))
    ensures forall other, a :: Enabled(s, Listen(other, a)) && (a.Fetch? || a.TakeLock? || a.Relock?) ==> false
    ensures forall other :: other in s.listeners && other != id ==> !HasLock(s.listeners[other])
  {
    ReachableInv(s);
  }

  /** The first fetch of the first listener over one stored event. */
  lemma {:induction false} FirstFetch(rest: seq<Step>) returns (s: State)
    ensures Exec(Init(["event"]), [Open(0)] + ([Listen(0, SelectDefault), Listen(0, Fetch)] + rest)) == Exec(s, rest)
    ensures s.lock.None? && s.producer.Idle? && s.list == Window(["event"], 0) && s.evicted == 0
    ensures 0 in s.listeners && var l := s.listeners[0];
      && l.pub.Counting? && l.client.Receiving? && l.offset == 0 && !l.closed
      && |l.batch| == 1 && l.received == []
  {
    var s0 := Init(["event"]);
    var s1 := Apply(s0, Open(0));
    var s2 := Apply(s1, Listen(0, SelectDefault));
    EventsAboveWindow(["event"], 0, 0);
    hide EventsAbove, Reverse;
    s := Apply(s2, Listen(0, Fetch));
    ExecTwo(s1, Listen(0, SelectDefault), Listen(0, Fetch), rest);
    ExecOne(s0, Open(0), [Listen(0, SelectDefault), Listen(0, Fetch)] + rest);
  }

  /** One stored event, fetched and handed to the client: the state before its write succeeds or fails. */
  lemma {:induction false} FirstDelivery(rest: seq<Step>) returns (s: State)
    ensures var first := [Open(0), Listen(0, SelectDefault), Listen(0, Fetch), Listen(0, Count), Listen(0, Send)];
      Exec(Init(["event"]), first + rest) == Exec(s, rest)
    ensures s.lock.None? && s.producer.Idle? && s.list == Window(["event"], 0) && s.evicted == 0
    ensures 0 in s.listeners && var l := s.listeners[0];
      l.pub.AtSelect? && l.client.Writing? && l.offset == 1 && !l.closed && |l.received| == 1
  {
    hide EventsAbove, Reverse, Window;
    var late := [Listen(0, Count), Listen(0, Send)] + rest;
    var s3 := FirstFetch(late);
    var s4 := Apply(s3, Listen(0, Count));
    s := Apply(s4, Listen(0, Send));
    ExecTwo(s3, Listen(0, Count), Listen(0, Send), rest);
    assert [Open(0), Listen(0, SelectDefault), Listen(0, Fetch), Listen(0, Count), Listen(0, Send)] + rest
        == [Open(0)] + ([Listen(0, SelectDefault), Listen(0, Fetch)] + late);
  }

  lemma {:induction false} AfterFirstDelivery(rest: seq<Step>, s: State)
    requires Exec(Init(["event"]),
      [Open(0), Listen(0, SelectDefault), Listen(0, Fetch), Listen(0, Count), Listen(0, Send)] + rest) == Some(s)
    ensures Reachable(s)
  {
    ReachableBy(["event"],
      [Open(0), Listen(0, SelectDefault), Listen(0, Fetch), Listen(0, Count), Listen(0, Send)] + rest, s);
  }

  /** From a failed write through the whole handshake to the closed channel. */
  lemma {:induction false} StopCanFinish() returns (s: State)
    ensures Reachable(s) && 0 in s.listeners
    ensures s.listeners[0].client.Done? && s.listeners[0].closed && |s.listeners[0].received| == 1
  {
    var two := [Listen(0, Ack), Listen(0, Close)];
    var rest := [Listen(0, WriteFail), Listen(0, SelectStop)] + two;
    var s0 := FirstDelivery(rest);
    s := FailAndStop(s0, two);
    AfterFirstDelivery(rest, s);
  }

  lemma {:induction false} FailAndStop(s: State, two: seq<Step>) returns (t: State)
    requires 0 in s.listeners && s.listeners[0].pub.AtSelect? && s.listeners[0].client.Writing?
    requires two == [Listen(0, Ack), Listen(0, Close)]
    ensures Exec(s, [Listen(0, WriteFail), Listen(0, SelectStop)] + two) == Some(t)
    ensures 0 in t.listeners && t.listeners[0].client.Done? && t.listeners[0].closed
    ensures t.listeners[0].received == s.listeners[0].received
  {
    hide EventsAbove, Reverse;
    var s1 := Apply(s, Listen(0, WriteFail));
    var s2 := Apply(s1, Listen(0, SelectStop));
    var s3 := Apply(s2, Listen(0, Ack));
    t := Apply(s3, Listen(0, Close));
    ExecTwo(s2, Listen(0, Ack), Listen(0, Close), []);
    assert two + [] == two;
    ExecTwo(s, Listen(0, WriteFail), Listen(0, SelectStop), two);
  }

  /** A client whose write fails while its publisher sleeps waits for the next broadcast, here about to come. */
  lemma {:induction false} StopCanWait() returns (s: State)
    ensures Reachable(s) && 0 in s.listeners && s.producer.Counted?
    ensures s.listeners[0].client.StopSending? && s.listeners[0].pub.Waiting?
  {
    var three := [Listen(0, WriteFail), Push("next"), Bump];
    var lock := [Listen(0, TakeLock), Listen(0, CondWait)] + three;
    var rest := [Listen(0, SelectDefault), Listen(0, Fetch)] + lock;
    var s0 := FirstDelivery(rest);
    var s1 := Apply(s0, Listen(0, SelectDefault));
    EventsAboveWindow(["event"], 0, 1);
    var s2 := Apply(s1, Listen(0, Fetch));
    ExecTwo(s0, Listen(0, SelectDefault), Listen(0, Fetch), lock);
    s := SleepThenFail(s2, three);
    AfterFirstDelivery(rest, s);
  }

  lemma {:induction false} SleepThenFail(s: State, three: seq<Step>) returns (t: State)
    requires s.producer.Idle? && s.lock.None? && 0 in s.listeners
    requires s.listeners[0].pub.Locking? && s.listeners[0].client.Writing?
    requires three == [Listen(0, WriteFail), Push("next"), Bump]
    ensures Exec(s, [Listen(0, TakeLock), Listen(0, CondWait)] + three) == Some(t)
    ensures 0 in t.listeners && t.producer.Counted?
    ensures t.listeners[0].client.StopSending? && t.listeners[0].pub.Waiting?
  {
    hide EventsAbove, Appended, EvictedAfter;
    var s1 := Apply(s, Listen(0, TakeLock));
    var s2 := Apply(s1, Listen(0, CondWait));
    var s3 := Apply(s2, Listen(0, WriteFail));
    var s4 := Apply(s3, Push("next"));
    t := Apply(s4, Bump);
    ExecTwo(s3, Push("next"), Bump, []);
    assert [Push("next"), Bump] + [] == [Push("next"), Bump];
    ExecOne(s2, Listen(0, WriteFail), [Push("next"), Bump]);
    assert three == [Listen(0, WriteFail)] + [Push("next"), Bump];
    ExecTwo(s, Listen(0, TakeLock), Listen(0, CondWait), three);
  }

  // ---------- being lapped ----------

  /**
   A full history, two more events, and a listener that starts after them: event 1 is gone before the first fetch,
   which returns events 2 to 1002.
   */
  lemma {:induction false} ListenerCanBeLapped() returns (s: State)
    ensures Reachable(s) && 0 in s.listeners
    ensures s.listeners[0].lapped
    ensures Highest(s.listeners[0].fetched) == 1002 && !HasFetched(s.listeners[0].fetched, 1)
  {
    var rows: seq<Payload> := seq(MAX_MESSAGE_LEN, _ => "event");
    var s0 := Init(rows);
    var s1 := WithEvent(s0, "event");
    var s2 := WithEvent(s1, "event");
    AppendedIsWindow(s0.list, s0.log, 0, "event");
    AppendedIsWindow(s1.list, s1.log, 0, "event");
    assert ListOf(s2.list, s2.log, 1);
    var late := [Open(0), Listen(0, SelectDefault), Listen(0, Fetch)];
    s := LateListener(s2, late);
    ExecEvent(s1, "event", late);
    ExecEvent(s0, "event", [Push("event"), Bump, Broadcast] + late);
    ReachableBy(rows, [Push("event"), Bump, Broadcast] + ([Push("event"), Bump, Broadcast] + late), s);
  }

  /** The first fetch of a listener that starts when some events are evicted. */
  lemma {:induction false} LateListener(s: State, late: seq<Step>) returns (t: State)
    requires s.lock.None? && s.listeners == map[] && ListOf(s.list, s.log, s.evicted) && 0 < s.evicted < |s.log|
    requires late == [Open(0), Listen(0, SelectDefault), Listen(0, Fetch)]
    ensures Exec(s, late) == Some(t)
    ensures 0 in t.listeners && t.listeners[0].lapped && t.listeners[0].fetched == Window(s.log, s.evicted)
  {
    var s1 := Apply(s, Open(0));
    var s2 := Apply(s1, Listen(0, SelectDefault));
    t := Apply(s2, Listen(0, Fetch));
    EventsAboveWindow(s.log, s.evicted, 0);
    assert s2.listeners[0] == Fresh.(pub := Fetching);
    ExecTwo(s1, Listen(0, SelectDefault), Listen(0, Fetch), []);
    assert [Listen(0, SelectDefault), Listen(0, Fetch)] + [] == [Listen(0, SelectDefault), Listen(0, Fetch)];
    ExecOne(s, Open(0), [Listen(0, SelectDefault), Listen(0, Fetch)]);
    assert late == [Open(0)] + [Listen(0, SelectDefault), Listen(0, Fetch)];
  }

  // ---------- schedules ----------

  lemma {:induction false} ReachableBy(rows: seq<Payload>, steps: seq<Step>, s: State)
    requires |rows| <= MAX_MESSAGE_LEN && Exec(Init(rows), steps) == Some(s)
    ensures Reachable(s)
  {
  }

  /** What one whole AddEventList leaves behind. */
  function WithEvent(s: State, payload: Payload): State {
    s.(list := Appended(s.list, s.eventOffset, payload), eventOffset := s.eventOffset + 1,
       log := s.log + [payload], evicted := EvictedAfter(s.list, s.evicted),
       listeners := map id | id in s.listeners :: Woken(s.listeners[id], |s.log| + 1))
  }

  lemma {:induction false} ExecEvent(s: State, payload: Payload, rest: seq<Step>)
    requires s.producer.Idle? && s.lock.None?
    ensures Exec(s, [Push(payload), Bump, Broadcast] + rest) == Exec(WithEvent(s, payload), rest)
  {
    hide Appended, EvictedAfter, Woken;
    var s1 := Apply(s, Push(payload));
    ExecTwo(s1, Bump, Broadcast, rest);
    ExecOne(s, Push(payload), [Bump, Broadcast] + rest);
    assert [Push(payload), Bump, Broadcast] + rest == [Push(payload)] + ([Bump, Broadcast] + rest);
    assert Apply(Apply(s1, Bump), Broadcast) == WithEvent(s, payload);
  }

  /** A publisher caught between its empty fetch and `cond.Wait` goes to sleep on the new event. */
  lemma {:induction false} MissTheBroadcast(s: State, late: seq<Step>) returns (t: State)
    requires s.producer.Idle? && s.lock.None? && 0 in s.listeners && s.listeners[0].pub.Locking?
    requires late == [Push("event"), Bump, Broadcast, Listen(0, TakeLock), Listen(0, CondWait)]
    ensures Exec(s, late) == Some(t)
    ensures t.producer.Idle? && t.log == s.log + ["event"] && 0 in t.listeners
    ensures t.listeners[0].pub.Waiting? && t.listeners[0].client == s.listeners[0].client
    ensures t.listeners[0].received == s.listeners[0].received
  {
    hide EventsAbove, Appended, EvictedAfter;
    var s1 := WithEvent(s, "event");
    assert s1.listeners[0].pub.Locking?;
    var s2 := Apply(s1, Listen(0, TakeLock));
    t := Apply(s2, Listen(0, CondWait));
    var tail := [Listen(0, TakeLock), Listen(0, CondWait)];
    ExecTwo(s1, Listen(0, TakeLock), Listen(0, CondWait), []);
    assert tail + [] == tail;
    ExecEvent(s, "event", tail);
    assert late == [Push("event"), Bump, Broadcast] + tail;
  }

  lemma {:induction false} ExecOne(s: State, a: Step, rest: seq<Step>)
    requires Enabled(s, a)
    ensures Exec(s, [a] + rest) == Exec(Apply(s, a), rest)
  {
    assert ([a] + rest)[1..] == rest;
  }

  lemma {:induction false} ExecTwo(s: State, a: Step, b: Step, rest: seq<Step>)
    requires Enabled(s, a) && Enabled(Apply(s, a), b)
    ensures Exec(s, [a, b] + rest) == Exec(Apply(Apply(s, a), b), rest)
  {
    assert [a, b] + rest == [a] + ([b] + rest);
    ExecOne(s, a, [b] + rest);
    ExecOne(Apply(s, a), b, rest);
  }
}
