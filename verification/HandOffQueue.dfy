/** The bounded drop-oldest hand-off between feed and engine threads
    (snapshot_quant_v4/adapter/queueing.py), as the interleaving of its atomic
    steps: one queue operation, one counter update or one flag access each.
    Any number of producers, a closer and one draining consumer. */
module HandOffQueue {
  import opened Prelude

  datatype Item = Snap(id: int) | Shutdown

  /** Where a producer is inside put. */
  datatype Producer =
    | Idle
    | Entered(s: int)
    | MakingRoom(s: int)
    | Discarding(s: int, oldest: Item)
    | Retrying(s: int)
    | Refusing(s: int)

  /** Where the consumer is inside drain. */
  datatype Consumer = Polling | TimedOut | Finishing | Returned

  datatype State = State(
    items: seq<Item>,
    closed: bool,
    dropped: nat,
    producers: seq<Producer>,
    closing: bool,
    consumer: Consumer,
    history: History)

  /** What happened so far: everything that entered the queue, how much of it
      left, the log positions handed to the engine, and the books kept on the
      snapshots that put took responsibility for. `overlap`: a put was under way
      when the queue was closed. `late`: a snapshot arrived between the last
      empty poll and the look at the closed flag. */
  datatype History = History(
    log: seq<Item>,
    taken: nat,
    delivered: seq<nat>,
    accepted: nat,
    snapshotDrops: nat,
    sentinelDrops: nat,
    overlap: bool,
    late: bool)

  datatype Step =
    | Arrive(producer: nat, id: int)
    | FirstPut(producer: nat)
    | MakeRoom(producer: nat)
    | RecordDiscard(producer: nat)
    | RetryPut(producer: nat)
    | RecordRefusal(producer: nat)
    | SetClosed
    | PutSentinel
    | Get
    | Timeout
    | CheckClosed
    | GetRemaining

  function Start(threads: nat): State {
    State([], false, 0, seq(threads, _ => Idle), false, Polling, History([], 0, [], 0, 0, 0, false, false))
  }

  // -- the atomic queue operations ------------------------------------------------

  function Append(q: State, x: Item): State {
    q.(items := q.items + [x],
       history := q.history.(log := q.history.log + [x],
                             late := q.history.late || (q.consumer == TimedOut && x.Snap?)))
  }

  function PopHead(q: State): State
    requires q.items != []
  {
    q.(items := q.items[1..], history := q.history.(taken := q.history.taken + 1))
  }

  function At(q: State, i: nat, p: Producer): State
    requires i < |q.producers|
  {
    q.(producers := q.producers[i := p])
  }

  /** The engine receives the head, or learns that the end has come. */
  function Deliver(q: State): State
    requires q.items != []
  {
    var r := PopHead(q);
    match q.items[0]
    case Snap(_) => r.(history := r.history.(delivered := r.history.delivered + [q.history.taken]))
    case Shutdown => r.(consumer := Finishing)
  }

  function ProducerStep(max: nat, q: State, i: nat, step: Step): State
    requires i < |q.producers|
  {
    match (step, q.producers[i])
    case (Arrive(_, s), Idle) =>
      if q.closed then q
      else At(q, i, Entered(s)).(history := q.history.(accepted := q.history.accepted + 1))
    case (FirstPut(_), Entered(s)) =>
      if |q.items| < max then At(Append(q, Snap(s)), i, Idle) else At(q, i, MakingRoom(s))
    case (MakeRoom(_), MakingRoom(s)) =>
      if q.items == [] then At(q, i, Retrying(s)) else At(PopHead(q), i, Discarding(s, q.items[0]))
    case (RecordDiscard(_), Discarding(s, x)) =>
      At(q, i, Retrying(s)).(
        dropped := q.dropped + 1,
        history := if x.Snap? then q.history.(snapshotDrops := q.history.snapshotDrops + 1)
                   else q.history.(sentinelDrops := q.history.sentinelDrops + 1))
    case (RetryPut(_), Retrying(s)) =>
      if |q.items| < max then At(Append(q, Snap(s)), i, Idle) else At(q, i, Refusing(s))
    case (RecordRefusal(_), Refusing(s)) =>
      At(q, i, Idle).(
        dropped := q.dropped + 1,
        history := q.history.(snapshotDrops := q.history.snapshotDrops + 1))
    case _ => q
  }

  /** One atomic step; a step whose thread is elsewhere changes nothing. */
  function Next(max: nat, q: State, step: Step): State {
    match step
    case SetClosed =>
      q.(closed := true, closing := true,
         history := q.history.(overlap := q.history.overlap || exists p :: p in q.producers && p != Idle))
    case PutSentinel =>
      if !q.closing then q
      else if |q.items| < max then Append(q, Shutdown).(closing := false)
      else q.(closing := false)
    case Get =>
      if q.consumer == Polling && q.items != [] then Deliver(q) else q
    case Timeout =>
      if q.consumer == Polling && q.items == []
      then q.(consumer := TimedOut, history := q.history.(late := false))
      else q
    case CheckClosed =>
      if q.consumer != TimedOut then q
      else if q.closed then q.(consumer := Returned)
      else q.(consumer := Polling, history := q.history.(late := false))
    case GetRemaining =>
      if q.consumer != Finishing then q
      else if q.items == [] then q.(consumer := Returned)
      else Deliver(q).(consumer := Finishing)
    case _ =>
      if step.producer < |q.producers| then ProducerStep(max, q, step.producer, step) else q
  }

  function Run(max: nat, threads: nat, steps: seq<Step>): State {
    if steps == [] then Start(threads)
    else Next(max, Run(max, threads, steps[..|steps| - 1]), steps[|steps| - 1])
  }

  // -- the same operations run to completion ----------------------------------------

  /** The snapshots of a queue, oldest first. */
  function Ids(items: seq<Item>): seq<int> {
    if items == [] then []
    else (if items[0].Snap? then [items[0].id] else []) + Ids(items[1..])
  }

  /** The queue as one thread sees it. */
  class SnapshotQueue {
    const maxsize: nat
    var items: seq<Item>
    var dropped: nat
    var closed: bool

    ghost predicate Valid()
      reads this
    {
      0 < maxsize && |items| <= maxsize
    }

    constructor (maxsize: nat)
      requires 0 < maxsize
      ensures Valid() && this.maxsize == maxsize && items == [] && dropped == 0 && !closed
    {
      this.maxsize := maxsize;
      items, dropped, closed := [], 0, false;
    }

    method PutNowait(x: Item) returns (ok: bool)
      requires Valid()
      modifies this`items
      ensures Valid() && ok == (|old(items)| < maxsize)
      ensures items == if ok then old(items) + [x] else old(items)
    {
      ok := |items| < maxsize;
      if ok {
        items := items + [x];
      }
    }

    /** Uninterrupted, put keeps the newest maxsize entries and counts the one
        it pushed out; a closed queue ignores it. */
    method Put(id: int)
      requires Valid()
      modifies this
      ensures Valid() && closed == old(closed)
      ensures items == if closed then old(items) else LastN(old(items) + [Snap(id)], maxsize)
      ensures dropped == old(dropped) + if !closed && |old(items)| == maxsize then 1 else 0
    {
      if closed {
        return;
      }
      var ok := PutNowait(Snap(id));
      if ok {
        return;
      }
      MakeRoom();
      ok := PutNowait(Snap(id));
      if !ok {
        // Only another thread could have taken the room just made.
        assert false;
      }
    }

    method MakeRoom()
      requires Valid()
      modifies this`items, this`dropped
      ensures Valid()
      ensures items == if old(items) == [] then [] else old(items)[1..]
      ensures dropped == old(dropped) + if old(items) == [] then 0 else 1
    {
      if items == [] {
        return;
      }
      items := items[1..];
      dropped := dropped + 1;
    }

    /** The sentinel goes in only if nothing accepted has to leave for it. */
    method Close()
      requires Valid()
      modifies this
      ensures Valid() && closed && dropped == old(dropped) && Ids(items) == old(Ids(items))
      ensures old(items) <= items
    {
      closed := true;
      var _ := PutNowait(Shutdown);
      IdsAppend(old(items), Shutdown);
    }

    /** After close, with nobody else around, drain hands over everything. */
    method Drain() returns (out: seq<int>)
      requires Valid() && closed
      modifies this`items
      ensures Valid() && items == []
      ensures out == old(Ids(items))
    {
      out := [];
      while items != []
        invariant Valid()
        invariant out + Ids(items) == old(Ids(items))
        decreases |items|
      {
        var item := items[0];
        items := items[1..];
        if item.Shutdown? {
          while items != []
            invariant Valid()
            invariant out + Ids(items) == old(Ids(items))
            decreases |items|
          {
            var remaining := items[0];
            items := items[1..];
            if remaining.Snap? {
              out := out + [remaining.id];
            }
          }
          return;
        }
        out := out + [item.id];
      }
    }
  }

  lemma {:induction false} IdsAppend(items: seq<Item>, x: Item)
    ensures Ids(items + [x]) == Ids(items) + if x.Snap? then [x.id] else []
  {
    if items != [] {
      IdsAppend(items[1..], x);
      assert (items + [x])[1..] == items[1..] + [x];
    }
  }

  function PutSteps(max: nat, q: State, i: nat, id: int): State
    requires i < |q.producers|
  {
    var entered := Next(max, q, Arrive(i, id));
    var tried := Next(max, entered, FirstPut(i));
    var popped := Next(max, tried, MakeRoom(i));
    var recorded := Next(max, popped, RecordDiscard(i));
    Next(max, recorded, RetryPut(i))
  }

  /** The atomic steps of one put that nobody interleaves with have the effect
      of the whole method. */
  lemma PutAlone(max: nat, q: State, i: nat, id: int)
    requires 0 < max && |q.items| <= max && i < |q.producers| && q.producers[i] == Idle && !q.closed
    ensures var r := PutSteps(max, q, i, id);
      && r.items == LastN(q.items + [Snap(id)], max)
      && r.dropped == q.dropped + (if |q.items| == max then 1 else 0)
      && r.producers == q.producers
  {
    if |q.items| < max {
      PutWithRoom(max, q, i, id);
    } else {
      PutWhenFull(max, q, i, id);
    }
  }

  lemma PutWithRoom(max: nat, q: State, i: nat, id: int)
    requires |q.items| < max && i < |q.producers| && q.producers[i] == Idle && !q.closed
    ensures var r := PutSteps(max, q, i, id);
      r.items == q.items + [Snap(id)] && r.dropped == q.dropped && r.producers == q.producers
  {
    var tried := Next(max, Next(max, q, Arrive(i, id)), FirstPut(i));
    assert tried.producers == q.producers;
  }

  lemma PutWhenFull(max: nat, q: State, i: nat, id: int)
    requires 0 < max == |q.items| && i < |q.producers| && q.producers[i] == Idle && !q.closed
    ensures var r := PutSteps(max, q, i, id);
      r.items == q.items[1..] + [Snap(id)] && r.dropped == q.dropped + 1 && r.producers == q.producers
  {
    var entered := Next(max, q, Arrive(i, id));
    var tried := Next(max, entered, FirstPut(i));
    assert tried.items == q.items && tried.producers == q.producers[i := MakingRoom(id)] && tried.dropped == q.dropped;
    var popped := Next(max, tried, MakeRoom(i));
    assert popped.items == q.items[1..] && popped.producers == q.producers[i := Discarding(id, q.items[0])];
    var recorded := Next(max, popped, RecordDiscard(i));
    assert recorded.items == q.items[1..] && recorded.producers == q.producers[i := Retrying(id)];
  }

  // -- conservation -----------------------------------------------------------------

  function Snapshots(items: seq<Item>): nat {
    if items == [] then 0 else Snapshots(items[..|items| - 1]) + if items[|items| - 1].Snap? then 1 else 0
  }

  /** Snapshots a producer holds outside the queue and the counter. */
  function Held(p: Producer): nat {
    match p
    case Idle => 0
    case Discarding(_, oldest) => if oldest.Snap? then 2 else 1
    case _ => 1
  }

  function InFlight(producers: seq<Producer>): nat {
    if producers == [] then 0 else InFlight(producers[..|producers| - 1]) + Held(producers[|producers| - 1])
  }

  lemma {:induction false} InFlightUpdate(producers: seq<Producer>, i: nat, p: Producer)
    requires i < |producers|
    ensures InFlight(producers[i := p]) == InFlight(producers) - Held(producers[i]) + Held(p)
  {
    var n := |producers| - 1;
    if i == n {
      assert producers[i := p][..n] == producers[..n];
    } else {
      assert producers[i := p][..n] == producers[..n][i := p];
      InFlightUpdate(producers[..n], i, p);
    }
  }

  lemma {:induction false} SnapshotsTail(items: seq<Item>)
    requires items != []
    ensures Snapshots(items) == Snapshots(items[1..]) + if items[0].Snap? then 1 else 0
  {
    var n := |items| - 1;
    if n == 0 {
      assert items[..0] == [] == items[1..];
    } else {
      SnapshotsTail(items[..n]);
      assert items[..n][1..] == items[1..][..n - 1];
    }
  }

  /** Every snapshot put took responsibility for is delivered, queued, counted
      as dropped, or still held by its producer; the counter also counts
      sentinels that were pushed out. */
  predicate Balanced(q: State) {
    && q.history.accepted
       == |q.history.delivered| + Snapshots(q.items) + q.history.snapshotDrops + InFlight(q.producers)
    && q.dropped == q.history.snapshotDrops + q.history.sentinelDrops
  }

  lemma AppendBalance(q: State, x: Item)
    ensures Snapshots(Append(q, x).items) == Snapshots(q.items) + if x.Snap? then 1 else 0
  {
    assert (q.items + [x])[..|q.items|] == q.items;
  }

  lemma ProducerBalance(max: nat, q: State, i: nat, step: Step)
    requires i < |q.producers| && Balanced(q)
    ensures Balanced(ProducerStep(max, q, i, step))
  {
    hide Snapshots, InFlight;
    var r := ProducerStep(max, q, i, step);
    if r.producers != q.producers {
      InFlightUpdate(q.producers, i, r.producers[i]);
    }
    if q.producers[i] != Idle {
      AppendBalance(q, Snap(q.producers[i].s));
    }
    if q.items != [] {
      SnapshotsTail(q.items);
    }
  }

  lemma BalanceKept(max: nat, q: State, step: Step)
    requires Balanced(q)
    ensures Balanced(Next(max, q, step))
  {
    hide Snapshots, InFlight, ProducerStep;
    AppendBalance(q, Shutdown);
    if q.items != [] {
      SnapshotsTail(q.items);
    }
    if !(step in {SetClosed, PutSentinel, Get, Timeout, CheckClosed, GetRemaining}) && step.producer < |q.producers| {
      ProducerBalance(max, q, step.producer, step);
    }
  }

  lemma {:induction false} Conservation(max: nat, threads: nat, steps: seq<Step>)
    ensures Balanced(Run(max, threads, steps))
  {
    hide Next;
    if steps == [] {
      NobodyInFlight(threads);
    } else {
      Conservation(max, threads, steps[..|steps| - 1]);
      BalanceKept(max, Run(max, threads, steps[..|steps| - 1]), steps[|steps| - 1]);
    }
  }

  lemma {:induction false} NobodyInFlight(threads: nat)
    ensures InFlight(seq(threads, _ => Idle)) == 0
  {
    if threads > 0 {
      var all := seq(threads, _ => Idle);
      assert all[..threads - 1] == seq(threads - 1, _ => Idle);
      NobodyInFlight(threads - 1);
    }
  }

  // -- order and depth ------------------------------------------------------------

  /** The queue never overflows; what it holds is the untaken end of everything
      that ever entered it; what was delivered is an increasing choice of the
      snapshots taken. So deliveries followed by the queue keep entry order. */
  ghost predicate Ordered(max: nat, q: State) {
    var h := q.history;
    && |q.items| <= max
    && h.taken <= |h.log| && q.items == h.log[h.taken..]
    && (forall i :: 0 <= i < |h.delivered| ==> h.delivered[i] < h.taken && h.log[h.delivered[i]].Snap?)
    && (forall i, j :: 0 <= i < j < |h.delivered| ==> h.delivered[i] < h.delivered[j])
  }

  lemma AppendOrdered(max: nat, q: State, x: Item)
    requires Ordered(max, q) && |q.items| < max
    ensures Ordered(max, Append(q, x))
  {
  }

  lemma PopOrdered(max: nat, q: State)
    requires Ordered(max, q) && q.items != []
    ensures Ordered(max, PopHead(q)) && Ordered(max, Deliver(q))
  {
    assert q.items[0] == q.history.log[q.history.taken];
  }

  lemma ProducerOrdered(max: nat, q: State, i: nat, step: Step)
    requires Ordered(max, q) && i < |q.producers|
    ensures Ordered(max, ProducerStep(max, q, i, step))
  {
    hide Append, PopHead;
    if q.producers[i] != Idle && |q.items| < max {
      AppendOrdered(max, q, Snap(q.producers[i].s));
    }
    if q.items != [] {
      PopOrdered(max, q);
    }
  }

  lemma OrderKept(max: nat, q: State, step: Step)
    requires Ordered(max, q)
    ensures Ordered(max, Next(max, q, step))
  {
    hide Append, PopHead, Deliver, ProducerStep;
    if |q.items| < max {
      AppendOrdered(max, q, Shutdown);
    }
    if q.items != [] {
      PopOrdered(max, q);
    }
    if !(step in {SetClosed, PutSentinel, Get, Timeout, CheckClosed, GetRemaining}) && step.producer < |q.producers| {
      ProducerOrdered(max, q, step.producer, step);
    }
  }

  lemma {:induction false} FirstInFirstOut(max: nat, threads: nat, steps: seq<Step>)
    ensures Ordered(max, Run(max, threads, steps))
  {
    hide Next;
    if steps != [] {
      FirstInFirstOut(max, threads, steps[..|steps| - 1]);
      OrderKept(max, Run(max, threads, steps[..|steps| - 1]), steps[|steps| - 1]);
    }
  }

  /** The state before step k. */
  function Before(max: nat, threads: nat, steps: seq<Step>, k: nat): State
    requires k <= |steps|
  {
    Run(max, threads, steps[..k])
  }

  lemma StepTaken(max: nat, threads: nat, steps: seq<Step>, k: nat)
    requires k < |steps|
    ensures Before(max, threads, steps, k + 1) == Next(max, Before(max, threads, steps, k), steps[k])
  {
    assert steps[..k + 1][..k] == steps[..k];
  }

  /** Step t made room by taking the entry at log position i. */
  ghost predicate PushedOut(max: nat, threads: nat, steps: seq<Step>, t: nat, i: nat)
    requires t < |steps|
  {
    && steps[t].MakeRoom?
    && Before(max, threads, steps, t).history.taken == i
    && Before(max, threads, steps, t + 1).history.taken == i + 1
  }

  /** Nothing leaves the queue but its head: to the engine, or to make room. */
  lemma HeadOnly(max: nat, q: State, step: Step)
    requires Ordered(max, q)
    ensures var h, r := q.history, Next(max, q, step).history;
      && h.log <= r.log
      && (if r.taken == h.taken then r.delivered == h.delivered
          else
            && r.taken == h.taken + 1 && h.taken < |h.log|
            && r.delivered == h.delivered + (if !step.MakeRoom? && h.log[h.taken].Snap? then [h.taken] else []))
  {
    if q.items != [] {
      assert q.items[0] == q.history.log[q.history.taken];
    }
  }

  lemma {:induction false} TakenGrows(max: nat, threads: nat, steps: seq<Step>, a: nat, b: nat)
    requires a <= b <= |steps|
    ensures Before(max, threads, steps, a).history.taken <= Before(max, threads, steps, b).history.taken
  {
    hide Next, Ordered;
    if a < b {
      TakenGrows(max, threads, steps, a, b - 1);
      FirstInFirstOut(max, threads, steps[..b - 1]);
      StepTaken(max, threads, steps, b - 1);
      HeadOnly(max, Before(max, threads, steps, b - 1), steps[b - 1]);
    }
  }

  lemma PushedOutEarlier(max: nat, threads: nat, steps: seq<Step>, t: nat, i: nat)
    requires steps != [] && t < |steps| - 1
    ensures PushedOut(max, threads, steps[..|steps| - 1], t, i) <==> PushedOut(max, threads, steps, t, i)
  {
    var n := |steps| - 1;
    assert steps[..n][..t] == steps[..t] && steps[..n][..t + 1] == steps[..t + 1];
  }

  ghost predicate MadeRoomWith(max: nat, threads: nat, steps: seq<Step>, i: nat) {
    exists t :: 0 <= t < |steps| && PushedOut(max, threads, steps, t, i)
  }

  lemma MadeRoomSoFar(max: nat, threads: nat, steps: seq<Step>, i: nat)
    requires steps != []
    ensures MadeRoomWith(max, threads, steps, i)
       <==> MadeRoomWith(max, threads, steps[..|steps| - 1], i) || PushedOut(max, threads, steps, |steps| - 1, i)
  {
    hide PushedOut;
    var n := |steps| - 1;
    forall t | 0 <= t < n
      ensures PushedOut(max, threads, steps[..n], t, i) <==> PushedOut(max, threads, steps, t, i)
    {
      PushedOutEarlier(max, threads, steps, t, i);
    }
  }

  /** Which snapshots are lost on the way: one that has left the queue failed to
      reach the engine exactly when some put made room with it. */
  lemma {:induction false} DroppedExactlyWhen(max: nat, threads: nat, steps: seq<Step>, i: nat)
    requires var h := Run(max, threads, steps).history; i < h.taken <= |h.log| && h.log[i].Snap?
    ensures i !in Run(max, threads, steps).history.delivered <==> MadeRoomWith(max, threads, steps, i)
  {
    assert steps != [];
    var n := |steps| - 1;
    hide Next, Run, Ordered, MadeRoomWith;
    assert steps[..n + 1] == steps;
    var q, h := Before(max, threads, steps, n), Run(max, threads, steps).history;
    FirstInFirstOut(max, threads, steps[..n]);
    StepTaken(max, threads, steps, n);
    HeadOnly(max, q, steps[n]);
    DeliveredWereTaken(max, q);
    MadeRoomSoFar(max, threads, steps, i);
    if i < q.history.taken {
      DroppedExactlyWhen(max, threads, steps[..n], i);
    } else {
      NotPushedBefore(max, threads, steps, i);
    }
  }

  lemma DeliveredWereTaken(max: nat, q: State)
    requires Ordered(max, q)
    ensures forall d :: d in q.history.delivered ==> d < q.history.taken
  {
  }

  lemma NotPushedBefore(max: nat, threads: nat, steps: seq<Step>, i: nat)
    requires steps != [] && Before(max, threads, steps, |steps| - 1).history.taken <= i
    ensures !MadeRoomWith(max, threads, steps[..|steps| - 1], i)
  {
    hide Run;
    var n := |steps| - 1;
    forall t | 0 <= t < n
      ensures !PushedOut(max, threads, steps[..n], t, i)
    {
      TakenGrows(max, threads, steps, t + 1, n);
      PushedOutEarlier(max, threads, steps, t, i);
    }
  }

  // -- closing --------------------------------------------------------------------

  /** Unless a put was under way when the queue was closed, no producer is ever
      again inside put, no sentinel was pushed out and a finishing consumer has
      only what was already queued before it. */
  ghost predicate CleanClose(q: State) {
    !q.history.overlap ==>
      && (q.closed ==> forall p :: p in q.producers ==> p == Idle)
      && (!q.closed ==> !q.closing && Shutdown !in q.items && q.consumer != Finishing && q.consumer != Returned)
      && q.history.sentinelDrops == 0
      && (forall p :: p in q.producers && p.Discarding? ==> p.oldest.Snap?)
  }

  lemma CleanCloseKept(max: nat, q: State, step: Step)
    requires CleanClose(q)
    ensures CleanClose(Next(max, q, step))
  {
    var r := Next(max, q, step);
    if step in {SetClosed, PutSentinel, Get, Timeout, CheckClosed, GetRemaining} {
      assert forall x :: x in r.items ==> x in q.items || x == Shutdown;
    } else if step.producer < |q.producers| {
      ProducerClose(max, q, step.producer, step);
    }
  }

  lemma ProducerClose(max: nat, q: State, i: nat, step: Step)
    requires CleanClose(q) && i < |q.producers|
    ensures CleanClose(ProducerStep(max, q, i, step))
  {
    var r := ProducerStep(max, q, i, step);
    assert q.producers[i] in q.producers;
    forall p | p in r.producers
      ensures p in q.producers || p == r.producers[i]
    {
      var k :| 0 <= k < |r.producers| && r.producers[k] == p;
      assert k != i ==> q.producers[k] == p;
    }
    if q.items != [] {
      assert q.items[0] in q.items;
    }
  }

  lemma {:induction false} ClosesCleanly(max: nat, threads: nat, steps: seq<Step>)
    ensures CleanClose(Run(max, threads, steps))
  {
    hide Next;
    if steps != [] {
      ClosesCleanly(max, threads, steps[..|steps| - 1]);
      CleanCloseKept(max, Run(max, threads, steps[..|steps| - 1]), steps[|steps| - 1]);
    }
  }

  /** One producer whose puts do not overlap closing always finds room on its
      second try, so only the oldest entry is ever dropped. */
  ghost predicate RoomOnRetry(max: nat, q: State) {
    |q.producers| == 1 && !q.history.overlap ==>
      && !q.producers[0].Refusing?
      && (q.producers[0].Discarding? || q.producers[0].Retrying? ==> |q.items| < max)
  }

  lemma RoomKept(max: nat, q: State, step: Step)
    requires 0 < max && RoomOnRetry(max, q) && CleanClose(q) && |q.items| <= max
    ensures RoomOnRetry(max, Next(max, q, step))
  {
    if |q.producers| == 1 {
      assert q.producers[0] in q.producers;
    }
  }

  lemma {:induction false} OnlyTheOldestIsDropped(max: nat, steps: seq<Step>)
    requires 0 < max && !Run(max, 1, steps).history.overlap
    ensures |Run(max, 1, steps).producers| == 1
    ensures !Run(max, 1, steps).producers[0].Refusing?
  {
    RoomInEveryRun(max, steps);
    SameThreads(max, 1, steps);
  }

  lemma {:induction false} RoomInEveryRun(max: nat, steps: seq<Step>)
    requires 0 < max
    ensures RoomOnRetry(max, Run(max, 1, steps))
  {
    hide Next;
    if steps != [] {
      var before := steps[..|steps| - 1];
      RoomInEveryRun(max, before);
      ClosesCleanly(max, 1, before);
      FirstInFirstOut(max, 1, before);
      RoomKept(max, Run(max, 1, before), steps[|steps| - 1]);
    }
  }

  lemma {:induction false} SameThreads(max: nat, threads: nat, steps: seq<Step>)
    ensures |Run(max, threads, steps).producers| == threads
  {
    if steps != [] {
      SameThreads(max, threads, steps[..|steps| - 1]);
    }
  }

  /** From step f, where its first put found the queue full, to step k, where it
      tries again, producer i is inside one put. */
  ghost predicate InOnePut(max: nat, threads: nat, steps: seq<Step>, i: nat, f: nat, k: nat)
    requires k < |steps|
  {
    && f < k && steps[f] == FirstPut(i)
    && i < |Before(max, threads, steps, f).producers| && Before(max, threads, steps, f).producers[i].Entered?
    && forall j :: f < j <= k ==> InRetry(Before(max, threads, steps, j), i)
  }

  predicate InRetry(q: State, i: nat) {
    i < |q.producers| && (q.producers[i].MakingRoom? || q.producers[i].Discarding? || q.producers[i].Retrying?)
  }

  /** With any number of producers, the second try of a put is refused exactly
      when every place that became free since its first try has been filled. */
  lemma {:induction false} RefusedExactlyWhen(max: nat, threads: nat, steps: seq<Step>, i: nat, f: nat, k: nat)
    requires k < |steps| && InOnePut(max, threads, steps, i, f, k)
    requires steps[k] == RetryPut(i) && Before(max, threads, steps, k).producers[i].Retrying?
    ensures i < |Before(max, threads, steps, k + 1).producers|
    ensures var a, b := Before(max, threads, steps, f).history, Before(max, threads, steps, k).history;
      Before(max, threads, steps, k + 1).producers[i].Refusing? <==> |b.log| - |a.log| == b.taken - a.taken
  {
    FirstInFirstOut(max, threads, steps[..f]);
    FirstInFirstOut(max, threads, steps[..k]);
    StepTaken(max, threads, steps, f);
    StepTaken(max, threads, steps, k);
    FullAtFirst(max, Before(max, threads, steps, f), i);
    hide Ordered, Next, Run;
    SecondTry(max, Before(max, threads, steps, k), i);
  }

  lemma FullAtFirst(max: nat, q: State, i: nat)
    requires Ordered(max, q) && i < |q.producers| && q.producers[i].Entered?
    requires InRetry(Next(max, q, FirstPut(i)), i)
    ensures |q.history.log| - q.history.taken == max
  {
  }

  lemma SecondTry(max: nat, q: State, i: nat)
    requires Ordered(max, q) && i < |q.producers| && q.producers[i].Retrying?
    ensures var r := Next(max, q, RetryPut(i));
      i < |r.producers| && (r.producers[i].Refusing? <==> |q.history.log| - q.history.taken == max)
  {
  }

  /** Only sentinels are added while the only producer is inside put. */
  lemma {:induction false} OnlySentinelsMeanwhile(max: nat, steps: seq<Step>, f: nat, j: nat)
    requires f < j < |steps| && steps[f] == FirstPut(0) && 0 < max
    requires |Before(max, 1, steps, f).producers| == 1 && Before(max, 1, steps, f).producers[0].Entered?
    requires forall l :: f < l <= j ==> InRetry(Before(max, 1, steps, l), 0)
    ensures |Before(max, 1, steps, j).producers| == 1
    ensures var a, b := Before(max, 1, steps, f).history, Before(max, 1, steps, j).history;
      && a.log <= b.log && a.taken <= b.taken
      && (forall l :: |a.log| <= l < |b.log| ==> b.log[l] == Shutdown)
      && (!Before(max, 1, steps, j).producers[0].MakingRoom? ==> a.taken < b.taken)
  {
    hide Next, Ordered, Run;
    StepTaken(max, 1, steps, j - 1);
    SameThreads(max, 1, steps[..j - 1]);
    SameThreads(max, 1, steps[..j]);
    FirstInFirstOut(max, 1, steps[..j - 1]);
    FirstInFirstOut(max, 1, steps[..f]);
    FirstInFirstOut(max, 1, steps[..j]);
    var a, q, r := Before(max, 1, steps, f), Before(max, 1, steps, j - 1), Before(max, 1, steps, j);
    if j == f + 1 {
      FirstFails(max, a);
    } else {
      OnlySentinelsMeanwhile(max, steps, f, j - 1);
      MeanwhileStep(max, q, steps[j - 1]);
      StepTaken(max, 1, steps, f);
      FullAtFirst(max, a, 0);
      QueueIsRest(max, q);
    }
  }

  lemma QueueIsRest(max: nat, q: State)
    requires Ordered(max, q)
    ensures |q.items| == |q.history.log| - q.history.taken
  {
  }

  lemma FirstFails(max: nat, q: State)
    requires |q.producers| == 1 && q.producers[0].Entered? && InRetry(Next(max, q, FirstPut(0)), 0)
    ensures Next(max, q, FirstPut(0)).history == q.history && Next(max, q, FirstPut(0)).producers[0].MakingRoom?
  {
  }

  /** One step while the only producer stays inside its second half of put. */
  ghost predicate Meanwhile(q: State, r: State)
    requires q.producers != [] && r.producers != []
  {
    && (r.history.log == q.history.log || r.history.log == q.history.log + [Shutdown])
    && q.history.taken <= r.history.taken
    && (q.producers[0].MakingRoom? && !r.producers[0].MakingRoom? ==>
        q.items == [] || q.history.taken < r.history.taken)
    && (!q.producers[0].MakingRoom? ==> !r.producers[0].MakingRoom?)
  }

  lemma MeanwhileStep(max: nat, q: State, step: Step)
    requires |q.producers| == 1 && InRetry(q, 0) && InRetry(Next(max, q, step), 0)
    ensures Meanwhile(q, Next(max, q, step))
  {
    hide ProducerStep;
    if IsProducers(step) && step.producer == 0 {
      MeanwhileProducer(max, q, step);
    }
  }

  lemma MeanwhileProducer(max: nat, q: State, step: Step)
    requires |q.producers| == 1 && InRetry(q, 0) && InRetry(ProducerStep(max, q, 0, step), 0)
    ensures Meanwhile(q, ProducerStep(max, q, 0, step))
  {
  }

  /** The only producer loses its newest snapshot exactly when, since its first
      try, as many sentinels entered as entries were taken, and at least one of
      each. So without a sentinel meanwhile it is never refused, and with one it
      is refused exactly when the entry it made room with is all that was taken. */
  lemma {:induction false} NewestRefusedExactlyWhen(max: nat, steps: seq<Step>, f: nat, k: nat)
    requires 0 < max && k < |steps| && InOnePut(max, 1, steps, 0, f, k)
    requires steps[k] == RetryPut(0) && Before(max, 1, steps, k).producers[0].Retrying?
    ensures |Before(max, 1, steps, k + 1).producers| == 1
    ensures var a, b := Before(max, 1, steps, f).history, Before(max, 1, steps, k).history;
      && |a.log| <= |b.log| && (forall l :: |a.log| <= l < |b.log| ==> b.log[l] == Shutdown)
      && (Before(max, 1, steps, k + 1).producers[0].Refusing? <==>
            |b.log| - |a.log| == b.taken - a.taken && 1 <= b.taken - a.taken)
  {
    hide Next, Run;
    SameThreads(max, 1, steps[..f]);
    SameThreads(max, 1, steps[..k + 1]);
    RefusedExactlyWhen(max, 1, steps, 0, f, k);
    OnlySentinelsMeanwhile(max, steps, f, k);
  }

  // -- what the drop counter counts -----------------------------------------------

  /** Step t made room by taking a sentinel. */
  ghost predicate PushesOutSentinel(max: nat, threads: nat, steps: seq<Step>, t: nat)
    requires t < |steps|
  {
    TakesSentinel(Before(max, threads, steps, t), steps[t])
  }

  ghost function SentinelsPushedOut(max: nat, threads: nat, steps: seq<Step>, k: nat): nat
    requires k <= |steps|
  {
    if k == 0 then 0
    else SentinelsPushedOut(max, threads, steps, k - 1) + if PushesOutSentinel(max, threads, steps, k - 1) then 1 else 0
  }

  function Holds(p: Producer): nat {
    if p.Discarding? && p.oldest == Shutdown then 1 else 0
  }

  /** Sentinels taken out but not counted yet. */
  function InHand(producers: seq<Producer>): nat {
    if producers == [] then 0 else InHand(producers[..|producers| - 1]) + Holds(producers[|producers| - 1])
  }

  lemma {:induction false} InHandUpdate(producers: seq<Producer>, i: nat, p: Producer)
    requires i < |producers|
    ensures InHand(producers[i := p]) == InHand(producers) - Holds(producers[i]) + Holds(p)
  {
    var n := |producers| - 1;
    if i == n {
      assert producers[i := p][..n] == producers[..n];
    } else {
      assert producers[i := p][..n] == producers[..n][i := p];
      InHandUpdate(producers[..n], i, p);
    }
  }

  predicate IsProducers(step: Step) {
    !(step in {SetClosed, PutSentinel, Get, Timeout, CheckClosed, GetRemaining})
  }

  predicate TakesSentinel(q: State, step: Step) {
    step.MakeRoom? && step.producer < |q.producers| && q.producers[step.producer].MakingRoom?
    && q.items != [] && q.items[0] == Shutdown
  }

  lemma CounterStep(max: nat, q: State, step: Step)
    ensures var r := Next(max, q, step);
      r.history.sentinelDrops + InHand(r.producers)
      == q.history.sentinelDrops + InHand(q.producers) + if TakesSentinel(q, step) then 1 else 0
  {
    hide InHand, ProducerStep;
    if IsProducers(step) && step.producer < |q.producers| {
      ProducerCounter(max, q, step.producer, step);
    }
  }

  lemma ProducerCounter(max: nat, q: State, i: nat, step: Step)
    requires i < |q.producers| && IsProducers(step) && step.producer == i
    ensures var r := ProducerStep(max, q, i, step);
      r.history.sentinelDrops + InHand(r.producers)
      == q.history.sentinelDrops + InHand(q.producers) + if TakesSentinel(q, step) then 1 else 0
  {
    hide InHand;
    var r := ProducerStep(max, q, i, step);
    InHandUpdate(q.producers, i, r.producers[i]);
    assert r.producers == q.producers[i := r.producers[i]];
  }

  lemma {:induction false} CounterMeans(max: nat, threads: nat, steps: seq<Step>, k: nat)
    requires k <= |steps|
    ensures var q := Before(max, threads, steps, k);
      q.dropped + InHand(q.producers) == q.history.snapshotDrops + SentinelsPushedOut(max, threads, steps, k)
  {
    hide Next, InHand;
    Conservation(max, threads, steps[..k]);
    SentinelsCounted(max, threads, steps, k);
  }

  lemma {:induction false} SentinelsCounted(max: nat, threads: nat, steps: seq<Step>, k: nat)
    requires k <= |steps|
    ensures var q := Before(max, threads, steps, k);
      q.history.sentinelDrops + InHand(q.producers) == SentinelsPushedOut(max, threads, steps, k)
  {
    hide Next, InHand;
    if k == 0 {
      NothingInHand(threads);
    } else {
      SentinelsCounted(max, threads, steps, k - 1);
      StepTaken(max, threads, steps, k - 1);
      hide Run;
      CounterStep(max, Before(max, threads, steps, k - 1), steps[k - 1]);
    }
  }

  lemma {:induction false} NothingInHand(threads: nat)
    ensures InHand(seq(threads, _ => Idle)) == 0
  {
    if threads > 0 {
      var all := seq(threads, _ => Idle);
      assert all[..threads - 1] == seq(threads - 1, _ => Idle);
      NothingInHand(threads - 1);
    }
  }

  lemma {:induction false} SomePushedOut(max: nat, threads: nat, steps: seq<Step>, k: nat)
    requires k <= |steps|
    ensures SentinelsPushedOut(max, threads, steps, k) > 0
       <==> exists t :: 0 <= t < k && PushesOutSentinel(max, threads, steps, t)
  {
    hide PushesOutSentinel;
    if k > 0 {
      SomePushedOut(max, threads, steps, k - 1);
    }
  }

  /** Between puts the counter exceeds the number of dropped snapshots exactly
      when some put made room by taking a sentinel. */
  lemma {:induction false} CounterExceedsDropsExactlyWhen(max: nat, threads: nat, steps: seq<Step>)
    requires InHand(Run(max, threads, steps).producers) == 0
    ensures var q := Run(max, threads, steps);
      q.dropped > q.history.snapshotDrops <==> exists t :: 0 <= t < |steps| && PushesOutSentinel(max, threads, steps, t)
  {
    hide Run, InHand, PushesOutSentinel;
    assert steps[..|steps|] == steps;
    CounterMeans(max, threads, steps, |steps|);
    SomePushedOut(max, threads, steps, |steps|);
  }

  // -- what drain leaves behind ---------------------------------------------------

  /** While the consumer waits with an empty poll behind it, the queue holds a
      snapshot exactly if one came late; when it has returned the same is true. */
  ghost predicate LateKnown(q: State) {
    !q.history.overlap ==>
      && (q.history.late ==> q.consumer in {TimedOut, Returned})
      && (q.consumer == TimedOut && !q.history.late ==> forall x :: x in q.items ==> x == Shutdown)
      && (q.consumer == TimedOut && q.history.late ==>
            (exists x :: x in q.items && x.Snap?) || exists p :: p in q.producers && (p.Discarding? || p.Retrying?))
      && (q.consumer == Returned ==> q.closed)
      && (q.consumer == Returned ==> (q.history.late <==> exists x :: x in q.items && x.Snap?))
  }

  lemma LateKept(max: nat, q: State, step: Step)
    requires 0 < max && LateKnown(q) && CleanClose(q)
    ensures LateKnown(Next(max, q, step))
  {
    hide Snapshots, InFlight;
    var r := Next(max, q, step);
    if step in {SetClosed, PutSentinel, Get, Timeout, CheckClosed, GetRemaining} {
      if step == PutSentinel {
        assert forall x :: x in q.items ==> x in Append(q, Shutdown).items;
      }
    } else if step.producer < |q.producers| {
      ProducerLate(max, q, step.producer, step);
    }
  }

  lemma ProducerLate(max: nat, q: State, i: nat, step: Step)
    requires 0 < max && LateKnown(q) && CleanClose(q) && i < |q.producers|
    ensures LateKnown(ProducerStep(max, q, i, step))
  {
    var r := ProducerStep(max, q, i, step);
    assert q.producers[i] in q.producers && r.producers[i] in r.producers;
    forall p | p in q.producers && p != q.producers[i]
      ensures p in r.producers
    {
      var k :| 0 <= k < |q.producers| && q.producers[k] == p;
      assert r.producers[k] == p;
    }
    if q.items != [] {
      assert q.items[0] in q.items;
    }
    if |r.items| > |q.items| {
      assert r.items[|q.items|] in r.items;
    } else if |r.items| == |q.items| {
      assert r.items == q.items;
    }
    assert forall x :: x in r.items && |r.items| < |q.items| ==> x in q.items;
  }

  lemma {:induction false} LatenessIsKnown(max: nat, threads: nat, steps: seq<Step>)
    requires 0 < max
    ensures LateKnown(Run(max, threads, steps))
  {
    hide Next;
    if steps != [] {
      var before := steps[..|steps| - 1];
      LatenessIsKnown(max, threads, before);
      ClosesCleanly(max, threads, before);
      LateKept(max, Run(max, threads, before), steps[|steps| - 1]);
    }
  }

  lemma {:induction false} NoSnapshotNoCount(items: seq<Item>)
    ensures Snapshots(items) == 0 <==> forall x :: x in items ==> x == Shutdown
  {
    if items != [] {
      var n := |items| - 1;
      NoSnapshotNoCount(items[..n]);
      assert items[n] in items;
      assert forall x :: x in items[..n] ==> x in items;
      assert forall x :: x in items ==> x in items[..n] || x == items[n];
    }
  }

  lemma {:induction false} NoneInFlight(producers: seq<Producer>)
    requires forall p :: p in producers ==> p == Idle
    ensures InFlight(producers) == 0
  {
    if producers != [] {
      var n := |producers| - 1;
      assert producers[n] in producers;
      assert forall p :: p in producers[..n] ==> p in producers;
      NoneInFlight(producers[..n]);
    }
  }

  /** If no put overlapped closing, a drain that has returned has delivered
      every snapshot that was not counted as dropped exactly when none arrived
      between its last empty poll and its look at the closed flag. */
  lemma {:induction false} DrainDeliversAllExactlyWhen(max: nat, threads: nat, steps: seq<Step>)
    requires 0 < max && Run(max, threads, steps).consumer == Returned && !Run(max, threads, steps).history.overlap
    ensures var h := Run(max, threads, steps).history;
      h.accepted == |h.delivered| + h.snapshotDrops <==> !h.late
  {
    hide Next, Run;
    var q := Run(max, threads, steps);
    Conservation(max, threads, steps);
    ClosesCleanly(max, threads, steps);
    LatenessIsKnown(max, threads, steps);
    NoSnapshotNoCount(q.items);
    NoneInFlight(q.producers);
    assert (exists x :: x in q.items && x.Snap?) <==> !(forall x :: x in q.items ==> x == Shutdown);
  }

  // -- how each promise fails -------------------------------------------------------

  ghost predicate Reachable(max: nat, threads: nat, q: State) {
    exists steps :: Run(max, threads, steps) == q
  }

  lemma StartReachable(max: nat)
    ensures Reachable(max, 1, State([], false, 0, [Idle], false, Polling, History([], 0, [], 0, 0, 0, false, false)))
  {
    assert Run(max, 1, []) == Start(1);
    assert Start(1).producers == [Idle];
  }

  lemma Reach(max: nat, q: State, step: Step, r: State)
    requires Reachable(max, 1, q) && Next(max, q, step) == r
    ensures Reachable(max, 1, r)
  {
    var steps :| Run(max, 1, steps) == q;
    assert (steps + [step])[..|steps|] == steps;
    assert Run(max, 1, steps + [step]) == r;
  }

  /** A put and a close that do not overlap at all can still strand a snapshot:
      both fall between an empty poll and the look at the flag. */
  lemma LateSnapshotIsStranded(max: nat)
    requires 0 < max
    ensures exists q ::
      && Reachable(max, 1, q) && q.consumer == Returned && !q.history.overlap
      && q.history.accepted == 1 && q.history.delivered == [] && q.dropped == 0
  {
    hide Reachable;
    LateArrives(max);
    var q3 := LateArrival();
    var q4 := q3.(closed := true, closing := true);
    Reach(max, q3, SetClosed, q4);
    Reach(max, q4, CheckClosed, q4.(consumer := Returned));
  }

  /** One snapshot, arrived while the consumer has an empty poll behind it. */
  function LateArrival(): State {
    State([Snap(7)], false, 0, [Idle], false, TimedOut, History([Snap(7)], 0, [], 1, 0, 0, false, true))
  }

  lemma LateArrives(max: nat)
    requires 0 < max
    ensures Reachable(max, 1, LateArrival())
  {
    hide Reachable;
    StartReachable(max);
    var q0 := State([], false, 0, [Idle], false, Polling, History([], 0, [], 0, 0, 0, false, false));
    var q1 := q0.(consumer := TimedOut);
    var q2 := q1.(producers := [Entered(7)], history := History([], 0, [], 1, 0, 0, false, false));
    Reach(max, q0, Timeout, q1);
    Reach(max, q1, Arrive(0, 7), q2);
    Reach(max, q2, FirstPut(0), LateArrival());
  }

  /** n snapshots accepted and nothing else. */
  function Loaded(n: nat): State {
    State(Sevens(n), false, 0, [Idle], false, Polling, History(Sevens(n), 0, [], n, 0, 0, false, false))
  }

  function Sevens(n: nat): (items: seq<Item>)
    ensures |items| == n
  {
    seq(n, _ => Snap(7))
  }

  lemma {:induction false} LoadedReachable(max: nat, n: nat)
    requires n <= max
    ensures Reachable(max, 1, Loaded(n))
  {
    hide Reachable;
    StartReachable(max);
    if n == 0 {
      assert Sevens(0) == [];
    } else {
      LoadedReachable(max, n - 1);
      var q := Loaded(n - 1);
      var entered := q.(producers := [Entered(7)], history := q.history.(accepted := n));
      Reach(max, q, Arrive(0, 7), entered);
      assert Sevens(n - 1) + [Snap(7)] == Sevens(n);
      Reach(max, entered, FirstPut(0), Loaded(n));
    }
  }

  /** At every capacity: one producer overlapping close. The sentinel takes the
      place it made, so its newer snapshot is refused after the oldest was pushed
      out. */
  lemma {:induction false} OverlapRefusesTheNewest(max: nat)
    requires 0 < max
    ensures exists q :: Reachable(max, 1, q) && q.producers == [Refusing(8)] && q.history.snapshotDrops == 1
  {
    hide Reachable;
    LoadedReachable(max, max);
    var rest := Sevens(max)[1..];
    var q0 := Loaded(max);
    var q1 := q0.(producers := [Entered(8)], history := q0.history.(accepted := max + 1));
    var q2 := q1.(producers := [MakingRoom(8)]);
    var q3 := q1.(items := rest, producers := [Discarding(8, Snap(7))], history := q1.history.(taken := 1));
    var q4 := q3.(producers := [Retrying(8)], dropped := 1, history := q3.history.(snapshotDrops := 1));
    var q5 := q4.(closed := true, closing := true, history := q4.history.(overlap := true));
    var q6 := q5.(items := rest + [Shutdown], closing := false,
                  history := q5.history.(log := Sevens(max) + [Shutdown]));
    hide Sevens, Loaded;
    Reach(max, q0, Arrive(0, 8), q1);
    Reach(max, q1, FirstPut(0), q2);
    Reach(max, q2, MakeRoom(0), q3);
    Reach(max, q3, RecordDiscard(0), q4);
    assert q4.producers[0] in q4.producers;
    Reach(max, q4, SetClosed, q5);
    Reach(max, q5, PutSentinel, q6);
    Reach(max, q6, RetryPut(0), q6.(producers := [Refusing(8)]));
  }

  /** The sentinel behind the last n of m snapshots, a producer waiting to make
      room. */
  function SentinelBehind(m: nat, n: nat): State
    requires n <= m
  {
    State(Sevens(n) + [Shutdown], true, 0, [MakingRoom(8)], false, Polling,
          History(Sevens(m) + [Shutdown], m - n, seq(m - n, j => j), m + 1, 0, 0, true, false))
  }

  lemma {:induction false} SentinelBehindReachable(max: nat, n: nat)
    requires n < max
    ensures Reachable(max, 1, SentinelBehind(max - 1, n))
    decreases max - n
  {
    hide Reachable;
    var m := max - 1;
    if n == m {
      LoadedReachable(max, m);
      var q0 := Loaded(m);
      var q1 := q0.(producers := [Entered(8)], history := q0.history.(accepted := max));
      var q2 := q1.(closed := true, closing := true, history := q1.history.(overlap := true));
      var q3 := q2.(items := Sevens(m) + [Shutdown], closing := false,
                    history := q2.history.(log := Sevens(m) + [Shutdown]));
      Reach(max, q0, Arrive(0, 8), q1);
      assert q1.producers[0] in q1.producers;
      Reach(max, q1, SetClosed, q2);
      Reach(max, q2, PutSentinel, q3);
      assert seq(0, j => j) == [];
      Reach(max, q3, FirstPut(0), SentinelBehind(m, m));
    } else {
      SentinelBehindReachable(max, n + 1);
      assert (Sevens(n + 1) + [Shutdown])[1..] == Sevens(n) + [Shutdown];
      assert seq(m - n - 1, j => j) + [m - n - 1] == seq(m - n, j => j);
      Reach(max, SentinelBehind(m, n + 1), Get, SentinelBehind(m, n));
    }
  }

  /** At every capacity: a sentinel pushed out is counted as a dropped snapshot. */
  lemma PushedOutSentinelIsCounted(max: nat)
    requires 0 < max
    ensures exists q ::
      Reachable(max, 1, q) && q.dropped == 1 && q.history.snapshotDrops == 0 && q.producers == [Retrying(8)]
  {
    hide Reachable;
    SentinelBehindReachable(max, 0);
    var q0 := SentinelBehind(max - 1, 0);
    assert q0.items == [Shutdown];
    var q1 := q0.(items := [], producers := [Discarding(8, Shutdown)], history := q0.history.(taken := max));
    Reach(max, q0, MakeRoom(0), q1);
    Reach(max, q1, RecordDiscard(0),
          q1.(dropped := 1, producers := [Retrying(8)], history := q1.history.(sentinelDrops := 1)));
  }
}
