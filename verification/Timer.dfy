/** The timer queue, the timer interrupt and cyclic handlers. Times are microseconds of system operation. */
module Timer {

  datatype Event = Event(id: nat, time: int)

  // time is the activation time last set: of the queued event, or of the last one when stopped.
  // used says whether the control block belongs to a handler.
  datatype Cyc = Cyc(time: int, cyctim: int, phs: bool, started: bool, used: bool)

  const TMO_FEVR := -1

  // What a task or a handler may do: stop or start an event that is not that of a cyclic handler, or stop,
  // start, delete or create a cyclic handler, a handler its own included. Create names the control block
  // that is next in the queue of free ones; with sta and no phase the new handler is called at once, and
  // what it does follows as further operations.
  datatype Op =
    | Cancel(id: nat)
    | Insert(id: nat, tmout: int, adjust: int)
    | Stop(i: nat)
    | Start(i: nat, adjust: int)
    | Create(i: nat, cyctim: int, cycphs: int, phs: bool, sta: bool, adjust: int)
    | Delete(i: nat)

  type Handler = Event -> seq<Op>

  datatype Sys = Sys(now: int, queue: seq<Event>, cyc: seq<Cyc>)

  ghost predicate InOrder(q: seq<Event>) {
    forall i, j :: 0 <= i < j < |q| ==> q[i].time <= q[j].time
  }

  /** Every queued event lies strictly in the future. */
  ghost predicate AllLater(q: seq<Event>, now: int) {
    forall e :: e in q ==> e.time > now
  }

  /** Behind all events that are not later. */
  function Place(q: seq<Event>, time: int): (k: nat)
    ensures k <= |q|
    ensures forall i :: 0 <= i < k ==> q[i].time <= time
    ensures k < |q| ==> time < q[k].time
  {
    if q == [] || time < q[0].time then 0 else 1 + Place(q[1..], time)
  }

  function Enqueued(q: seq<Event>, e: Event): seq<Event> {
    q[..Place(q, e.time)] + [e] + q[Place(q, e.time)..]
  }

  function Without(q: seq<Event>, ids: set<nat>): seq<Event> {
    if q == [] then [] else if q[0].id in ids then Without(q[1..], ids) else [q[0]] + Without(q[1..], ids)
  }

  lemma PlaceUnique(q: seq<Event>, time: int, k: nat)
    requires k <= |q| && (forall i :: 0 <= i < k ==> q[i].time <= time) && (k < |q| ==> time < q[k].time)
    ensures Place(q, time) == k
  {
    var p := Place(q, time);
    assert p < |q| ==> time < q[p].time;
  }

  lemma EnqueuedOk(q: seq<Event>, e: Event)
    requires InOrder(q)
    ensures InOrder(Enqueued(q, e))
    ensures forall x :: x in Enqueued(q, e) <==> x in q || x == e
  {
    hide Place;
    var k := Place(q, e.time);
    var r := Enqueued(q, e);
    assert forall i :: 0 <= i < |r| ==> r[i] == if i < k then q[i] else if i == k then e else q[i - 1];
    assert forall i :: k <= i < |q| ==> e.time < q[i].time;
    forall x | x in q || x == e ensures x in r {
      if x == e {
        assert r[k] == e;
      } else {
        var i :| 0 <= i < |q| && q[i] == x;
        assert r[if i < k then i else i + 1] == x;
      }
    }
  }

  lemma {:induction false} WithoutOk(q: seq<Event>, ids: set<nat>)
    requires InOrder(q)
    ensures InOrder(Without(q, ids))
    ensures forall x :: x in Without(q, ids) <==> x in q && x.id !in ids
  {
    if q != [] {
      assert q == [q[0]] + q[1..];
      WithoutOk(q[1..], ids);
      var r := Without(q[1..], ids);
      forall i | 0 <= i < |r| ensures q[0].time <= r[i].time {
        assert r[i] in q[1..];
      }
    }
  }

  // ---------------------------------------------------------------- cyclic handlers

  /** cyc_next_time. */
  function CycNextTime(base: int, cyctim: int, now: int): int
    requires cyctim > 0
  {
    if base + cyctim <= now then base + ((now - base) / cyctim + 1) * cyctim else base + cyctim
  }

  /** It is the first of the activation times base + k * cyctim, k >= 1, that is later than now. */
  lemma CycNextTimeLeast(base: int, cyctim: int, now: int)
    requires cyctim > 0
    ensures var r := CycNextTime(base, cyctim, now);
            && r > now && (r - base) % cyctim == 0 && r - base >= cyctim
            && (forall k: int :: k >= 1 && base + k * cyctim > now ==> r <= base + k * cyctim)
            && (base <= now ==> r <= now + cyctim)
  {
    var n := if base + cyctim <= now then (now - base) / cyctim + 1 else 1;
    var r := base + n * cyctim;
    assert r == CycNextTime(base, cyctim, now);
    if base + cyctim <= now {
      Quotient(now - base, cyctim);
    }
    Multiple(n, cyctim);
    forall k: int | k >= 1 && base + k * cyctim > now ensures r <= base + k * cyctim {
      if k < n {
        Mono(k, n - 1, cyctim);
      } else {
        Mono(n, k, cyctim);
      }
    }
  }

  lemma Quotient(x: int, c: int)
    requires c > 0
    ensures x / c * c <= x < (x / c + 1) * c
    ensures x >= c ==> x / c >= 1
  {
    assert x == x / c * c + x % c;
  }

  lemma Multiple(n: int, c: int)
    requires c > 0 && n >= 1
    ensures (n * c) % c == 0 && n * c >= c
  {
    Mono(1, n, c);
    Remainder(n, c);
  }

  lemma {:induction false} Remainder(n: int, c: int)
    requires c > 0 && n >= 0
    ensures (n * c) % c == 0
    decreases n
  {
    if n > 0 {
      Remainder(n - 1, c);
      assert n * c == (n - 1) * c + c;
      AddModulus((n - 1) * c, c);
    }
  }

  lemma AddModulus(x: int, c: int)
    requires c > 0
    ensures (x + c) % c == x % c
  {
    var q := x / c;
    assert x == q * c + x % c;
    assert x + c == (q + 1) * c + x % c;
    SameRemainder(x + c, q + 1, x % c, c);
  }

  lemma SameRemainder(x: int, q: int, r: int, c: int)
    requires c > 0 && 0 <= r < c && x == q * c + r
    ensures x % c == r
  {
    var d := x / c;
    assert x == d * c + x % c;
    if d > q {
      Mono(q + 1, d, c);
    } else if d < q {
      Mono(d + 1, q, c);
    }
  }

  lemma Mono(a: int, b: int, c: int)
    requires a <= b && c >= 0
    ensures a * c <= b * c
  {
  }

  // ---------------------------------------------------------------- the timer queue and cyclic handlers

  /** No number below n is queued twice. */
  ghost predicate Unique(q: seq<Event>, n: nat) {
    forall i, j :: 0 <= i < j < |q| && q[i].id < n ==> q[i].id != q[j].id
  }

  lemma EnqueuedUnique(q: seq<Event>, e: Event, n: nat)
    requires Unique(q, n) && (e.id < n ==> forall x :: x in q ==> x.id != e.id)
    ensures Unique(Enqueued(q, e), n)
  {
    hide Place;
    var k := Place(q, e.time);
    var r := Enqueued(q, e);
    assert forall i :: 0 <= i < |r| ==> r[i] == if i < k then q[i] else if i == k then e else q[i - 1];
    assert forall i :: 0 <= i < |q| ==> q[i] in q;
  }

  lemma {:induction false} WithoutUnique(q: seq<Event>, ids: set<nat>, n: nat)
    requires Unique(q, n)
    ensures Unique(Without(q, ids), n)
    ensures forall x :: x in Without(q, ids) <==> x in q && x.id !in ids
  {
    if q != [] {
      assert q == [q[0]] + q[1..];
      WithoutUnique(q[1..], ids, n);
      var r := Without(q[1..], ids);
      forall i | 0 <= i < |r| && q[0].id < n ensures q[0].id != r[i].id {
        assert r[i] in q[1..];
      }
    }
  }

  /** The number of events that are due. */
  function Due(q: seq<Event>, now: int): nat {
    if q == [] then 0 else (if q[0].time <= now then 1 else 0) + Due(q[1..], now)
  }

  lemma {:induction false} DueEnqueued(q: seq<Event>, e: Event, now: int)
    requires e.time > now
    ensures Due(Enqueued(q, e), now) == Due(q, now)
  {
    if q == [] || e.time < q[0].time {
      assert Enqueued(q, e) == [e] + q;
    } else {
      DueEnqueued(q[1..], e, now);
      assert Enqueued(q, e) == [q[0]] + Enqueued(q[1..], e);
    }
  }

  lemma {:induction false} DueWithout(q: seq<Event>, ids: set<nat>, now: int)
    ensures Due(Without(q, ids), now) <= Due(q, now)
  {
    if q != [] {
      DueWithout(q[1..], ids, now);
    }
  }

  ghost predicate CycState(c: seq<Cyc>, q: seq<Event>) {
    && (forall i :: 0 <= i < |c| ==> c[i].cyctim > 0 && (c[i].started ==> c[i].used && Event(i, c[i].time) in q))
    && (forall e :: e in q && e.id < |c| ==> c[e.id].started && e.time == c[e.id].time)
    && Unique(q, |c|)
  }

  lemma CycStarted(c: seq<Cyc>, q: seq<Event>, i: nat, tm: int)
    requires CycState(c, q) && i < |c| && c[i].used && InOrder(q) && forall e :: e in q ==> e.id != i
    ensures CycState(c[i := c[i].(time := tm, started := true)], Enqueued(q, Event(i, tm)))
  {
    hide Enqueued;
    EnqueuedOk(q, Event(i, tm));
    EnqueuedUnique(q, Event(i, tm), |c|);
  }

  lemma CycOther(c: seq<Cyc>, q: seq<Event>, e: Event)
    requires CycState(c, q) && InOrder(q) && e.id >= |c|
    ensures CycState(c, Enqueued(q, e))
    ensures forall x :: x in Enqueued(q, e) <==> x in q || x == e
  {
    hide Enqueued;
    EnqueuedOk(q, e);
    EnqueuedUnique(q, e, |c|);
  }

  lemma CycStopped(c: seq<Cyc>, q: seq<Event>, i: nat)
    requires CycState(c, q) && i < |c|
    ensures CycState(c[i := c[i].(started := false)], Without(q, {i}))
    ensures CycState(c[i := c[i].(started := false, used := false)], Without(q, {i}))
    ensures forall e :: e in Without(q, {i}) ==> e.id != i && e in q
  {
    WithoutUnique(q, {i}, |c|);
  }

  lemma CycNextTimeLater(base: int, cyctim: int, now: int)
    requires cyctim > 0 && base >= now
    ensures CycNextTime(base, cyctim, now) == base + cyctim
  {
  }

  /** The control block of a stopped handler can be filled in anew. */
  lemma CycReset(c: seq<Cyc>, q: seq<Event>, i: nat, x: Cyc)
    requires CycState(c, q) && i < |c| && !c[i].started && x.cyctim > 0 && !x.started
    ensures CycState(c[i := x], q)
  {
  }

  /** A stopped handler has no event in the queue. */
  lemma CycIdle(c: seq<Cyc>, q: seq<Event>, i: nat)
    requires CycState(c, q) && i < |c| && !c[i].started
    ensures forall e :: e in q ==> e.id != i
  {
  }

  /** The queue is in order and agrees with the cyclic handlers. */
  ghost predicate Sound(s: Sys) {
    InOrder(s.queue) && CycState(s.cyc, s.queue)
  }

  // ---------------------------------------------------------------- what handlers do

  predicate Allowed(op: Op, n: nat) {
    match op
    case Cancel(id) => id >= n
    case Insert(id, tmout, adjust) => id >= n && (tmout > 0 || tmout == TMO_FEVR) && adjust >= 0
    case Stop(i) => i < n
    case Start(i, adjust) => i < n && adjust >= 0
    case Create(i, cyctim, cycphs, _, _, adjust) => i < n && cyctim > 0 && cycphs >= 0 && adjust >= 0
    case Delete(i) => i < n
  }

  ghost predicate AllAllowed(ops: seq<Op>, n: nat) {
    forall op :: op in ops ==> Allowed(op, n)
  }

  ghost predicate Tame(h: Handler, n: nat) {
    forall e :: AllAllowed(h(e), n)
  }

  /** When a handler that is stopped goes on in its phase. */
  function PhaseTime(c: Cyc, now: int): int
    requires c.cyctim > 0
  {
    if c.time <= now then CycNextTime(c.time, c.cyctim, now) else c.time
  }

  function Started(s: Sys, i: nat, q: seq<Event>, tm: int): Sys
    requires i < |s.cyc|
  {
    s.(queue := Enqueued(q, Event(i, tm)), cyc := s.cyc[i := s.cyc[i].(time := tm, started := true)])
  }

  /** A new cyclic handler: its first activation is after the phase, or at once and then one interval later. */
  function Created(s: Sys, i: nat, cyctim: int, cycphs: int, phs: bool, sta: bool, adjust: int): Sys {
    if i < |s.cyc|
    then
      var tm := s.now + cycphs + adjust + if sta && cycphs == 0 then cyctim else 0;
      s.(queue := if sta then Enqueued(s.queue, Event(i, tm)) else s.queue,
         cyc := s.cyc[i := Cyc(tm, cyctim, phs, sta, true)])
    else s
  }

  function Did(s: Sys, op: Op): Sys
    requires Sound(s) && Allowed(op, |s.cyc|)
  {
    match op
    case Cancel(id) => s.(queue := Without(s.queue, {id}))
    case Insert(id, tmout, adjust) =>
      if tmout == TMO_FEVR then s else s.(queue := Enqueued(s.queue, Event(id, s.now + tmout + adjust)))
    case Stop(i) =>
      if !s.cyc[i].used then s
      else s.(queue := Without(s.queue, {i}), cyc := s.cyc[i := s.cyc[i].(started := false)])
    case Start(i, adjust) =>
      if !s.cyc[i].used then s
      else if !s.cyc[i].phs then Started(s, i, Without(s.queue, {i}), s.now + s.cyc[i].cyctim + adjust)
      else if s.cyc[i].started then s
      else Started(s, i, s.queue, PhaseTime(s.cyc[i], s.now))
    case Create(i, cyctim, cycphs, phs, sta, adjust) =>
      if s.cyc[i].used then s else Created(s, i, cyctim, cycphs, phs, sta, adjust)
    case Delete(i) =>
      if !s.cyc[i].used then s
      else s.(queue := Without(s.queue, {i}), cyc := s.cyc[i := s.cyc[i].(started := false, used := false)])
  }

  /** The operation takes event number id out of the queue. */
  predicate Removes(op: Op, id: nat) {
    op == Cancel(id) || op == Stop(id) || op == Delete(id) || (op.Start? && op.i == id)
  }

  predicate Stops(ops: seq<Op>, id: nat) {
    exists k :: 0 <= k < |ops| && Removes(ops[k], id)
  }

  /** The operation begins a new interval for cyclic handler i; phs says whether that has TA_PHS. */
  predicate Resets(op: Op, i: nat, phs: bool) {
    (op.Start? && op.i == i && !phs) || (op.Create? && op.i == i)
  }

  /** The operation may change control block i. */
  predicate Touches(op: Op, i: nat) {
    Removes(op, i) || (op.Create? && op.i == i)
  }

  predicate TouchesAny(ops: seq<Op>, i: nat) {
    exists k :: 0 <= k < |ops| && Touches(ops[k], i)
  }

  /** The next activation of b lies a whole number of intervals after that of a, and it is the first
      such time after now unless it is still the same one. */
  predicate InPhase(a: Cyc, b: Cyc, now: int) {
    && a.cyctim > 0 && b == a.(time := b.time, started := b.started, used := b.used)
    && b.time >= a.time && (b.time - a.time) % a.cyctim == 0
    && (b.time == a.time || now < b.time <= now + a.cyctim)
  }

  lemma PhaseTimeOk(c: Cyc, now: int)
    requires c.cyctim > 0
    ensures PhaseTime(c, now) > now && InPhase(c, c.(time := PhaseTime(c, now), started := true), now)
  {
    CycNextTimeLeast(c.time, c.cyctim, now);
  }

  lemma InPhaseMeans(a: Cyc, b: Cyc, now: int)
    requires InPhase(a, b, now)
    ensures a.cyctim > 0 && b == a.(time := b.time, started := b.started, used := b.used)
    ensures b.time >= a.time && (b.time - a.time) % a.cyctim == 0
  {
  }

  lemma InPhaseTwice(a: Cyc, b: Cyc, c: Cyc, now: int)
    requires InPhase(a, b, now) && InPhase(b, c, now)
    ensures InPhase(a, c, now)
  {
    SumOfMultiples(b.time - a.time, c.time - b.time, a.cyctim);
  }

  lemma SumOfMultiples(x: int, y: int, n: int)
    requires n > 0 && x % n == 0 && y % n == 0
    ensures (x + y) % n == 0
  {
    assert x == x / n * n && y == y / n * n;
    assert x + y == (x / n + y / n) * n + 0 by {
      Distribute(x / n, y / n, n);
    }
    SameRemainder(x + y, x / n + y / n, 0, n);
  }

  lemma Distribute(a: int, b: int, c: int)
    ensures (a + b) * c == a * c + b * c
  {
  }

  /** What every operation keeps, inside the timer interrupt too: the queue stays in order and new events
      lie in the future. */
  ghost predicate Goes(s: Sys, s': Sys) {
    && Sound(s') && s'.now == s.now && |s'.cyc| == |s.cyc| && Due(s'.queue, s.now) <= Due(s.queue, s.now)
    && (forall e :: e in s'.queue ==> e in s.queue || e.time > s.now)
  }

  lemma StartedOk(s: Sys, i: nat, q: seq<Event>, tm: int)
    requires Sound(s) && i < |s.cyc| && s.cyc[i].used && tm > s.now
    requires q == Without(s.queue, {i}) || (q == s.queue && !s.cyc[i].started)
    ensures Goes(s, Started(s, i, q, tm))
    ensures forall e :: e in s.queue && e.id != i ==> e in Started(s, i, q, tm).queue
  {
    hide CycState, Enqueued, InOrder, Due, Without;
    var idle := s.cyc[i := s.cyc[i].(started := false)];
    DueEnqueued(q, Event(i, tm), s.now);
    if q == Without(s.queue, {i}) {
      WithoutOk(s.queue, {i});
      DueWithout(s.queue, {i}, s.now);
      CycStopped(s.cyc, s.queue, i);
    } else {
      CycIdle(s.cyc, s.queue, i);
      assert idle == s.cyc;
    }
    CycStarted(idle, q, i, tm);
    EnqueuedOk(q, Event(i, tm));
    assert idle[i := idle[i].(time := tm, started := true)] == s.cyc[i := s.cyc[i].(time := tm, started := true)];
  }

  lemma DidOk(s: Sys, op: Op)
    requires Sound(s) && Allowed(op, |s.cyc|)
    ensures Goes(s, Did(s, op))
    ensures forall e :: e in s.queue && !Removes(op, e.id) ==> e in Did(s, op).queue
    ensures forall i :: 0 <= i < |s.cyc| && !Resets(op, i, s.cyc[i].phs) ==> InPhase(s.cyc[i], Did(s, op).cyc[i], s.now)
    ensures forall i :: 0 <= i < |s.cyc| && !Touches(op, i) ==> Did(s, op).cyc[i] == s.cyc[i]
  {
    hide CycState, Enqueued, Without, Due, InOrder, PhaseTime, CycNextTime;
    SamePhases(s);
    match op
    case Cancel(id) =>
      WithoutOk(s.queue, {id});
      DueWithout(s.queue, {id}, s.now);
      CycWithout(s.cyc, s.queue, id);
    case Insert(id, tmout, adjust) =>
      if tmout != TMO_FEVR {
        var e := Event(id, s.now + tmout + adjust);
        CycOther(s.cyc, s.queue, e);
        EnqueuedOk(s.queue, e);
        DueEnqueued(s.queue, e, s.now);
      }
    case Stop(i) => StopOk(s, i);
    case Start(i, adjust) =>
      if s.cyc[i].used {
        if !s.cyc[i].phs {
          StartedOk(s, i, Without(s.queue, {i}), s.now + s.cyc[i].cyctim + adjust);
        } else if !s.cyc[i].started {
          PhaseTimeOk(s.cyc[i], s.now);
          StartedOk(s, i, s.queue, PhaseTime(s.cyc[i], s.now));
        }
      }
    case Create(i, cyctim, cycphs, phs, sta, adjust) =>
      if !s.cyc[i].used {
        CreatedOk(s, i, cyctim, cycphs, phs, sta, adjust);
      }
    case Delete(i) => StopOk(s, i);
  }

  lemma StopOk(s: Sys, i: nat)
    requires Sound(s) && i < |s.cyc|
    ensures Goes(s, s.(queue := Without(s.queue, {i}), cyc := s.cyc[i := s.cyc[i].(started := false)]))
    ensures Goes(s, s.(queue := Without(s.queue, {i}), cyc := s.cyc[i := s.cyc[i].(started := false, used := false)]))
    ensures forall e :: e in Without(s.queue, {i}) <==> e in s.queue && e.id != i
  {
    hide CycState, Without, Due;
    WithoutOk(s.queue, {i});
    DueWithout(s.queue, {i}, s.now);
    CycStopped(s.cyc, s.queue, i);
  }

  lemma CreatedOk(s: Sys, i: nat, cyctim: int, cycphs: int, phs: bool, sta: bool, adjust: int)
    requires Sound(s) && Allowed(Create(i, cyctim, cycphs, phs, sta, adjust), |s.cyc|) && !s.cyc[i].used
    ensures Goes(s, Created(s, i, cyctim, cycphs, phs, sta, adjust))
    ensures forall e :: e in s.queue ==> e in Created(s, i, cyctim, cycphs, phs, sta, adjust).queue
  {
    hide CycState, Enqueued, Due, InOrder;
    var made := Created(s, i, cyctim, cycphs, phs, sta, adjust);
    UnusedStopped(s, i);
    CycReset(s.cyc, s.queue, i, made.cyc[i].(started := false));
    var s1 := s.(cyc := s.cyc[i := made.cyc[i].(started := false)]);
    if sta {
      StartedOk(s1, i, s.queue, made.cyc[i].time);
      EnqueuedOk(s.queue, Event(i, made.cyc[i].time));
      assert made == Started(s1, i, s.queue, made.cyc[i].time);
    } else {
      assert made == s1;
    }
  }

  lemma UnusedStopped(s: Sys, i: nat)
    requires Sound(s) && i < |s.cyc| && !s.cyc[i].used
    ensures !s.cyc[i].started
  {
  }

  lemma SamePhases(s: Sys)
    requires Sound(s)
    ensures forall i :: 0 <= i < |s.cyc| ==>
              s.cyc[i].cyctim > 0 && InPhase(s.cyc[i], s.cyc[i], s.now)
              && InPhase(s.cyc[i], s.cyc[i].(started := false), s.now)
              && InPhase(s.cyc[i], s.cyc[i].(started := false, used := false), s.now)
  {
  }

  lemma CycWithout(c: seq<Cyc>, q: seq<Event>, id: nat)
    requires CycState(c, q) && id >= |c|
    ensures CycState(c, Without(q, {id}))
  {
    WithoutUnique(q, {id}, |c|);
  }

  function DidAll(s: Sys, ops: seq<Op>): Sys
    requires Sound(s) && AllAllowed(ops, |s.cyc|)
    decreases |ops|
  {
    if ops == [] then s
    else
      DidOk(s, ops[0]);
      DidAll(Did(s, ops[0]), ops[1..])
  }

  /** None of the operations begins a new interval for handler i. */
  ghost predicate KeepsPhase(ops: seq<Op>, i: nat, phs: bool) {
    forall op :: op in ops ==> !Resets(op, i, phs)
  }

  lemma {:induction false} DidAllOk(s: Sys, ops: seq<Op>)
    requires Sound(s) && AllAllowed(ops, |s.cyc|)
    ensures Goes(s, DidAll(s, ops))
    ensures forall e :: e in s.queue && !Stops(ops, e.id) ==> e in DidAll(s, ops).queue
    decreases |ops|
  {
    hide Sound, Due, Removes, Did;
    if ops != [] {
      DidOk(s, ops[0]);
      var s1 := Did(s, ops[0]);
      DidAllOk(s1, ops[1..]);
      forall e | e in s.queue && !Stops(ops, e.id) ensures e in DidAll(s, ops).queue {
        assert !Removes(ops[0], e.id);
      }
    }
  }

  lemma {:induction false} DidAllPhase(s: Sys, ops: seq<Op>, i: nat)
    requires Sound(s) && AllAllowed(ops, |s.cyc|) && i < |s.cyc| && KeepsPhase(ops, i, s.cyc[i].phs)
    ensures i < |DidAll(s, ops).cyc| && InPhase(s.cyc[i], DidAll(s, ops).cyc[i], s.now)
    decreases |ops|
  {
    hide Sound, Due, Did, InPhase;
    if ops == [] {
      SamePhases(s);
    } else {
      DidOk(s, ops[0]);
      var s1 := Did(s, ops[0]);
      assert forall op :: op in ops[1..] ==> op in ops;
      assert ops[0] in ops;
      InPhaseMeans(s.cyc[i], s1.cyc[i], s.now);
      DidAllPhase(s1, ops[1..], i);
      InPhaseTwice(s.cyc[i], s1.cyc[i], DidAll(s, ops).cyc[i], s.now);
    }
  }

  lemma {:induction false} DidAllUntouched(s: Sys, ops: seq<Op>, i: nat)
    requires Sound(s) && AllAllowed(ops, |s.cyc|) && i < |s.cyc| && !TouchesAny(ops, i)
    ensures i < |DidAll(s, ops).cyc| && DidAll(s, ops).cyc[i] == s.cyc[i]
    decreases |ops|
  {
    hide Sound, Due, Did, Touches;
    if ops != [] {
      DidOk(s, ops[0]);
      assert !Touches(ops[0], i);
      DidAllUntouched(Did(s, ops[0]), ops[1..], i);
    }
  }

  // ---------------------------------------------------------------- the timer interrupt

  /** The first event has left the queue; that of a cyclic handler is queued again for its next time. */
  function Popped(s: Sys): Sys
    requires Sound(s) && s.queue != []
  {
    var event := s.queue[0];
    if event.id < |s.cyc|
    then
      var next := CycNextTime(event.time, s.cyc[event.id].cyctim, s.now);
      s.(queue := Enqueued(s.queue[1..], Event(event.id, next)),
         cyc := s.cyc[event.id := s.cyc[event.id].(time := next)])
    else s.(queue := s.queue[1..])
  }

  /** The callback of an event that is due leaves fewer events that are due. */
  lemma PoppedOk(s: Sys)
    requires Sound(s) && s.queue != [] && s.queue[0].time <= s.now
    ensures Goes(s, Popped(s)) && Due(Popped(s).queue, s.now) < Due(s.queue, s.now)
    ensures forall e :: e in Popped(s).queue ==> e in s.queue[1..] || e.time > s.now
    ensures forall e :: e in s.queue[1..] ==> e in Popped(s).queue
    ensures forall i :: 0 <= i < |s.cyc| ==>
              InPhase(s.cyc[i], Popped(s).cyc[i], s.now) && Popped(s).cyc[i].started == s.cyc[i].started
  {
    hide Enqueued, CycNextTime, CycState, InOrder, Due;
    var event, rest := s.queue[0], s.queue[1..];
    assert s.queue == [event] + rest;
    PopDue(s.queue, s.now);
    HeadLeaves(s);
    SamePhases(s);
    if event.id < |s.cyc| {
      var c := s.cyc[event.id];
      CycNextTimeLeast(event.time, c.cyctim, s.now);
      var next := CycNextTime(event.time, c.cyctim, s.now);
      var s1 := s.(queue := rest, cyc := s.cyc[event.id := c.(started := false)]);
      StartedOk(s1, event.id, rest, next);
      assert Started(s1, event.id, rest, next) == Popped(s);
    }
  }

  lemma PopDue(q: seq<Event>, now: int)
    requires q != [] && q[0].time <= now
    ensures Due(q[1..], now) < Due(q, now)
  {
  }

  lemma HeadLeaves(s: Sys)
    requires Sound(s) && s.queue != []
    ensures var i, rest := s.queue[0].id, s.queue[1..];
            if i < |s.cyc|
            then
              && s.cyc[i].started && s.cyc[i].used && s.cyc[i].time == s.queue[0].time
              && (forall e :: e in rest ==> e.id != i)
              && Sound(s.(queue := rest, cyc := s.cyc[i := s.cyc[i].(started := false)]))
            else Sound(s.(queue := rest))
  {
    hide InOrder, Unique;
    var i, rest := s.queue[0].id, s.queue[1..];
    assert s.queue == [s.queue[0]] + rest;
    RestOk(s.queue, |s.cyc|);
  }

  lemma RestOk(q: seq<Event>, n: nat)
    requires q != [] && InOrder(q) && Unique(q, n)
    ensures InOrder(q[1..]) && Unique(q[1..], n)
    ensures q[0].id < n ==> forall e :: e in q[1..] ==> e.id != q[0].id
  {
  }

  /** One round of the loop of timer_handler. */
  function Round(s: Sys, ops: seq<Op>): Sys
    requires Sound(s) && s.queue != [] && s.queue[0].time <= s.now && AllAllowed(ops, |s.cyc|)
  {
    PoppedOk(s);
    DidAll(Popped(s), ops)
  }

  lemma RoundOk(s: Sys, ops: seq<Op>)
    requires Sound(s) && s.queue != [] && s.queue[0].time <= s.now && AllAllowed(ops, |s.cyc|)
    ensures Goes(s, Round(s, ops)) && Due(Round(s, ops).queue, s.now) < Due(s.queue, s.now)
    ensures forall e :: e in Round(s, ops).queue ==> e in s.queue[1..] || e.time > s.now
    ensures forall e :: e in s.queue[1..] && !Stops(ops, e.id) ==> e in Round(s, ops).queue
  {
    hide Sound, Due, Popped, DidAll, Stops;
    PoppedOk(s);
    DidAllOk(Popped(s), ops);
  }

  lemma RoundPhase(s: Sys, ops: seq<Op>, i: nat)
    requires Sound(s) && s.queue != [] && s.queue[0].time <= s.now && AllAllowed(ops, |s.cyc|)
    requires i < |s.cyc| && KeepsPhase(ops, i, s.cyc[i].phs)
    ensures i < |Round(s, ops).cyc| && InPhase(s.cyc[i], Round(s, ops).cyc[i], s.now)
    ensures !TouchesAny(ops, i) ==> Round(s, ops).cyc[i].started == s.cyc[i].started
  {
    hide Sound, Due, Popped, DidAll, TouchesAny;
    PoppedOk(s);
    assert InPhase(s.cyc[i], Popped(s).cyc[i], s.now);
    DidAllPhase(Popped(s), ops, i);
    InPhaseTwice(s.cyc[i], Popped(s).cyc[i], Round(s, ops).cyc[i], s.now);
    if !TouchesAny(ops, i) {
      DidAllUntouched(Popped(s), ops, i);
    }
  }

  /** All events that are due have fired. */
  function Fired(s: Sys, h: Handler): Sys
    requires Sound(s) && Tame(h, |s.cyc|)
    decreases Due(s.queue, s.now)
  {
    if s.queue == [] || s.queue[0].time > s.now then s
    else
      assert AllAllowed(h(s.queue[0]), |s.cyc|);
      RoundOk(s, h(s.queue[0]));
      Fired(Round(s, h(s.queue[0])), h)
  }

  /** The events that fire, in order. */
  function FiredEvents(s: Sys, h: Handler): seq<Event>
    requires Sound(s) && Tame(h, |s.cyc|)
    decreases Due(s.queue, s.now)
  {
    if s.queue == [] || s.queue[0].time > s.now then []
    else
      assert AllAllowed(h(s.queue[0]), |s.cyc|);
      RoundOk(s, h(s.queue[0]));
      [s.queue[0]] + FiredEvents(Round(s, h(s.queue[0])), h)
  }

  ghost predicate NeverStops(h: Handler, id: nat) {
    forall e :: !Stops(h(e), id)
  }

  /** An event that no handler stops fires if it is due, and stays in the queue if it is not. */
  lemma {:induction false} FiredOrKept(s: Sys, h: Handler, e: Event)
    requires Sound(s) && Tame(h, |s.cyc|) && e in s.queue && NeverStops(h, e.id)
    ensures e.time <= s.now ==> e in FiredEvents(s, h)
    ensures e.time > s.now ==> e in Fired(s, h).queue
    decreases Due(s.queue, s.now)
  {
    hide CycState, Round, Stops;
    if s.queue[0].time > s.now {
      HeadFirst(s.queue);
      assert s.queue == [s.queue[0]] + s.queue[1..];
    } else {
      var ops := h(s.queue[0]);
      assert AllAllowed(ops, |s.cyc|);
      RoundOk(s, ops);
      if e != s.queue[0] {
        assert s.queue == [s.queue[0]] + s.queue[1..];
        FiredOrKept(Round(s, ops), h, e);
      } else if e.time > s.now {
        assert false;
      }
    }
  }

  /** Only what was queued and due fires. */
  lemma {:induction false} FiredWereDue(s: Sys, h: Handler)
    requires Sound(s) && Tame(h, |s.cyc|)
    ensures forall e :: e in FiredEvents(s, h) ==> e in s.queue && e.time <= s.now
    decreases Due(s.queue, s.now)
  {
    hide CycState, Round, Due;
    if s.queue != [] && s.queue[0].time <= s.now {
      var ops := h(s.queue[0]);
      assert AllAllowed(ops, |s.cyc|);
      RoundOk(s, ops);
      FiredWereDue(Round(s, ops), h);
    }
  }

  /** No handler begins a new interval for cyclic handler i. */
  ghost predicate NeverResets(h: Handler, i: nat, phs: bool) {
    forall e :: KeepsPhase(h(e), i, phs)
  }

  lemma NeverTouched(h: Handler, i: nat, phs: bool)
    requires forall e :: !TouchesAny(h(e), i)
    ensures NeverResets(h, i, phs)
  {
    forall e ensures KeepsPhase(h(e), i, phs) {
      assert !TouchesAny(h(e), i);
    }
  }

  lemma {:induction false} FiredOk(s: Sys, h: Handler)
    requires Sound(s) && Tame(h, |s.cyc|)
    ensures Goes(s, Fired(s, h)) && AllLater(Fired(s, h).queue, s.now)
    decreases Due(s.queue, s.now)
  {
    hide CycState, Due;
    if s.queue == [] || s.queue[0].time > s.now {
      if s.queue != [] {
        HeadFirst(s.queue);
        assert s.queue == [s.queue[0]] + s.queue[1..];
      }
    } else {
      assert AllAllowed(h(s.queue[0]), |s.cyc|);
      RoundOk(s, h(s.queue[0]));
      FiredOk(Round(s, h(s.queue[0])), h);
    }
  }

  lemma {:induction false} FiredPhase(s: Sys, h: Handler, i: nat)
    requires Sound(s) && Tame(h, |s.cyc|) && i < |s.cyc| && NeverResets(h, i, s.cyc[i].phs)
    ensures i < |Fired(s, h).cyc| && InPhase(s.cyc[i], Fired(s, h).cyc[i], s.now)
    ensures (forall e :: !TouchesAny(h(e), i)) ==> Fired(s, h).cyc[i].started == s.cyc[i].started
    decreases Due(s.queue, s.now)
  {
    hide Sound, Due, Round, TouchesAny;
    SamePhases(s);
    if s.queue != [] && s.queue[0].time <= s.now {
      var ops := h(s.queue[0]);
      assert AllAllowed(ops, |s.cyc|) && KeepsPhase(ops, i, s.cyc[i].phs);
      RoundOk(s, ops);
      RoundPhase(s, ops, i);
      var s1 := Round(s, ops);
      FiredPhase(s1, h, i);
      InPhaseTwice(s.cyc[i], s1.cyc[i], Fired(s, h).cyc[i], s.now);
    }
  }

  // ---------------------------------------------------------------- runs

  // Tick: a timer interrupt. Call: a system call between interrupts.
  datatype Step = Tick(h: Handler) | Call(op: Op)

  ghost predicate StepAllowed(step: Step, n: nat) {
    match step
    case Tick(h) => Tame(h, n)
    case Call(op) => Allowed(op, n)
  }

  ghost predicate StepKeepsPhase(step: Step, i: nat, phs: bool) {
    match step
    case Tick(h) => NeverResets(h, i, phs)
    case Call(op) => !Resets(op, i, phs)
  }

  ghost predicate InTime(s: Sys) {
    Sound(s) && AllLater(s.queue, s.now)
  }

  function After(s: Sys, step: Step, period: int): Sys
    requires InTime(s) && StepAllowed(step, |s.cyc|)
  {
    match step
    case Tick(h) => Fired(s.(now := s.now + period), h)
    case Call(op) => Did(s, op)
  }

  lemma AfterOk(s: Sys, step: Step, period: int)
    requires InTime(s) && StepAllowed(step, |s.cyc|)
    ensures InTime(After(s, step, period)) && |After(s, step, period).cyc| == |s.cyc|
  {
    hide CycState, Fired, Did, InPhase;
    match step
    case Tick(h) => FiredOk(s.(now := s.now + period), h);
    case Call(op) => DidOk(s, op);
  }

  lemma AfterPhase(s: Sys, step: Step, period: int, i: nat)
    requires InTime(s) && StepAllowed(step, |s.cyc|) && i < |s.cyc| && StepKeepsPhase(step, i, s.cyc[i].phs)
    ensures i < |After(s, step, period).cyc|
    ensures InPhase(s.cyc[i], After(s, step, period).cyc[i], After(s, step, period).now)
  {
    hide CycState, Fired, Did, InPhase, Due;
    match step
    case Tick(h) =>
      FiredOk(s.(now := s.now + period), h);
      FiredPhase(s.(now := s.now + period), h, i);
    case Call(op) => DidOk(s, op);
  }

  function AfterAll(s: Sys, steps: seq<Step>, period: int): Sys
    requires InTime(s) && forall k :: 0 <= k < |steps| ==> StepAllowed(steps[k], |s.cyc|)
    decreases |steps|
  {
    if steps == [] then s
    else
      AfterOk(s, steps[0], period);
      AfterAll(After(s, steps[0], period), steps[1..], period)
  }

  /**
   Over any run of interrupts, timeouts, stops and starts, by tasks and by handlers, a cyclic handler
   with TA_PHS, or one that nobody restarts, keeps its phase, and no event is overdue.
   */
  lemma {:induction false} PhaseOverRun(s: Sys, steps: seq<Step>, period: int, i: nat, base: int)
    requires InTime(s) && forall k :: 0 <= k < |steps| ==> StepAllowed(steps[k], |s.cyc|)
    requires i < |s.cyc| && forall k :: 0 <= k < |steps| ==> StepKeepsPhase(steps[k], i, s.cyc[i].phs)
    requires s.cyc[i].cyctim > 0 && (s.cyc[i].time - base) % s.cyc[i].cyctim == 0
    ensures var r := AfterAll(s, steps, period);
            && InTime(r) && |r.cyc| == |s.cyc|
            && r.cyc[i] == s.cyc[i].(time := r.cyc[i].time, started := r.cyc[i].started, used := r.cyc[i].used)
            && r.cyc[i].time >= s.cyc[i].time && (r.cyc[i].time - base) % s.cyc[i].cyctim == 0
    decreases |steps|
  {
    hide InTime, After, InPhase, StepAllowed, StepKeepsPhase;
    if steps != [] {
      AfterOk(s, steps[0], period);
      var s1 := After(s, steps[0], period);
      AfterPhase(s, steps[0], period, i);
      InPhaseMeans(s.cyc[i], s1.cyc[i], s1.now);
      SumOfMultiples(s.cyc[i].time - base, s1.cyc[i].time - s.cyc[i].time, s.cyc[i].cyctim);
      PhaseOverRun(s1, steps[1..], period, i, base);
    }
  }

  ghost predicate StepNeverStops(step: Step, id: nat) {
    match step
    case Tick(h) => NeverStops(h, id)
    case Call(op) => !Removes(op, id)
  }

  /** Whether event e fires in the k-th step of the run. */
  ghost predicate FiresAt(s: Sys, steps: seq<Step>, period: int, e: Event, k: nat)
    requires InTime(s) && forall j :: 0 <= j < |steps| ==> StepAllowed(steps[j], |s.cyc|)
  {
    && k < |steps| && steps[k].Tick? && StepAllowed(steps[k], |s.cyc|)
    && var before := AfterAll(s, steps[..k], period);
       AfterAllOk(s, steps[..k], period);
       && before.now < e.time <= before.now + period
       && e in FiredEvents(before.(now := before.now + period), steps[k].h)
  }

  lemma {:induction false} AfterAllOk(s: Sys, steps: seq<Step>, period: int)
    requires InTime(s) && forall k :: 0 <= k < |steps| ==> StepAllowed(steps[k], |s.cyc|)
    ensures InTime(AfterAll(s, steps, period)) && |AfterAll(s, steps, period).cyc| == |s.cyc|
    decreases |steps|
  {
    hide InTime, After, StepAllowed;
    if steps != [] {
      AfterOk(s, steps[0], period);
      AfterAllOk(After(s, steps[0], period), steps[1..], period);
    }
  }

  /** One step: the event fires in it or is still queued afterwards. */
  lemma StepFiresOrKeeps(s: Sys, step: Step, period: int, e: Event)
    requires InTime(s) && StepAllowed(step, |s.cyc|) && StepNeverStops(step, e.id) && e in s.queue && period > 0
    ensures After(s, step, period).now == s.now + if step.Tick? then period else 0
    ensures e in After(s, step, period).queue <==> e.time > After(s, step, period).now
    ensures step.Tick? && s.now < e.time <= s.now + period ==> e in FiredEvents(s.(now := s.now + period), step.h)
  {
    hide CycState, Fired, FiredEvents, Did, Due;
    AfterOk(s, step, period);
    match step
    case Tick(h) =>
      FiredOk(s.(now := s.now + period), h);
      FiredOrKept(s.(now := s.now + period), h, e);
    case Call(op) =>
      DidOk(s, op);
  }

  /**
   An event that nobody stops is queued until it is due, and fires in the interrupt in which its time
   comes: not before its time, and less than one period after it.
   */
  lemma {:induction false} EventOverRun(s: Sys, steps: seq<Step>, period: int, e: Event) returns (k: nat)
    requires InTime(s) && (forall j :: 0 <= j < |steps| ==> StepAllowed(steps[j], |s.cyc|)) && period > 0
    requires e in s.queue && forall j :: 0 <= j < |steps| ==> StepNeverStops(steps[j], e.id)
    ensures e.time > AfterAll(s, steps, period).now ==> e in AfterAll(s, steps, period).queue
    ensures e.time <= AfterAll(s, steps, period).now ==> FiresAt(s, steps, period, e, k)
    decreases |steps|
  {
    hide InTime, After, StepAllowed, StepNeverStops, FiredEvents;
    k := 0;
    if steps == [] {
      QueuedLater(s, e);
      return;
    }
    QueuedLater(s, e);
    AfterOk(s, steps[0], period);
    StepFiresOrKeeps(s, steps[0], period, e);
    var s1 := After(s, steps[0], period);
    if e.time > s1.now {
      k := EventOverRun(s1, steps[1..], period, e);
      if e.time <= AfterAll(s, steps, period).now {
        assert steps[..k + 1][0] == steps[0] && steps[..k + 1][1..] == steps[1..][..k];
        assert AfterAll(s, steps[..k + 1], period) == AfterAll(s1, steps[1..][..k], period);
        k := k + 1;
      }
    } else {
      assert steps[..0] == [] && AfterAll(s, steps[..0], period) == s;
      NowGrows(s1, steps[1..], period);
    }
  }

  lemma QueuedLater(s: Sys, e: Event)
    requires InTime(s) && e in s.queue
    ensures e.time > s.now
  {
  }

  lemma {:induction false} NowGrows(s: Sys, steps: seq<Step>, period: int)
    requires InTime(s) && (forall k :: 0 <= k < |steps| ==> StepAllowed(steps[k], |s.cyc|)) && period > 0
    ensures AfterAll(s, steps, period).now >= s.now
    decreases |steps|
  {
    hide InTime, StepAllowed;
    if steps != [] {
      AfterOk(s, steps[0], period);
      NowAfter(s, steps[0], period);
      NowGrows(After(s, steps[0], period), steps[1..], period);
    }
  }

  lemma NowAfter(s: Sys, step: Step, period: int)
    requires InTime(s) && StepAllowed(step, |s.cyc|)
    ensures After(s, step, period).now == s.now + if step.Tick? then period else 0
  {
    hide CycState, Fired, Did, Due;
    match step
    case Tick(h) => FiredOk(s.(now := s.now + period), h);
    case Call(op) => DidOk(s, op);
  }

  /**
   A timeout of tmout, set adjust after the last interrupt, fires in the interrupt whose time is the time
   of the call plus the delay or up to one period more, whatever else happens in between, unless it is
   stopped.
   */
  lemma TimeoutFires(s: Sys, id: nat, tmout: int, adjust: int, steps: seq<Step>, period: int) returns (k: nat)
    requires InTime(s) && id >= |s.cyc| && tmout > 0 && adjust >= 0 && period > 0
    requires forall j :: 0 <= j < |steps| ==> StepAllowed(steps[j], |s.cyc|) && StepNeverStops(steps[j], id)
    ensures var s1 := After(s, Call(Insert(id, tmout, adjust)), period);
            var call := s.now + adjust;
            && InTime(s1) && |s1.cyc| == |s.cyc|
            && (AfterAll(s1, steps, period).now >= call + tmout ==>
                  && FiresAt(s1, steps, period, Event(id, call + tmout), k)
                  && var at := AfterAll(s1, steps[..k], period).now + period;
                     call + tmout <= at < call + tmout + period)
  {
    hide Sound, AllLater, FiresAt, StepNeverStops, FiredEvents;
    var op := Insert(id, tmout, adjust);
    AfterOk(s, Call(op), period);
    var s1 := After(s, Call(op), period);
    var e := Event(id, s.now + tmout + adjust);
    DidInsert(s, id, tmout, adjust);
    SoundOrder(s);
    EnqueuedOk(s.queue, e);
    k := EventOverRun(s1, steps, period, e);
    if AfterAll(s1, steps, period).now >= e.time {
      FiresWhen(s1, steps, period, e, k);
    }
  }

  lemma FiresWhen(s: Sys, steps: seq<Step>, period: int, e: Event, k: nat)
    requires InTime(s) && forall j :: 0 <= j < |steps| ==> StepAllowed(steps[j], |s.cyc|)
    requires FiresAt(s, steps, period, e, k)
    ensures k < |steps| && AfterAll(s, steps[..k], period).now < e.time <= AfterAll(s, steps[..k], period).now + period
  {
    AfterAllOk(s, steps[..k], period);
  }

  // ---------------------------------------------------------------- the timer module

  class Timers {
    var now: int
    var queue: seq<Event>
    var cyc: seq<Cyc>
    const PERIOD: int

    function State(): Sys
      reads this
    {
      Sys(now, queue, cyc)
    }

    /** Between interrupts every queued event lies in the future. */
    ghost predicate Valid()
      reads this
    {
      InTime(State()) && PERIOD > 0
    }

    /** n control blocks of cyclic handlers, none of them in use. */
    constructor (period: int, n: nat)
      requires period > 0
      ensures Valid() && now == 0 && queue == [] && |cyc| == n && PERIOD == period
      ensures forall i :: 0 <= i < n ==> !cyc[i].used
    {
      now, queue, PERIOD := 0, [], period;
      cyc := seq(n, _ => Cyc(0, 1, false, false, false));
    }

    /** enqueue_tmeb. */
    method EnqueueTmeb(e: Event)
      requires InOrder(queue)
      modifies `queue
      ensures InOrder(queue) && queue == Enqueued(old(queue), e)
    {
      var i := 0;
      while i < |queue|
        invariant i <= |queue| && forall j :: 0 <= j < i ==> queue[j].time <= e.time
      {
        if e.time < queue[i].time {
          break;
        }
        i := i + 1;
      }
      PlaceUnique(queue, e.time, i);
      EnqueuedOk(queue, e);
      queue := queue[..i] + [e] + queue[i..];
    }

    /** timer_insert, for a timeout that is not immediate; adjust is the time since the last interrupt. */
    method TimerInsert(id: nat, tmout: int, adjust: int)
      requires Sound(State()) && Allowed(Insert(id, tmout, adjust), |cyc|)
      modifies `queue
      ensures State() == Did(old(State()), Insert(id, tmout, adjust)) && Goes(old(State()), State())
      ensures forall e :: e in old(queue) ==> e in queue
      ensures tmout == TMO_FEVR ==> queue == old(queue)
      ensures tmout != TMO_FEVR ==>
                forall e :: e in queue <==> e in old(queue) || e == Event(id, now + tmout + adjust)
    {
      hide Sound, Did, Goes, Enqueued, Place;
      DidOk(State(), Insert(id, tmout, adjust));
      DidInsert(State(), id, tmout, adjust);
      SoundOrder(State());
      if tmout != TMO_FEVR {
        var e := Event(id, now + tmout + adjust);
        EnqueuedOk(queue, e);
        EnqueueTmeb(e);
        assert e in queue;
      }
    }

    /** timer_delete of an event that is not that of a cyclic handler. */
    method TimerDelete(id: nat)
      requires Sound(State()) && id >= |cyc|
      modifies `queue
      ensures State() == Did(old(State()), Cancel(id)) && Goes(old(State()), State())
      ensures forall e :: e in queue <==> e in old(queue) && e.id != id
    {
      DidOk(State(), Cancel(id));
      WithoutOk(queue, {id});
      queue := Without(queue, {id});
    }

    /** _tk_stp_cyc; false means E_NOEXS. */
    method StpCyc(i: nat) returns (ok: bool)
      requires Sound(State()) && i < |cyc|
      modifies `queue, `cyc
      ensures State() == Did(old(State()), Stop(i)) && Goes(old(State()), State()) && ok == old(cyc)[i].used
      ensures ok ==> cyc == old(cyc)[i := old(cyc)[i].(started := false)] && queue == Without(old(queue), {i})
      ensures ok ==> forall e :: e in queue <==> e in old(queue) && e.id != i
      ensures !ok ==> State() == old(State())
    {
      if !cyc[i].used {
        return false;
      }
      StopOk(State(), i);
      queue := Without(queue, {i});
      cyc := cyc[i := cyc[i].(started := false)];
      return true;
    }

    /** _tk_del_cyc; false means E_NOEXS. */
    method DelCyc(i: nat) returns (ok: bool)
      requires Sound(State()) && i < |cyc|
      modifies `queue, `cyc
      ensures State() == Did(old(State()), Delete(i)) && Goes(old(State()), State()) && ok == old(cyc)[i].used
      ensures !cyc[i].used && !cyc[i].started && forall j :: 0 <= j < |cyc| && j != i ==> cyc[j] == old(cyc)[j]
      ensures forall e :: e in queue <==> e in old(queue) && e.id != i
      ensures !ok ==> State() == old(State())
    {
      CycIdleUnused(State(), i);
      if !cyc[i].used {
        return false;
      }
      StopOk(State(), i);
      queue := Without(queue, {i});
      cyc := cyc[i := cyc[i].(started := false, used := false)];
      return true;
    }

    /** _tk_sta_cyc of a handler whose control block is i; false means E_NOEXS. */
    method StaCyc(i: nat, adjust: int) returns (ok: bool)
      requires Sound(State()) && i < |cyc| && adjust >= 0
      modifies `queue, `cyc
      ensures State() == Did(old(State()), Start(i, adjust)) && Goes(old(State()), State()) && ok == old(cyc)[i].used
      ensures !ok ==> State() == old(State())
      ensures ok ==> cyc == old(cyc)[i := old(cyc)[i].(time := cyc[i].time, started := true)]
      ensures ok && old(cyc)[i].phs ==>
                InPhase(old(cyc)[i], cyc[i], now) && (old(cyc)[i].time > now ==> cyc[i].time == old(cyc)[i].time)
      ensures ok && !old(cyc)[i].phs ==> cyc[i].time == now + cyc[i].cyctim + adjust
      ensures ok ==> queue == if !old(cyc)[i].phs then Enqueued(Without(old(queue), {i}), Event(i, cyc[i].time))
                              else if old(cyc)[i].started then old(queue)
                              else Enqueued(old(queue), Event(i, cyc[i].time))
      ensures forall e :: e in old(queue) && e.id != i ==> e in queue
    {
      hide Enqueued, Without, CycState, CycNextTime, InOrder, Due, Place;
      DidOk(State(), Start(i, adjust));
      SamePhases(State());
      var c := cyc[i];
      if !c.used {
        return false;
      }
      if c.phs {
        if !c.started {
          var tm := c.time;
          if tm <= now {
            tm := CycNextTime(c.time, c.cyctim, now);
          }
          EnqueueTmeb(Event(i, tm));
          cyc := cyc[i := c.(time := tm, started := true)];
        }
      } else {
        WithoutOk(queue, {i});
        queue := Without(queue, {i});
        var tm := now + c.cyctim + adjust;
        EnqueueTmeb(Event(i, tm));
        cyc := cyc[i := c.(time := tm, started := true)];
      }
      return true;
    }

    /** _tk_cre_cyc with control block i, up to the immediate call of the handler; false when the block is in use. */
    method MakeCyc(i: nat, cyctim: int, cycphs: int, phs: bool, sta: bool, adjust: int) returns (ok: bool)
      requires Sound(State()) && Allowed(Create(i, cyctim, cycphs, phs, sta, adjust), |cyc|)
      modifies `queue, `cyc
      ensures State() == Did(old(State()), Create(i, cyctim, cycphs, phs, sta, adjust)) && Goes(old(State()), State())
      ensures ok == !old(cyc)[i].used && forall e :: e in old(queue) ==> e in queue
      ensures !ok ==> State() == old(State())
      // the first activation comes after the phase, or after an interval when the handler is called at once
      ensures ok ==>
                var tm := now + cycphs + adjust + if sta && cycphs == 0 then cyctim else 0;
                && cyc == old(cyc)[i := Cyc(tm, cyctim, phs, sta, true)]
                && forall e :: e in queue <==> e in old(queue) || (sta && e == Event(i, tm))
    {
      hide Enqueued, CycState, CycNextTime, InOrder, Due, Place;
      DidOk(State(), Create(i, cyctim, cycphs, phs, sta, adjust));
      SoundOrder(State());
      EnqueuedOk(queue, Event(i, now + cycphs + adjust + if sta && cycphs == 0 then cyctim else 0));
      if cyc[i].used {
        return false;
      }
      var tm := now + cycphs + adjust;
      if sta {
        if cycphs == 0 {
          CycNextTimeLater(tm, cyctim, now);
          tm := CycNextTime(tm, cyctim, now);
        }
        EnqueueTmeb(Event(i, tm));
      }
      cyc := cyc[i := Cyc(tm, cyctim, phs, sta, true)];
      return true;
    }

    /** A handler runs: its system calls, one after the other. */
    method CallUserHandler(ops: seq<Op>)
      requires Sound(State()) && AllAllowed(ops, |cyc|)
      modifies `queue, `cyc
      ensures State() == DidAll(old(State()), ops) && Goes(old(State()), State())
    {
      hide Sound, Did, Due;
      DidAllOk(State(), ops);
      var k := 0;
      while k < |ops|
        invariant k <= |ops| && now == old(now) && |cyc| == |old(cyc)| && Sound(State())
        invariant DidAll(State(), ops[k..]) == DidAll(old(State()), ops)
      {
        assert ops[k] in ops && ops[k..][0] == ops[k] && ops[k..][1..] == ops[k + 1..];
        match ops[k] {
          case Cancel(id) => TimerDelete(id);
          case Insert(id, tmout, adjust) => TimerInsert(id, tmout, adjust);
          case Stop(i) => var ok := StpCyc(i);
          case Start(i, adjust) => var ok := StaCyc(i, adjust);
          case Create(i, cyctim, cycphs, phs, sta, adjust) => var ok := MakeCyc(i, cyctim, cycphs, phs, sta, adjust);
          case Delete(i) => var ok := DelCyc(i);
        }
        k := k + 1;
      }
    }

    /** One round of timer_handler: the first event, which is due, leaves the queue and its callback runs. */
    method CallBack(ops: seq<Op>)
      requires Sound(State()) && queue != [] && queue[0].time <= now && AllAllowed(ops, |cyc|)
      modifies `queue, `cyc
      ensures State() == Round(old(State()), ops)
    {
      hide Sound, CycNextTime, Enqueued, DidAll;
      PoppedOk(State());
      SamePhases(State());
      var event := queue[0];
      ghost var s0 := State();
      SoundOrder(s0);
      queue := queue[1..];
      if event.id < |cyc| {
        // call_cychdr: queued again before the user handler runs
        var next := CycNextTime(event.time, cyc[event.id].cyctim, now);
        EnqueueTmeb(Event(event.id, next));
        cyc := cyc[event.id := cyc[event.id].(time := next)];
      }
      CallUserHandler(ops);
    }

    /**
     timer_handler. Events fire in the order of their times; none fires early, none later than one period,
     and every event that is due fires unless a handler stops or restarts it. The loop ends although
     handlers start events: those lie in the future.
     */
    method TimerHandler(h: Handler) returns (fired: seq<Event>)
      requires Valid() && Tame(h, |cyc|)
      modifies `now, `queue, `cyc
      ensures Valid() && State() == After(old(State()), Tick(h), PERIOD) && now == old(now) + PERIOD
      ensures Sound(old(State()).(now := now)) && fired == FiredEvents(old(State()).(now := now), h)
      ensures InOrder(fired) && forall e :: e in fired ==> e in old(queue) && old(now) < e.time <= now
      ensures forall e :: e in old(queue) ==> e in fired || e in queue || exists x :: x in fired && Stops(h(x), e.id)
      ensures |cyc| == |old(cyc)|
      ensures forall i :: 0 <= i < |cyc| && NeverResets(h, i, old(cyc)[i].phs) ==> InPhase(old(cyc)[i], cyc[i], now)
      ensures forall i :: 0 <= i < |cyc| && (forall e :: !TouchesAny(h(e), i)) ==> cyc[i].started == old(cyc)[i].started
    {
      hide Due, InOrder, CycState, Round, Stops, InPhase, Fired, FiredEvents;
      now := now + PERIOD;
      fired := [];
      NothingFired();
      ghost var s0, last := State(), now - PERIOD;
      FiredOk(s0, h);
      forall i | 0 <= i < |cyc| && NeverResets(h, i, cyc[i].phs) ensures InPhase(cyc[i], Fired(s0, h).cyc[i], now) {
        FiredPhase(s0, h, i);
      }
      forall i | 0 <= i < |cyc| && forall e :: !TouchesAny(h(e), i)
        ensures Fired(s0, h).cyc[i].started == cyc[i].started {
        NeverTouched(h, i, cyc[i].phs);
        FiredPhase(s0, h, i);
      }
      while queue != []
        invariant now == s0.now && |cyc| == |s0.cyc| && Sound(State())
        invariant Fired(State(), h) == Fired(s0, h)
        invariant fired + FiredEvents(State(), h) == FiredEvents(s0, h)
        invariant forall e :: e in fired ==> now - PERIOD < e.time <= now
        invariant InOrder(fired) && last <= now && forall e :: e in fired ==> e.time <= last
        invariant forall e :: e in queue ==> last <= e.time && e.time > now - PERIOD
        invariant forall e :: e in queue && e.time <= now ==> e in s0.queue
        invariant forall e :: e in fired ==> e in s0.queue
        invariant forall e :: e in s0.queue ==> e in fired || e in queue || exists x :: x in fired && Stops(h(x), e.id)
        decreases Due(queue, now)
      {
        var event := queue[0];
        FiredRound(State(), h);
        if event.time > now {
          break;
        }
        ghost var q1 := queue;
        assert AllAllowed(h(event), |cyc|);
        FiredInOrder(fired, event, last);
        HeadFirst(queue);
        RoundOk(State(), h(event));
        CallBack(h(event));
        fired := fired + [event];
        last := event.time;
        assert q1 == [event] + q1[1..];
      }
      FiredRound(State(), h);
    }

    /** _tk_cre_cyc; with TA_STA and no phase the handler is called at once, and ops is what it does. */
    method CreCyc(i: nat, cyctim: int, cycphs: int, phs: bool, sta: bool, adjust: int, ops: seq<Op>) returns (ok: bool)
      requires Sound(State()) && Allowed(Create(i, cyctim, cycphs, phs, sta, adjust), |cyc|) && AllAllowed(ops, |cyc|)
      modifies `queue, `cyc
      ensures ok == !old(cyc)[i].used && Goes(old(State()), State())
      ensures !ok ==> State() == old(State())
      ensures ok ==>
                var made := Created(old(State()), i, cyctim, cycphs, phs, sta, adjust);
                && Sound(made) && |made.cyc| == |cyc|
                && State() == if sta && cycphs == 0 then DidAll(made, ops) else made
    {
      hide Sound, Due, DidAll, Created;
      ok := MakeCyc(i, cyctim, cycphs, phs, sta, adjust);
      if ok && sta && cycphs == 0 {
        CallUserHandler(ops);
      }
    }
  }

  lemma CycIdleUnused(s: Sys, i: nat)
    requires Sound(s) && i < |s.cyc|
    ensures !s.cyc[i].used ==> !s.cyc[i].started && forall e :: e in s.queue ==> e.id != i
  {
  }

  lemma DidInsert(s: Sys, id: nat, tmout: int, adjust: int)
    requires Sound(s) && Allowed(Insert(id, tmout, adjust), |s.cyc|)
    ensures Did(s, Insert(id, tmout, adjust)) ==
            if tmout == TMO_FEVR then s else s.(queue := Enqueued(s.queue, Event(id, s.now + tmout + adjust)))
  {
  }

  lemma SoundOrder(s: Sys)
    requires Sound(s)
    ensures InOrder(s.queue) && InOrder(if s.queue == [] then [] else s.queue[1..])
  {
  }

  lemma FiredRound(s: Sys, h: Handler)
    requires Sound(s) && Tame(h, |s.cyc|)
    ensures s.queue == [] || s.queue[0].time > s.now ==> Fired(s, h) == s && FiredEvents(s, h) == []
    ensures s.queue != [] && s.queue[0].time <= s.now ==>
              && AllAllowed(h(s.queue[0]), |s.cyc|) && Goes(s, Round(s, h(s.queue[0])))
              && Fired(s, h) == Fired(Round(s, h(s.queue[0])), h)
              && FiredEvents(s, h) == [s.queue[0]] + FiredEvents(Round(s, h(s.queue[0])), h)
  {
    if s.queue != [] && s.queue[0].time <= s.now {
      assert AllAllowed(h(s.queue[0]), |s.cyc|);
      RoundOk(s, h(s.queue[0]));
    }
  }

  lemma NothingFired()
    ensures InOrder([])
  {
  }

  lemma FiredInOrder(fired: seq<Event>, e: Event, last: int)
    requires InOrder(fired) && last <= e.time && forall x :: x in fired ==> x.time <= last
    ensures InOrder(fired + [e])
  {
    assert forall i :: 0 <= i < |fired| ==> fired[i] in fired;
  }

  lemma HeadFirst(q: seq<Event>)
    requires InOrder(q) && q != []
    ensures forall e :: e in q[1..] ==> q[0].time <= e.time
  {
  }
}
