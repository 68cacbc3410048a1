/**
 At-least-once delivery of outbox rows: `application/outbox.py` and the repository it drives.  Any number of
 dispatchers claim, deliver and mark rows; a delivery is interrupted at any point, and its lease may be taken
 over while it is still at work.
 */
module OutboxDelivery {
  import opened Durable
  import opened StableOrder
  import EB = EventBus

  datatype RowStatus = RowPending | RowRetryWait | RowClaimed | RowPublished | RowDeadLetter

  datatype Row = Row(
    status: RowStatus, owner: Option<OwnerId>, expires: Time, attempts: nat, maxAttempts: nat, availableAt: Time,
    version: nat)

  /** What a claim hands to the dispatcher. */
  datatype Record = Record(event: EventId, owner: OwnerId, version: nat, attempts: nat, expires: Time)

  datatype Consumption = Consumption(event: EventId, name: Name)

  type Rows = map<EventId, Row>

  predicate Due(row: Row, now: Time) {
    || ((row.status.RowPending? || row.status.RowRetryWait?) && row.availableAt <= now)
    || (row.status.RowClaimed? && row.expires <= now)
  }

  function Taken(row: Row, owner: OwnerId, expires: Time): Row {
    row.(status := RowClaimed, owner := Some(owner), expires := expires, attempts := row.attempts + 1,
         version := row.version + 1)
  }

  /** The row is still the one this record claimed. */
  predicate Holds(rows: Rows, r: Record) {
    && r.event in rows && rows[r.event].status.RowClaimed?
    && rows[r.event].owner == Some(r.owner) && rows[r.event].version == r.version
  }

  /** `mark_published` */
  function Publish(rows: Rows, r: Record): Rows {
    if !Holds(rows, r) then rows
    else rows[r.event := rows[r.event].(status := RowPublished, owner := None, version := rows[r.event].version + 1)]
  }

  /** `mark_failed`: the attempt budget decides between another round and the dead letter. */
  function Fail(rows: Rows, r: Record, availableAt: Time): Rows {
    if !Holds(rows, r) then rows
    else
      var row := rows[r.event];
      rows[r.event := row.(status := if row.maxAttempts <= row.attempts then RowDeadLetter else RowRetryWait,
                           availableAt := availableAt, owner := None, version := row.version + 1)]
  }

  /** `mark_poisoned`: the version is not trusted and stays. */
  function Poison(rows: Rows, r: Record, now: Time): Rows {
    if !Holds(rows, r) then rows
    else rows[r.event := rows[r.event].(status := RowDeadLetter, availableAt := now, owner := None)]
  }

  // ---------------------------------------------------------------- back-off

  /** The base doubled `n` times. */
  function Doubled(base: real, n: nat): real {
    if n == 0 then base else 2.0 * Doubled(base, n - 1)
  }

  function Exponent(count: int): nat {
    if count <= 1 then 0 else if count <= 31 then count - 1 else 30
  }

  /** `_backoff_seconds` */
  function Backoff(base: real, cap: real, count: int): real {
    Least(Doubled(base, Exponent(count)), cap)
  }

  function Least(x: real, y: real): real {
    if x < y then x else y
  }

  lemma {:induction false} DoubledGrows(base: real, m: nat, n: nat)
    requires 0.0 < base && m <= n
    ensures base <= Doubled(base, m) <= Doubled(base, n)
    decreases n
  {
    if m < n {
      DoubledGrows(base, m, n - 1);
    } else if m > 0 {
      DoubledGrows(base, m - 1, m - 1);
    }
  }

  /** The wait never shrinks from one attempt to the next and stays between the base and the cap. */
  lemma BackoffGrows(base: real, cap: real, count: int, later: int)
    requires 0.0 < base <= cap && count <= later
    ensures base <= Backoff(base, cap, count) <= Backoff(base, cap, later) <= cap
  {
    DoubledGrows(base, Exponent(count), Exponent(later));
  }

  /** The wait starts at the base, doubles with every further attempt up to the cap, and stands still from the
      thirty-first on. */
  lemma BackoffDoubles(base: real, cap: real, count: int)
    requires 0.0 < base <= cap
    ensures count <= 1 ==> Backoff(base, cap, count) == base
    ensures 1 <= count <= 30 ==>
              var twice := 2.0 * Backoff(base, cap, count);
              Backoff(base, cap, count + 1) == if twice < cap then twice else cap
    ensures 31 <= count ==> Backoff(base, cap, count) == Backoff(base, cap, 31)
  {
    DoubledGrows(base, Exponent(count), Exponent(count));
  }

  // ---------------------------------------------------------------- deliveries

  newtype DeliveryId = int

  datatype Phase = Invoking | Recording

  /** One run of `_dispatch_record`.  `consumers` are the names registered when the dispatch began, `skip` those
      recorded by then; `next` counts consumers while invoking and results while recording. */
  datatype Delivery = Delivery(
    record: Record, consumers: seq<Name>, skip: set<Name>, phase: Phase, next: nat, results: seq<EB.Result>)

  /** `records` are claimed and wait for their dispatch in some dispatcher's batch; `consumed` remembers which
      delivery recorded a consumption first. */
  datatype System = System(
    rows: Rows,
    consumed: map<Consumption, DeliveryId>,
    records: set<Record>,
    active: map<DeliveryId, Delivery>,
    used: set<DeliveryId>,
    published: map<EventId, seq<Name>>)

  datatype Step =
    | Adds(event: EventId, maxAttempts: nat, availableAt: Time)
    | Claims(event: EventId, owner: OwnerId, now: Time, expires: Time)
    | Begins(id: DeliveryId, record: Record, consumers: seq<Name>)
    | Invokes(id: DeliveryId, succeeded: bool)
    | Returns(id: DeliveryId)
    | Records(id: DeliveryId)
    | Marks(id: DeliveryId, retryAt: Time)
    | Rejects(record: Record, poisoned: bool, retryAt: Time)
    | Stops(id: DeliveryId)
    | Loses(record: Record)

  predicate DistinctNames(names: seq<Name>) {
    forall i, j :: 0 <= i < j < |names| ==> names[i] != names[j]
  }

  function ConsumedNames(s: System, e: EventId): set<Name> {
    set c | c in s.consumed && c.event == e :: c.name
  }

  predicate AllSucceeded(results: seq<EB.Result>) {
    forall i :: 0 <= i < |results| ==> results[i].succeeded
  }

  /** The step is possible: its event, record or delivery is there and at that point. */
  predicate Enabled(s: System, t: Step) {
    match t
    case Adds(e, _, _) => e !in s.rows
    case Claims(e, _, now, _) => e in s.rows && Due(s.rows[e], now)
    case Begins(d, r, consumers) => d !in s.used && r in s.records && DistinctNames(consumers)
    case Invokes(d, _) => d in s.active && s.active[d].phase.Invoking? && s.active[d].next < |s.active[d].consumers|
    case Returns(d) => d in s.active && s.active[d].phase.Invoking? && s.active[d].next == |s.active[d].consumers|
    case Records(d) => d in s.active && s.active[d].phase.Recording? && s.active[d].next < |s.active[d].results|
    case Marks(d, _) => d in s.active && s.active[d].phase.Recording? && s.active[d].next == |s.active[d].results|
    case Rejects(r, _, _) => r in s.records
    case Stops(d) => d in s.active
    case Loses(r) => r in s.records
  }

  function Invoked(x: Delivery, succeeded: bool): Delivery
    requires x.next < |x.consumers|
  {
    var n := x.consumers[x.next];
    x.(next := x.next + 1, results := if n in x.skip then x.results else x.results + [EB.Result(n, succeeded)])
  }

  function Next(s: System, t: Step): System
    requires Enabled(s, t)
  {
    match t
    case Adds(e, max, at) => s.(rows := s.rows[e := Row(RowPending, None, 0, 0, max, at, 1)])
    case Claims(e, owner, _, expires) =>
      var row := Taken(s.rows[e], owner, expires);
      s.(rows := s.rows[e := row], records := s.records + {Record(e, owner, row.version, row.attempts, expires)})
    case Begins(d, r, consumers) =>
      s.(active := s.active[d := Delivery(r, consumers, ConsumedNames(s, r.event), Invoking, 0, [])], used := s.used + {d},
         records := s.records - {r})
    case Invokes(d, succeeded) => s.(active := s.active[d := Invoked(s.active[d], succeeded)])
    case Returns(d) => s.(active := s.active[d := s.active[d].(phase := Recording, next := 0)])
    case Records(d) =>
      var x := s.active[d];
      var c := Consumption(x.record.event, x.results[x.next].name);
      s.(active := s.active[d := x.(next := x.next + 1)],
         consumed := if x.results[x.next].succeeded && c !in s.consumed then s.consumed[c := d] else s.consumed)
    case Marks(d, retryAt) => Mark(s, d, retryAt)
    case Rejects(r, poisoned, retryAt) =>
      s.(rows := if poisoned then Poison(s.rows, r, retryAt) else Fail(s.rows, r, retryAt), records := s.records - {r})
    case Stops(d) => s.(active := s.active - {d})
    case Loses(r) => s.(records := s.records - {r})
  }

  function Mark(s: System, d: DeliveryId, retryAt: Time): System
    requires d in s.active
  {
    var x := s.active[d];
    if !AllSucceeded(x.results) then s.(rows := Fail(s.rows, x.record, retryAt), active := s.active - {d})
    else
      s.(rows := Publish(s.rows, x.record), active := s.active - {d},
         published := if Holds(s.rows, x.record) then s.published[x.record.event := x.consumers] else s.published)
  }

  // ---------------------------------------------------------------- the invariant

  predicate HasResult(results: seq<EB.Result>, n: Name) {
    exists i :: 0 <= i < |results| && results[i].name == n
  }

  ghost predicate Covered(x: Delivery, k: nat)
    requires k <= |x.consumers|
  {
    forall i :: 0 <= i < k ==> x.consumers[i] in x.skip || HasResult(x.results, x.consumers[i])
  }

  ghost predicate Passed(consumers: seq<Name>, next: nat, n: Name)
    requires next <= |consumers|
  {
    exists k :: 0 <= k < next && consumers[k] == n
  }

  /** Every result is of a consumer passed so far. */
  ghost predicate ResultsPassed(x: Delivery)
    requires x.next <= |x.consumers|
  {
    forall i :: 0 <= i < |x.results| ==> Passed(x.consumers, x.next, x.results[i].name)
  }

  /** The delivery has recorded nothing of its event. */
  ghost predicate NothingRecorded(consumed: map<Consumption, DeliveryId>, d: DeliveryId, e: EventId) {
    forall c :: c in consumed && c.event == e ==> consumed[c] != d
  }

  /** Every consumer passed so far was skipped or has a result; while invoking, only those have. */
  ghost predicate DeliveryWell(consumed: map<Consumption, DeliveryId>, d: DeliveryId, x: Delivery) {
    && DistinctNames(x.consumers)
    && (forall n :: n in x.skip ==> Consumption(x.record.event, n) in consumed)
    && match x.phase
       case Invoking =>
         && x.next <= |x.consumers| && Covered(x, x.next)
         && ResultsPassed(x)
         && NothingRecorded(consumed, d, x.record.event)
       case Recording =>
         && x.next <= |x.results| && Covered(x, |x.consumers|)
         && (forall i :: 0 <= i < x.next && x.results[i].succeeded ==> Consumption(x.record.event, x.results[i].name) in consumed)
  }

  ghost predicate PublishedWell(s: System) {
    && (forall e :: e in s.published <==> e in s.rows && s.rows[e].status.RowPublished?)
    && (forall e, i :: e in s.published && 0 <= i < |s.published[e]| ==> Consumption(e, s.published[e][i]) in s.consumed)
  }

  ghost predicate Inv(s: System) {
    && (forall d :: d in s.active ==> d in s.used && DeliveryWell(s.consumed, d, s.active[d]))
    && (forall c :: c in s.consumed ==> s.consumed[c] in s.used)
    && PublishedWell(s)
  }

  const START: System := System(map[], map[], {}, map[], {}, map[])

  /** Recorded consumptions are never taken back or reassigned. */
  ghost predicate Grows(s: map<Consumption, DeliveryId>, t: map<Consumption, DeliveryId>) {
    forall c :: c in s ==> c in t && t[c] == s[c]
  }

  lemma InvokedWell(consumed: map<Consumption, DeliveryId>, d: DeliveryId, x: Delivery, succeeded: bool)
    requires DeliveryWell(consumed, d, x) && x.phase.Invoking? && x.next < |x.consumers|
    ensures DeliveryWell(consumed, d, Invoked(x, succeeded))
  {
    var y, n := Invoked(x, succeeded), x.consumers[x.next];
    forall i | 0 <= i < y.next ensures y.consumers[i] in y.skip || HasResult(y.results, y.consumers[i]) {
      if i < x.next {
        assert x.consumers[i] in x.skip || HasResult(x.results, x.consumers[i]);
        if k :| 0 <= k < |x.results| && x.results[k].name == x.consumers[i] {
          assert y.results[k].name == x.consumers[i];
        }
      } else if n !in x.skip {
        assert y.results[|x.results|].name == n;
      }
    }
    forall i | 0 <= i < |y.results| ensures Passed(y.consumers, y.next, y.results[i].name) {
      if i < |x.results| {
        assert Passed(x.consumers, x.next, x.results[i].name);
      } else {
        assert y.consumers[x.next] == y.results[i].name;
      }
    }
  }

  /** Another delivery records a consumption: this one stays well. */
  lemma OtherRecordsWell(consumed: map<Consumption, DeliveryId>, d: DeliveryId, x: Delivery, c: Consumption, other: DeliveryId)
    requires DeliveryWell(consumed, d, x) && other != d && c !in consumed
    ensures DeliveryWell(consumed[c := other], d, x)
  {
    var next := consumed[c := other];
    if x.phase.Invoking? {
      forall b | b in next && b.event == x.record.event ensures next[b] != d {
        assert b != c ==> b in consumed && next[b] == consumed[b];
      }
    } else {
      assert Covered(x, |x.consumers|);
    }
  }

  lemma OwnRecordsWell(consumed: map<Consumption, DeliveryId>, d: DeliveryId, x: Delivery)
    requires DeliveryWell(consumed, d, x) && x.phase.Recording? && x.next < |x.results|
    ensures var c := Consumption(x.record.event, x.results[x.next].name);
            DeliveryWell(if x.results[x.next].succeeded && c !in consumed then consumed[c := d] else consumed, d,
                         x.(next := x.next + 1))
  {
    assert Covered(x.(next := x.next + 1), |x.consumers|);
  }

  /** All results recorded, none failed: every consumer of the dispatch is recorded. */
  lemma DoneIsConsumed(consumed: map<Consumption, DeliveryId>, d: DeliveryId, x: Delivery, i: nat)
    requires DeliveryWell(consumed, d, x) && x.phase.Recording? && x.next == |x.results| && AllSucceeded(x.results)
    requires i < |x.consumers|
    ensures Consumption(x.record.event, x.consumers[i]) in consumed
  {
    assert x.consumers[i] in x.skip || HasResult(x.results, x.consumers[i]);
  }

  // ---------------------------------------------------------------- every step keeps it

  lemma BeginKeeps(s: System, t: Step)
    requires Inv(s) && Enabled(s, t) && t.Begins?
    ensures Inv(Next(s, t))
  {
    var next, x := Next(s, t), Next(s, t).active[t.id];
    assert Covered(x, 0);
    forall c | c in s.consumed && c.event == t.record.event ensures s.consumed[c] != t.id {
      assert s.consumed[c] in s.used;
    }
    assert DeliveryWell(next.consumed, t.id, x);
  }

  lemma InvokeKeeps(s: System, t: Step)
    requires Inv(s) && Enabled(s, t) && (t.Invokes? || t.Returns?)
    ensures Inv(Next(s, t))
  {
    assert DeliveryWell(s.consumed, t.id, s.active[t.id]);
    if t.Invokes? {
      InvokedWell(s.consumed, t.id, s.active[t.id], t.succeeded);
    }
  }

  lemma RecordKeeps(s: System, t: Step)
    requires Inv(s) && Enabled(s, t) && t.Records?
    ensures Inv(Next(s, t))
  {
    var next, x := Next(s, t), s.active[t.id];
    var c := Consumption(x.record.event, x.results[x.next].name);
    OwnRecordsWell(s.consumed, t.id, x);
    forall d | d in next.active ensures d in next.used && DeliveryWell(next.consumed, d, next.active[d]) {
      if d != t.id && next.consumed != s.consumed {
        OtherRecordsWell(s.consumed, d, s.active[d], c, t.id);
      }
    }
  }

  lemma MarkKeeps(s: System, t: Step)
    requires Inv(s) && Enabled(s, t) && t.Marks?
    ensures Inv(Next(s, t))
  {
    var next, x := Next(s, t), s.active[t.id];
    if AllSucceeded(x.results) {
      forall i | 0 <= i < |x.consumers| ensures Consumption(x.record.event, x.consumers[i]) in s.consumed {
        DoneIsConsumed(s.consumed, t.id, x, i);
      }
    }
  }

  lemma RowKeeps(s: System, t: Step)
    requires Inv(s) && Enabled(s, t) && (t.Adds? || t.Claims? || t.Rejects? || t.Stops? || t.Loses?)
    ensures Inv(Next(s, t))
  {
  }

  lemma ConsumedGrows(s: System, t: Step)
    requires Enabled(s, t)
    ensures Grows(s.consumed, Next(s, t).consumed)
  {
  }

  lemma StepKeeps(s: System, t: Step)
    requires Inv(s) && Enabled(s, t)
    ensures Inv(Next(s, t)) && Grows(s.consumed, Next(s, t).consumed)
  {
    ConsumedGrows(s, t);
    if t.Begins? {
      BeginKeeps(s, t);
    } else if t.Invokes? || t.Returns? {
      InvokeKeeps(s, t);
    } else if t.Records? {
      RecordKeeps(s, t);
    } else if t.Marks? {
      MarkKeeps(s, t);
    } else {
      RowKeeps(s, t);
    }
  }

  ghost predicate StepAt(states: seq<System>, steps: seq<Step>, i: nat)
    requires |states| == |steps| + 1 && i < |steps|
  {
    Enabled(states[i], steps[i]) && states[i + 1] == Next(states[i], steps[i])
  }

  ghost predicate Run(states: seq<System>, steps: seq<Step>) {
    && |states| == |steps| + 1 && states[0] == START
    && forall i :: 0 <= i < |steps| ==> StepAt(states, steps, i)
  }

  lemma {:induction false} RunInv(states: seq<System>, steps: seq<Step>, i: nat)
    requires Run(states, steps) && i < |states|
    ensures Inv(states[i])
  {
    if i > 0 {
      RunInv(states, steps, i - 1);
      assert StepAt(states, steps, i - 1);
      StepKeeps(states[i - 1], steps[i - 1]);
    }
  }

  // ---------------------------------------------------------------- published means consumed

  /** In every run, with failures, interruptions and lease takeovers, a published event was consumed by every
      consumer that was registered when the dispatch that published it began. */
  lemma PublishedMeansConsumed(states: seq<System>, steps: seq<Step>, i: nat, e: EventId)
    requires Run(states, steps) && i < |states| && e in states[i].rows && states[i].rows[e].status.RowPublished?
    ensures e in states[i].published
    ensures forall k :: 0 <= k < |states[i].published[e]| ==> Consumption(e, states[i].published[e][k]) in states[i].consumed
  {
    RunInv(states, steps, i);
  }

  // ---------------------------------------------------------------- when a recorded consumer is invoked again

  /** Step `i` invokes consumer `n` in delivery `d`. */
  predicate InvokesName(s: System, t: Step, d: DeliveryId, n: Name) {
    && t.Invokes? && t.id == d && d in s.active && s.active[d].next < |s.active[d].consumers|
    && s.active[d].consumers[s.active[d].next] == n && n !in s.active[d].skip
  }

  predicate SameDelivery(x: Delivery, y: Delivery) {
    x.record == y.record && x.consumers == y.consumers && x.skip == y.skip
  }

  lemma StaysOrBegins(s: System, t: Step, d: DeliveryId)
    requires Enabled(s, t) && d in Next(s, t).active
    ensures if d in s.active then SameDelivery(s.active[d], Next(s, t).active[d]) || (t.Begins? && t.id == d)
            else t.Begins? && t.id == d
    ensures t.Begins? && t.id == d ==> Next(s, t).active[d].skip == ConsumedNames(s, Next(s, t).active[d].record.event)
  {
  }

  /** From `b` on the delivery has been at work on the same record with the same consumers and skip set. */
  ghost predicate WorksSince(states: seq<System>, b: nat, i: nat, d: DeliveryId)
    requires b < i < |states|
  {
    forall k :: b < k <= i ==> d in states[k].active && d in states[i].active && SameDelivery(states[k].active[d], states[i].active[d])
  }

  lemma {:induction false} BeganAt(states: seq<System>, steps: seq<Step>, i: nat, d: DeliveryId) returns (b: nat)
    requires Run(states, steps) && i < |states| && d in states[i].active
    ensures b < i && steps[b].Begins? && steps[b].id == d && WorksSince(states, b, i, d)
    ensures states[i].active[d].skip == ConsumedNames(states[b], states[i].active[d].record.event)
  {
    assert i > 0;
    assert StepAt(states, steps, i - 1);
    StaysOrBegins(states[i - 1], steps[i - 1], d);
    if steps[i - 1].Begins? && steps[i - 1].id == d {
      b := i - 1;
    } else {
      b := BeganAt(states, steps, i - 1, d);
    }
  }

  lemma RecordedByStep(s: System, t: Step, c: Consumption)
    requires Enabled(s, t) && c !in s.consumed && c in Next(s, t).consumed
    ensures t.Records? && s.active[t.id].record.event == c.event && Next(s, t).consumed[c] == t.id
  {
  }

  /** Step `j` is the one that records the consumption. */
  ghost predicate RecordsAt(states: seq<System>, steps: seq<Step>, j: nat, c: Consumption)
    requires |states| == |steps| + 1 && j < |steps|
  {
    && c !in states[j].consumed && c in states[j + 1].consumed
    && steps[j].Records? && steps[j].id in states[j].active && states[j].active[steps[j].id].record.event == c.event
    && states[j + 1].consumed[c] == steps[j].id
  }

  lemma {:induction false} RecordedBetween(states: seq<System>, steps: seq<Step>, b: nat, i: nat, c: Consumption)
    returns (j: nat)
    requires Run(states, steps) && b <= i < |states| && c !in states[b].consumed && c in states[i].consumed
    ensures b <= j < i && RecordsAt(states, steps, j, c)
    ensures states[i].consumed[c] == steps[j].id
    decreases i
  {
    RunInv(states, steps, i - 1);
    assert StepAt(states, steps, i - 1);
    StepKeeps(states[i - 1], steps[i - 1]);
    if c in states[i - 1].consumed {
      j := RecordedBetween(states, steps, b, i - 1, c);
    } else {
      RecordedByStep(states[i - 1], steps[i - 1], c);
      j := i - 1;
    }
  }

  lemma NotConsumed(s: System, e: EventId, n: Name)
    ensures n in ConsumedNames(s, e) <==> Consumption(e, n) in s.consumed
  {
    assert Consumption(e, n).name == n && Consumption(e, n).event == e;
  }

  lemma InvokingRecordsNothing(s: System, d: DeliveryId, c: Consumption)
    requires Inv(s) && d in s.active && s.active[d].phase.Invoking? && c in s.consumed && c.event == s.active[d].record.event
    ensures s.consumed[c] != d
  {
    assert DeliveryWell(s.consumed, d, s.active[d]);
  }

  lemma {:induction false} ConsumedStays(states: seq<System>, steps: seq<Step>, i: nat, j: nat, c: Consumption)
    requires Run(states, steps) && i <= j < |states| && c in states[i].consumed
    ensures c in states[j].consumed
    decreases j
  {
    if i < j {
      ConsumedStays(states, steps, i, j - 1, c);
      assert StepAt(states, steps, j - 1);
      ConsumedGrows(states[j - 1], steps[j - 1]);
    }
  }

  /** Step `j` records the consumption for another delivery while `d` is at work. */
  ghost predicate RecordedBeside(states: seq<System>, steps: seq<Step>, j: nat, d: DeliveryId, c: Consumption)
    requires |states| == |steps| + 1
  {
    j < |steps| && d in states[j].active && RecordsAt(states, steps, j, c) && steps[j].id != d
  }

  lemma RecordedWhileAtWork(states: seq<System>, steps: seq<Step>, i: nat, d: DeliveryId, n: Name) returns (j: nat)
    requires Run(states, steps) && i < |steps| && InvokesName(states[i], steps[i], d, n)
    requires Consumption(states[i].active[d].record.event, n) in states[i].consumed
    ensures j < i && RecordedBeside(states, steps, j, d, Consumption(states[i].active[d].record.event, n))
    ensures SameDelivery(states[j].active[d], states[i].active[d])
  {
    var c := Consumption(states[i].active[d].record.event, n);
    RunInv(states, steps, i);
    assert StepAt(states, steps, i);
    var b := BeganAt(states, steps, i, d);
    NotConsumed(states[b], c.event, n);
    j := RecordedBetween(states, steps, b, i, c);
    InvokingRecordsNothing(states[i], d, c);
  }

  /** An invocation hits a recorded consumer if and only if another delivery recorded it while this one was at
      work, after it had read its skip set. */
  lemma ReinvokedIffRecordedBeside(states: seq<System>, steps: seq<Step>, i: nat, d: DeliveryId, n: Name)
    requires Run(states, steps) && i < |steps| && InvokesName(states[i], steps[i], d, n)
    ensures Consumption(states[i].active[d].record.event, n) in states[i].consumed <==>
              exists j :: 0 <= j < i && RecordedBeside(states, steps, j, d, Consumption(states[i].active[d].record.event, n))
  {
    var c := Consumption(states[i].active[d].record.event, n);
    if c in states[i].consumed {
      var j := RecordedWhileAtWork(states, steps, i, d, n);
    }
    if j :| 0 <= j < i && RecordedBeside(states, steps, j, d, c) {
      ConsumedStays(states, steps, j + 1, i, c);
    }
  }

  // ---------------------------------------------------------------- leases

  predicate SameClaim(r: Record, q: Record) {
    r.event == q.event && r.version == q.version
  }

  /** The row is still claimed by this record, or has been claimed again since. */
  predicate Claimant(rows: Rows, r: Record) {
    && r.event in rows
    && (|| r.version < rows[r.event].version
        || (&& r.version == rows[r.event].version && rows[r.event].status.RowClaimed?
            && rows[r.event].owner == Some(r.owner) && rows[r.event].expires == r.expires))
  }

  /** Each claim is dispatched once: no two records or deliveries stand for one. */
  ghost predicate Leases(s: System) {
    && (forall r :: r in s.records ==> Claimant(s.rows, r))
    && (forall d :: d in s.active ==> Claimant(s.rows, s.active[d].record))
    && (forall r, q :: r in s.records && q in s.records && SameClaim(r, q) ==> r == q)
    && (forall d, r :: d in s.active && r in s.records ==> !SameClaim(s.active[d].record, r))
    && (forall d, b :: d in s.active && b in s.active && d != b ==> !SameClaim(s.active[d].record, s.active[b].record))
  }

  lemma ClaimLeases(s: System, t: Step)
    requires Leases(s) && Enabled(s, t) && (t.Adds? || t.Claims?)
    ensures Leases(Next(s, t))
  {
  }

  lemma WorkLeases(s: System, t: Step)
    requires Leases(s) && Enabled(s, t) && (t.Invokes? || t.Returns? || t.Records?)
    ensures Leases(Next(s, t))
  {
    var next := Next(s, t);
    assert next.rows == s.rows && next.records == s.records;
    assert forall d :: d in next.active ==> d in s.active && next.active[d].record == s.active[d].record;
  }

  lemma TakeLeases(s: System, t: Step)
    requires Leases(s) && Enabled(s, t) && (t.Begins? || t.Stops? || t.Loses?)
    ensures Leases(Next(s, t))
  {
  }

  /** The row of `r` alone is changed, and only if `r` still holds it. */
  predicate Marked(rows: Rows, next: Rows, r: Record) {
    && (!Holds(rows, r) ==> next == rows)
    && (Holds(rows, r) ==> r.event in next && next == rows[r.event := next[r.event]]
                           && (rows[r.event].version <= next[r.event].version))
  }

  lemma MarkedKeepsOthers(rows: Rows, next: Rows, r: Record, q: Record)
    requires Marked(rows, next, r) && Claimant(rows, q) && !SameClaim(r, q)
    ensures Claimant(next, q)
  {
  }

  lemma MarkLeases(s: System, t: Step)
    requires Leases(s) && Enabled(s, t) && (t.Marks? || t.Rejects?)
    ensures Leases(Next(s, t))
  {
    var next := Next(s, t);
    var r := if t.Marks? then s.active[t.id].record else t.record;
    assert Marked(s.rows, next.rows, r);
    forall q | q in next.records ensures Claimant(next.rows, q) {
      MarkedKeepsOthers(s.rows, next.rows, r, q);
    }
    forall d | d in next.active ensures Claimant(next.rows, next.active[d].record) {
      MarkedKeepsOthers(s.rows, next.rows, r, next.active[d].record);
    }
  }

  lemma StepLeases(s: System, t: Step)
    requires Leases(s) && Enabled(s, t)
    ensures Leases(Next(s, t))
  {
    if t.Adds? || t.Claims? {
      ClaimLeases(s, t);
    } else if t.Invokes? || t.Returns? || t.Records? {
      WorkLeases(s, t);
    } else if t.Marks? || t.Rejects? {
      MarkLeases(s, t);
    } else {
      TakeLeases(s, t);
    }
  }

  lemma {:induction false} RunLeases(states: seq<System>, steps: seq<Step>, i: nat)
    requires Run(states, steps) && i < |states|
    ensures Leases(states[i])
  {
    if i > 0 {
      RunLeases(states, steps, i - 1);
      assert StepAt(states, steps, i - 1);
      StepLeases(states[i - 1], steps[i - 1]);
    }
  }

  /** Claimed and not yet done with: waiting in a batch or being delivered. */
  ghost predicate Unfinished(s: System, r: Record) {
    r in s.records || exists d :: d in s.active && s.active[d].record == r
  }

  /** Step `k` claims the row of `r` from it, its lease having run out by the claimer's clock. */
  predicate TakesOver(s: System, t: Step, r: Record) {
    && t.Claims? && t.event == r.event && r.event in s.rows
    && s.rows[r.event].status.RowClaimed? && s.rows[r.event].version == r.version && s.rows[r.event].expires == r.expires
    && r.expires <= t.now
  }

  lemma UnfinishedBefore(s: System, t: Step, r: Record)
    requires Leases(s) && Enabled(s, t) && Unfinished(Next(s, t), r)
    ensures Unfinished(s, r) || (r.event in Next(s, t).rows && Next(s, t).rows[r.event].version == r.version)
  {
    var next := Next(s, t);
    if r !in next.records {
      var d :| d in next.active && next.active[d].record == r;
      if d in s.active && !(t.Begins? && t.id == d) {
        assert s.active[d].record == r;
      }
    }
  }

  /** While a record is unfinished, only a claim that finds its lease expired moves its row on. */
  lemma MovedOnByTakeover(s: System, t: Step, r: Record)
    requires Leases(s) && Enabled(s, t) && Unfinished(s, r) && Unfinished(Next(s, t), r)
    requires s.rows[r.event].version == r.version && r.event in Next(s, t).rows && r.version < Next(s, t).rows[r.event].version
    ensures TakesOver(s, t, r)
  {
    assert Claimant(s.rows, r);
    if t.Marks? {
      assert SameClaim(s.active[t.id].record, r);
    } else if t.Rejects? {
      assert SameClaim(t.record, r);
    }
  }

  /** A record whose row has moved on while it was unfinished was taken over. */
  lemma {:induction false} TakenOverAt(states: seq<System>, steps: seq<Step>, i: nat, r: Record) returns (k: nat)
    requires Run(states, steps) && i < |states| && Unfinished(states[i], r)
    requires r.event in states[i].rows && r.version < states[i].rows[r.event].version
    ensures k < i && TakesOver(states[k], steps[k], r)
    decreases i
  {
    assert i > 0 by {
      assert states[0] == START;
    }
    RunLeases(states, steps, i - 1);
    assert StepAt(states, steps, i - 1);
    UnfinishedBefore(states[i - 1], steps[i - 1], r);
    UnfinishedIsClaimant(states[i - 1], r);
    if r.version < states[i - 1].rows[r.event].version {
      k := TakenOverAt(states, steps, i - 1, r);
    } else {
      MovedOnByTakeover(states[i - 1], steps[i - 1], r);
      k := i - 1;
    }
  }

  lemma UnfinishedIsClaimant(s: System, r: Record)
    requires Leases(s) && Unfinished(s, r)
    ensures Claimant(s.rows, r)
  {
  }

  /** Two deliveries of one event at work together: the older record has been taken over. */
  lemma TogetherMeansTakeover(states: seq<System>, steps: seq<Step>, i: nat, d: DeliveryId, b: DeliveryId) returns (k: nat, r: Record)
    requires Run(states, steps) && i < |states| && d in states[i].active && b in states[i].active && d != b
    requires states[i].active[d].record.event == states[i].active[b].record.event
    ensures k < i && TakesOver(states[k], steps[k], r) && r.event == states[i].active[d].record.event
    ensures r == states[i].active[d].record || r == states[i].active[b].record
    ensures r.version <= states[i].active[d].record.version && r.version <= states[i].active[b].record.version
  {
    RunLeases(states, steps, i);
    var x, y := states[i].active[d].record, states[i].active[b].record;
    assert !SameClaim(x, y) && Claimant(states[i].rows, x) && Claimant(states[i].rows, y);
    r := if x.version < y.version then x else y;
    assert Unfinished(states[i], r);
    k := TakenOverAt(states, steps, i, r);
  }

  /** A recorded consumer is invoked again only after a takeover: the other delivery holds another claim of the
      event, and the older of the two claims was found expired by a later claim. */
  lemma ReinvocationIsTakeover(states: seq<System>, steps: seq<Step>, i: nat, d: DeliveryId, n: Name)
    returns (j: nat, k: nat, older: Record)
    requires Run(states, steps) && i < |steps| && InvokesName(states[i], steps[i], d, n)
    requires Consumption(states[i].active[d].record.event, n) in states[i].consumed
    ensures k < j < i && RecordedBeside(states, steps, j, d, Consumption(states[i].active[d].record.event, n))
    ensures TakesOver(states[k], steps[k], older) && older.event == states[i].active[d].record.event
    ensures older == states[i].active[d].record || older == states[j].active[steps[j].id].record
  {
    j := RecordedWhileAtWork(states, steps, i, d, n);
    k, older := TogetherMeansTakeover(states, steps, j, d, steps[j].id);
  }

  /** No claim of the event before `i` finds a lease run out: every one takes a row nobody holds. */
  ghost predicate NoTakeover(states: seq<System>, steps: seq<Step>, i: nat, e: EventId)
    requires |states| == |steps| + 1 && i <= |steps|
  {
    forall k :: 0 <= k < i && steps[k].Claims? && steps[k].event == e && e in states[k].rows ==>
      !states[k].rows[e].status.RowClaimed?
  }

  /** Where no lease of an event runs out, no consumer recorded for it is ever invoked again. */
  lemma NoTakeoverNoReinvocation(states: seq<System>, steps: seq<Step>, i: nat, d: DeliveryId, n: Name)
    requires Run(states, steps) && i < |steps| && InvokesName(states[i], steps[i], d, n)
    requires NoTakeover(states, steps, i, states[i].active[d].record.event)
    ensures Consumption(states[i].active[d].record.event, n) !in states[i].consumed
  {
    if Consumption(states[i].active[d].record.event, n) in states[i].consumed {
      ReinvocationNeedsTakeover(states, steps, i, d, n);
    }
  }

  lemma ReinvocationNeedsTakeover(states: seq<System>, steps: seq<Step>, i: nat, d: DeliveryId, n: Name)
    requires Run(states, steps) && i < |steps| && InvokesName(states[i], steps[i], d, n)
    requires Consumption(states[i].active[d].record.event, n) in states[i].consumed
    ensures !NoTakeover(states, steps, i, states[i].active[d].record.event)
  {
    var j, k, older := ReinvocationIsTakeover(states, steps, i, d, n);
    assert steps[k].Claims? && states[k].rows[older.event].status.RowClaimed?;
  }

  /** The system after one event was added, claimed until 30 and begun. */
  function Begun(e: EventId, n: Name, owner: OwnerId): System {
    System(map[e := Row(RowClaimed, Some(owner), 30, 1, 3, 0, 2)], map[], {},
           map[1 := Delivery(Record(e, owner, 2, 1, 30), [n], {}, Invoking, 0, [])], {1}, map[])
  }

  lemma FirstDelivery(e: EventId, n: Name, owner: OwnerId) returns (states: seq<System>, steps: seq<Step>)
    ensures Run(states, steps) && |steps| == 3 && states[3] == Begun(e, n, owner)
  {
    states, steps := [START], [];
    states, steps := Extended(states, steps, Adds(e, 3, 0));
    states, steps := Extended(states, steps, Claims(e, owner, 0, 30));
    assert ConsumedNames(states[2], e) == {};
    assert states[2].records == {Record(e, owner, 2, 1, 30)};
    states, steps := Extended(states, steps, Begins(1, Record(e, owner, 2, 1, 30), [n]));
    assert states[3].records == {};
  }

  /** It happens, for every event and consumer: the second claim takes over an expired lease while the first
      delivery is still to invoke its consumer. */
  lemma TakeoverReinvokes(e: EventId, n: Name, slow: OwnerId, fast: OwnerId) returns (states: seq<System>, steps: seq<Step>)
    ensures Run(states, steps) && |steps| == 9 && InvokesName(states[8], steps[8], 1, n)
    ensures Consumption(e, n) in states[8].consumed && states[8].active[1].record.event == e
  {
    var first, second := Record(e, slow, 2, 1, 30), Record(e, fast, 3, 2, 60);
    states, steps := FirstDelivery(e, n, slow);
    states, steps := Extended(states, steps, Claims(e, fast, 30, 60));
    var taken := states[4];
    assert taken.active == map[1 := Delivery(first, [n], {}, Invoking, 0, [])];
    assert ConsumedNames(states[4], e) == {};
    states, steps := Extended(states, steps, Begins(2, second, [n]));
    assert states[5].active[2] == Delivery(second, [n], {}, Invoking, 0, []);
    states, steps := Extended(states, steps, Invokes(2, true));
    states, steps := Extended(states, steps, Returns(2));
    states, steps := Extended(states, steps, Records(2));
    assert states[8].active[1] == taken.active[1];
    states, steps := Extended(states, steps, Invokes(1, true));
  }

  /** Nor need a claim fall into the second delivery's own time: a slow delivery that was taken over before the
      second began records its success late, and the second invokes that consumer again. */
  lemma LateRecordReinvokes(e: EventId, n: Name, slow: OwnerId, fast: OwnerId) returns (states: seq<System>, steps: seq<Step>)
    ensures Run(states, steps) && |steps| == 9 && steps[6].Begins? && steps[6].id == 2 && steps[7].Records?
    ensures InvokesName(states[8], steps[8], 2, n)
    ensures Consumption(e, n) in states[8].consumed && states[8].active[2].record.event == e
  {
    var second := Record(e, fast, 3, 2, 60);
    states, steps := SentDelivery(e, n, slow);
    states, steps := Extended(states, steps, Claims(e, fast, 30, 60));
    assert ConsumedNames(states[6], e) == {};
    states, steps := Extended(states, steps, Begins(2, second, [n]));
    assert states[7].active[1] == Sent(e, n, slow).active[1];
    states, steps := Extended(states, steps, Records(1));
    assert states[8].active[2] == Delivery(second, [n], {}, Invoking, 0, []);
    states, steps := Extended(states, steps, Invokes(2, true));
  }

  /** The same system after the consumer was invoked with success and before that is recorded. */
  function Sent(e: EventId, n: Name, owner: OwnerId): System {
    Begun(e, n, owner).(active := map[1 := Delivery(Record(e, owner, 2, 1, 30), [n], {}, Recording, 0, [EB.Result(n, true)])])
  }

  lemma SentDelivery(e: EventId, n: Name, owner: OwnerId) returns (states: seq<System>, steps: seq<Step>)
    ensures Run(states, steps) && |steps| == 5 && states[5] == Sent(e, n, owner)
  {
    states, steps := FirstDelivery(e, n, owner);
    states, steps := Extended(states, steps, Invokes(1, true));
    assert Begun(e, n, owner).active[1].results + [EB.Result(n, true)] == [EB.Result(n, true)];
    states, steps := Extended(states, steps, Returns(1));
    assert states[5].active == Sent(e, n, owner).active;
  }

  lemma Extended(states: seq<System>, steps: seq<Step>, t: Step) returns (more: seq<System>, longer: seq<Step>)
    requires Run(states, steps) && Enabled(states[|steps|], t)
    ensures more == states + [Next(states[|steps|], t)] && longer == steps + [t] && Run(more, longer)
  {
    more, longer := states + [Next(states[|steps|], t)], steps + [t];
    forall i | 0 <= i < |longer| ensures StepAt(more, longer, i) {
      if i < |steps| {
        assert StepAt(states, steps, i);
      }
    }
  }

  // ---------------------------------------------------------------- only successes are recorded

  /** Some step before `i` invoked the consumer in delivery `d` with this outcome. */
  ghost predicate InvokedWith(states: seq<System>, steps: seq<Step>, i: nat, d: DeliveryId, n: Name, ok: bool)
    requires |states| == |steps| + 1 && i <= |steps|
  {
    exists k :: 0 <= k < i && InvokesName(states[k], steps[k], d, n) && steps[k].succeeded == ok
  }

  /** A step leaves the results of a delivery, drops them with it, or adds that of the consumer it invokes. */
  lemma ResultsStep(s: System, t: Step, d: DeliveryId, r: nat)
    requires Enabled(s, t) && d in Next(s, t).active && r < |Next(s, t).active[d].results|
    ensures d in s.active
    ensures if r < |s.active[d].results| then Next(s, t).active[d].results[r] == s.active[d].results[r]
            else InvokesName(s, t, d, Next(s, t).active[d].results[r].name)
                 && t.succeeded == Next(s, t).active[d].results[r].succeeded
  {
  }

  lemma {:induction false} ResultsAreInvocations(states: seq<System>, steps: seq<Step>, i: nat, d: DeliveryId, r: nat)
    requires Run(states, steps) && i < |states| && d in states[i].active && r < |states[i].active[d].results|
    ensures InvokedWith(states, steps, i, d, states[i].active[d].results[r].name, states[i].active[d].results[r].succeeded)
    decreases i
  {
    assert i > 0;
    assert StepAt(states, steps, i - 1);
    ResultsStep(states[i - 1], steps[i - 1], d, r);
    if r < |states[i - 1].active[d].results| {
      ResultsAreInvocations(states, steps, i - 1, d, r);
    }
  }

  lemma RecordedSucceeded(s: System, t: Step, c: Consumption)
    requires Enabled(s, t) && c !in s.consumed && c in Next(s, t).consumed
    ensures t.Records? && t.id in s.active && s.active[t.id].record.event == c.event
    ensures s.active[t.id].next < |s.active[t.id].results|
    ensures s.active[t.id].results[s.active[t.id].next] == EB.Result(c.name, true)
  {
  }

  /** In every run a consumer is recorded only after an invocation of it for that event succeeded: a failed consumer
      is never skipped by a later delivery. */
  lemma RecordedMeansSucceeded(states: seq<System>, steps: seq<Step>, i: nat, c: Consumption) returns (d: DeliveryId, k: nat)
    requires Run(states, steps) && i < |states| && c in states[i].consumed
    ensures k < i && InvokesName(states[k], steps[k], d, c.name) && steps[k].succeeded
    ensures states[k].active[d].record.event == c.event
  {
    var j := RecordedBetween(states, steps, 0, i, c);
    assert StepAt(states, steps, j);
    RecordedSucceeded(states[j], steps[j], c);
    d := steps[j].id;
    ResultsAreInvocations(states, steps, j, d, states[j].active[d].next);
    k :| 0 <= k < j && InvokesName(states[k], steps[k], d, c.name) && steps[k].succeeded;
    SameRecord(states, steps, k, j, d);
  }

  /** A delivery at work at two moments of a run has worked on the same record: identities are not used again. */
  lemma SameRecord(states: seq<System>, steps: seq<Step>, k: nat, j: nat, d: DeliveryId)
    requires Run(states, steps) && k <= j < |states| && d in states[k].active && d in states[j].active
    ensures states[k].active[d].record == states[j].active[d].record
  {
    var b := BeganAt(states, steps, j, d);
    assert StepAt(states, steps, b);
    if k <= b {
      UsedStays(states, steps, k, b, d);
    }
  }

  lemma {:induction false} UsedStays(states: seq<System>, steps: seq<Step>, i: nat, j: nat, d: DeliveryId)
    requires Run(states, steps) && i <= j < |states| && d in states[i].active
    ensures d in states[j].used
    decreases j
  {
    if i == j {
      RunInv(states, steps, i);
    } else {
      UsedStays(states, steps, i, j - 1, d);
      assert StepAt(states, steps, j - 1);
    }
  }

  // ---------------------------------------------------------------- the whole answer of claims and marks

  /** A row can be claimed exactly when it waits and is due, or its lease has run out.  It is then leased to the
      claimer with one more attempt and the next version, and the record says so. */
  lemma ClaimTakes(s: System, e: EventId, owner: OwnerId, now: Time, expires: Time)
    ensures Enabled(s, Claims(e, owner, now, expires)) <==>
              && e in s.rows
              && (|| (s.rows[e].status in {RowPending, RowRetryWait} && s.rows[e].availableAt <= now)
                  || (s.rows[e].status == RowClaimed && s.rows[e].expires <= now))
    ensures Enabled(s, Claims(e, owner, now, expires)) ==>
              var row := s.rows[e];
              Next(s, Claims(e, owner, now, expires)) ==
                s.(rows := s.rows[e := Row(RowClaimed, Some(owner), expires, row.attempts + 1, row.maxAttempts, row.availableAt,
                                           row.version + 1)],
                   records := s.records + {Record(e, owner, row.version + 1, row.attempts + 1, expires)})
  {
  }

  /** The row of the record is still claimed by it. */
  predicate StillOwns(rows: Rows, r: Record) {
    && r.event in rows && rows[r.event].status == RowClaimed
    && rows[r.event].owner == Some(r.owner) && rows[r.event].version == r.version
  }

  /** A delivery that is done publishes its row if every invocation succeeded; otherwise the row waits for another round
      from the given time on, or is a dead letter if its attempts are spent.  A row that is no longer its own stays. */
  lemma MarkDecides(s: System, d: DeliveryId, retryAt: Time)
    requires Enabled(s, Marks(d, retryAt))
    ensures var x, next := s.active[d], Next(s, Marks(d, retryAt));
            && next.active == s.active - {d} && next.consumed == s.consumed && next.records == s.records
            && if !StillOwns(s.rows, x.record) then next.rows == s.rows
               else
                 var row := s.rows[x.record.event];
                 var succeeded := forall i :: 0 <= i < |x.results| ==> x.results[i].succeeded;
                 next.rows == s.rows[x.record.event :=
                   if succeeded then row.(status := RowPublished, owner := None, version := row.version + 1)
                   else row.(status := if row.attempts < row.maxAttempts then RowRetryWait else RowDeadLetter,
                             availableAt := retryAt, owner := None, version := row.version + 1)]
  {
  }

  /** A record that is rejected before its dispatch fails likewise; a poisoned one is a dead letter at once. */
  lemma RejectDecides(s: System, r: Record, poisoned: bool, retryAt: Time)
    requires Enabled(s, Rejects(r, poisoned, retryAt))
    ensures var next := Next(s, Rejects(r, poisoned, retryAt));
            && next.records == s.records - {r}
            && if !StillOwns(s.rows, r) then next.rows == s.rows
               else
                 var row := s.rows[r.event];
                 next.rows == s.rows[r.event :=
                   if poisoned then row.(status := RowDeadLetter, availableAt := retryAt, owner := None)
                   else row.(status := if row.attempts < row.maxAttempts then RowRetryWait else RowDeadLetter,
                             availableAt := retryAt, owner := None, version := row.version + 1)]
  {
  }

  // ---------------------------------------------------------------- rows

  predicate RowAdvances(x: Row, y: Row) {
    && x.version <= y.version
    && (x.status.RowPublished? || x.status.RowDeadLetter? ==> y == x)
  }

  lemma RowsAdvance(s: System, t: Step, e: EventId)
    requires Enabled(s, t) && e in s.rows
    ensures e in Next(s, t).rows && RowAdvances(s.rows[e], Next(s, t).rows[e])
  {
  }

  /** Published and dead-lettered rows stay as they are, and versions never fall. */
  lemma {:induction false} RowsOnlyAdvance(states: seq<System>, steps: seq<Step>, i: nat, j: nat, e: EventId)
    requires Run(states, steps) && i <= j < |states| && e in states[i].rows
    ensures e in states[j].rows && RowAdvances(states[i].rows[e], states[j].rows[e])
    decreases j
  {
    if i < j {
      RowsOnlyAdvance(states, steps, i, j - 1, e);
      assert StepAt(states, steps, j - 1);
      RowsAdvance(states[j - 1], steps[j - 1], e);
    }
  }

  /** A delivery whose row was claimed again, or published, marks nothing any more. */
  lemma StaleMarkChangesNoRow(states: seq<System>, steps: seq<Step>, i: nat, j: nat, d: DeliveryId)
    requires Run(states, steps) && i <= j < |steps| && steps[j].Marks? && steps[j].id == d && d in states[j].active
    requires var r := states[j].active[d].record; r.event in states[i].rows && r.version < states[i].rows[r.event].version
    ensures states[j + 1].rows == states[j].rows
  {
    RowsOnlyAdvance(states, steps, i, j, states[j].active[d].record.event);
    assert StepAt(states, steps, j);
  }

  // ---------------------------------------------------------------- one dispatch, step by step

  /** The durable side of the outbox. */
  class Repository {
    var rows: Rows
    var consumptions: set<Consumption>

    constructor ()
      ensures rows == map[] && consumptions == {}
    {
      rows, consumptions := map[], {};
    }

    /** `record_consumption` */
    method RecordConsumption(event: EventId, name: Name) returns (inserted: bool)
      modifies this
      ensures inserted == (Consumption(event, name) !in old(consumptions))
      ensures consumptions == old(consumptions) + {Consumption(event, name)} && rows == old(rows)
    {
      inserted := Consumption(event, name) !in consumptions;
      consumptions := consumptions + {Consumption(event, name)};
    }
  }

  function Successes(event: EventId, results: seq<EB.Result>): set<Consumption> {
    set i | 0 <= i < |results| && results[i].succeeded :: Consumption(event, results[i].name)
  }

  function SkipSet(consumptions: set<Consumption>, event: EventId): set<Name> {
    set c | c in consumptions && c.event == event :: c.name
  }

  lemma SuccessesNext(event: EventId, results: seq<EB.Result>, i: nat)
    requires i < |results|
    ensures Successes(event, results[..i + 1]) ==
              Successes(event, results[..i]) + (if results[i].succeeded then {Consumption(event, results[i].name)} else {})
    ensures AllSucceeded(results[..i + 1]) <==> AllSucceeded(results[..i]) && results[i].succeeded
  {
    assert results[..i + 1] == results[..i] + [results[i]];
  }

  /** The loop over the report: successes are recorded one by one, failures are counted. */
  method RecordResults(repository: Repository, event: EventId, results: seq<EB.Result>) returns (failed: bool)
    modifies repository
    ensures repository.consumptions == old(repository.consumptions) + Successes(event, results)
    ensures repository.rows == old(repository.rows) && failed == !AllSucceeded(results)
  {
    failed := false;
    for i := 0 to |results|
      invariant repository.consumptions == old(repository.consumptions) + Successes(event, results[..i])
      invariant repository.rows == old(repository.rows)
      invariant failed <==> !AllSucceeded(results[..i])
    {
      SuccessesNext(event, results, i);
      if results[i].succeeded {
        var _ := repository.RecordConsumption(event, results[i].name);
      } else {
        failed := true;
      }
    }
    assert results[..|results|] == results;
  }

  /** `_dispatch_record` for a well-formed event: every success is recorded before the row is marked, and the row
      is published by a dispatch without failures only. */
  method DispatchRecord(
    repository: Repository, bus: EB.Bus, record: Record, t: EB.EventType, succeeds: Entry -> bool, retryAt: Time)
    returns (ghost results: seq<EB.Result>)
    requires bus.Valid()
    modifies repository
    ensures results == EB.Report(StableSort(EB.Durable(bus.registered, t)),
                                 SkipSet(old(repository.consumptions), record.event), succeeds)
    ensures repository.consumptions == old(repository.consumptions) + Successes(record.event, results)
    ensures repository.rows == if AllSucceeded(results) then Publish(old(repository.rows), record)
                               else Fail(old(repository.rows), record, retryAt)
  {
    var report := bus.Dispatch(t, SkipSet(repository.consumptions, record.event), succeeds);
    var failed := RecordResults(repository, record.event, report);
    if failed {
      repository.rows := Fail(repository.rows, record, retryAt);
    } else {
      repository.rows := Publish(repository.rows, record);
    }
    results := report;
  }

  /** After a dispatch without failures every consumer of the event is recorded, skipped ones included. */
  lemma DispatchedMeansConsumed(
    consumptions: set<Consumption>, event: EventId, entries: seq<Entry>, succeeds: Entry -> bool, n: Name)
    requires AllSucceeded(EB.Report(entries, SkipSet(consumptions, event), succeeds)) && EB.Named(entries, n)
    ensures Consumption(event, n) in
              consumptions + Successes(event, EB.Report(entries, SkipSet(consumptions, event), succeeds))
  {
    var results := EB.Report(entries, SkipSet(consumptions, event), succeeds);
    EB.ReportIsComplete(entries, SkipSet(consumptions, event), succeeds, n);
    if n !in SkipSet(consumptions, event) {
      var i :| 0 <= i < |results| && results[i].name == n;
      assert results[i].succeeded;
    }
  }

  // ---------------------------------------------------------------- where the consumers come from

  /** The names a dispatch of the bus visits, in order. */
  function ConsumerNames(entries: seq<Entry>): seq<Name> {
    if entries == [] then []
    else
      var last := entries[|entries| - 1];
      ConsumerNames(entries[..|entries| - 1]) + (if last.Consumer? then [last.name] else [])
  }

  lemma {:induction false} NamesAreConsumers(entries: seq<Entry>, n: Name)
    ensures n in ConsumerNames(entries) <==> EB.Named(entries, n)
  {
    if entries != [] {
      var init, last := entries[..|entries| - 1], entries[|entries| - 1];
      NamesAreConsumers(init, n);
      if EB.Named(init, n) {
        var i :| 0 <= i < |init| && init[i].Consumer? && init[i].name == n;
        assert entries[i] == init[i];
      }
      if EB.Named(entries, n) && !(last.Consumer? && last.name == n) {
        var i :| 0 <= i < |entries| && entries[i].Consumer? && entries[i].name == n;
        assert init[i] == entries[i];
      }
    }
  }

  lemma {:induction false} NamesAreDistinct(entries: seq<Entry>)
    requires EB.DistinctNames(entries)
    ensures DistinctNames(ConsumerNames(entries))
  {
    if entries != [] {
      var init, last := entries[..|entries| - 1], entries[|entries| - 1];
      NamesAreDistinct(init);
      if last.Consumer? {
        NamesAreConsumers(init, last.name);
        assert last.name !in ConsumerNames(init);
      }
    }
  }

  /** Whatever a valid bus would dispatch for a type can begin a delivery: distinct names, and exactly those of the
      live registrations. */
  lemma BusConsumers(bus: EB.Bus, t: EB.EventType, n: Name)
    requires bus.Valid()
    ensures DistinctNames(ConsumerNames(bus.EntriesFor(t)))
    ensures n in ConsumerNames(bus.EntriesFor(t)) <==> EB.Named(StableSort(EB.Durable(bus.registered, t)), n)
  {
    bus.EntriesAreApart(t);
    NamesAreDistinct(bus.EntriesFor(t));
    NamesAreConsumers(bus.EntriesFor(t), n);
    bus.EntriesAreOneSort(t);
  }
}
