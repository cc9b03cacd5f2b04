/** How long a spent key rests: from the refusal to the release, over any interleaving. */
module Cooling {
  import opened Wrappers
  import opened TextClock
  import opened KeyStore
  import opened Verdict
  import opened KeyPool
  import SequentialRuns

  predicate RestsUntil(k: Key, deadline: Instant) {
    k.quota == Cooling && k.coolingUntil == Some(deadline)
  }

  /** The statements that end a rest before its time, or give it another. */
  predicate Wakes(c: Call, id: nat) {
    (c.MarkUsed? || c.MarkQuota?) && c.id == id
  }

  lemma RestStarts(t: Table, id: nat, window: string, deadline: Instant, message: string, now: Instant)
    requires id in t.rows
    ensures var u := Apply(t, MarkQuota(id, window, Some(deadline), message, now));
            && id in u.rows && RestsUntil(u.rows[id], deadline)
            && u.rows[id].window == window && u.rows[id].role == Standby
  {
  }

  lemma DueLater(deadline: Instant, now: Instant)
    requires InRange(deadline) && InRange(now) && deadline + NANOS_PER_SECOND <= now
    ensures Due(deadline, now)
  {
    DueBounds(deadline, now);
  }

  lemma NotDueBefore(deadline: Instant, now: Instant)
    requires InRange(deadline) && InRange(now) && now + NANOS_PER_SECOND <= deadline
    ensures !Due(deadline, now)
  {
    DueBounds(deadline, now);
  }

  lemma ReleaseRow(t: Table, id: nat, now: Instant)
    requires id in t.rows
    ensures var u := Apply(t, MarkHalfOpenDue(now));
            && id in u.rows
            && u.rows[id] == if DueKey(t.rows[id], now) then t.rows[id].(quota := HalfOpen, updated := now)
                             else t.rows[id]
  {
  }

  /** A release a full second before the deadline leaves the row at rest, one a full second
      after it makes the row half-open, and either way nothing else of the row changes. */
  lemma ReleaseInTime(t: Table, id: nat, deadline: Instant, now: Instant)
    requires id in t.rows && RestsUntil(t.rows[id], deadline) && InRange(deadline) && InRange(now)
    ensures var u := Apply(t, MarkHalfOpenDue(now));
            && id in u.rows
            && (now + NANOS_PER_SECOND <= deadline ==> u.rows[id] == t.rows[id])
            && (deadline + NANOS_PER_SECOND <= now ==> u.rows[id] == t.rows[id].(quota := HalfOpen, updated := now))
            && (u.rows[id] == t.rows[id] || u.rows[id] == t.rows[id].(quota := HalfOpen, updated := now))
  {
    ReleaseRow(t, id, now);
    if now + NANOS_PER_SECOND <= deadline {
      NotDueBefore(deadline, now);
    } else if deadline + NANOS_PER_SECOND <= now {
      DueLater(deadline, now);
    }
  }

  /** The id is taken, and its row, while there is one, is at rest. */
  ghost predicate AtRest(t: Table, id: nat, deadline: Instant) {
    id < t.nextId && (id in t.rows ==> RestsUntil(t.rows[id], deadline))
  }

  lemma StatementKeepsRest(t: Table, c: Call, id: nat, deadline: Instant)
    requires WellKeyed(t) && ProperCall(c) && AtRest(t, id, deadline) && !Wakes(c, id) && InRange(deadline)
    requires c.MarkHalfOpenDue? ==> InRange(c.now) && c.now + NANOS_PER_SECOND <= deadline
    ensures AtRest(Apply(t, c), id, deadline)
  {
    if c.MarkHalfOpenDue? && id in t.rows {
      ReleaseInTime(t, id, deadline, c.now);
    }
  }

  lemma EarlierInRange(now: Instant, deadline: Instant)
    requires now <= deadline && InRange(deadline)
    ensures InRange(now)
  {
  }

  lemma StepKeepsRest(s: System, a: Action, id: nat, deadline: Instant)
    requires Inv(s) && AtRest(s.table, id, deadline) && InRange(deadline)
    requires s.clock + NANOS_PER_SECOND <= deadline
    requires LeavesAsleep(s, a, id)
    ensures AtRest(Step(s, a).table, id, deadline)
  {
    if Statement(s, a).Some? {
      StatementProper(s, a);
      StatementStamp(s, a);
      EarlierInRange(s.clock, deadline);
      StatementKeepsRest(s.table, Statement(s, a).value, id, deadline);
    }
  }

  lemma ClockStep(s: System, a: Action)
    requires WellKeyed(s.table)
    ensures s.clock <= Step(s, a).clock
  {
  }

  predicate LeavesAsleep(s: System, a: Action, id: nat) {
    Statement(s, a).Some? ==> !Wakes(Statement(s, a).value, id)
  }

  /** No step from m on, before n, marks the key used or spent again. */
  ghost predicate Undisturbed(states: seq<System>, actions: seq<Action>, m: nat, n: nat, id: nat)
    requires IsRun(states, actions) && n < |states|
  {
    forall i :: m <= i < n ==> LeavesAsleep(states[i], actions[i], id)
  }

  lemma OneStepOfRun(states: seq<System>, actions: seq<Action>, n: nat)
    requires IsRun(states, actions) && n < |actions|
    ensures n + 1 < |states| && states[n + 1] == Step(states[n], actions[n]) && states[n].clock <= states[n + 1].clock
  {
    ClockStep(states[n], actions[n]);
  }

  lemma RestOneMore(states: seq<System>, actions: seq<Action>, i: nat, id: nat, deadline: Instant)
    requires IsRun(states, actions) && i < |actions| && Inv(states[0]) && InRange(deadline)
    requires AtRest(states[i].table, id, deadline) && states[i].clock + NANOS_PER_SECOND <= deadline
    requires LeavesAsleep(states[i], actions[i], id)
    ensures AtRest(states[i + 1].table, id, deadline)
  {
    RunKeepsInv(states, actions, i);
    StepKeepsRest(states[i], actions[i], id, deadline);
  }

  lemma {:induction false} RestLasts(states: seq<System>, actions: seq<Action>, m: nat, n: nat, id: nat,
                                     deadline: Instant)
    requires IsRun(states, actions) && m <= n < |states| && Inv(states[0])
    requires AtRest(states[m].table, id, deadline) && InRange(deadline)
    requires Undisturbed(states, actions, m, n, id)
    requires states[n].clock + NANOS_PER_SECOND <= deadline
    ensures AtRest(states[n].table, id, deadline)
    decreases n
  {
    if m < n {
      var i := n - 1;
      OneStepOfRun(states, actions, i);
      assert LeavesAsleep(states[i], actions[i], id);
      RestLasts(states, actions, m, i, id, deadline);
      RestOneMore(states, actions, i, id, deadline);
    }
  }

  /** Under every interleaving: once a spent quota with a reset time is on record for a key,
      no selection of eligible keys has that key until a second before that time, unless it
      was marked used or spent again in between. */
  lemma SpentKeyRests(states: seq<System>, actions: seq<Action>, m: nat, n: nat, id: nat, window: string,
                      deadline: Instant, message: string, now: Instant)
    requires IsRun(states, actions) && m < n < |states| && Inv(states[0])
    requires Statement(states[m], actions[m]) == Some(MarkQuota(id, window, Some(deadline), message, now))
    requires id in states[m].table.rows && InRange(deadline)
    requires Undisturbed(states, actions, m + 1, n, id)
    requires states[n].clock + NANOS_PER_SECOND <= deadline
    ensures id in states[n].table.rows ==>
              states[n].table.rows[id].quota == Cooling && states[n].table.rows[id].coolingUntil == Some(deadline)
    ensures forall k :: k in Listing(EligibleQuery, states[n].table) ==> k.id != id
  {
    RunKeepsInv(states, actions, m);
    RestStarts(states[m].table, id, window, deadline, message, now);
    RestLasts(states, actions, m + 1, n, id, deadline);
    ListingSelects(EligibleQuery, states[n].table);
  }

  lemma ReleasedRow(t: Table, id: nat, now: Instant)
    requires id in t.rows
    ensures var u := ApplyEntry(t, SequentialRuns.ReleaseEntry(now, true));
            && id in u.rows && u.rows[id].enabled == t.rows[id].enabled && u.rows[id].auth == t.rows[id].auth
            && (u.rows[id].quota == Cooling <==>
                  t.rows[id].quota == Cooling
                  && !(t.rows[id].coolingUntil.Some? && Due(t.rows[id].coolingUntil.value, now)))
  {
  }

  lemma InSelection(t: Table, keys: seq<Key>, id: nat)
    requires WellKeyed(t) && id in t.rows && Selects(EligibleQuery, t, keys)
    ensures (exists j :: 0 <= j < |keys| && keys[j].id == id) <==> Where(EligibleQuery, t.rows[id])
  {
    if Where(EligibleQuery, t.rows[id]) {
      assert t.rows[id] in keys;
    }
  }

  /** A request tries a key exactly when the key is enabled, its credential not dead, and its
      rest, if it has one, over by the text of the clock. */
  lemma ReadmittedExactly(t: Table, op: SequentialRuns.Op, id: nat)
    requires WellKeyed(t) && op.Infer? && op.releaseStored && id in t.rows
    ensures var k, keys := t.rows[id], SequentialRuns.SnapshotKeys(t, op);
            (exists j :: 0 <= j < |keys| && keys[j].id == id)
            <==> k.enabled && k.auth != AuthInvalid
                 && (k.quota == Cooling ==> k.coolingUntil.Some? && Due(k.coolingUntil.value, op.now))
  {
    var u := ApplyEntry(t, SequentialRuns.ReleaseEntry(op.now, true));
    ApplyKeepsKeys(t, MarkHalfOpenDue(op.now));
    ListingSelects(EligibleQuery, u);
    ReleasedRow(t, id, op.now);
    InSelection(u, SequentialRuns.SnapshotKeys(t, op), id);
  }

  /** So a request a second or more after the deadline tries a key that rested until then,
      and one a second or more before it does not. */
  lemma ReadmittedInTime(t: Table, op: SequentialRuns.Op, id: nat, deadline: Instant)
    requires WellKeyed(t) && op.Infer? && op.releaseStored && id in t.rows && RestsUntil(t.rows[id], deadline)
    requires t.rows[id].enabled && t.rows[id].auth != AuthInvalid && InRange(deadline) && InRange(op.now)
    ensures var keys := SequentialRuns.SnapshotKeys(t, op);
            && (deadline + NANOS_PER_SECOND <= op.now ==> exists j :: 0 <= j < |keys| && keys[j].id == id)
            && (op.now + NANOS_PER_SECOND <= deadline ==> forall j :: 0 <= j < |keys| ==> keys[j].id != id)
  {
    ReadmittedExactly(t, op, id);
    if deadline + NANOS_PER_SECOND <= op.now {
      DueLater(deadline, op.now);
    } else if op.now + NANOS_PER_SECOND <= deadline {
      NotDueBefore(deadline, op.now);
    }
  }
}
