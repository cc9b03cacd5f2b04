/** Runs in which every operation finishes before the next one starts. */
module SequentialRuns {
  import opened Wrappers
  import opened TextClock
  import opened KeyStore
  import opened Verdict
  import opened KeyPool

  // ---------- Operations ----------

  datatype TestScript = TestScript(models: TestOutcome, probe: TestOutcome)

  datatype Op =
    | Infer(now: Instant, releaseStored: bool, answers: seq<Answer>)
    | Test(id: nat, inference: bool, script: TestScript, settings: Settings, now: Instant)
    | Models(results: seq<ModelOutcome>, now: Instant)
    | Schedule(now: Instant, releaseStored: bool, settings: Settings, scripts: map<nat, TestScript>)
    | Admin(call: Call)
    | Activate(id: nat, now: Instant, stored: bool)

  predicate ProperOp(op: Op) {
    match op
    case Infer(_, _, answers) => AllProper(answers)
    case Admin(c) => AdminStatement(c)
    case _ => true
  }

  function Lift(c: Option<Call>): seq<Entry> {
    if c.Some? then [Entry(c.value, false, true)] else []
  }

  /** TestKey: the control-plane check, then the probe when it was asked for and reached. */
  function TestEntries(key: Key, inference: bool, script: TestScript, settings: Settings, now: Instant): seq<Entry> {
    var first := KeyTest(key, inference, false, ModelsStage);
    Lift(TestCall(first, script.models, settings, now))
    + (if script.models.ModelsReachable? && inference
       then Lift(TestCall(first.(stage := ProbeStage), script.probe, settings, now)) else [])
  }

  /** HandleModels without a fresh cache: keys in order until one is served. */
  function ModelEntries(keys: seq<Key>, results: seq<ModelOutcome>, i: nat, now: Instant): seq<Entry>
    requires i <= |keys|
    decreases |keys| - i
  {
    if i == |keys| then []
    else
      var o := if i < |results| then results[i] else ModelUnusable;
      Lift(ModelCall(keys[i], o, now)) + (if o.ModelServed? then [] else ModelEntries(keys, results, i + 1, now))
  }

  /** The scheduler walks its listing and tests the keys it selects. */
  function ProbeEntries(keys: seq<Key>, i: nat, op: Op): seq<Entry>
    requires op.Schedule? && i <= |keys|
    decreases |keys| - i
  {
    if i == |keys| then []
    else
      (if Selected(op.settings, op.now, keys[i]) && keys[i].id in op.scripts
       then TestEntries(keys[i], true, op.scripts[keys[i].id], op.settings, op.now) else [])
      + ProbeEntries(keys, i + 1, op)
  }

  function ReleaseEntry(now: Instant, stored: bool): Entry {
    Entry(MarkHalfOpenDue(now), false, stored)
  }

  ghost function SnapshotKeys(t: Table, op: Op): seq<Key>
    requires WellKeyed(t) && op.Infer?
  {
    ApplyKeepsKeys(t, MarkHalfOpenDue(op.now));
    Listing(EligibleQuery, ApplyEntry(t, ReleaseEntry(op.now, op.releaseStored)))
  }

  /** The statements an operation issues on a table, in order. */
  ghost function Entries(t: Table, op: Op): seq<Entry>
    requires WellKeyed(t) && ProperOp(op)
  {
    match op
    case Infer(now, releaseStored, answers) =>
      [ReleaseEntry(now, releaseStored)] + WalkEntries(SnapshotKeys(t, op), answers, 0)
    case Test(id, inference, script, settings, now) =>
      if id in t.rows then TestEntries(t.rows[id], inference, script, settings, now) else []
    case Models(results, now) =>
      ModelEntries(Listing(AuthValidQuery, t), results, 0, now)
    case Schedule(now, releaseStored, _, _) =>
      ApplyKeepsKeys(t, MarkHalfOpenDue(now));
      [ReleaseEntry(now, releaseStored)]
      + ProbeEntries(Listing(ListQuery, ApplyEntry(t, ReleaseEntry(now, releaseStored))), 0, op)
    case Admin(c) => [Entry(c, false, true)]
    case Activate(id, now, stored) =>
      if id in t.rows && Eligible(t.rows[id]) then [Entry(SetActive(id, now), false, stored)] else []
  }

  ghost function Perform(t: Table, op: Op): Table
    requires WellKeyed(t) && ProperOp(op)
  {
    ApplyEntries(t, Entries(t, op))
  }

  // ---------- Entries that never spoil the pool ----------

  /** Each statement is one the callers may issue, an activation hits a usable row, and
      a failover takes a key that was eligible. */
  ghost predicate SmoothEntry(t: Table, e: Entry) {
    && ProperCall(e.call)
    && !ActivatesUnusable(t, e.call)
    && (e.failover ==>
          && (e.call.MarkQuota? || e.call.MarkInvalid?)
          && e.call.id in t.rows && Eligible(t.rows[e.call.id]))
  }

  ghost predicate Smooth(t: Table, es: seq<Entry>)
    decreases |es|
  {
    es == [] || (SmoothEntry(t, es[0]) && Smooth(ApplyEntry(t, es[0]), es[1..]))
  }

  lemma {:induction false} SmoothAppend(t: Table, xs: seq<Entry>, ys: seq<Entry>)
    requires Smooth(t, xs) && Smooth(ApplyEntries(t, xs), ys)
    ensures Smooth(t, xs + ys)
    decreases |xs|
  {
    if xs == [] {
      assert xs + ys == ys;
    } else {
      assert (xs + ys)[1..] == xs[1..] + ys;
      SmoothAppend(ApplyEntry(t, xs[0]), xs[1..], ys);
    }
  }

  ghost predicate Healthy(t: Table) {
    Sound(t) && ActiveUsable(t)
  }

  lemma {:induction false} SmoothKeepsHealthy(t: Table, es: seq<Entry>)
    requires Healthy(t) && Smooth(t, es)
    ensures Healthy(ApplyEntries(t, es))
    decreases |es|
  {
    if es != [] {
      ApplyKeepsSound(t, es[0].call);
      ActiveUsableExactly(t, es[0].call);
      SmoothKeepsHealthy(ApplyEntry(t, es[0]), es[1..]);
    }
  }

  // ---------- A request's walk ----------

  /** The keys still to be tried stand in the table as the snapshot saw them. */
  ghost predicate Untouched(t: Table, keys: seq<Key>, i: nat)
    requires i <= |keys|
  {
    && IdsDistinct(keys)
    && (forall j :: i <= j < |keys| ==> keys[j].id in t.rows && t.rows[keys[j].id] == keys[j] && Eligible(keys[j]))
  }

  lemma RefusalLeavesRest(t: Table, keys: seq<Key>, i: nat, e: Entry)
    requires i < |keys| && Untouched(t, keys, i) && WellKeyed(t)
    requires (e.call.MarkQuota? || e.call.MarkInvalid?) && e.call.id == keys[i].id
    ensures Untouched(ApplyEntry(t, e), keys, i + 1)
    ensures WellKeyed(ApplyEntry(t, e))
  {
    ApplyKeepsKeys(t, e.call);
    forall j | i + 1 <= j < |keys|
      ensures keys[j].id in ApplyEntry(t, e).rows && ApplyEntry(t, e).rows[keys[j].id] == keys[j]
    {
      ApplyFrame(t, e.call, keys[j].id);
    }
  }

  lemma AnswerSmooth(t: Table, keys: seq<Key>, i: nat, a: Answer)
    requires i < |keys| && Untouched(t, keys, i) && WellKeyed(t) && a.Proper()
    ensures Smooth(t, AnswerEntries(keys[i], a))
    ensures a.MovesOn() ==>
              var u := ApplyEntries(t, AnswerEntries(keys[i], a));
              WellKeyed(u) && Untouched(u, keys, i + 1)
  {
    var key, es := keys[i], AnswerEntries(keys[i], a);
    if a.Refused? {
      assert es[1..] == [];
      RefusalLeavesRest(t, keys, i, es[0]);
    } else if es != [] {
      var u := ApplyEntry(t, es[0]);
      assert SmoothEntry(t, es[0]);
      if |es| == 2 {
        assert key.id in u.rows && Eligible(u.rows[key.id]);
        assert es[1..] == [es[1]] && es[1..][1..] == [];
      } else {
        assert es[1..] == [];
      }
    }
  }

  lemma {:induction false} WalkSmooth(t: Table, keys: seq<Key>, answers: seq<Answer>, i: nat)
    requires i <= |keys| && Untouched(t, keys, i) && WellKeyed(t) && AllProper(answers)
    ensures Smooth(t, WalkEntries(keys, answers, i))
    decreases |keys| - i
  {
    if i < |keys| {
      var a := Nth(answers, i);
      var es := AnswerEntries(keys[i], a);
      AnswerSmooth(t, keys, i, a);
      if a.MovesOn() {
        WalkSmooth(ApplyEntries(t, es), keys, answers, i + 1);
        SmoothAppend(t, es, WalkEntries(keys, answers, i + 1));
      } else {
        assert es + [] == es;
      }
    }
  }

  // ---------- Every operation is smooth ----------

  predicate PlainEntry(e: Entry) {
    ProperCall(e.call) && !e.call.SetActive? && !e.failover
  }

  lemma {:induction false} PlainSmooth(t: Table, es: seq<Entry>)
    requires forall e :: e in es ==> PlainEntry(e)
    ensures Smooth(t, es)
    decreases |es|
  {
    if es != [] {
      assert es[0] in es;
      PlainSmooth(ApplyEntry(t, es[0]), es[1..]);
    }
  }

  lemma TestCallPlain(test: KeyTest, o: TestOutcome, settings: Settings, now: Instant)
    ensures forall e :: e in Lift(TestCall(test, o, settings, now)) ==> PlainEntry(e) && e.call.id == test.key.id
  {
  }

  lemma TestPlain(key: Key, inference: bool, script: TestScript, settings: Settings, now: Instant)
    ensures forall e :: e in TestEntries(key, inference, script, settings, now) ==> PlainEntry(e)
  {
    var first := KeyTest(key, inference, false, ModelsStage);
    TestCallPlain(first, script.models, settings, now);
    TestCallPlain(first.(stage := ProbeStage), script.probe, settings, now);
  }

  lemma {:induction false} ModelPlain(keys: seq<Key>, results: seq<ModelOutcome>, i: nat, now: Instant)
    requires i <= |keys|
    ensures forall e :: e in ModelEntries(keys, results, i, now) ==> PlainEntry(e)
    decreases |keys| - i
  {
    if i < |keys| {
      ModelPlain(keys, results, i + 1, now);
    }
  }

  lemma {:induction false} ProbePlain(keys: seq<Key>, i: nat, op: Op)
    requires op.Schedule? && i <= |keys|
    ensures forall e :: e in ProbeEntries(keys, i, op) ==> PlainEntry(e)
    decreases |keys| - i
  {
    if i < |keys| {
      ProbePlain(keys, i + 1, op);
      if keys[i].id in op.scripts {
        TestPlain(keys[i], true, op.scripts[keys[i].id], op.settings, op.now);
      }
    }
  }

  lemma SnapshotUntouched(t: Table, op: Op)
    requires WellKeyed(t) && op.Infer?
    ensures var u := ApplyEntry(t, ReleaseEntry(op.now, op.releaseStored));
            WellKeyed(u) && Untouched(u, SnapshotKeys(t, op), 0)
  {
    ApplyKeepsKeys(t, MarkHalfOpenDue(op.now));
  }

  lemma OpSmooth(t: Table, op: Op)
    requires WellKeyed(t) && ProperOp(op)
    ensures Smooth(t, Entries(t, op))
  {
    match op
    case Infer(now, releaseStored, answers) =>
      SnapshotUntouched(t, op);
      WalkSmooth(ApplyEntry(t, ReleaseEntry(now, releaseStored)), SnapshotKeys(t, op), answers, 0);
      assert Entries(t, op)[1..] == WalkEntries(SnapshotKeys(t, op), answers, 0);
    case Test(id, inference, script, settings, now) =>
      if id in t.rows {
        TestPlain(t.rows[id], inference, script, settings, now);
        PlainSmooth(t, Entries(t, op));
      }
    case Models(results, now) =>
      ModelPlain(Listing(AuthValidQuery, t), results, 0, now);
      PlainSmooth(t, Entries(t, op));
    case Schedule(now, releaseStored, _, _) =>
      ApplyKeepsKeys(t, MarkHalfOpenDue(now));
      ProbePlain(Listing(ListQuery, ApplyEntry(t, ReleaseEntry(now, releaseStored))), 0, op);
      PlainSmooth(t, Entries(t, op));
    case Admin(c) =>
      PlainSmooth(t, Entries(t, op));
    case Activate(id, now, stored) =>
      if id in t.rows && Eligible(t.rows[id]) {
        assert Entries(t, op)[1..] == [];
      }
  }

  /** Run one at a time, operations keep the active key enabled, not invalid and not
      cooling, whatever the upstream answers and whichever writes fail. */
  lemma OpKeepsHealthy(t: Table, op: Op)
    requires Healthy(t) && ProperOp(op)
    ensures Healthy(Perform(t, op))
  {
    OpSmooth(t, op);
    SmoothKeepsHealthy(t, Entries(t, op));
  }

  ghost function PerformAll(t: Table, ops: seq<Op>): Table
    requires Healthy(t) && forall op :: op in ops ==> ProperOp(op)
    decreases |ops|
  {
    if ops == [] then t else OpKeepsHealthy(t, ops[0]); PerformAll(Perform(t, ops[0]), ops[1..])
  }

  lemma {:induction false} RunKeepsHealthy(t: Table, ops: seq<Op>)
    requires Healthy(t) && forall op :: op in ops ==> ProperOp(op)
    ensures Healthy(PerformAll(t, ops))
    decreases |ops|
  {
    if ops != [] {
      OpKeepsHealthy(t, ops[0]);
      RunKeepsHealthy(Perform(t, ops[0]), ops[1..]);
    }
  }

  // ---------- Amortised failover bound ----------

  function EligibleIds(t: Table): set<nat> {
    set id | id in t.rows && Eligible(t.rows[id])
  }

  function Failovers(es: seq<Entry>): nat {
    if es == [] then 0 else (if es[0].failover then 1 else 0) + Failovers(es[1..])
  }

  lemma {:induction false} FailoversAppend(xs: seq<Entry>, ys: seq<Entry>)
    ensures Failovers(xs + ys) == Failovers(xs) + Failovers(ys)
    decreases |xs|
  {
    if xs == [] {
      assert xs + ys == ys;
    } else {
      assert (xs + ys)[1..] == xs[1..] + ys;
      FailoversAppend(xs[1..], ys);
    }
  }

  /** The keys a request turns away from after an answer of theirs, from turn i on. */
  function Refusals(keys: seq<Key>, answers: seq<Answer>, i: nat): set<nat>
    requires i <= |keys|
  {
    set j | i <= j < |keys| && j <= LastTurn(keys, answers, i) && Nth(answers, j).Refused?
  }

  lemma AnswerFailovers(key: Key, a: Answer)
    requires a.Proper()
    ensures Failovers(AnswerEntries(key, a)) == if a.Refused? then 1 else 0
  {
    if a.Served() {
      FailoversAppend([Entry(MarkUsed(key.id, a.at), false, a.stored)],
                      if key.role != Active then [Entry(SetActive(key.id, a.at), false, a.promoted)] else []);
    }
  }

  lemma {:induction false} WalkFailovers(keys: seq<Key>, answers: seq<Answer>, i: nat)
    requires i <= |keys| && AllProper(answers)
    ensures Failovers(WalkEntries(keys, answers, i)) == |Refusals(keys, answers, i)|
    decreases |keys| - i
  {
    if i < |keys| {
      var a := Nth(answers, i);
      var head := AnswerEntries(keys[i], a);
      AnswerFailovers(keys[i], a);
      if a.MovesOn() {
        WalkFailovers(keys, answers, i + 1);
        FailoversAppend(head, WalkEntries(keys, answers, i + 1));
        assert Refusals(keys, answers, i)
            == (if a.Refused? then {i} else {}) + Refusals(keys, answers, i + 1);
      } else {
        assert Refusals(keys, answers, i) == {};
        assert head + [] == head;
      }
    } else {
      assert Refusals(keys, answers, i) == {};
    }
  }

  lemma {:induction false} ModelFailovers(keys: seq<Key>, results: seq<ModelOutcome>, i: nat, now: Instant)
    requires i <= |keys|
    ensures Failovers(ModelEntries(keys, results, i, now)) == 0
    decreases |keys| - i
  {
    if i < |keys| {
      var o := if i < |results| then results[i] else ModelUnusable;
      if !o.ModelServed? {
        ModelFailovers(keys, results, i + 1, now);
        FailoversAppend(Lift(ModelCall(keys[i], o, now)), ModelEntries(keys, results, i + 1, now));
      } else {
        FailoversAppend(Lift(ModelCall(keys[i], o, now)), []);
      }
    }
  }

  lemma TestFailovers(key: Key, inference: bool, script: TestScript, settings: Settings, now: Instant)
    ensures Failovers(TestEntries(key, inference, script, settings, now)) == 0
  {
    var first := KeyTest(key, inference, false, ModelsStage);
    FailoversAppend(Lift(TestCall(first, script.models, settings, now)),
                    if script.models.ModelsReachable? && inference
                    then Lift(TestCall(first.(stage := ProbeStage), script.probe, settings, now)) else []);
  }

  lemma {:induction false} ProbeFailovers(keys: seq<Key>, i: nat, op: Op)
    requires op.Schedule? && i <= |keys|
    ensures Failovers(ProbeEntries(keys, i, op)) == 0
    decreases |keys| - i
  {
    if i < |keys| {
      var run := Selected(op.settings, op.now, keys[i]) && keys[i].id in op.scripts;
      var head := if run then TestEntries(keys[i], true, op.scripts[keys[i].id], op.settings, op.now) else [];
      if run {
        TestFailovers(keys[i], true, op.scripts[keys[i].id], op.settings, op.now);
      }
      ProbeFailovers(keys, i + 1, op);
      FailoversAppend(head, ProbeEntries(keys, i + 1, op));
    }
  }

  /** A failover is counted for every key a request turns away from because of what the
      upstream answered, and for nothing else. */
  lemma FailoversExactly(t: Table, op: Op)
    requires WellKeyed(t) && ProperOp(op)
    ensures Failovers(Entries(t, op))
            == if op.Infer? then |Refusals(SnapshotKeys(t, op), op.answers, 0)| else 0
  {
    match op
    case Infer(now, releaseStored, answers) =>
      WalkFailovers(SnapshotKeys(t, op), answers, 0);
      FailoversAppend([ReleaseEntry(now, releaseStored)], WalkEntries(SnapshotKeys(t, op), answers, 0));
    case Test(id, inference, script, settings, now) =>
      if id in t.rows {
        TestFailovers(t.rows[id], inference, script, settings, now);
      }
    case Models(results, now) =>
      ModelFailovers(Listing(AuthValidQuery, t), results, 0, now);
    case Schedule(now, releaseStored, _, _) =>
      ApplyKeepsKeys(t, MarkHalfOpenDue(now));
      var keys := Listing(ListQuery, ApplyEntry(t, ReleaseEntry(now, releaseStored)));
      ProbeFailovers(keys, 0, op);
      FailoversAppend([ReleaseEntry(now, releaseStored)], ProbeEntries(keys, 0, op));
    case _ =>
  }

  /** How many times a key that was not eligible became so. */
  function Gained(t: Table, es: seq<Entry>): nat
    decreases |es|
  {
    if es == [] then 0
    else |EligibleIds(ApplyEntry(t, es[0])) - EligibleIds(t)| + Gained(ApplyEntry(t, es[0]), es[1..])
  }

  predicate FailoversStored(es: seq<Entry>) {
    forall e :: e in es && e.failover ==> e.stored
  }

  /** A failover takes exactly one key out of the eligible set and adds none. */
  lemma FailoverShrinks(t: Table, e: Entry)
    requires WellKeyed(t) && SmoothEntry(t, e) && e.failover && e.stored
    ensures e.call.id in EligibleIds(t)
    ensures EligibleIds(ApplyEntry(t, e)) == EligibleIds(t) - {e.call.id}
  {
  }

  /** What makes a key eligible: creation, enabling, release, or revalidation. */
  lemma GainOnlyBy(t: Table, c: Call)
    requires WellKeyed(t) && ProperCall(c)
    ensures EligibleIds(Apply(t, c)) - EligibleIds(t) != {} ==>
              c.CreateKey? || (c.UpdateKey? && c.newEnabled) || c.MarkHalfOpenDue? || c.MarkChecked? || c.MarkUsed?
  {
  }

  lemma {:induction false} FailoverPotential(t: Table, es: seq<Entry>)
    requires Healthy(t) && Smooth(t, es) && FailoversStored(es)
    ensures Failovers(es) + |EligibleIds(ApplyEntries(t, es))| <= |EligibleIds(t)| + Gained(t, es)
    decreases |es|
  {
    if es != [] {
      var u := ApplyEntry(t, es[0]);
      ApplyKeepsSound(t, es[0].call);
      ActiveUsableExactly(t, es[0].call);
      FailoverPotential(u, es[1..]);
      if es[0].failover {
        FailoverShrinks(t, es[0]);
      } else {
        var a, b := EligibleIds(t), EligibleIds(u);
        assert |b| <= |a| + |b - a| by {
          assert b <= a + (b - a);
          SubsetSize(b, a + (b - a));
        }
      }
    }
  }

  lemma {:induction false} SubsetSize(x: set<nat>, y: set<nat>)
    requires x <= y
    ensures |x| <= |y|
    decreases x
  {
    if x != {} {
      var e :| e in x;
      SubsetSize(x - {e}, y - {e});
    }
  }

  ghost function RunEntries(t: Table, ops: seq<Op>): seq<Entry>
    requires Healthy(t) && forall op :: op in ops ==> ProperOp(op)
    decreases |ops|
  {
    if ops == [] then []
    else OpKeepsHealthy(t, ops[0]); Entries(t, ops[0]) + RunEntries(Perform(t, ops[0]), ops[1..])
  }

  lemma {:induction false} RunSmooth(t: Table, ops: seq<Op>)
    requires Healthy(t) && forall op :: op in ops ==> ProperOp(op)
    ensures Smooth(t, RunEntries(t, ops))
    ensures ApplyEntries(t, RunEntries(t, ops)) == PerformAll(t, ops)
    decreases |ops|
  {
    if ops != [] {
      OpKeepsHealthy(t, ops[0]);
      OpSmooth(t, ops[0]);
      RunSmooth(Perform(t, ops[0]), ops[1..]);
      SmoothAppend(t, Entries(t, ops[0]), RunEntries(Perform(t, ops[0]), ops[1..]));
      ApplyEntriesAppend(t, Entries(t, ops[0]), RunEntries(Perform(t, ops[0]), ops[1..]));
    }
  }

  /** Over any sequential run whose failure records are stored, the failovers are at
      most the keys eligible at the start plus the times a key became eligible. */
  lemma FailoverBound(t: Table, ops: seq<Op>)
    requires Healthy(t) && forall op :: op in ops ==> ProperOp(op)
    requires FailoversStored(RunEntries(t, ops))
    ensures Failovers(RunEntries(t, ops)) <= |EligibleIds(t)| + Gained(t, RunEntries(t, ops))
    ensures Failovers(RunEntries(t, ops)) + |EligibleIds(PerformAll(t, ops))|
            <= |EligibleIds(t)| + Gained(t, RunEntries(t, ops))
  {
    RunSmooth(t, ops);
    FailoverPotential(t, RunEntries(t, ops));
  }

  // ---------- Who is active after a request ----------

  ghost predicate ActiveIs(t: Table, who: Option<nat>) {
    && (who.Some? ==> who.value in t.rows)
    && (forall id :: id in t.rows ==> (t.rows[id].role == Active <==> who == Some(id)))
  }

  predicate Spoils(a: Answer) {
    a.Refused? || (a.Streamed? && a.late.Some?)
  }

  predicate AllStored(es: seq<Entry>) {
    forall e :: e in es ==> e.stored
  }

  /** The active key once the walk from turn i is over. */
  function ActiveAfter(keys: seq<Key>, answers: seq<Answer>, i: nat, who: Option<nat>): Option<nat>
    requires i <= |keys|
    decreases |keys| - i
  {
    if i == |keys| then who
    else
      var a := Nth(answers, i);
      var now := if Spoils(a) && who == Some(keys[i].id) then None else who;
      if a.Served() then Some(keys[i].id)
      else if a.MovesOn() then ActiveAfter(keys, answers, i + 1, now)
      else now
  }

  lemma UseKeepsActive(t: Table, id: nat, now: Instant, who: Option<nat>)
    requires WellKeyed(t) && ActiveIs(t, who)
    ensures ActiveIs(Apply(t, MarkUsed(id, now)), who)
    ensures var u := Apply(t, MarkUsed(id, now));
            id in t.rows ==> id in u.rows && u.rows[id].enabled == t.rows[id].enabled
  {
  }

  lemma ActivateMakesActive(t: Table, id: nat, now: Instant)
    requires id in t.rows && t.rows[id].enabled
    ensures ActiveIs(Apply(t, SetActive(id, now)), Some(id))
  {
  }

  lemma FailureEndsActive(t: Table, c: Call, who: Option<nat>)
    requires WellKeyed(t) && ActiveIs(t, who) && (c.MarkInvalid? || c.MarkQuota?) && c.id in t.rows
    ensures ActiveIs(Apply(t, c), if who == Some(c.id) then None else who)
  {
  }

  lemma OneEntry(t: Table, e: Entry)
    ensures e.stored ==> ApplyEntries(t, [e]) == Apply(t, e.call)
  {
    assert [e][1..] == [];
  }

  lemma TwoEntries(t: Table, d: Entry, e: Entry)
    requires d.stored && e.stored
    ensures ApplyEntries(t, [d] + [e]) == Apply(Apply(t, d.call), e.call)
  {
    ApplyEntriesAppend(t, [d], [e]);
    OneEntry(t, d);
    OneEntry(Apply(t, d.call), e);
  }

  lemma ServedActive(t: Table, key: Key, a: Answer, who: Option<nat>)
    requires a.Proper() && a.Served() && WellKeyed(t) && ActiveIs(t, who)
    requires key.id in t.rows && t.rows[key.id] == key && Eligible(key)
    requires AllStored(AnswerEntries(key, a))
    ensures ActiveIs(ApplyEntries(t, AnswerEntries(key, a)), Some(key.id))
  {
    var es := AnswerEntries(key, a);
    var use := Entry(MarkUsed(key.id, a.at), false, a.stored);
    var promote := Entry(SetActive(key.id, a.at), false, a.promoted);
    assert es[0] == use && use in es;
    UseKeepsActive(t, key.id, a.at, who);
    if key.role != Active {
      assert es == [use] + [promote] && es[1] == promote && promote in es;
      TwoEntries(t, use, promote);
      ActivateMakesActive(Apply(t, use.call), key.id, a.at);
    } else {
      assert es == [use];
      OneEntry(t, use);
    }
  }

  lemma AnswerActive(t: Table, keys: seq<Key>, i: nat, a: Answer, who: Option<nat>)
    requires i < |keys| && Untouched(t, keys, i) && WellKeyed(t) && a.Proper()
    requires ActiveIs(t, who) && AllStored(AnswerEntries(keys[i], a))
    ensures ActiveIs(ApplyEntries(t, AnswerEntries(keys[i], a)),
                     if a.Served() then Some(keys[i].id)
                     else if Spoils(a) && who == Some(keys[i].id) then None else who)
  {
    var key, es := keys[i], AnswerEntries(keys[i], a);
    if a.Served() {
      ServedActive(t, key, a, who);
    } else if Spoils(a) {
      var e := es[0];
      assert es == [e] && e in es;
      OneEntry(t, e);
      FailureEndsActive(t, e.call, who);
    }
  }

  lemma WalkUnfolds(keys: seq<Key>, answers: seq<Answer>, i: nat, rest: seq<Entry>)
    requires i < |keys| && AllProper(answers)
    requires rest == if Nth(answers, i).MovesOn() then WalkEntries(keys, answers, i + 1) else []
    ensures WalkEntries(keys, answers, i) == AnswerEntries(keys[i], Nth(answers, i)) + rest
  {
  }

  lemma StoredParts(xs: seq<Entry>, ys: seq<Entry>)
    requires AllStored(xs + ys)
    ensures AllStored(xs) && AllStored(ys)
  {
    assert forall e :: e in xs ==> e in xs + ys;
    assert forall e :: e in ys ==> e in xs + ys;
  }

  lemma {:induction false} WalkActive(t: Table, keys: seq<Key>, answers: seq<Answer>, i: nat, who: Option<nat>)
    requires i <= |keys| && Untouched(t, keys, i) && WellKeyed(t) && AllProper(answers)
    requires ActiveIs(t, who) && AllStored(WalkEntries(keys, answers, i))
    ensures ActiveIs(ApplyEntries(t, WalkEntries(keys, answers, i)), ActiveAfter(keys, answers, i, who))
    decreases |keys| - i
  {
    if i < |keys| {
      var a := Nth(answers, i);
      var es, rest := AnswerEntries(keys[i], a), if a.MovesOn() then WalkEntries(keys, answers, i + 1) else [];
      WalkUnfolds(keys, answers, i, rest);
      StoredParts(es, rest);
      AnswerActive(t, keys, i, a, who);
      AnswerSmooth(t, keys, i, a);
      ApplyEntriesAppend(t, es, rest);
      if a.MovesOn() {
        WalkActive(ApplyEntries(t, es), keys, answers, i + 1,
                   if Spoils(a) && who == Some(keys[i].id) then None else who);
      }
    }
  }

  /** In order of turns: the request's only refused or late-failing key that matters for
      roles is the one that was active, and a served key is active alone. */
  lemma {:induction false} ActiveAfterIs(keys: seq<Key>, answers: seq<Answer>, i: nat, who: Option<nat>)
    requires i <= |keys| && IdsDistinct(keys)
    ensures var r := LastTurn(keys, answers, i);
            ActiveAfter(keys, answers, i, who) ==
            if r < |keys| && Nth(answers, r).Served() then Some(keys[r].id)
            else if exists n ::
                      i <= n <= r && n < |keys| && who == Some(keys[n].id) && Spoils(Nth(answers, n)) then None
            else who
    decreases |keys| - i
  {
    if i < |keys| && Nth(answers, i).MovesOn() {
      var now := if Spoils(Nth(answers, i)) && who == Some(keys[i].id) then None else who;
      ActiveAfterIs(keys, answers, i + 1, now);
    }
  }

  lemma ReleaseKeepsRoles(t: Table, e: Entry, who: Option<nat>)
    requires ActiveIs(t, who) && e.call.MarkHalfOpenDue?
    ensures ActiveIs(ApplyEntry(t, e), who)
  {
  }

  /** Roles after a request, exactly: the served key is the unique active one; with no
      success the active key only loses its role by a quota or auth verdict of its own.
      Rate limits, network errors and other 4xx or 5xx answers change nothing. */
  lemma InferRoles(t: Table, op: Op, who: Option<nat>)
    requires WellKeyed(t) && ProperOp(op) && op.Infer? && ActiveIs(t, who)
    requires AllStored(WalkEntries(SnapshotKeys(t, op), op.answers, 0))
    ensures var keys := SnapshotKeys(t, op);
            var r := LastTurn(keys, op.answers, 0);
            ActiveIs(Perform(t, op),
                     if r < |keys| && Nth(op.answers, r).Served() then Some(keys[r].id)
                     else if exists n ::
                               0 <= n <= r && n < |keys| && who == Some(keys[n].id) && Spoils(Nth(op.answers, n))
                     then None
                     else who)
  {
    var keys := SnapshotKeys(t, op);
    var e := ReleaseEntry(op.now, op.releaseStored);
    SnapshotUntouched(t, op);
    ReleaseKeepsRoles(t, e, who);
    WalkActive(ApplyEntry(t, e), keys, op.answers, 0, who);
    ActiveAfterIs(keys, op.answers, 0, who);
    assert Entries(t, op)[1..] == WalkEntries(keys, op.answers, 0);
  }

  // ---------- Stickiness ----------

  predicate RoleSafe(c: Call) {
    c.MarkHalfOpenDue? || c.MarkChecked? || c.MarkUsed?
  }

  /** No quota or auth failure, no decryption failure and no administrator: an inference
      is calm when its first key neither refuses nor fails late. */
  ghost predicate CalmOp(t: Table, op: Op)
    requires WellKeyed(t) && ProperOp(op)
  {
    match op
    case Infer(_, _, answers) => !Nth(answers, 0).MovesOn() && !Spoils(Nth(answers, 0))
    case Admin(_) => false
    case Activate(_, _, _) => false
    case _ => forall e :: e in Entries(t, op) ==> RoleSafe(e.call)
  }

  ghost predicate Sits(t: Table, id: nat) {
    id in t.rows && t.rows[id].role == Active
  }

  lemma {:induction false} RoleSafeKeepsSeat(t: Table, es: seq<Entry>, id: nat)
    requires Sits(t, id) && forall e :: e in es ==> RoleSafe(e.call)
    ensures Sits(ApplyEntries(t, es), id)
    decreases |es|
  {
    if es != [] {
      RoleSafeKeepsSeat(ApplyEntry(t, es[0]), es[1..], id);
    }
  }

  /** The upstream keys an operation's request contacts. */
  ghost function Contacts(t: Table, op: Op): seq<nat>
    requires WellKeyed(t) && op.Infer?
  {
    WalkCalls(SnapshotKeys(t, op), op.answers, 0)
  }

  lemma ActiveLeadsSnapshot(t: Table, op: Op, id: nat)
    requires Healthy(t) && op.Infer? && Sits(t, id)
    ensures SnapshotKeys(t, op) != []
    ensures SnapshotKeys(t, op)[0].id == id && SnapshotKeys(t, op)[0].role == Active
  {
    var e := ReleaseEntry(op.now, op.releaseStored);
    ApplyKeepsSound(t, e.call);
    ActiveUsableExactly(t, e.call);
    ActiveHeadsListing(ApplyEntry(t, e), id);
  }

  lemma CalmInfer(t: Table, op: Op, id: nat)
    requires Healthy(t) && ProperOp(op) && op.Infer? && Sits(t, id) && CalmOp(t, op)
    ensures Contacts(t, op) == [id]
    ensures Sits(Perform(t, op), id)
  {
    ActiveLeadsSnapshot(t, op, id);
    var keys, a := SnapshotKeys(t, op), Nth(op.answers, 0);
    assert WalkEntries(keys, op.answers, 0) == AnswerEntries(keys[0], a);
    forall e | e in Entries(t, op)
      ensures RoleSafe(e.call)
    {
    }
    RoleSafeKeepsSeat(t, Entries(t, op), id);
  }

  lemma CalmKeepsSeat(t: Table, op: Op, id: nat)
    requires Healthy(t) && ProperOp(op) && Sits(t, id) && CalmOp(t, op)
    ensures Sits(Perform(t, op), id)
  {
    if op.Infer? {
      CalmInfer(t, op, id);
    } else {
      RoleSafeKeepsSeat(t, Entries(t, op), id);
    }
  }

  ghost predicate CalmRun(t: Table, ops: seq<Op>)
    requires Healthy(t) && forall op :: op in ops ==> ProperOp(op)
    decreases |ops|
  {
    ops == [] || (CalmOp(t, ops[0]) && (OpKeepsHealthy(t, ops[0]); CalmRun(Perform(t, ops[0]), ops[1..])))
  }

  lemma PerformAllUnfolds(t: Table, ops: seq<Op>, n: nat)
    requires Healthy(t) && forall op :: op in ops ==> ProperOp(op)
    requires 0 < n <= |ops| && Healthy(Perform(t, ops[0]))
    ensures PerformAll(t, ops[..n]) == PerformAll(Perform(t, ops[0]), ops[1..][..n - 1])
  {
    assert ops[..n][1..] == ops[1..][..n - 1];
    assert ops[..n][0] == ops[0];
  }

  /** Stickiness: through any calm stretch every request contacts the active key first
      and only, whatever the priorities and however many keys turn half-open. */
  lemma {:induction false} Stickiness(t: Table, ops: seq<Op>, id: nat, n: nat)
    requires Healthy(t) && forall op :: op in ops ==> ProperOp(op)
    requires CalmRun(t, ops) && Sits(t, id) && n <= |ops|
    ensures Healthy(PerformAll(t, ops[..n])) && Sits(PerformAll(t, ops[..n]), id)
    ensures n < |ops| && ops[n].Infer? ==> Contacts(PerformAll(t, ops[..n]), ops[n]) == [id]
    decreases |ops|
  {
    if n == 0 {
      if ops != [] && ops[0].Infer? {
        CalmInfer(t, ops[0], id);
      }
    } else {
      OpKeepsHealthy(t, ops[0]);
      CalmKeepsSeat(t, ops[0], id);
      PerformAllUnfolds(t, ops, n);
      Stickiness(Perform(t, ops[0]), ops[1..], id, n - 1);
    }
  }

  // ---------- Model listing does not see quotas ----------

  /** The two rows agree on everything but the inference quota. */
  predicate SameButQuota(a: Key, b: Key) {
    a.(quota := b.quota, window := b.window, coolingUntil := b.coolingUntil) == b
  }

  ghost predicate QuotaBlind(t: Table, u: Table) {
    && t.rows.Keys == u.rows.Keys
    && (forall id :: id in t.rows ==> SameButQuota(t.rows[id], u.rows[id]))
  }

  ghost predicate KeysBlind(xs: seq<Key>, ys: seq<Key>) {
    |xs| == |ys| && forall i :: 0 <= i < |xs| ==> SameButQuota(xs[i], ys[i])
  }

  lemma FirstBlind(r: map<nat, Key>, w: map<nat, Key>, ids: set<nat>, m: nat)
    requires IdsMatch(r) && IdsMatch(w) && ids <= r.Keys && r.Keys == w.Keys
    requires forall id :: id in r ==> SameButQuota(r[id], w[id])
    requires AuthValidQuery.First(r, ids, m)
    ensures Ordered(AuthValidQuery, r, ids) == [r[m]] + Ordered(AuthValidQuery, r, ids - {m})
    ensures Ordered(AuthValidQuery, w, ids) == [w[m]] + Ordered(AuthValidQuery, w, ids - {m})
  {
    assert AuthValidQuery.First(w, ids, m);
    FirstIsUnique(AuthValidQuery, r, ids, m);
    FirstIsUnique(AuthValidQuery, w, ids, m);
  }

  lemma BlindCons(a: Key, xs: seq<Key>, b: Key, ys: seq<Key>)
    requires SameButQuota(a, b) && KeysBlind(xs, ys)
    ensures KeysBlind([a] + xs, [b] + ys)
  {
  }

  lemma {:induction false} OrderedBlind(r: map<nat, Key>, w: map<nat, Key>, ids: set<nat>)
    requires IdsMatch(r) && IdsMatch(w) && ids <= r.Keys && r.Keys == w.Keys
    requires forall id :: id in r ==> SameButQuota(r[id], w[id])
    ensures KeysBlind(Ordered(AuthValidQuery, r, ids), Ordered(AuthValidQuery, w, ids))
    decreases |ids|
  {
    if ids != {} {
      FirstExists(AuthValidQuery, r, ids);
      var m :| AuthValidQuery.First(r, ids, m);
      FirstBlind(r, w, ids, m);
      OrderedBlind(r, w, ids - {m});
      BlindCons(r[m], Ordered(AuthValidQuery, r, ids - {m}), w[m], Ordered(AuthValidQuery, w, ids - {m}));
    }
  }

  lemma ModelCallBlind(a: Key, b: Key, o: ModelOutcome, now: Instant)
    requires SameButQuota(a, b)
    ensures ModelCall(a, o, now) == ModelCall(b, o, now)
  {
    assert a.id == b.id;
  }

  lemma ModelEntriesStep(keys: seq<Key>, results: seq<ModelOutcome>, i: nat, now: Instant)
    requires i < |keys|
    ensures var o := if i < |results| then results[i] else ModelUnusable;
            ModelEntries(keys, results, i, now)
            == Lift(ModelCall(keys[i], o, now))
                + (if o.ModelServed? then [] else ModelEntries(keys, results, i + 1, now))
  {
  }

  lemma {:induction false} ModelEntriesBlind(xs: seq<Key>, ys: seq<Key>, results: seq<ModelOutcome>, i: nat,
                                             now: Instant)
    requires KeysBlind(xs, ys) && i <= |xs|
    ensures ModelEntries(xs, results, i, now) == ModelEntries(ys, results, i, now)
    decreases |xs| - i
  {
    if i < |xs| {
      var o := if i < |results| then results[i] else ModelUnusable;
      ModelCallBlind(xs[i], ys[i], o, now);
      ModelEntriesBlind(xs, ys, results, i + 1, now);
      ModelEntriesStep(xs, results, i, now);
      ModelEntriesStep(ys, results, i, now);
    }
  }

  predicate QuotaFree(c: Call) {
    (c.MarkChecked? && c.newQuota.None?) || c.MarkInvalid?
  }

  lemma {:induction false} QuotaFreeBlind(t: Table, u: Table, es: seq<Entry>)
    requires QuotaBlind(t, u) && forall e :: e in es ==> QuotaFree(e.call)
    ensures QuotaBlind(ApplyEntries(t, es), ApplyEntries(u, es))
    decreases |es|
  {
    if es != [] {
      QuotaFreeBlind(ApplyEntry(t, es[0]), ApplyEntry(u, es[0]), es[1..]);
    }
  }

  lemma {:induction false} ModelQuotaFree(keys: seq<Key>, results: seq<ModelOutcome>, i: nat, now: Instant)
    requires i <= |keys|
    ensures forall e :: e in ModelEntries(keys, results, i, now) ==> QuotaFree(e.call)
    decreases |keys| - i
  {
    if i < |keys| {
      ModelQuotaFree(keys, results, i + 1, now);
    }
  }

  /** On tables that differ only in quota fields, model listing tries the same keys in
      the same order, writes the same statements, and leaves tables that again differ
      only in quota fields. */
  lemma ModelsIgnoreQuota(t: Table, u: Table, op: Op)
    requires WellKeyed(t) && WellKeyed(u) && QuotaBlind(t, u) && op.Models?
    ensures KeysBlind(Listing(AuthValidQuery, t), Listing(AuthValidQuery, u))
    ensures Entries(t, op) == Entries(u, op)
    ensures QuotaBlind(Perform(t, op), Perform(u, op))
  {
    assert WantedIds(AuthValidQuery, t.rows) == WantedIds(AuthValidQuery, u.rows);
    OrderedBlind(t.rows, u.rows, WantedIds(AuthValidQuery, t.rows));
    var xs, ys := Listing(AuthValidQuery, t), Listing(AuthValidQuery, u);
    ModelEntriesBlind(xs, ys, op.results, 0, op.now);
    ModelQuotaFree(xs, op.results, 0, op.now);
    QuotaFreeBlind(t, u, Entries(t, op));
  }
}
