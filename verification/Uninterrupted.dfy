/** Runs of whole operations are runs of the interleaved system in which nobody interrupts. */
module Uninterrupted {
  import opened Wrappers
  import opened TextClock
  import opened KeyStore
  import opened Verdict
  import opened KeyPool
  import opened SequentialRuns

  // ---------- Reaching a state ----------

  ghost predicate Leads(s: System, u: System) {
    WellKeyed(s.table) && WellKeyed(u.table) && exists actions :: Run(s, actions) == u
  }

  lemma LeadsNowhere(s: System)
    requires WellKeyed(s.table)
    ensures Leads(s, s)
  {
    assert Run(s, []) == s;
  }

  lemma LeadsStep(s: System, a: Action)
    requires WellKeyed(s.table)
    ensures Leads(s, Step(s, a))
  {
    RunStep(s, a, []);
    assert Run(s, [a] + []) == Step(s, a);
  }

  lemma LeadsOn(s: System, u: System, v: System)
    requires Leads(s, u) && Leads(u, v)
    ensures Leads(s, v)
  {
    var xs :| Run(s, xs) == u;
    var ys :| Run(u, ys) == v;
    RunAppend(s, xs, ys);
    assert Run(s, xs + ys) == v;
  }

  lemma ThenStep(s: System, u: System, a: Action)
    requires Leads(s, u)
    ensures Leads(s, Step(u, a))
  {
    LeadsStep(u, a);
    LeadsOn(s, u, Step(u, a));
  }

  lemma TickTo(s: System, now: Instant)
    requires WellKeyed(s.table) && s.clock <= now
    ensures Leads(s, s.(clock := now))
  {
    LeadsStep(s, Tick(now - s.clock));
  }

  // ---------- Statements in the order of their instants ----------

  function TimeOf(e: Entry, now: Instant): Instant {
    if e.call.DeleteKey? then now else e.call.now
  }

  ghost predicate Ascending(es: seq<Entry>, now: Instant)
    decreases |es|
  {
    es == [] || (now <= TimeOf(es[0], now) && Ascending(es[1..], TimeOf(es[0], now)))
  }

  function LastTime(es: seq<Entry>, now: Instant): Instant
    decreases |es|
  {
    if es == [] then now else LastTime(es[1..], TimeOf(es[0], now))
  }

  lemma {:induction false} AscendingParts(xs: seq<Entry>, ys: seq<Entry>, now: Instant)
    requires Ascending(xs + ys, now)
    ensures Ascending(xs, now) && Ascending(ys, LastTime(xs, now))
    ensures LastTime(xs + ys, now) == LastTime(ys, LastTime(xs, now))
    decreases |xs|
  {
    if xs == [] {
      assert xs + ys == ys;
    } else {
      assert (xs + ys)[1..] == xs[1..] + ys;
      AscendingParts(xs[1..], ys, TimeOf(xs[0], now));
    }
  }

  // ---------- A request ----------

  function Placed(s: System, t: Table, now: Instant, r: nat, q: Request): System {
    s.(table := t, clock := now, requests := s.requests[r := q])
  }

  lemma WriteEffect(s: System, r: nat, q: Request)
    requires WellKeyed(s.table) && s.mutex == None && r in s.requests && s.requests[r] == q
    requires q.phase.Writing? && q.phase.pending != [] && TimeOf(q.phase.pending[0], s.clock) == s.clock
    ensures Step(s, Write(r)) ==
            Placed(s, ApplyEntry(s.table, q.phase.pending[0]), s.clock, r,
                   Request(Settle(q.keys, q.phase.i, q.phase.answer, q.phase.pending[1..]), q.keys))
  {
  }

  /** Left alone, a request drains its pending statements in order, each at its instant. */
  lemma {:induction false} WritesDrain(s: System, r: nat, keys: seq<Key>, i: nat, a: Answer, es: seq<Entry>)
    requires WellKeyed(s.table) && s.mutex == None && Ascending(es, s.clock)
    requires r in s.requests && s.requests[r] == Request(Settle(keys, i, a, es), keys)
    ensures Leads(s, Placed(s, ApplyEntries(s.table, es), LastTime(es, s.clock), r,
                            Request(Settle(keys, i, a, []), keys)))
    decreases |es|
  {
    if es == [] {
      LeadsNowhere(s);
    } else {
      var s1 := s.(clock := TimeOf(es[0], s.clock));
      TickTo(s, s1.clock);
      WriteEffect(s1, r, s1.requests[r]);
      ThenStep(s, s1, Write(r));
      var s2 := Step(s1, Write(r));
      WritesDrain(s2, r, keys, i, a, es[1..]);
      var end := Placed(s2, ApplyEntries(s2.table, es[1..]), LastTime(es[1..], s2.clock), r,
                        Request(Settle(keys, i, a, []), keys));
      LeadsOn(s, s2, end);
    }
  }

  lemma AnsweredEffect(s: System, r: nat, keys: seq<Key>, i: nat, a: Answer)
    requires WellKeyed(s.table) && i < |keys| && a.Proper()
    requires r in s.requests && s.requests[r] == Request(Turn(i), keys)
    ensures Step(s, Answered(r, a))
            == Placed(s, s.table, s.clock, r, Request(Settle(keys, i, a, AnswerEntries(keys[i], a)), keys))
  {
  }

  /** One turn: the answer arrives and its statements are issued. */
  lemma TurnAlone(s: System, r: nat, keys: seq<Key>, i: nat, a: Answer, es: seq<Entry>)
    requires WellKeyed(s.table) && s.mutex == None && i < |keys| && a.Proper()
    requires es == AnswerEntries(keys[i], a) && Ascending(es, s.clock)
    requires r in s.requests && s.requests[r] == Request(Turn(i), keys)
    ensures Leads(s, Placed(s, ApplyEntries(s.table, es), LastTime(es, s.clock), r,
                            Request(Settle(keys, i, a, []), keys)))
  {
    AnsweredEffect(s, r, keys, i, a);
    LeadsStep(s, Answered(r, a));
    var s1 := Step(s, Answered(r, a));
    WritesDrain(s1, r, keys, i, a, es);
    LeadsOn(s, s1, Placed(s1, ApplyEntries(s.table, es), LastTime(es, s.clock), r,
                          Request(Settle(keys, i, a, []), keys)));
  }

  /** From a state after one turn, the rest of a walk ends the request. */
  lemma TurnThen(s: System, r: nat, q: Request, end: Request, es: seq<Entry>, rest: seq<Entry>)
    requires WellKeyed(s.table) && Ascending(es + rest, s.clock)
    requires Leads(s, Placed(s, ApplyEntries(s.table, es), LastTime(es, s.clock), r, q))
    requires var s1 := Placed(s, ApplyEntries(s.table, es), LastTime(es, s.clock), r, q);
             Leads(s1, Placed(s1, ApplyEntries(s1.table, rest), LastTime(rest, s1.clock), r, end))
    ensures Leads(s, Placed(s, ApplyEntries(s.table, es + rest), LastTime(es + rest, s.clock), r, end))
  {
    var s1 := Placed(s, ApplyEntries(s.table, es), LastTime(es, s.clock), r, q);
    var s2 := Placed(s1, ApplyEntries(s1.table, rest), LastTime(rest, s1.clock), r, end);
    LeadsOn(s, s1, s2);
    AscendingParts(es, rest, s.clock);
    ApplyEntriesAppend(s.table, es, rest);
    assert s2 == Placed(s, s2.table, s2.clock, r, end);
  }

  /** Left alone, a request walks its snapshot exactly as `WalkEntries` says. */
  lemma {:induction false} WalkAlone(s: System, r: nat, keys: seq<Key>, answers: seq<Answer>, i: nat)
    requires WellKeyed(s.table) && s.mutex == None && i <= |keys| && AllProper(answers)
    requires Ascending(WalkEntries(keys, answers, i), s.clock)
    requires r in s.requests && s.requests[r] == Request(TurnOrEnd(keys, i), keys)
    ensures var es := WalkEntries(keys, answers, i);
            Leads(s, Placed(s, ApplyEntries(s.table, es), LastTime(es, s.clock), r, Request(Finished, keys)))
    decreases |keys| - i, 1
  {
    if i == |keys| {
      LeadsNowhere(s);
    } else {
      var a := Nth(answers, i);
      var es := AnswerEntries(keys[i], a);
      var rest := if a.MovesOn() then WalkEntries(keys, answers, i + 1) else [];
      WalkUnfolds(keys, answers, i, rest);
      AscendingParts(es, rest, s.clock);
      TurnAlone(s, r, keys, i, a, es);
      var q := Request(Settle(keys, i, a, []), keys);
      EntriesKeepKeys(s.table, es);
      WalkRest(Placed(s, ApplyEntries(s.table, es), LastTime(es, s.clock), r, q), r, keys, answers, i, a, rest);
      TurnThen(s, r, q, Request(Finished, keys), es, rest);
    }
  }

  lemma {:induction false} WalkRest(s: System, r: nat, keys: seq<Key>, answers: seq<Answer>, i: nat, a: Answer,
                                    rest: seq<Entry>)
    requires WellKeyed(s.table) && s.mutex == None && i < |keys| && AllProper(answers) && a == Nth(answers, i)
    requires rest == if a.MovesOn() then WalkEntries(keys, answers, i + 1) else []
    requires Ascending(rest, s.clock)
    requires r in s.requests && s.requests[r] == Request(Settle(keys, i, a, []), keys)
    ensures Leads(s, Placed(s, ApplyEntries(s.table, rest), LastTime(rest, s.clock), r, Request(Finished, keys)))
    decreases |keys| - i, 0
  {
    if a.MovesOn() {
      WalkAlone(s, r, keys, answers, i + 1);
    } else {
      LeadsNowhere(s);
    }
  }

  lemma {:induction false} EntriesKeepKeys(t: Table, es: seq<Entry>)
    requires WellKeyed(t)
    ensures WellKeyed(ApplyEntries(t, es))
    decreases |es|
  {
    if es != [] {
      ApplyKeepsKeys(t, es[0].call);
      EntriesKeepKeys(ApplyEntry(t, es[0]), es[1..]);
    }
  }

  lemma ReleaseDueEffect(s: System, r: nat, stored: bool)
    requires WellKeyed(s.table)
    ensures Step(With(s, Some(r), r, Request(Locked, [])), ReleaseDue(r, stored))
            == With(s, Some(r), r, Request(Released, [])).(table := ApplyEntry(s.table, ReleaseEntry(s.clock, stored)))
  {
  }

  lemma SnapshotTaken(s: System, t: Table, r: nat, keys: seq<Key>)
    requires WellKeyed(t) && keys == Listing(EligibleQuery, t)
    ensures Step(With(s, Some(r), r, Request(Released, [])).(table := t), Snapshot(r, true))
            == With(s, None, r, Request(TurnOrEnd(keys, 0), keys)).(table := t)
  {
  }

  lemma OpeningAlone(s: System, r: nat, stored: bool)
    requires WellKeyed(s.table) && s.mutex == None && r !in s.requests
    ensures var t := ApplyEntry(s.table, ReleaseEntry(s.clock, stored));
            && WellKeyed(t)
            && Leads(s, With(s, None, r, Request(TurnOrEnd(Listing(EligibleQuery, t), 0), Listing(EligibleQuery, t)))
                        .(table := t))
  {
    var t := ApplyEntry(s.table, ReleaseEntry(s.clock, stored));
    ApplyKeepsKeys(s.table, MarkHalfOpenDue(s.clock));
    ArriveEffect(s, r);
    LeadsStep(s, Arrive(r));
    EnterEffect(s, r);
    ThenStep(s, With(s, None, r, Request(Entering, [])), Enter(r));
    ReleaseDueEffect(s, r, stored);
    ThenStep(s, With(s, Some(r), r, Request(Locked, [])), ReleaseDue(r, stored));
    SnapshotTaken(s, t, r, Listing(EligibleQuery, t));
    ThenStep(s, With(s, Some(r), r, Request(Released, [])).(table := t), Snapshot(r, true));
  }

  // ---------- Quiet states ----------

  /** Nobody holds the service mutex, no test is under way and the scheduler sleeps. */
  predicate Quiet(s: System) {
    s.mutex == None && s.tester == None && s.scheduler == Idle
  }

  lemma {:induction false} Fresh(ids: set<nat>) returns (r: nat)
    ensures forall x :: x in ids ==> x < r
    decreases |ids|
  {
    if ids == {} {
      r := 0;
    } else {
      var x :| x in ids;
      var m := Fresh(ids - {x});
      r := if m > x then m else x + 1;
      assert ids == (ids - {x}) + {x};
    }
  }

  lemma InferAlone(s: System, op: Op) returns (u: System)
    requires WellKeyed(s.table) && Quiet(s) && op.Infer? && ProperOp(op) && op.now == s.clock
    requires Ascending(WalkEntries(SnapshotKeys(s.table, op), op.answers, 0), s.clock)
    ensures Leads(s, u) && Quiet(u) && u.table == Perform(s.table, op)
    ensures u.clock == LastTime(WalkEntries(SnapshotKeys(s.table, op), op.answers, 0), s.clock)
  {
    var e := ReleaseEntry(op.now, op.releaseStored);
    var t, keys := ApplyEntry(s.table, e), SnapshotKeys(s.table, op);
    var r := Fresh(s.requests.Keys);
    OpeningAlone(s, r, op.releaseStored);
    var s1 := With(s, None, r, Request(TurnOrEnd(keys, 0), keys)).(table := t);
    var es := WalkEntries(keys, op.answers, 0);
    WalkAlone(s1, r, keys, op.answers, 0);
    u := Placed(s1, ApplyEntries(t, es), LastTime(es, s1.clock), r, Request(Finished, keys));
    LeadsOn(s, s1, u);
    assert Entries(s.table, op) == [e] + es;
    assert ([e] + es)[1..] == es;
  }

  // ---------- A key test ----------

  /** A test changes the tables, the probes it marks and who is tested. */
  predicate OnlyTested(s: System, u: System) {
    u == s.(table := u.table, probes := u.probes, tester := u.tester)
  }

  lemma TestStepEffect(s: System, test: KeyTest, o: TestOutcome) returns (u: System)
    requires WellKeyed(s.table) && s.tester == Some(test)
    ensures u == Step(s, TestStep(o)) && OnlyTested(s, u)
    ensures u.table == ApplyEntries(s.table, Lift(TestCall(test, o, s.settings, s.clock)))
    ensures u.tester == if test.stage == ModelsStage && o.ModelsReachable? && test.inference
                        then Some(test.(stage := ProbeStage)) else None
  {
    u := Step(s, TestStep(o));
    var c := TestCall(test, o, s.settings, s.clock);
    if c.Some? {
      assert Lift(c)[1..] == [];
    }
  }

  lemma TestCallSame(test: KeyTest, o: TestOutcome, settings: Settings, now: Instant)
    ensures TestCall(test, o, settings, now)
            == TestCall(KeyTest(test.key, test.inference, false, test.stage), o, settings, now)
  {
  }

  /** Left alone, a started test issues the statements `TestEntries` says. */
  lemma TestAlone(s: System, test: KeyTest, script: TestScript) returns (u: System)
    requires WellKeyed(s.table) && s.tester == Some(test) && test.stage == ModelsStage
    ensures Leads(s, u) && OnlyTested(s, u) && u.tester == None
    ensures u.table == ApplyEntries(s.table, TestEntries(test.key, test.inference, script, s.settings, s.clock))
  {
    var s1 := TestStepEffect(s, test, script.models);
    LeadsStep(s, TestStep(script.models));
    TestCallSame(test, script.models, s.settings, s.clock);
    var xs := Lift(TestCall(test, script.models, s.settings, s.clock));
    if script.models.ModelsReachable? && test.inference {
      var probe := test.(stage := ProbeStage);
      u := TestStepEffect(s1, probe, script.probe);
      ThenStep(s, s1, TestStep(script.probe));
      TestCallSame(probe, script.probe, s.settings, s.clock);
      ApplyEntriesAppend(s.table, xs, Lift(TestCall(probe, script.probe, s.settings, s.clock)));
    } else {
      u := s1;
      assert xs + [] == xs;
    }
  }

  lemma AskedEffect(s: System, id: nat, inference: bool)
    requires WellKeyed(s.table) && s.tester == None && id in s.table.rows
    ensures var test := KeyTest(s.table.rows[id], inference, false, ModelsStage);
            Step(Step(s, AskTest(id, inference)), StartTest(|s.waiting|)) == s.(tester := Some(test))
  {
    var test := KeyTest(s.table.rows[id], inference, false, ModelsStage);
    var s1 := Step(s, AskTest(id, inference));
    assert s1 == s.(waiting := s.waiting + [test]);
    assert s1.waiting[..|s.waiting|] + s1.waiting[|s.waiting| + 1..] == s.waiting;
  }

  lemma AskedAlone(s: System, op: Op) returns (u: System)
    requires WellKeyed(s.table) && Quiet(s) && op.Test? && op.settings == s.settings && op.now == s.clock
    ensures Leads(s, u) && Quiet(u) && u.table == Perform(s.table, op) && u.clock == s.clock
  {
    if op.id in s.table.rows {
      var test := KeyTest(s.table.rows[op.id], op.inference, false, ModelsStage);
      LeadsStep(s, AskTest(op.id, op.inference));
      AskedEffect(s, op.id, op.inference);
      ThenStep(s, Step(s, AskTest(op.id, op.inference)), StartTest(|s.waiting|));
      u := TestAlone(s.(tester := Some(test)), test, op.script);
      LeadsOn(s, s.(tester := Some(test)), u);
    } else {
      u := s;
      LeadsNowhere(s);
    }
  }

  // ---------- The scheduler ----------

  function ScriptOf(op: Op, id: nat): TestScript
    requires op.Schedule?
  {
    if id in op.scripts then op.scripts[id] else TestScript(SecretLost, ProbeDown)
  }

  lemma NextEffect(s: System, keys: seq<Key>, i: nat)
    requires WellKeyed(s.table) && s.tester == None && i < |keys|
    requires s.scheduler == Probing(s.settings, s.clock, keys[i..])
    ensures Step(s, SchedulerNext)
            == s.(scheduler := Probing(s.settings, s.clock, keys[i + 1..]),
                  tester := if Selected(s.settings, s.clock, keys[i])
                            then Some(KeyTest(keys[i], true, true, ModelsStage)) else None)
  {
    assert keys[i..][1..] == keys[i + 1..];
  }

  /** One listed key, tested when it is selected. */
  lemma NextAlone(s: System, keys: seq<Key>, i: nat, op: Op) returns (u: System)
    requires WellKeyed(s.table) && s.tester == None && i < |keys|
    requires s.scheduler == Probing(s.settings, s.clock, keys[i..])
    requires op.Schedule? && op.settings == s.settings && op.now == s.clock
    ensures Leads(s, u) && u.tester == None && u.mutex == s.mutex && u.settings == s.settings && u.clock == s.clock
    ensures u.scheduler == Probing(s.settings, s.clock, keys[i + 1..])
    ensures u.table == ApplyEntries(s.table, KeyEntries(keys[i], op))
  {
    NextEffect(s, keys, i);
    LeadsStep(s, SchedulerNext);
    var s1 := Step(s, SchedulerNext);
    if Selected(s.settings, s.clock, keys[i]) {
      u := TestAlone(s1, s1.tester.value, ScriptOf(op, keys[i].id));
      LeadsOn(s, s1, u);
    } else {
      u := s1;
    }
  }

  /** What the scheduler's test of one listed key writes. */
  function KeyEntries(k: Key, op: Op): seq<Entry>
    requires op.Schedule?
  {
    if Selected(op.settings, op.now, k) && k.id in op.scripts
    then TestEntries(k, true, op.scripts[k.id], op.settings, op.now) else []
  }

  lemma {:induction false} ProbesAlone(s: System, keys: seq<Key>, i: nat, op: Op) returns (u: System)
    requires WellKeyed(s.table) && s.tester == None && s.mutex == None && i <= |keys|
    requires s.scheduler == Probing(s.settings, s.clock, keys[i..])
    requires op.Schedule? && op.settings == s.settings && op.now == s.clock
    ensures Leads(s, u) && Quiet(u) && u.clock == s.clock
    ensures u.table == ApplyEntries(s.table, ProbeEntries(keys, i, op))
    decreases |keys| - i
  {
    if i == |keys| {
      LeadsStep(s, SchedulerEnd);
      u := Step(s, SchedulerEnd);
    } else {
      var s1 := NextAlone(s, keys, i, op);
      ApplyEntriesAppend(s.table, KeyEntries(keys[i], op), ProbeEntries(keys, i + 1, op));
      u := ProbesAlone(s1, keys, i + 1, op);
      LeadsOn(s, s1, u);
    }
  }

  lemma ListEffect(s: System, t: Table)
    requires WellKeyed(t) && s.scheduler == Idle
    ensures Step(s.(table := t), SchedulerList)
            == s.(table := t, scheduler := Listed(s.settings, Listing(ListQuery, t)))
  {
  }

  lemma NowEffect(s: System, keys: seq<Key>)
    requires WellKeyed(s.table)
    ensures Step(s.(scheduler := Listed(s.settings, keys)), SchedulerNow)
            == s.(scheduler := Probing(s.settings, s.clock, keys))
  {
  }

  lemma ScheduleOpens(s: System, stored: bool)
    requires WellKeyed(s.table) && Quiet(s)
    ensures var t := ApplyEntry(s.table, ReleaseEntry(s.clock, stored));
            && WellKeyed(t)
            && Leads(s, s.(table := t, scheduler := Probing(s.settings, s.clock, Listing(ListQuery, t))))
  {
    var t := ApplyEntry(s.table, ReleaseEntry(s.clock, stored));
    LeadsStep(s, SchedulerRelease(stored));
    ListEffect(s, t);
    ThenStep(s, s.(table := t), SchedulerList);
    NowEffect(s.(table := t), Listing(ListQuery, t));
    ThenStep(s, s.(table := t, scheduler := Listed(s.settings, Listing(ListQuery, t))), SchedulerNow);
  }

  lemma ScheduleAlone(s: System, op: Op) returns (u: System)
    requires WellKeyed(s.table) && Quiet(s) && op.Schedule? && op.settings == s.settings && op.now == s.clock
    ensures Leads(s, u) && Quiet(u) && u.table == Perform(s.table, op) && u.clock == s.clock
  {
    var e := ReleaseEntry(op.now, op.releaseStored);
    var t := ApplyEntry(s.table, e);
    ScheduleOpens(s, op.releaseStored);
    var keys := Listing(ListQuery, t);
    var s1 := s.(table := t, scheduler := Probing(s.settings, s.clock, keys));
    assert keys[0..] == keys;
    u := ProbesAlone(s1, keys, 0, op);
    LeadsOn(s, s1, u);
    var es := ProbeEntries(keys, 0, op);
    assert Entries(s.table, op) == [e] + es;
    assert ([e] + es)[1..] == es;
  }

  // ---------- Model listing ----------

  lemma TryEffect(s: System, m: nat, keys: seq<Key>, i: nat, o: ModelOutcome)
    requires WellKeyed(s.table) && m in s.models && s.models[m] == ModelRun(keys, i) && i < |keys|
    ensures Step(s, ModelsTry(m, o))
            == s.(table := ApplyEntries(s.table, Lift(ModelCall(keys[i], o, s.clock))),
                  models := s.models[m := ModelRun(keys, if o.ModelServed? then |keys| else i + 1)])
  {
    var c := ModelCall(keys[i], o, s.clock);
    if c.Some? {
      assert Lift(c)[1..] == [];
    }
  }

  lemma {:induction false} TriesAlone(s: System, m: nat, keys: seq<Key>, results: seq<ModelOutcome>, i: nat)
    returns (u: System)
    requires WellKeyed(s.table) && m in s.models && s.models[m] == ModelRun(keys, i) && i <= |keys|
    ensures Leads(s, u) && u == s.(table := u.table, models := u.models)
    ensures u.table == ApplyEntries(s.table, ModelEntries(keys, results, i, s.clock))
    decreases |keys| - i
  {
    if i == |keys| {
      u := s;
      LeadsNowhere(s);
    } else {
      var o := if i < |results| then results[i] else ModelUnusable;
      var es := Lift(ModelCall(keys[i], o, s.clock));
      var rest := if o.ModelServed? then [] else ModelEntries(keys, results, i + 1, s.clock);
      ModelEntriesStep(keys, results, i, s.clock);
      ApplyEntriesAppend(s.table, es, rest);
      TryEffect(s, m, keys, i, o);
      LeadsStep(s, ModelsTry(m, o));
      u := Step(s, ModelsTry(m, o));
      if !o.ModelServed? {
        var s1 := u;
        u := TriesAlone(s1, m, keys, results, i + 1);
        LeadsOn(s, s1, u);
      }
    }
  }

  lemma ModelsAlone(s: System, op: Op) returns (u: System)
    requires WellKeyed(s.table) && Quiet(s) && op.Models? && op.now == s.clock
    ensures Leads(s, u) && Quiet(u) && u.table == Perform(s.table, op) && u.clock == s.clock
  {
    var m := Fresh(s.models.Keys);
    LeadsStep(s, ModelsBegin(m));
    var s1 := Step(s, ModelsBegin(m));
    u := TriesAlone(s1, m, Listing(AuthValidQuery, s.table), op.results, 0);
    LeadsOn(s, s1, u);
  }

  // ---------- The administrator ----------

  lemma OneEntry(t: Table, e: Entry)
    ensures ApplyEntries(t, [e]) == ApplyEntry(t, e)
  {
    assert [e][1..] == [];
  }

  lemma AdminAlone(s: System, op: Op) returns (u: System)
    requires WellKeyed(s.table) && Quiet(s) && op.Admin? && ProperOp(op)
    requires !op.call.DeleteKey? ==> op.call.now == s.clock
    ensures Leads(s, u) && Quiet(u) && u.table == Perform(s.table, op) && u.clock == s.clock
  {
    LeadsStep(s, AdminCall(op.call));
    u := Step(s, AdminCall(op.call));
    OneEntry(s.table, Entry(op.call, false, true));
    assert Stamped(op.call, s.clock) == op.call;
  }

  lemma MayActivateEffect(s: System, id: nat)
    requires WellKeyed(s.table) && id in s.table.rows && Eligible(s.table.rows[id])
    ensures Step(s, AdminMayActivate(id)) == s.(activations := s.activations + {id})
  {
  }

  lemma ActivateEffect(s: System, id: nat, stored: bool)
    requires WellKeyed(s.table)
    ensures Step(s.(activations := s.activations + {id}), AdminActivate(id, stored))
            == s.(table := ApplyEntry(s.table, Entry(SetActive(id, s.clock), false, stored)),
                  activations := s.activations - {id})
  {
    assert s.activations + {id} - {id} == s.activations - {id};
  }

  lemma ActivateAlone(s: System, op: Op) returns (u: System)
    requires WellKeyed(s.table) && Quiet(s) && op.Activate? && op.now == s.clock
    ensures Leads(s, u) && Quiet(u) && u.table == Perform(s.table, op) && u.clock == s.clock
  {
    if op.id in s.table.rows && Eligible(s.table.rows[op.id]) {
      u := s.(table := ApplyEntry(s.table, Entry(SetActive(op.id, op.now), false, op.stored)),
              activations := s.activations - {op.id});
      MayActivateEffect(s, op.id);
      LeadsStep(s, AdminMayActivate(op.id));
      ActivateEffect(s, op.id, op.stored);
      ThenStep(s, s.(activations := s.activations + {op.id}), AdminActivate(op.id, op.stored));
      OneEntry(s.table, Entry(SetActive(op.id, op.now), false, op.stored));
    } else {
      u := s;
      LeadsNowhere(s);
    }
  }

  // ---------- Whole runs ----------

  /** When an operation starts, if the clock stands at `now` before it. */
  function StartOf(op: Op, now: Instant): Instant {
    if op.Admin? then TimeOf(Entry(op.call, false, true), now) else op.now
  }

  /** The instants of an operation are not before `now` and do not go back. */
  ghost predicate Timely(t: Table, op: Op, now: Instant)
    requires WellKeyed(t) && ProperOp(op)
  {
    && now <= StartOf(op, now)
    && (op.Infer? ==> Ascending(WalkEntries(SnapshotKeys(t, op), op.answers, 0), op.now))
  }

  ghost function EndOf(t: Table, op: Op, now: Instant): Instant
    requires WellKeyed(t) && ProperOp(op)
  {
    if op.Infer? then LastTime(WalkEntries(SnapshotKeys(t, op), op.answers, 0), op.now) else StartOf(op, now)
  }

  /** The settings an operation runs under; most do not read them. */
  function SettingsOf(op: Op, settings: Settings): Settings {
    if op.Test? || op.Schedule? then op.settings else settings
  }

  lemma ReadyAlone(s: System, op: Op, s1: System)
    requires WellKeyed(s.table) && s.clock <= StartOf(op, s.clock)
    requires s1 == s.(clock := StartOf(op, s.clock), settings := SettingsOf(op, s.settings))
    ensures Leads(s, s1)
  {
    TickTo(s, s1.clock);
    LeadsStep(s.(clock := s1.clock), AdminSettings(s1.settings));
    LeadsOn(s, s.(clock := s1.clock), s1);
  }

  /** An operation nobody interrupts does to the tables exactly what `Perform` says,
      whatever operation it is. */
  lemma OpAlone(s: System, op: Op) returns (u: System)
    requires WellKeyed(s.table) && Quiet(s) && ProperOp(op) && Timely(s.table, op, s.clock)
    ensures Leads(s, u) && Quiet(u)
    ensures u.table == Perform(s.table, op) && u.clock == EndOf(s.table, op, s.clock)
  {
    var s1 := s.(clock := StartOf(op, s.clock), settings := SettingsOf(op, s.settings));
    ReadyAlone(s, op, s1);
    match op {
      case Infer(_, _, _) => u := InferAlone(s1, op);
      case Test(_, _, _, _, _) => u := AskedAlone(s1, op);
      case Models(_, _) => u := ModelsAlone(s1, op);
      case Schedule(_, _, _, _) => u := ScheduleAlone(s1, op);
      case Admin(_) => u := AdminAlone(s1, op);
      case Activate(_, _, _) => u := ActivateAlone(s1, op);
    }
    LeadsOn(s, s1, u);
  }

  ghost predicate AllTimely(t: Table, ops: seq<Op>, now: Instant)
    requires Healthy(t) && forall op :: op in ops ==> ProperOp(op)
    decreases |ops|
  {
    ops == []
    || (Timely(t, ops[0], now)
        && (OpKeepsHealthy(t, ops[0]); AllTimely(Perform(t, ops[0]), ops[1..], EndOf(t, ops[0], now))))
  }

  /** Every run of whole operations whose instants do not go back is a run of the
      interleaved system: it can reach the very tables the run ends with. */
  lemma {:induction false} RunAlone(s: System, ops: seq<Op>) returns (u: System)
    requires Healthy(s.table) && Quiet(s) && forall op :: op in ops ==> ProperOp(op)
    requires AllTimely(s.table, ops, s.clock)
    ensures Leads(s, u) && Quiet(u) && u.table == PerformAll(s.table, ops)
    decreases |ops|
  {
    if ops == [] {
      u := s;
      LeadsNowhere(s);
    } else {
      OpKeepsHealthy(s.table, ops[0]);
      var s1 := OpAlone(s, ops[0]);
      u := RunAlone(s1, ops[1..]);
      LeadsOn(s, s1, u);
    }
  }
}
