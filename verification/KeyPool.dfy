/** The key pool under concurrency: any number of inference requests, model listings,
    key tests, one scheduler and the administrator, interleaved statement by statement. */
module KeyPool {
  import opened Wrappers
  import opened TextClock
  import opened KeyStore
  import opened Verdict

  // ---------- Processes ----------

  /** Where an inference request stands. Between `Locked` and `Snapshot` it holds the
      service mutex; `Writing` is after upstream answered, with statements to issue. */
  datatype Phase =
    | Entering
    | Locked
    | Released
    | Turn(i: nat)
    | Writing(i: nat, answer: Answer, pending: seq<Entry>)
    | Finished

  datatype Request = Request(phase: Phase, keys: seq<Key>)

  datatype Stage = ModelsStage | ProbeStage

  datatype KeyTest = KeyTest(key: Key, inference: bool, scheduled: bool, stage: Stage)

  datatype TestOutcome =
    | SecretLost
    | ModelsDown(message: string, stored: bool)
    | ModelsRefused(verdict: Classification, stored: bool)
    | ModelsReachable(stored: bool)
    | ProbeDown
    | ProbeAnswered(status: nat, verdict: Classification, at: Instant, stored: bool)

  datatype Settings = Settings(autoProbe: bool, probeIntervalSec: nat)

  datatype Scheduler =
    | Idle
    | Listed(settings: Settings, queue: seq<Key>)
    | Probing(settings: Settings, now: Instant, queue: seq<Key>)

  datatype ModelRun = ModelRun(keys: seq<Key>, i: nat)

  datatype ModelOutcome =
    | ModelUnusable
    | ModelRefused(verdict: Classification, stored: bool)
    | ModelServed(stored: bool)

  /** An inference probe about to be sent; `stamp` is when its control-plane check was to be
      written, `stored` whether the store took it. */
  datatype ProbeMark = ProbeMark(keyId: nat, stamp: Instant, scheduled: bool, stored: bool)

  datatype System = System(
    table: Table,
    clock: Instant,
    settings: Settings,
    mutex: Option<nat>,
    requests: map<nat, Request>,
    waiting: seq<KeyTest>,
    tester: Option<KeyTest>,
    scheduler: Scheduler,
    models: map<nat, ModelRun>,
    activations: set<nat>,
    probes: seq<ProbeMark>)

  datatype Action =
    | Arrive(r: nat)
    | Enter(r: nat)
    | ReleaseDue(r: nat, stored: bool)
    | Snapshot(r: nat, readable: bool)
    | Answered(r: nat, answer: Answer)
    | Write(r: nat)
    | AskTest(id: nat, inference: bool)
    | StartTest(n: nat)
    | TestStep(outcome: TestOutcome)
    | SchedulerRelease(stored: bool)
    | SchedulerList
    | SchedulerNow
    | SchedulerNext
    | SchedulerEnd
    | ModelsBegin(m: nat)
    | ModelsTry(m: nat, result: ModelOutcome)
    | AdminCall(call: Call)
    | AdminMayActivate(id: nat)
    | AdminActivate(id: nat, stored: bool)
    | AdminSettings(settings: Settings)
    | Tick(d: nat)

  // ---------- Statements issued by each step ----------

  predicate AdminStatement(c: Call) {
    ProperCall(c) && (c.CreateKey? || c.UpdateKey? || c.DeleteKey?)
  }

  /** A statement is stamped with the time it runs. */
  function Stamped(c: Call, now: Instant): Call {
    if c.DeleteKey? then c else c.(now := now)
  }

  function TestCall(t: KeyTest, o: TestOutcome, settings: Settings, now: Instant): Option<Call> {
    match (t.stage, o)
    case (ModelsStage, ModelsDown(message, true)) =>
      Some(MarkChecked(t.key.id, AuthUnknown, Degraded, None, message, now))
    case (ModelsStage, ModelsRefused(verdict, true)) =>
      if verdict.kind == AuthError then Some(MarkInvalid(t.key.id, verdict.message, now)) else None
    case (ModelsStage, ModelsReachable(true)) =>
      Some(MarkChecked(t.key.id, AuthValid, Reachable, None, "", now))
    case (ProbeStage, ProbeAnswered(status, verdict, at, true)) =>
      if verdict.FailsOver() then
        Some(Stamped(FailureCall(t.key.id, verdict, Some(settings.probeIntervalSec), at), now))
      else if 200 <= status < 300 then Some(MarkUsed(t.key.id, now))
      else None
    case _ => None
  }

  function ModelCall(k: Key, o: ModelOutcome, now: Instant): Option<Call> {
    match o
    case ModelServed(true) => Some(MarkChecked(k.id, AuthValid, Reachable, None, "", now))
    case ModelRefused(verdict, true) =>
      if verdict.kind == AuthError then Some(MarkInvalid(k.id, verdict.message, now)) else None
    case _ => None
  }

  predicate CanWrite(s: System, r: nat) {
    && r in s.requests
    && s.requests[r].phase.Writing?
    && s.requests[r].phase.pending != []
    && (s.requests[r].phase.pending[0].call.SetActive? ==> s.mutex == None)
  }

  predicate CanTry(s: System, m: nat) {
    m in s.models && s.models[m].i < |s.models[m].keys|
  }

  predicate Phased(s: System, r: nat, p: Phase) {
    r in s.requests && s.requests[r].phase == p
  }

  /** The single statement a step runs against the tables, if any. */
  function Statement(s: System, a: Action): Option<Call> {
    match a
    case ReleaseDue(r, stored) =>
      if Phased(s, r, Locked) && stored then Some(MarkHalfOpenDue(s.clock)) else None
    case Write(r) =>
      if CanWrite(s, r) && s.requests[r].phase.pending[0].stored
      then Some(Stamped(s.requests[r].phase.pending[0].call, s.clock)) else None
    case TestStep(o) =>
      if s.tester.Some? then TestCall(s.tester.value, o, s.settings, s.clock) else None
    case SchedulerRelease(stored) =>
      if s.scheduler.Idle? && stored then Some(MarkHalfOpenDue(s.clock)) else None
    case ModelsTry(m, o) =>
      if CanTry(s, m) then ModelCall(s.models[m].keys[s.models[m].i], o, s.clock) else None
    case AdminCall(c) =>
      if AdminStatement(c) then Some(Stamped(c, s.clock)) else None
    case AdminActivate(id, stored) =>
      if id in s.activations && stored then Some(SetActive(id, s.clock)) else None
    case _ => None
  }

  function TableAfter(s: System, a: Action): Table {
    var c := Statement(s, a);
    if c.Some? then Apply(s.table, c.value) else s.table
  }

  // ---------- Process moves ----------

  function TurnOrEnd(keys: seq<Key>, i: nat): Phase {
    if i < |keys| then Turn(i) else Finished
  }

  function Settle(keys: seq<Key>, i: nat, answer: Answer, pending: seq<Entry>): Phase {
    if pending != [] then Writing(i, answer, pending)
    else if answer.MovesOn() then TurnOrEnd(keys, i + 1)
    else Finished
  }

  ghost function RequestMove(s: System, a: Action): System
    requires WellKeyed(s.table)
  {
    match a
    case Arrive(r) =>
      if r in s.requests then s else s.(requests := s.requests[r := Request(Entering, [])])
    case Enter(r) =>
      if Phased(s, r, Entering) && s.mutex == None
      then s.(mutex := Some(r), requests := s.requests[r := Request(Locked, [])]) else s
    case ReleaseDue(r, _) =>
      if Phased(s, r, Locked) then s.(requests := s.requests[r := Request(Released, [])]) else s
    case Snapshot(r, readable) =>
      if Phased(s, r, Released) then
        var keys := if readable then Listing(EligibleQuery, s.table) else [];
        s.(mutex := None, requests := s.requests[r := Request(TurnOrEnd(keys, 0), keys)])
      else s
    case Answered(r, answer) =>
      if && r in s.requests && s.requests[r].phase.Turn?
         && s.requests[r].phase.i < |s.requests[r].keys| && answer.Proper()
      then
        var keys, i := s.requests[r].keys, s.requests[r].phase.i;
        s.(requests := s.requests[r := Request(Settle(keys, i, answer, AnswerEntries(keys[i], answer)), keys)])
      else s
    case Write(r) =>
      if CanWrite(s, r) then
        var Request(Writing(i, answer, pending), keys) := s.requests[r];
        s.(requests := s.requests[r := Request(Settle(keys, i, answer, pending[1..]), keys)])
      else s
    case _ => s
  }

  /** Whether the scheduler may test a listed key. */
  predicate Selected(settings: Settings, now: Instant, k: Key) {
    && k.quota == HalfOpen
    && k.enabled
    && (if k.probeOverride.Some? then k.probeOverride.value else settings.autoProbe)
    && (k.lastChecked.Some? ==> now - k.lastChecked.value >= settings.probeIntervalSec * NANOS_PER_SECOND)
  }

  ghost function ProbeMove(s: System, a: Action): System
    requires WellKeyed(s.table)
  {
    match a
    case AskTest(id, inference) =>
      if id in s.table.rows
      then s.(waiting := s.waiting + [KeyTest(s.table.rows[id], inference, false, ModelsStage)]) else s
    case StartTest(n) =>
      if n < |s.waiting| && s.tester == None
      then s.(waiting := s.waiting[..n] + s.waiting[n + 1..], tester := Some(s.waiting[n])) else s
    case TestStep(o) =>
      if s.tester == None then s
      else
        var test := s.tester.value;
        if test.stage == ModelsStage && o.ModelsReachable? && test.inference then
          s.(tester := Some(test.(stage := ProbeStage)),
             probes := s.probes + [ProbeMark(test.key.id, s.clock, test.scheduled, o.stored)])
        else s.(tester := None)
    case SchedulerList =>
      if s.scheduler.Idle? then s.(scheduler := Listed(s.settings, Listing(ListQuery, s.table))) else s
    case SchedulerNow =>
      if s.scheduler.Listed?
      then s.(scheduler := Probing(s.scheduler.settings, s.clock, s.scheduler.queue)) else s
    case SchedulerNext =>
      if s.scheduler.Probing? && s.scheduler.queue != [] && s.tester == None then
        var Probing(settings, now, queue) := s.scheduler;
        s.(scheduler := Probing(settings, now, queue[1..]),
           tester := if Selected(settings, now, queue[0])
                     then Some(KeyTest(queue[0], true, true, ModelsStage)) else None)
      else s
    case SchedulerEnd =>
      if s.scheduler.Probing? && s.scheduler.queue == [] && s.tester == None then s.(scheduler := Idle) else s
    case _ => s
  }

  ghost function ControlMove(s: System, a: Action): System
    requires WellKeyed(s.table)
  {
    match a
    case ModelsBegin(m) =>
      if m in s.models then s else s.(models := s.models[m := ModelRun(Listing(AuthValidQuery, s.table), 0)])
    case ModelsTry(m, o) =>
      if CanTry(s, m) then
        var run := s.models[m];
        s.(models := s.models[m := run.(i := if o.ModelServed? then |run.keys| else run.i + 1)])
      else s
    case AdminMayActivate(id) =>
      if id in s.table.rows && Eligible(s.table.rows[id]) then s.(activations := s.activations + {id}) else s
    case AdminActivate(id, _) =>
      if id in s.activations then s.(activations := s.activations - {id}) else s
    case AdminSettings(settings) => s.(settings := settings)
    case Tick(d) => s.(clock := s.clock + d)
    case _ => s
  }

  predicate IsRequestAction(a: Action) {
    a.Arrive? || a.Enter? || a.ReleaseDue? || a.Snapshot? || a.Answered? || a.Write?
  }

  predicate IsProbeAction(a: Action) {
    || a.AskTest? || a.StartTest? || a.TestStep? || a.SchedulerRelease? || a.SchedulerList?
    || a.SchedulerNow? || a.SchedulerNext? || a.SchedulerEnd?
  }

  /** How the processes move, the tables apart. */
  ghost function Move(s: System, a: Action): System
    requires WellKeyed(s.table)
  {
    if IsRequestAction(a) then RequestMove(s, a)
    else if IsProbeAction(a) then ProbeMove(s, a)
    else ControlMove(s, a)
  }

  /** One step of the whole system; an action that is not enabled changes nothing. */
  ghost function Step(s: System, a: Action): System
    requires WellKeyed(s.table)
  {
    Move(s, a).(table := TableAfter(s, a))
  }

  // ---------- Invariant ----------

  /** A key value read earlier still denotes the same row, or a row that is gone for good. */
  ghost predicate Known(t: Table, k: Key) {
    && k.id < t.nextId
    && (k.id in t.rows ==>
          && t.rows[k.id].fingerprint == k.fingerprint
          && t.rows[k.id].sealed == k.sealed
          && t.rows[k.id].created == k.created)
  }

  ghost predicate AllKnown(t: Table, keys: seq<Key>) {
    forall k :: k in keys ==> Known(t, k)
  }

  predicate TailOf(pending: seq<Entry>, es: seq<Entry>) {
    && |pending| <= |es|
    && forall j :: 0 <= j < |pending| ==> pending[j] == es[|es| - |pending| + j]
  }

  /** What is left to write is the tail of what the answer asked for. */
  predicate Owed(keys: seq<Key>, i: nat, answer: Answer, pending: seq<Entry>) {
    i < |keys| && answer.Proper() && TailOf(pending, AnswerEntries(keys[i], answer))
  }

  ghost predicate RequestSound(q: Request) {
    match q.phase
    case Turn(i) => i < |q.keys|
    case Writing(i, answer, pending) => pending != [] && Owed(q.keys, i, answer, pending)
    case _ => true
  }

  predicate HoldsMutex(q: Request) {
    q.phase.Locked? || q.phase.Released?
  }

  function SchedulerKeys(c: Scheduler): seq<Key> {
    if c.Idle? then [] else c.queue
  }

  ghost predicate SnapshotsKnown(s: System) {
    && (forall r :: r in s.requests ==> AllKnown(s.table, s.requests[r].keys))
    && (forall m :: m in s.models ==> AllKnown(s.table, s.models[m].keys))
    && (forall k :: k in s.waiting ==> Known(s.table, k.key))
    && (s.tester.Some? ==> Known(s.table, s.tester.value.key))
    && AllKnown(s.table, SchedulerKeys(s.scheduler))
  }

  ghost predicate RequestsSound(s: System) {
    && (forall r :: r in s.requests ==> RequestSound(s.requests[r]))
    && (forall r :: r in s.requests && HoldsMutex(s.requests[r]) ==> s.mutex == Some(r))
    && (s.mutex.Some? ==> s.mutex.value in s.requests && HoldsMutex(s.requests[s.mutex.value]))
  }

  ghost predicate Inv(s: System) {
    && Sound(s.table)
    && SnapshotsKnown(s)
    && RequestsSound(s)
  }

  function Start(settings: Settings): System {
    System(EMPTY_TABLE, 0, settings, None, map[], [], None, Idle, map[], {}, [])
  }

  // ---------- One step ----------

  ghost predicate EntryProper(e: Entry, key: Key, answer: Answer, now: Instant) {
    && !e.call.CreateKey? && !e.call.MarkHalfOpenDue? && !e.call.UpdateKey? && !e.call.DeleteKey?
    && e.call.id == key.id
    && ProperCall(e.call) && ProperCall(Stamped(e.call, now)) && Stamped(e.call, now).id == key.id
    && (e.call.MarkUsed? ==> answer.Served())
  }

  lemma AnswerEntriesProper(key: Key, answer: Answer, now: Instant)
    requires answer.Proper()
    ensures forall e :: e in AnswerEntries(key, answer) ==> EntryProper(e, key, answer, now)
  {
  }

  /** A pending entry names the key whose answer asked for it. */
  lemma PendingProper(q: Request, now: Instant)
    requires RequestSound(q) && q.phase.Writing?
    ensures EntryProper(q.phase.pending[0], q.keys[q.phase.i], q.phase.answer, now)
  {
    var es := AnswerEntries(q.keys[q.phase.i], q.phase.answer);
    AnswerEntriesProper(q.keys[q.phase.i], q.phase.answer, now);
    assert q.phase.pending[0] == es[|es| - |q.phase.pending|];
  }

  lemma StatementProper(s: System, a: Action)
    requires Inv(s)
    ensures Statement(s, a).Some? ==> ProperCall(Statement(s, a).value)
  {
    if a.Write? && CanWrite(s, a.r) {
      PendingProper(s.requests[a.r], s.clock);
    }
  }

  lemma KnownStays(t: Table, c: Call, k: Key)
    requires WellKeyed(t) && Known(t, k)
    ensures Known(Apply(t, c), k)
  {
    ApplyKeepsIdentity(t, c);
  }

  lemma ReadKeysKnown(q: Query, t: Table)
    requires WellKeyed(t)
    ensures AllKnown(t, Listing(q, t))
  {
  }

  lemma SnapshotsStay(s: System, t: Table)
    requires SnapshotsKnown(s)
    requires forall k :: Known(s.table, k) ==> Known(t, k)
    ensures SnapshotsKnown(s.(table := t))
  {
  }

  lemma TableAfterKnows(s: System, a: Action)
    requires Inv(s)
    ensures forall k :: Known(s.table, k) ==> Known(TableAfter(s, a), k)
  {
    forall k | Known(s.table, k)
      ensures Known(TableAfter(s, a), k)
    {
      if Statement(s, a).Some? {
        KnownStays(s.table, Statement(s, a).value, k);
      }
    }
  }

  /** The step only ever adds keys that were just read from the table. */
  lemma RequestMoveReads(s: System, a: Action)
    requires WellKeyed(s.table) && SnapshotsKnown(s) && IsRequestAction(a)
    ensures SnapshotsKnown(RequestMove(s, a))
  {
    ReadKeysKnown(EligibleQuery, s.table);
  }

  lemma TestMoveReads(s: System, a: Action)
    requires WellKeyed(s.table) && SnapshotsKnown(s) && (a.AskTest? || a.StartTest? || a.TestStep?)
    ensures SnapshotsKnown(ProbeMove(s, a))
  {
  }

  lemma SchedulerMoveReads(s: System, a: Action)
    requires WellKeyed(s.table) && SnapshotsKnown(s) && IsProbeAction(a)
    requires !a.AskTest? && !a.StartTest? && !a.TestStep?
    ensures SnapshotsKnown(ProbeMove(s, a))
  {
    if a.SchedulerList? {
      ReadKeysKnown(ListQuery, s.table);
    }
  }

  lemma ControlMoveReads(s: System, a: Action)
    requires WellKeyed(s.table) && SnapshotsKnown(s)
    ensures SnapshotsKnown(ControlMove(s, a))
  {
    ReadKeysKnown(AuthValidQuery, s.table);
  }

  lemma MoveReads(s: System, a: Action)
    requires WellKeyed(s.table) && SnapshotsKnown(s)
    ensures SnapshotsKnown(Move(s, a))
  {
    if IsRequestAction(a) {
      RequestMoveReads(s, a);
    } else if a.AskTest? || a.StartTest? || a.TestStep? {
      TestMoveReads(s, a);
    } else if IsProbeAction(a) {
      SchedulerMoveReads(s, a);
    } else {
      ControlMoveReads(s, a);
    }
  }

  lemma MoveKeepsTable(s: System, a: Action)
    requires WellKeyed(s.table)
    ensures Move(s, a).table == s.table
  {
  }

  lemma StepKeepsSnapshots(s: System, a: Action)
    requires Inv(s)
    ensures SnapshotsKnown(Step(s, a))
  {
    MoveReads(s, a);
    MoveKeepsTable(s, a);
    TableAfterKnows(s, a);
    SnapshotsStay(Move(s, a), TableAfter(s, a));
  }

  lemma SettleSound(keys: seq<Key>, i: nat, answer: Answer, pending: seq<Entry>)
    requires Owed(keys, i, answer, pending)
    ensures RequestSound(Request(Settle(keys, i, answer, pending), keys))
    ensures !HoldsMutex(Request(Settle(keys, i, answer, pending), keys))
  {
    if pending != [] {
      assert Settle(keys, i, answer, pending) == Writing(i, answer, pending);
    }
  }

  lemma TailOfTail(pending: seq<Entry>, es: seq<Entry>)
    requires TailOf(pending, es) && pending != []
    ensures TailOf(pending[1..], es)
  {
  }

  lemma ReplaceKeepsRequests(s: System, r: nat, q: Request)
    requires RequestsSound(s) && r in s.requests && !HoldsMutex(s.requests[r])
    requires RequestSound(q) && !HoldsMutex(q)
    ensures RequestsSound(s.(requests := s.requests[r := q]))
  {
  }

  lemma WriteKeepsRequests(s: System, r: nat)
    requires WellKeyed(s.table) && RequestsSound(s)
    ensures RequestsSound(RequestMove(s, Write(r)))
  {
    if CanWrite(s, r) {
      var Request(Writing(i, answer, pending), keys) := s.requests[r];
      TailOfTail(pending, AnswerEntries(keys[i], answer));
      SettleSound(keys, i, answer, pending[1..]);
      ReplaceKeepsRequests(s, r, Request(Settle(keys, i, answer, pending[1..]), keys));
    }
  }

  lemma AnsweredKeepsRequests(s: System, r: nat, answer: Answer)
    requires WellKeyed(s.table) && RequestsSound(s)
    ensures RequestsSound(RequestMove(s, Answered(r, answer)))
  {
    if r in s.requests && s.requests[r].phase.Turn? && s.requests[r].phase.i < |s.requests[r].keys| && answer.Proper() {
      var keys, i := s.requests[r].keys, s.requests[r].phase.i;
      var es := AnswerEntries(keys[i], answer);
      SettleSound(keys, i, answer, es);
      ReplaceKeepsRequests(s, r, Request(Settle(keys, i, answer, es), keys));
    }
  }

  lemma QueueKeepsRequests(s: System, a: Action)
    requires WellKeyed(s.table) && RequestsSound(s) && (a.Arrive? || a.Enter? || a.ReleaseDue? || a.Snapshot?)
    ensures RequestsSound(RequestMove(s, a))
  {
  }

  lemma OthersKeepRequests(s: System, a: Action)
    requires WellKeyed(s.table) && !IsRequestAction(a)
    ensures Move(s, a).requests == s.requests && Move(s, a).mutex == s.mutex
  {
  }

  lemma MoveKeepsRequests(s: System, a: Action)
    requires WellKeyed(s.table) && RequestsSound(s)
    ensures RequestsSound(Move(s, a))
  {
    if a.Write? {
      WriteKeepsRequests(s, a.r);
    } else if a.Answered? {
      AnsweredKeepsRequests(s, a.r, a.answer);
    } else if IsRequestAction(a) {
      QueueKeepsRequests(s, a);
    } else {
      OthersKeepRequests(s, a);
    }
  }

  lemma StepKeepsRequests(s: System, a: Action)
    requires Inv(s)
    ensures RequestsSound(Step(s, a))
  {
    MoveKeepsRequests(s, a);
    RequestsIgnoreTable(Move(s, a), TableAfter(s, a));
  }

  lemma RequestsIgnoreTable(s: System, t: Table)
    requires RequestsSound(s)
    ensures RequestsSound(s.(table := t))
  {
  }

  /** The pool invariant survives every step of every process. */
  lemma StepKeepsInv(s: System, a: Action)
    requires Inv(s)
    ensures Inv(Step(s, a))
  {
    StatementProper(s, a);
    if Statement(s, a).Some? {
      ApplyKeepsSound(s.table, Statement(s, a).value);
    }
    StepKeepsSnapshots(s, a);
    StepKeepsRequests(s, a);
  }

  // ---------- Whole runs ----------

  /** The states a run goes through, one per action, starting with s. */
  ghost predicate IsRun(states: seq<System>, actions: seq<Action>) {
    && |states| == |actions| + 1
    && (forall n :: 0 <= n < |states| ==> WellKeyed(states[n].table))
    && (forall n :: 0 <= n < |actions| ==> states[n + 1] == Step(states[n], actions[n]))
  }

  lemma {:induction false} RunKeepsInv(states: seq<System>, actions: seq<Action>, n: nat)
    requires IsRun(states, actions) && n < |states| && Inv(states[0])
    ensures Inv(states[n])
    decreases n
  {
    if n > 0 {
      RunKeepsInv(states, actions, n - 1);
      StepKeepsInv(states[n - 1], actions[n - 1]);
    }
  }

  /** Under every interleaving: at most one key is active, the active key is enabled,
      every cooling key has a deadline, and every remembered key still means the same row. */
  lemma PoolSafety(settings: Settings, states: seq<System>, actions: seq<Action>, n: nat)
    requires IsRun(states, actions) && n < |states| && states[0] == Start(settings)
    ensures Sound(states[n].table) && SnapshotsKnown(states[n]) && RequestsSound(states[n])
  {
    RunKeepsInv(states, actions, n);
  }

  /** The remembered key a step writes for. */
  ghost function Target(s: System, a: Action): Option<Key>
    requires Inv(s)
  {
    match a
    case Write(r) => if CanWrite(s, r) then Some(s.requests[r].keys[s.requests[r].phase.i]) else None
    case TestStep(_) => if s.tester.Some? then Some(s.tester.value.key) else None
    case ModelsTry(m, _) => if CanTry(s, m) then Some(s.models[m].keys[s.models[m].i]) else None
    case _ => None
  }

  lemma TargetKnown(s: System, a: Action)
    requires Inv(s) && Target(s, a).Some?
    ensures Known(s.table, Target(s, a).value)
    ensures Statement(s, a).Some? ==>
              var c := Statement(s, a).value;
              !c.CreateKey? && !c.MarkHalfOpenDue? && !c.DeleteKey? && c.id == Target(s, a).value.id
  {
    if a.Write? {
      PendingProper(s.requests[a.r], s.clock);
    }
  }

  /** A statement issued from a stale snapshot reaches the row with the identity the
      snapshot saw, or no row at all; every other row keeps all but an active role. */
  lemma StaleWriteHitsOwnRow(s: System, a: Action, other: nat)
    requires Inv(s) && Target(s, a).Some?
    ensures var key := Target(s, a).value;
            var t := Step(s, a).table;
            && (key.id in s.table.rows ==>
                  && s.table.rows[key.id].fingerprint == key.fingerprint
                  && s.table.rows[key.id].sealed == key.sealed)
            && (key.id !in s.table.rows ==> t.rows == s.table.rows)
            && (other in s.table.rows && other != key.id ==>
                  && other in t.rows
                  && t.rows[other].(role := Standby, updated := 0)
                      == s.table.rows[other].(role := Standby, updated := 0)
                  && (t.rows[other].role == Active ==> s.table.rows[other].role == Active))
  {
    TargetKnown(s, a);
    if Statement(s, a).Some? && other in s.table.rows && other != Target(s, a).value.id {
      ApplyFrame(s.table, Statement(s, a).value, other);
    }
  }

  // ---------- When the active key stops being usable ----------

  ghost predicate ActiveUsable(t: Table) {
    forall id :: id in t.rows && t.rows[id].role == Active ==> Eligible(t.rows[id])
  }

  predicate ActivatesUnusable(t: Table, c: Call) {
    c.SetActive? && Succeeds(t, c) && !Eligible(t.rows[c.id])
  }

  /** A statement spoils a usable active key exactly when it activates a row that is,
      at that moment, cooling or invalid. */
  lemma ActiveUsableExactly(t: Table, c: Call)
    requires Sound(t) && ActiveUsable(t) && ProperCall(c)
    ensures ActiveUsable(Apply(t, c)) <==> !ActivatesUnusable(t, c)
  {
    if ActivatesUnusable(t, c) {
      var u := Apply(t, c);
      assert c.id in u.rows && u.rows[c.id].role == Active && !Eligible(u.rows[c.id]);
    }
  }

  lemma {:induction false} ActiveUsableOverRuns(states: seq<System>, actions: seq<Action>, n: nat)
    requires IsRun(states, actions) && n < |states| && Inv(states[0]) && ActiveUsable(states[0].table)
    requires forall m :: 0 <= m < n && Statement(states[m], actions[m]).Some? ==>
               !ActivatesUnusable(states[m].table, Statement(states[m], actions[m]).value)
    ensures ActiveUsable(states[n].table)
    decreases n
  {
    if n > 0 {
      ActiveUsableOverRuns(states, actions, n - 1);
      RunKeepsInv(states, actions, n - 1);
      var s, a := states[n - 1], actions[n - 1];
      StatementProper(s, a);
      if Statement(s, a).Some? {
        ActiveUsableExactly(s.table, Statement(s, a).value);
      }
    }
  }

  lemma StepKeepsKeys(s: System, a: Action)
    requires WellKeyed(s.table)
    ensures WellKeyed(Step(s, a).table)
  {
    if Statement(s, a).Some? {
      ApplyKeepsKeys(s.table, Statement(s, a).value);
    }
  }

  ghost function Run(s: System, actions: seq<Action>): System
    requires WellKeyed(s.table)
    decreases |actions|
  {
    if actions == [] then s else StepKeepsKeys(s, actions[0]); Run(Step(s, actions[0]), actions[1..])
  }

  lemma {:induction false} RunAppend(s: System, xs: seq<Action>, ys: seq<Action>)
    requires WellKeyed(s.table)
    ensures WellKeyed(Run(s, xs).table)
    ensures Run(s, xs + ys) == Run(Run(s, xs), ys)
    decreases |xs|
  {
    if xs == [] {
      assert xs + ys == ys;
    } else {
      StepKeepsKeys(s, xs[0]);
      assert (xs + ys)[1..] == xs[1..] + ys;
      RunAppend(Step(s, xs[0]), xs[1..], ys);
    }
  }

  lemma RunThen(s: System, xs: seq<Action>, ys: seq<Action>, mid: System)
    requires WellKeyed(s.table) && Run(s, xs) == mid
    ensures WellKeyed(mid.table) && Run(s, xs + ys) == Run(mid, ys)
  {
    RunAppend(s, xs, ys);
  }

  lemma RunStep(s: System, a: Action, rest: seq<Action>)
    requires WellKeyed(s.table)
    ensures WellKeyed(Step(s, a).table) && Run(s, [a] + rest) == Run(Step(s, a), rest)
  {
    StepKeepsKeys(s, a);
    assert ([a] + rest)[1..] == rest;
  }

  ghost predicate OnlyKey(t: Table, k: Key) {
    t.rows == map[k.id := k]
  }

  lemma OnlyKeyListed(t: Table, k: Key)
    requires WellKeyed(t) && OnlyKey(t, k) && Eligible(k)
    ensures Listing(EligibleQuery, t) == [k]
  {
    assert WantedIds(EligibleQuery, t.rows) == {k.id};
    assert t.rows[k.id] in Listing(EligibleQuery, t);
  }

  function OpeningMoves(r: nat): seq<Action> {
    [Arrive(r)] + ([Enter(r)] + ([ReleaseDue(r, false)] + ([Snapshot(r, true)] + [])))
  }

  function With(s: System, mutex: Option<nat>, r: nat, q: Request): System {
    s.(mutex := mutex, requests := s.requests[r := q])
  }

  lemma ArriveEffect(s: System, r: nat)
    requires WellKeyed(s.table) && r !in s.requests && s.mutex == None
    ensures Step(s, Arrive(r)) == With(s, None, r, Request(Entering, []))
  {
  }

  lemma EnterEffect(s: System, r: nat)
    requires WellKeyed(s.table) && s.mutex == None
    ensures Step(With(s, None, r, Request(Entering, [])), Enter(r)) == With(s, Some(r), r, Request(Locked, []))
  {
  }

  lemma ReleaseEffect(s: System, r: nat)
    requires WellKeyed(s.table)
    ensures Step(With(s, Some(r), r, Request(Locked, [])), ReleaseDue(r, false))
            == With(s, Some(r), r, Request(Released, []))
  {
  }

  lemma SnapshotEffect(s: System, r: nat, k: Key)
    requires WellKeyed(s.table) && OnlyKey(s.table, k) && Eligible(k)
    ensures Step(With(s, Some(r), r, Request(Released, [])), Snapshot(r, true))
            == With(s, None, r, Request(Turn(0), [k]))
  {
    OnlyKeyListed(s.table, k);
  }

  lemma OpeningReachesTurn(s: System, r: nat, k: Key)
    requires WellKeyed(s.table) && r !in s.requests && s.mutex == None && OnlyKey(s.table, k) && Eligible(k)
    ensures Run(s, OpeningMoves(r)) == With(s, None, r, Request(Turn(0), [k]))
  {
    RunStep(s, Arrive(r), [Enter(r)] + ([ReleaseDue(r, false)] + ([Snapshot(r, true)] + [])));
    ArriveEffect(s, r);
    RunStep(Step(s, Arrive(r)), Enter(r), [ReleaseDue(r, false)] + ([Snapshot(r, true)] + []));
    EnterEffect(s, r);
    OpeningEnds(s, r, k);
  }

  lemma OpeningEnds(s: System, r: nat, k: Key)
    requires WellKeyed(s.table) && OnlyKey(s.table, k) && Eligible(k)
    ensures Run(With(s, Some(r), r, Request(Locked, [])), [ReleaseDue(r, false)] + ([Snapshot(r, true)] + []))
            == With(s, None, r, Request(Turn(0), [k]))
  {
    var s2 := With(s, Some(r), r, Request(Locked, []));
    RunStep(s2, ReleaseDue(r, false), [Snapshot(r, true)] + []);
    ReleaseEffect(s, r);
    RunStep(Step(s2, ReleaseDue(r, false)), Snapshot(r, true), []);
    SnapshotEffect(s, r, k);
  }

  function ServingMoves(a: nat): seq<Action> {
    [Answered(a, Plain(200, 0, true, true))] + ([Write(a)] + [])
  }

  /** An answer puts the request to writing what it asks for. */
  lemma AnsweredEffect(s: System, a: nat, k: Key, answer: Answer, es: seq<Entry>)
    requires WellKeyed(s.table) && a in s.requests && s.requests[a] == Request(Turn(0), [k])
    requires answer.Proper() && AnswerEntries(k, answer) == es && es != []
    ensures Step(s, Answered(a, answer)) == With(s, s.mutex, a, Request(Writing(0, answer, es), [k]))
  {
  }

  lemma WriteEffect(s: System, a: nat, k: Key, answer: Answer, e: Entry, rest: seq<Entry>, after: Phase)
    requires WellKeyed(s.table) && e.stored && !e.call.SetActive? && after == Settle([k], 0, answer, rest)
    ensures Step(With(s, s.mutex, a, Request(Writing(0, answer, [e] + rest), [k])), Write(a))
            == With(s, s.mutex, a, Request(after, [k])).(table := Apply(s.table, Stamped(e.call, s.clock)))
  {
    var pending := [e] + rest;
    assert pending[0] == e && pending[1..] == rest;
  }

  lemma ServingMarksUsed(s: System, a: nat, k: Key)
    requires WellKeyed(s.table) && a in s.requests && s.requests[a] == Request(Turn(0), [k]) && k.role == Standby
    ensures Run(s, ServingMoves(a)) ==
            With(s, s.mutex, a,
                 Request(Writing(0, Plain(200, 0, true, true), [Entry(SetActive(k.id, 0), false, true)]), [k]))
              .(table := Apply(s.table, MarkUsed(k.id, s.clock)))
  {
    var answer := Plain(200, 0, true, true);
    var use, rest := Entry(MarkUsed(k.id, 0), false, true), [Entry(SetActive(k.id, 0), false, true)];
    assert AnswerEntries(k, answer) == [use] + rest;
    RunStep(s, Answered(a, answer), [Write(a)] + []);
    AnsweredEffect(s, a, k, answer, [use] + rest);
    RunStep(With(s, s.mutex, a, Request(Writing(0, answer, [use] + rest), [k])), Write(a), []);
    WriteEffect(s, a, k, answer, use, rest, Writing(0, answer, rest));
  }

  function RefusedMoves(b: nat, why: Classification): seq<Action> {
    [Answered(b, Refused(why, None, 0, true))] + ([Write(b)] + [])
  }

  lemma RefusalCools(s: System, b: nat, k: Key, why: Classification)
    requires WellKeyed(s.table) && b in s.requests && s.requests[b] == Request(Turn(0), [k]) && why.kind == QuotaError
    ensures Run(s, RefusedMoves(b, why)) ==
            With(s, s.mutex, b, Request(Finished, [k]))
              .(table := Apply(s.table, Stamped(FailureCall(k.id, why, None, 0), s.clock)))
  {
    var answer, e := Refused(why, None, 0, true), Entry(FailureCall(k.id, why, None, 0), true, true);
    assert AnswerEntries(k, answer) == [e] + [];
    RunStep(s, Answered(b, answer), [Write(b)] + []);
    AnsweredEffect(s, b, k, answer, [e] + []);
    RunStep(With(s, s.mutex, b, Request(Writing(0, answer, [e] + []), [k])), Write(b), []);
    WriteEffect(s, b, k, answer, e, [], Finished);
  }

  function RacingMoves(a: nat, b: nat, why: Classification): seq<Action> {
    ServingMoves(a) + (RefusedMoves(b, why) + ([Write(a)] + []))
  }

  lemma LatePromotion(s: System, a: nat, k: Key)
    requires WellKeyed(s.table) && a in s.requests && s.mutex == None
    requires s.requests[a]
             == Request(Writing(0, Plain(200, 0, true, true), [Entry(SetActive(k.id, 0), false, true)]), [k])
    requires k.id in s.table.rows && s.table.rows[k.id].enabled
    ensures Run(s, [Write(a)] + []).table == Apply(s.table, SetActive(k.id, s.clock))
  {
    RunStep(s, Write(a), []);
    assert s.requests[a].phase.pending[0] == Entry(SetActive(k.id, 0), false, true);
  }

  ghost predicate ActiveAndCooling(t: Table, id: nat) {
    id in t.rows && t.rows[id].role == Active && t.rows[id].quota == Cooling
  }

  lemma RaceTable(t: Table, k: Key, cool: Call, now: Instant)
    requires k.id in t.rows && t.rows[k.id] == k && k.enabled && cool.MarkQuota? && cool.id == k.id
    ensures ActiveAndCooling(Apply(Apply(Apply(t, MarkUsed(k.id, now)), cool), SetActive(k.id, now)), k.id)
  {
  }

  lemma CoolKeepsEnabled(t: Table, cool: Call)
    requires WellKeyed(t) && cool.MarkQuota? && cool.id in t.rows && t.rows[cool.id].enabled
    ensures WellKeyed(Apply(t, cool))
    ensures cool.id in Apply(t, cool).rows && Apply(t, cool).rows[cool.id].enabled
  {
    ApplyKeepsKeys(t, cool);
  }

  lemma UseKeepsEnabled(t: Table, k: Key, now: Instant)
    requires WellKeyed(t) && k.id in t.rows && t.rows[k.id].enabled
    ensures WellKeyed(Apply(t, MarkUsed(k.id, now)))
    ensures k.id in Apply(t, MarkUsed(k.id, now)).rows && Apply(t, MarkUsed(k.id, now)).rows[k.id].enabled
  {
    ApplyKeepsKeys(t, MarkUsed(k.id, now));
  }

  /** The state the refusal leaves, with what the promotion to come needs of it. */
  lemma RefusalLeaves(s: System, b: nat, k: Key, why: Classification, cool: Call, mid: System)
    requires WellKeyed(s.table) && b in s.requests && s.requests[b] == Request(Turn(0), [k]) && why.kind == QuotaError
    requires k.id in s.table.rows && s.table.rows[k.id].enabled
    requires cool == Stamped(FailureCall(k.id, why, None, 0), s.clock)
    requires mid == With(s, s.mutex, b, Request(Finished, [k])).(table := Apply(s.table, cool))
    ensures Run(s, RefusedMoves(b, why)) == mid
    ensures WellKeyed(mid.table) && k.id in mid.table.rows && mid.table.rows[k.id].enabled
  {
    assert WellKeyed(mid.table) && k.id in mid.table.rows && mid.table.rows[k.id].enabled by {
      CoolKeepsEnabled(s.table, cool);
    }
    RefusalCools(s, b, k, why);
  }

  lemma RaceTail(s: System, a: nat, b: nat, k: Key, why: Classification, cool: Call)
    requires WellKeyed(s.table) && a in s.requests && b in s.requests && a != b && s.mutex == None
    requires s.requests[a]
             == Request(Writing(0, Plain(200, 0, true, true), [Entry(SetActive(k.id, 0), false, true)]), [k])
    requires s.requests[b] == Request(Turn(0), [k]) && why.kind == QuotaError
    requires k.id in s.table.rows && s.table.rows[k.id].enabled
    requires cool == Stamped(FailureCall(k.id, why, None, 0), s.clock)
    ensures Run(s, RefusedMoves(b, why) + ([Write(a)] + [])).table
            == Apply(Apply(s.table, cool), SetActive(k.id, s.clock))
  {
    var mid := With(s, s.mutex, b, Request(Finished, [k])).(table := Apply(s.table, cool));
    RefusalLeaves(s, b, k, why, cool, mid);
    assert Run(s, RefusedMoves(b, why) + ([Write(a)] + [])) == Run(mid, [Write(a)] + []) by {
      RunThen(s, RefusedMoves(b, why), [Write(a)] + [], mid);
    }
    LatePromotion(mid, a, k);
  }

  lemma RaceEndsIn(s: System, a: nat, b: nat, k: Key, why: Classification)
    requires WellKeyed(s.table) && a in s.requests && b in s.requests && a != b && s.mutex == None
    requires s.requests[a] == Request(Turn(0), [k]) && s.requests[b] == Request(Turn(0), [k])
    requires k.id in s.table.rows && s.table.rows[k.id].enabled && k.role == Standby
    requires why.kind == QuotaError
    ensures var cool := Stamped(FailureCall(k.id, why, None, 0), s.clock);
            Run(s, RacingMoves(a, b, why)).table
            == Apply(Apply(Apply(s.table, MarkUsed(k.id, s.clock)), cool), SetActive(k.id, s.clock))
  {
    RunAppend(s, ServingMoves(a), RefusedMoves(b, why) + ([Write(a)] + []));
    var mid := With(s, None, a,
                    Request(Writing(0, Plain(200, 0, true, true), [Entry(SetActive(k.id, 0), false, true)]), [k]))
               .(table := Apply(s.table, MarkUsed(k.id, s.clock)));
    assert Run(s, ServingMoves(a)) == mid by {
      ServingMarksUsed(s, a, k);
    }
    assert WellKeyed(mid.table) && k.id in mid.table.rows && mid.table.rows[k.id].enabled by {
      UseKeepsEnabled(s.table, k, s.clock);
    }
    RaceTail(mid, a, b, k, why, Stamped(FailureCall(k.id, why, None, 0), s.clock));
  }

  /** Two requests on one standby key: the first is served, the second finds the quota
      spent, and only then does the first promote the key. */
  lemma RaceSpoilsActive(s: System, a: nat, b: nat, k: Key, why: Classification)
    requires WellKeyed(s.table) && a in s.requests && b in s.requests && a != b && s.mutex == None
    requires s.requests[a] == Request(Turn(0), [k]) && s.requests[b] == Request(Turn(0), [k])
    requires k.id in s.table.rows && s.table.rows[k.id] == k && k.enabled && k.role == Standby
    requires why.kind == QuotaError
    ensures ActiveAndCooling(Run(s, RacingMoves(a, b, why)).table, k.id)
  {
    var cool := Stamped(FailureCall(k.id, why, None, 0), s.clock);
    var used := Apply(s.table, MarkUsed(k.id, s.clock));
    assert ActiveAndCooling(Apply(Apply(used, cool), SetActive(k.id, s.clock)), k.id) by {
      RaceTable(s.table, k, cool, s.clock);
    }
    RaceEndsIn(s, a, b, k, why);
  }

  function FirstKey(): Call {
    CreateKey("k", "", "f", 100, true, AuthUnknown, QuotaUnknown, ControlUnknown, 0)
  }

  lemma FirstKeyEffect(settings: Settings)
    ensures Step(Start(settings), AdminCall(FirstKey()))
            == Start(settings).(table := Table(map[1 := NewKey(1, FirstKey())], 2, []))
  {
  }

  function RaceFromScratch(why: Classification): seq<Action> {
    [AdminCall(FirstKey())] + (OpeningMoves(0) + (OpeningMoves(1) + RacingMoves(0, 1, why)))
  }

  /** From an empty installation a run leads to an active key that is cooling. */
  lemma ActiveCanCool(settings: Settings, why: Classification)
    requires why.kind == QuotaError
    ensures !ActiveUsable(Run(Start(settings), RaceFromScratch(why)).table)
  {
    var s, k := Start(settings), NewKey(1, FirstKey());
    FirstKeyEffect(settings);
    RunStep(s, AdminCall(FirstKey()), OpeningMoves(0) + (OpeningMoves(1) + RacingMoves(0, 1, why)));
    var s1 := Step(s, AdminCall(FirstKey()));
    OpeningReachesTurn(s1, 0, k);
    RunAppend(s1, OpeningMoves(0), OpeningMoves(1) + RacingMoves(0, 1, why));
    var s2 := With(s1, None, 0, Request(Turn(0), [k]));
    OpeningReachesTurn(s2, 1, k);
    RunAppend(s2, OpeningMoves(1), RacingMoves(0, 1, why));
    RaceSpoilsActive(With(s2, None, 1, Request(Turn(0), [k])), 0, 1, k, why);
  }

  // ---------- How a key becomes available ----------

  /** The step is the MarkUsed of a request whose key answered below 400 without a
      quota or auth verdict, or of a key test whose probe answered 2xx without one. */
  ghost predicate ServesKey(s: System, a: Action, id: nat)
    requires Inv(s)
  {
    || (&& a.Write? && CanWrite(s, a.r)
        && s.requests[a.r].phase.answer.Served()
        && s.requests[a.r].keys[s.requests[a.r].phase.i].id == id)
    || (&& a.TestStep? && s.tester.Some? && s.tester.value.stage == ProbeStage && s.tester.value.key.id == id
        && a.outcome.ProbeAnswered? && 200 <= a.outcome.status < 300 && !a.outcome.verdict.FailsOver())
  }

  lemma CallQuota(t: Table, c: Call, id: nat)
    requires WellKeyed(t) && ProperCall(c) && id in t.rows && id in Apply(t, c).rows
    ensures Apply(t, c).rows[id].quota == t.rows[id].quota
            || (c.MarkUsed? && c.id == id && Apply(t, c).rows[id].quota == Available)
            || (c.MarkQuota? && c.id == id && Apply(t, c).rows[id].quota == Cooling)
            || (c.MarkHalfOpenDue? && Apply(t, c).rows[id].quota == HalfOpen)
    ensures !c.MarkUsed? && !c.MarkQuota? && !c.MarkHalfOpenDue? ==>
              && Apply(t, c).rows[id].window == t.rows[id].window
              && Apply(t, c).rows[id].coolingUntil == t.rows[id].coolingUntil
  {
  }

  /** A key turns available only by serving an inference, and never turns unknown again. */
  lemma AvailableOnlyByServing(s: System, a: Action, id: nat)
    requires Inv(s) && id in s.table.rows && id in Step(s, a).table.rows
    ensures s.table.rows[id].quota != Available && Step(s, a).table.rows[id].quota == Available
            ==> ServesKey(s, a, id)
    ensures s.table.rows[id].quota != QuotaUnknown ==> Step(s, a).table.rows[id].quota != QuotaUnknown
  {
    StatementProper(s, a);
    if Statement(s, a).Some? {
      var c := Statement(s, a).value;
      CallQuota(s.table, c, id);
      if c.MarkUsed? && c.id == id {
        MarkUsedServes(s, a, id);
      }
    }
  }

  lemma TestMarkUsed(t: KeyTest, o: TestOutcome, settings: Settings, now: Instant)
    ensures TestCall(t, o, settings, now).Some? && TestCall(t, o, settings, now).value.MarkUsed? ==>
              && t.stage == ProbeStage && o.ProbeAnswered? && 200 <= o.status < 300 && !o.verdict.FailsOver()
              && TestCall(t, o, settings, now).value.id == t.key.id
  {
  }

  lemma WriteMarkUsed(s: System, r: nat)
    requires Inv(s) && Statement(s, Write(r)).Some? && Statement(s, Write(r)).value.MarkUsed?
    ensures ServesKey(s, Write(r), Statement(s, Write(r)).value.id)
  {
    PendingProper(s.requests[r], s.clock);
  }

  lemma TestServes(s: System, o: TestOutcome, id: nat)
    requires Inv(s) && Statement(s, TestStep(o)).Some?
    requires Statement(s, TestStep(o)).value.MarkUsed? && Statement(s, TestStep(o)).value.id == id
    ensures ServesKey(s, TestStep(o), id)
  {
    TestMarkUsed(s.tester.value, o, s.settings, s.clock);
  }

  lemma OthersDoNotMarkUsed(s: System, a: Action)
    requires !a.Write? && !a.TestStep? && Statement(s, a).Some?
    ensures !Statement(s, a).value.MarkUsed?
  {
  }

  lemma MarkUsedServes(s: System, a: Action, id: nat)
    requires Inv(s) && Statement(s, a).Some? && Statement(s, a).value.MarkUsed? && Statement(s, a).value.id == id
    ensures ServesKey(s, a, id)
  {
    if a.Write? {
      WriteMarkUsed(s, a.r);
    } else if a.TestStep? {
      TestServes(s, a.outcome, id);
    } else {
      OthersDoNotMarkUsed(s, a);
    }
  }

  predicate ControlPlane(s: System, a: Action) {
    || a.ModelsBegin? || a.ModelsTry? || a.AskTest? || a.StartTest?
    || (a.TestStep? && s.tester.Some? && s.tester.value.stage == ModelsStage)
  }

  lemma ControlPlaneStatement(s: System, a: Action)
    requires ControlPlane(s, a) && Statement(s, a).Some?
    ensures (Statement(s, a).value.MarkChecked? && Statement(s, a).value.newQuota.None?)
            || Statement(s, a).value.MarkInvalid?
  {
  }

  lemma CheckLeavesQuota(t: Table, c: Call, id: nat)
    requires WellKeyed(t) && id in t.rows && ((c.MarkChecked? && c.newQuota.None?) || c.MarkInvalid?)
    ensures id in Apply(t, c).rows && Apply(t, c).events == t.events
    ensures var k, k' := t.rows[id], Apply(t, c).rows[id];
            k'.quota == k.quota && k'.window == k.window && k'.coolingUntil == k.coolingUntil
  {
  }

  /** Model listing and tests that do not reach the probe leave every quota field alone. */
  lemma ControlPlaneLeavesQuota(s: System, a: Action, id: nat)
    requires Inv(s) && id in s.table.rows && ControlPlane(s, a)
    ensures id in Step(s, a).table.rows
    ensures var k, k' := s.table.rows[id], Step(s, a).table.rows[id];
            k'.quota == k.quota && k'.window == k.window && k'.coolingUntil == k.coolingUntil
    ensures Step(s, a).table.events == s.table.events
  {
    if Statement(s, a).Some? {
      ControlPlaneStatement(s, a);
      CheckLeavesQuota(s.table, Statement(s, a).value, id);
    }
  }

  lemma NewKeysUnknown(s: System, a: Action, id: nat)
    requires Inv(s) && id !in s.table.rows && id in Step(s, a).table.rows
    ensures Step(s, a).table.rows[id].quota == QuotaUnknown
  {
    StatementProper(s, a);
    NewRowUnknown(s.table, Statement(s, a).value, id);
  }

  lemma NewRowUnknown(t: Table, c: Call, id: nat)
    requires ProperCall(c) && id !in t.rows && id in Apply(t, c).rows
    ensures Apply(t, c).rows[id].quota == QuotaUnknown
  {
  }

  /** One step back from a key found available. */
  lemma AvailableStep(s: System, a: Action, id: nat)
    requires Inv(s) && id in Step(s, a).table.rows && Step(s, a).table.rows[id].quota == Available
    ensures (id in s.table.rows && s.table.rows[id].quota == Available) || ServesKey(s, a, id)
  {
    if id !in s.table.rows {
      NewKeysUnknown(s, a, id);
    } else {
      AvailableOnlyByServing(s, a, id);
    }
  }

  /** Over whole runs: a key found available was made so by a step that served it,
      unless it was available at the start. */
  lemma {:induction false} AvailableHasServed(states: seq<System>, actions: seq<Action>, n: nat, id: nat)
    returns (m: nat)
    requires IsRun(states, actions) && n < |states| && Inv(states[0])
    requires id in states[n].table.rows && states[n].table.rows[id].quota == Available
    requires id in states[0].table.rows ==> states[0].table.rows[id].quota != Available
    ensures m < n && Inv(states[m]) && ServesKey(states[m], actions[m], id)
    decreases n
  {
    m := n - 1;
    RunKeepsInv(states, actions, n - 1);
    var s := states[n - 1];
    AvailableStep(s, actions[n - 1], id);
    if id in s.table.rows && s.table.rows[id].quota == Available {
      m := AvailableHasServed(states, actions, n - 1, id);
    }
  }

  // ---------- Probe spacing ----------

  ghost predicate StampsPast(s: System) {
    forall id :: id in s.table.rows && s.table.rows[id].lastChecked.Some?
        ==> s.table.rows[id].lastChecked.value <= s.clock
  }

  /** The row of a probed key, while it exists, was checked no earlier than a stored stamp. */
  ghost predicate MarkRemembered(s: System, m: ProbeMark) {
    && m.keyId < s.table.nextId
    && m.stamp <= s.clock
    && (m.stored && m.keyId in s.table.rows ==>
          s.table.rows[m.keyId].lastChecked.Some? && s.table.rows[m.keyId].lastChecked.value >= m.stamp)
  }

  ghost predicate SawMark(k: Key, m: ProbeMark) {
    m.scheduled && m.stored && m.keyId == k.id ==> k.lastChecked.Some? && k.lastChecked.value >= m.stamp
  }

  function Gap(settings: Settings): nat {
    settings.probeIntervalSec * NANOS_PER_SECOND
  }

  ghost predicate SchedulerSound(s: System, settings: Settings) {
    && s.settings == settings
    && (s.scheduler.Idle? || s.scheduler.settings == settings)
    && (s.scheduler.Probing? ==> s.scheduler.now <= s.clock)
    && IdsDistinct(SchedulerKeys(s.scheduler))
    && (forall k, m :: k in SchedulerKeys(s.scheduler) && m in s.probes ==> SawMark(k, m))
    && (forall t :: t in s.waiting ==> !t.scheduled && t.stage == ModelsStage)
    && (s.tester.Some? && s.tester.value.scheduled ==>
          && s.scheduler.Probing?
          && Selected(settings, s.scheduler.now, s.tester.value.key)
          && (forall k :: k in SchedulerKeys(s.scheduler) ==> k.id != s.tester.value.key.id)
          && (s.tester.value.stage == ModelsStage ==>
                forall m :: m in s.probes && m.scheduled && m.stored && m.keyId == s.tester.value.key.id ==>
                  s.clock >= m.stamp + Gap(settings)))
  }

  ghost predicate Spaced(probes: seq<ProbeMark>, gap: nat) {
    forall i, j :: 0 <= i < j < |probes| && probes[i].scheduled && probes[i].stored && probes[j].scheduled
                   && probes[i].keyId == probes[j].keyId ==>
      probes[j].stamp >= probes[i].stamp + gap
  }

  ghost predicate SpacingInv(s: System, settings: Settings) {
    && Inv(s)
    && StampsPast(s)
    && (forall m :: m in s.probes ==> MarkRemembered(s, m))
    && SchedulerSound(s, settings)
    && Spaced(s.probes, Gap(settings))
  }

  lemma TestCallStamp(t: KeyTest, o: TestOutcome, settings: Settings, now: Instant)
    requires TestCall(t, o, settings, now).Some?
    ensures var c := TestCall(t, o, settings, now).value; c.DeleteKey? || c.now == now
  {
  }

  lemma StatementStamp(s: System, a: Action)
    requires Statement(s, a).Some?
    ensures Statement(s, a).value.DeleteKey? || Statement(s, a).value.now == s.clock
  {
    if a.TestStep? {
      TestCallStamp(s.tester.value, a.outcome, s.settings, s.clock);
    } else if a.ModelsTry? {
      ModelCallStamp(s.models[a.m].keys[s.models[a.m].i], a.result, s.clock);
    }
  }

  lemma ModelCallStamp(k: Key, o: ModelOutcome, now: Instant)
    requires ModelCall(k, o, now).Some?
    ensures !ModelCall(k, o, now).value.DeleteKey? && ModelCall(k, o, now).value.now == now
  {
  }

  /** Check stamps only move forward. */
  lemma StampsForward(t: Table, c: Call, clock: Instant, id: nat)
    requires WellKeyed(t) && (c.DeleteKey? || c.now == clock) && id in Apply(t, c).rows
    requires id in t.rows && t.rows[id].lastChecked.Some? ==> t.rows[id].lastChecked.value <= clock
    ensures Apply(t, c).rows[id].lastChecked.Some? ==> Apply(t, c).rows[id].lastChecked.value <= clock
    ensures id in t.rows && t.rows[id].lastChecked.Some? ==>
              Apply(t, c).rows[id].lastChecked.Some?
                  && Apply(t, c).rows[id].lastChecked.value >= t.rows[id].lastChecked.value
  {
  }

  lemma StepKeepsStamps(s: System, a: Action)
    requires Inv(s) && StampsPast(s)
    ensures StampsPast(Step(s, a))
    ensures forall m :: MarkRemembered(s, m) ==> MarkRemembered(Step(s, a), m)
  {
    var s' := Step(s, a);
    assert s.clock <= s'.clock;
    if Statement(s, a).Some? {
      StatementStamp(s, a);
      ApplyKeepsIdentity(s.table, Statement(s, a).value);
      forall id | id in s'.table.rows
        ensures s'.table.rows[id].lastChecked.Some? ==> s'.table.rows[id].lastChecked.value <= s.clock
        ensures id in s.table.rows && s.table.rows[id].lastChecked.Some? ==>
          s'.table.rows[id].lastChecked.Some?
              && s'.table.rows[id].lastChecked.value >= s.table.rows[id].lastChecked.value
      {
        StampsForward(s.table, Statement(s, a).value, s.clock, id);
      }
    }
  }

  predicate AddsProbe(s: System, a: Action) {
    && a.TestStep? && a.outcome.ModelsReachable?
    && s.tester.Some? && s.tester.value.stage == ModelsStage && s.tester.value.inference
  }

  function NewMark(s: System, a: Action): ProbeMark
    requires AddsProbe(s, a)
  {
    ProbeMark(s.tester.value.key.id, s.clock, s.tester.value.scheduled, a.outcome.stored)
  }

  lemma ProbesGrow(s: System, a: Action)
    requires Inv(s)
    ensures Step(s, a).probes ==
            if AddsProbe(s, a) then s.probes + [NewMark(s, a)] else s.probes
  {
  }

  lemma NewMarkRemembered(s: System, a: Action)
    requires Inv(s) && AddsProbe(s, a)
    ensures MarkRemembered(Step(s, a), NewMark(s, a))
  {
  }

  lemma ListedSawMarks(s: System, q: Query)
    requires WellKeyed(s.table) && forall m :: m in s.probes ==> MarkRemembered(s, m)
    ensures forall k, m :: k in Listing(q, s.table) && m in s.probes ==> SawMark(k, m)
  {
  }

  lemma NextKeepsScheduler(s: System, settings: Settings)
    requires WellKeyed(s.table) && SchedulerSound(s, settings)
    ensures SchedulerSound(ProbeMove(s, SchedulerNext), settings)
  {
    if s.scheduler.Probing? && s.scheduler.queue != [] && s.tester == None {
      var k := s.scheduler.queue[0];
      assert k in SchedulerKeys(s.scheduler);
      if Selected(settings, s.scheduler.now, k) {
        forall m | m in s.probes && m.scheduled && m.stored && m.keyId == k.id
          ensures s.clock >= m.stamp + Gap(settings)
        {
          assert SawMark(k, m);
        }
      }
    }
  }

  lemma ListKeepsScheduler(s: System, settings: Settings)
    requires WellKeyed(s.table) && SchedulerSound(s, settings) && forall m :: m in s.probes ==> MarkRemembered(s, m)
    ensures SchedulerSound(ProbeMove(s, SchedulerList), settings)
  {
    ListedSawMarks(s, ListQuery);
  }

  lemma TestKeepsScheduler(s: System, a: Action, settings: Settings)
    requires WellKeyed(s.table) && SchedulerSound(s, settings) && (a.AskTest? || a.StartTest?)
    ensures SchedulerSound(ProbeMove(s, a), settings)
  {
  }

  lemma ProbeKeepsScheduler(s: System, a: Action, settings: Settings)
    requires WellKeyed(s.table) && SchedulerSound(s, settings) && a.TestStep?
    ensures SchedulerSound(ProbeMove(s, a), settings)
  {
  }

  lemma TurnsKeepScheduler(s: System, a: Action, settings: Settings)
    requires WellKeyed(s.table) && SchedulerSound(s, settings)
    requires a.SchedulerRelease? || a.SchedulerNow? || a.SchedulerEnd?
    ensures SchedulerSound(ProbeMove(s, a), settings)
  {
  }

  lemma OthersKeepScheduler(s: System, a: Action, settings: Settings)
    requires WellKeyed(s.table) && SchedulerSound(s, settings) && !IsProbeAction(a) && !a.AdminSettings?
    ensures SchedulerSound(Move(s, a), settings)
  {
    var v := Move(s, a);
    assert v.settings == s.settings && v.scheduler == s.scheduler && v.probes == s.probes;
    assert v.waiting == s.waiting && v.tester == s.tester && v.clock >= s.clock;
  }

  lemma MoveKeepsScheduler(s: System, a: Action, settings: Settings)
    requires WellKeyed(s.table) && SchedulerSound(s, settings) && !a.AdminSettings?
    requires forall m :: m in s.probes ==> MarkRemembered(s, m)
    ensures SchedulerSound(Move(s, a), settings)
  {
    if !IsProbeAction(a) {
      OthersKeepScheduler(s, a, settings);
    } else if a.SchedulerList? {
      ListKeepsScheduler(s, settings);
    } else if a.SchedulerNext? {
      NextKeepsScheduler(s, settings);
    } else if a.TestStep? {
      ProbeKeepsScheduler(s, a, settings);
    } else if a.AskTest? || a.StartTest? {
      TestKeepsScheduler(s, a, settings);
    } else {
      TurnsKeepScheduler(s, a, settings);
    }
  }

  lemma SchedulerIgnoresTable(s: System, t: Table, settings: Settings)
    requires SchedulerSound(s, settings)
    ensures SchedulerSound(s.(table := t), settings)
  {
  }

  lemma StepKeepsScheduler(s: System, a: Action, settings: Settings)
    requires SpacingInv(s, settings) && !a.AdminSettings?
    ensures SchedulerSound(Step(s, a), settings)
  {
    MoveKeepsScheduler(s, a, settings);
    SchedulerIgnoresTable(Move(s, a), TableAfter(s, a), settings);
  }

  lemma StepKeepsSpacing(s: System, a: Action, settings: Settings)
    requires SpacingInv(s, settings) && !a.AdminSettings?
    ensures SpacingInv(Step(s, a), settings)
  {
    StepKeepsInv(s, a);
    StepKeepsStamps(s, a);
    ProbesGrow(s, a);
    if AddsProbe(s, a) {
      NewMarkRemembered(s, a);
    }
    StepKeepsScheduler(s, a, settings);
  }

  /** With settings fixed, under every interleaving: a scheduler probe follows an earlier one
      of the same key whose check was stored by at least the probe interval, stamp to stamp;
      and a key under a scheduled test was listed half-open, enabled, with automatic probing
      on for it (by its own setting, else by the general one), and not checked within the
      interval before the pass began. */
  lemma {:induction false} ProbeSpacing(settings: Settings, states: seq<System>, actions: seq<Action>, n: nat)
    requires IsRun(states, actions) && n < |states| && states[0] == Start(settings)
    requires forall m :: 0 <= m < |actions| ==> !actions[m].AdminSettings?
    ensures SpacingInv(states[n], settings)
    ensures Spaced(states[n].probes, settings.probeIntervalSec * NANOS_PER_SECOND)
    ensures states[n].tester.Some? && states[n].tester.value.scheduled ==>
              var k := states[n].tester.value.key;
              && states[n].scheduler.Probing? && states[n].scheduler.now <= states[n].clock
              && k.quota == HalfOpen && k.enabled
              && (k.probeOverride == Some(true) || (k.probeOverride == None && settings.autoProbe))
              && (k.lastChecked.Some? ==>
                    k.lastChecked.value + settings.probeIntervalSec * NANOS_PER_SECOND <= states[n].scheduler.now)
    decreases n
  {
    if n > 0 {
      ProbeSpacing(settings, states, actions, n - 1);
      StepKeepsSpacing(states[n - 1], actions[n - 1], settings);
    }
  }

  /** The scheduler takes the first key left in its queue, and tests it exactly when it was
      listed half-open, enabled, with automatic probing on for it, and not checked within
      the interval before the pass began. */
  lemma NextTestsExactly(s: System, k: Key, rest: seq<Key>)
    requires WellKeyed(s.table) && s.tester == None && s.scheduler.Probing? && s.scheduler.queue == [k] + rest
    ensures var u := Step(s, SchedulerNext);
            var interval := s.scheduler.settings.probeIntervalSec * NANOS_PER_SECOND;
            && u == s.(scheduler := s.scheduler.(queue := rest), tester := u.tester)
            && u.tester ==
               if && k.quota == HalfOpen && k.enabled
                  && (k.probeOverride == Some(true) || (k.probeOverride == None && s.scheduler.settings.autoProbe))
                  && (k.lastChecked == None || k.lastChecked.value + interval <= s.scheduler.now)
               then Some(KeyTest(k, true, true, ModelsStage)) else None
  {
    assert ([k] + rest)[1..] == rest;
  }

  /** A key under a scheduled test was listed half-open, enabled, with automatic probing on
      for it, and not checked within the interval before the pass began; settings and
      beginning are those of the pass under way. */
  ghost predicate TestedAsListed(s: System) {
    && (forall t :: t in s.waiting ==> !t.scheduled)
    && (s.tester.Some? && s.tester.value.scheduled ==>
          && s.scheduler.Probing?
          && var k, rules := s.tester.value.key, s.scheduler.settings;
             && k.quota == HalfOpen && k.enabled
             && (k.probeOverride == Some(true) || (k.probeOverride == None && rules.autoProbe))
             && (k.lastChecked.Some? ==>
                   k.lastChecked.value + rules.probeIntervalSec * NANOS_PER_SECOND <= s.scheduler.now))
  }

  lemma StepKeepsTested(s: System, a: Action)
    requires WellKeyed(s.table) && TestedAsListed(s)
    ensures TestedAsListed(Step(s, a))
  {
    if IsProbeAction(a) {
      ProbeKeepsTested(s, a);
    } else {
      var v := Move(s, a);
      assert v.waiting == s.waiting && v.tester == s.tester && v.scheduler == s.scheduler;
    }
  }

  lemma ProbeKeepsTested(s: System, a: Action)
    requires WellKeyed(s.table) && TestedAsListed(s) && IsProbeAction(a)
    ensures TestedAsListed(ProbeMove(s, a))
  {
  }

  /** So in every reachable state of every interleaving, whatever becomes of the settings. */
  lemma {:induction false} ScheduledAsListed(settings: Settings, states: seq<System>, actions: seq<Action>, n: nat)
    requires IsRun(states, actions) && n < |states| && states[0] == Start(settings)
    ensures TestedAsListed(states[n])
    decreases n
  {
    if n > 0 {
      ScheduledAsListed(settings, states, actions, n - 1);
      StepKeepsTested(states[n - 1], actions[n - 1]);
    }
  }

  lemma PassLists(s: System, keys: seq<Key>)
    requires WellKeyed(s.table) && s.scheduler == Idle && keys == Listing(ListQuery, s.table)
    ensures Step(s, SchedulerList) == s.(scheduler := Listed(s.settings, keys))
  {
  }

  lemma PassClock(s: System, keys: seq<Key>)
    requires WellKeyed(s.table)
    ensures Step(s.(scheduler := Listed(s.settings, keys)), SchedulerNow)
            == s.(scheduler := Probing(s.settings, s.clock, keys))
  {
  }

  /** A pass starts with every row there is, in order, and the settings and time read then. */
  lemma PassReadsAll(s: System)
    requires WellKeyed(s.table) && s.scheduler == Idle
    ensures var u := Step(s, SchedulerList);
            && u.scheduler.Listed? && u.scheduler.settings == s.settings
            && Selects(ListQuery, s.table, u.scheduler.queue)
            && Step(u, SchedulerNow) == u.(scheduler := Probing(s.settings, s.clock, u.scheduler.queue))
  {
    var keys := Listing(ListQuery, s.table);
    PassLists(s, keys);
    PassClock(s, keys);
    assert Selects(ListQuery, s.table, keys) by { ListingSelects(ListQuery, s.table); }
  }

  // ---------- A check that is not stored ----------

  lemma OnlyKeyInList(t: Table, k: Key)
    requires WellKeyed(t) && OnlyKey(t, k)
    ensures Listing(ListQuery, t) == [k]
  {
    assert WantedIds(ListQuery, t.rows) == {k.id};
    assert t.rows[k.id] in Listing(ListQuery, t);
  }

  /** One pass of the scheduler over one key whose check is not stored and whose probe gets
      no answer. */
  function LostPass(): seq<Action> {
    [SchedulerList] + ([SchedulerNow] + ([SchedulerNext] + LostTest()))
  }

  function LostTest(): seq<Action> {
    [TestStep(ModelsReachable(false))] + ([TestStep(ProbeDown)] + ([SchedulerEnd] + []))
  }

  ghost predicate AtRest(s: System, k: Key) {
    && WellKeyed(s.table) && OnlyKey(s.table, k) && s.scheduler == Idle && s.tester == None
    && Selected(s.settings, s.clock, k)
  }

  lemma LostTestEnds(s: System, k: Key)
    requires WellKeyed(s.table)
    ensures var u := s.(scheduler := Probing(s.settings, s.clock, []),
                        tester := Some(KeyTest(k, true, true, ModelsStage)));
            Run(u, LostTest())
            == s.(scheduler := Idle, tester := None, probes := s.probes + [ProbeMark(k.id, s.clock, true, false)])
  {
    var p := s.(scheduler := Probing(s.settings, s.clock, []));
    var u := p.(tester := Some(KeyTest(k, true, true, ModelsStage)));
    var marked := p.(probes := s.probes + [ProbeMark(k.id, s.clock, true, false)]);
    RunStep(u, TestStep(ModelsReachable(false)), [TestStep(ProbeDown)] + ([SchedulerEnd] + []));
    var v := marked.(tester := Some(KeyTest(k, true, true, ProbeStage)));
    assert Step(u, TestStep(ModelsReachable(false))) == v;
    RunStep(v, TestStep(ProbeDown), [SchedulerEnd] + []);
    var w := marked.(tester := None);
    assert Step(v, TestStep(ProbeDown)) == w;
    RunStep(w, SchedulerEnd, []);
  }

  lemma ListEffect(s: System, k: Key)
    requires AtRest(s, k)
    ensures Step(s, SchedulerList) == s.(scheduler := Listed(s.settings, [k]))
  {
    OnlyKeyInList(s.table, k);
  }

  lemma NowEffect(s: System, k: Key)
    requires WellKeyed(s.table)
    ensures Step(s.(scheduler := Listed(s.settings, [k])), SchedulerNow)
            == s.(scheduler := Probing(s.settings, s.clock, [k]))
  {
  }

  lemma NextEffect(s: System, k: Key)
    requires AtRest(s, k)
    ensures Step(s.(scheduler := Probing(s.settings, s.clock, [k])), SchedulerNext)
            == s.(scheduler := Probing(s.settings, s.clock, []), tester := Some(KeyTest(k, true, true, ModelsStage)))
  {
    assert [k][1..] == [];
  }

  lemma LostPassProbes(s: System, k: Key)
    requires AtRest(s, k)
    ensures Run(s, LostPass()) == s.(probes := s.probes + [ProbeMark(k.id, s.clock, true, false)])
  {
    RunStep(s, SchedulerList, [SchedulerNow] + ([SchedulerNext] + LostTest()));
    ListEffect(s, k);
    RunStep(s.(scheduler := Listed(s.settings, [k])), SchedulerNow, [SchedulerNext] + LostTest());
    NowEffect(s, k);
    RunStep(s.(scheduler := Probing(s.settings, s.clock, [k])), SchedulerNext, LostTest());
    NextEffect(s, k);
    LostTestEnds(s, k);
  }

  /** When the store does not take the check, the scheduler's next pass probes the key again
      at once, however long the interval. */
  lemma UnstoredProbesAgain(s: System, k: Key)
    requires AtRest(s, k)
    ensures var m := ProbeMark(k.id, s.clock, true, false);
            Run(s, LostPass() + LostPass()).probes == s.probes + [m] + [m]
  {
    LostPassProbes(s, k);
    RunAppend(s, LostPass(), LostPass());
    LostPassProbes(s.(probes := s.probes + [ProbeMark(k.id, s.clock, true, false)]), k);
  }
}
