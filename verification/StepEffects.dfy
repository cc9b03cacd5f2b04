/** What the steps of the interleaved system read and write, in terms of columns. */
module StepEffects {
  import opened Wrappers
  import opened TextClock
  import opened KeyStore
  import opened Verdict
  import opened KeyPool

  /** When a spent key may be tried again: at the time the refusal names, or else one probe
      interval later, or a quarter of an hour when that is unknown or under a minute. */
  function DeadlineOf(c: Classification, probeIntervalSec: Option<int>, at: Instant): Instant {
    match c.resetAt
    case Some(reset) => reset
    case None =>
      if probeIntervalSec.Some? && probeIntervalSec.value >= 60
      then at + probeIntervalSec.value * NANOS_PER_SECOND
      else at + 900 * NANOS_PER_SECOND
  }

  /** The row of a key once a refusal is on record: a dead credential is never used again,
      a spent quota rests until its deadline; either way the key is active no longer. */
  function RefusedRow(k: Key, c: Classification, probeIntervalSec: Option<int>, at: Instant, now: Instant): Key {
    if c.kind == AuthError then
      k.(auth := AuthInvalid, role := Standby, lastError := c.message, lastChecked := Some(now), updated := now)
    else
      k.(quota := Cooling, role := Standby, window := c.window,
         coolingUntil := Some(DeadlineOf(c, probeIntervalSec, at)),
         lastError := c.message, lastChecked := Some(now), updated := now)
  }

  function RefusedEvents(id: nat, c: Classification, probeIntervalSec: Option<int>, at: Instant, now: Instant)
    : seq<QuotaEvent>
  {
    if c.kind == AuthError then []
    else [QuotaEvent(id, c.window, now, Some(DeadlineOf(c, probeIntervalSec, at)), c.message)]
  }

  function WithRefusal(t: Table, id: nat, c: Classification, probeIntervalSec: Option<int>, at: Instant, now: Instant)
    : Table
  {
    if id !in t.rows then t
    else Table(t.rows[id := RefusedRow(t.rows[id], c, probeIntervalSec, at, now)], t.nextId,
               t.events + RefusedEvents(id, c, probeIntervalSec, at, now))
  }

  /** What is on record of a refusal decided at one instant and written at another. */
  lemma RefusalExactly(t: Table, id: nat, c: Classification, probeIntervalSec: Option<int>, at: Instant, now: Instant)
    requires c.kind == QuotaError || c.kind == AuthError
    ensures c.FailsOver()
    ensures Apply(t, Stamped(FailureCall(id, c, probeIntervalSec, at), now))
            == WithRefusal(t, id, c, probeIntervalSec, at, now)
  {
    if c.kind == AuthError {
      assert t.events + [] == t.events;
    }
  }

  /** A row that has just served: usable in every respect, and free of errors. */
  function ServedRow(k: Key, now: Instant): Key {
    k.(auth := AuthValid, control := Reachable, quota := Available, window := "", coolingUntil := None,
       lastError := "", lastUsed := Some(now), updated := now)
  }

  function WithRow(t: Table, id: nat, row: Key -> Key): Table {
    if id in t.rows then t.(rows := t.rows[id := row(t.rows[id])]) else t
  }

  // ---------- Requests ----------

  /** A request that holds the service mutex reads exactly the eligible rows, the active one
      first, then by priority, and lets the mutex go; a failed read leaves it no key. */
  lemma SnapshotReads(s: System, r: nat, readable: bool)
    requires WellKeyed(s.table) && Phased(s, r, Released)
    ensures var u := Step(s, Snapshot(r, readable));
            && u.table == s.table && u.mutex == None && r in u.requests
            && var q := u.requests[r];
               && (if readable then Selects(EligibleQuery, s.table, q.keys) else q.keys == [])
               && q.phase == if q.keys == [] then Finished else Turn(0)
  {
    ListingSelects(EligibleQuery, s.table);
  }

  /** A request whose key was refused writes the refusal, and then goes on to its next key. */
  lemma RefusedStep(s: System, r: nat, keys: seq<Key>, i: nat, c: Classification, probeIntervalSec: Option<int>,
                    at: Instant)
    requires WellKeyed(s.table) && r in s.requests && i < |keys| && s.requests[r] == Request(Turn(i), keys)
    requires c.kind == QuotaError || c.kind == AuthError
    ensures var answer := Refused(c, probeIntervalSec, at, true);
            var u := Step(Step(s, Answered(r, answer)), Write(r));
            && WellKeyed(Step(s, Answered(r, answer)).table)
            && u.table == WithRefusal(s.table, keys[i].id, c, probeIntervalSec, at, s.clock)
            && u.requests[r] == Request(if i + 1 < |keys| then Turn(i + 1) else Finished, keys)
  {
    RefusalExactly(s.table, keys[i].id, c, probeIntervalSec, at, s.clock);
    var answer := Refused(c, probeIntervalSec, at, true);
    var e := Entry(FailureCall(keys[i].id, c, probeIntervalSec, at), true, true);
    var s1 := s.(requests := s.requests[r := Request(Writing(i, answer, [e]), keys)]);
    assert Step(s, Answered(r, answer)) == s1;
    assert [e][1..] == [];
  }

  // ---------- Key tests and model listing ----------

  /** What a test makes of the tables, outcome by outcome, when the store takes it: an
      unreachable upstream leaves the credential in doubt; a refused credential is dead; a
      listed catalogue makes it valid; and a probe is judged like a request. */
  function Tested(t: Table, test: KeyTest, o: TestOutcome, settings: Settings, now: Instant): Table {
    var id := test.key.id;
    match o
    case SecretLost => t
    case ProbeDown => t
    case ModelsDown(message, stored) =>
      if stored && test.stage == ModelsStage then WithRow(t, id, DoubtedRow(message, now)) else t
    case ModelsRefused(c, stored) =>
      if stored && test.stage == ModelsStage && c.kind == AuthError
      then WithRow(t, id, DeadRow(c.message, now)) else t
    case ModelsReachable(stored) =>
      if stored && test.stage == ModelsStage then WithRow(t, id, ListedRow(now)) else t
    case ProbeAnswered(status, c, at, stored) =>
      if !stored || test.stage != ProbeStage then t
      else if c.kind == QuotaError || c.kind == AuthError
      then WithRefusal(t, id, c, Some(settings.probeIntervalSec), at, now)
      else if 200 <= status < 300 then WithRow(t, id, (k: Key) => ServedRow(k, now)) else t
  }

  function DoubtedRow(message: string, now: Instant): Key -> Key {
    (k: Key) => k.(auth := AuthUnknown, control := Degraded, lastError := message, lastChecked := Some(now),
                   updated := now)
  }

  function DeadRow(message: string, now: Instant): Key -> Key {
    (k: Key) => k.(auth := AuthInvalid, role := Standby, lastError := message, lastChecked := Some(now), updated := now)
  }

  function ListedRow(now: Instant): Key -> Key {
    (k: Key) => k.(auth := AuthValid, control := Reachable, lastError := "", lastChecked := Some(now), updated := now)
  }

  lemma TestCallWrites(t: Table, test: KeyTest, o: TestOutcome, settings: Settings, now: Instant)
    ensures var c := TestCall(test, o, settings, now);
            (if c.Some? then Apply(t, c.value) else t) == Tested(t, test, o, settings, now)
  {
    match o {
      case ProbeAnswered(_, c, at, stored) =>
        if stored && test.stage == ProbeStage {
          if c.kind == QuotaError || c.kind == AuthError {
            RefusalExactly(t, test.key.id, c, Some(settings.probeIntervalSec), at, now);
          }
        }
      case ModelsDown(message, _) =>
      case ModelsRefused(_, _) =>
      case ModelsReachable(_) =>
      case _ =>
    }
  }

  /** That is what the step of a test writes, and all it writes. */
  lemma TestWrites(s: System, o: TestOutcome)
    requires WellKeyed(s.table) && s.tester.Some?
    ensures Step(s, TestStep(o)).table == Tested(s.table, s.tester.value, o, s.settings, s.clock)
  {
    TestCallWrites(s.table, s.tester.value, o, s.settings, s.clock);
    TestStepTable(s, o);
  }

  lemma TestStepTable(s: System, o: TestOutcome)
    requires WellKeyed(s.table) && s.tester.Some?
    ensures var c := TestCall(s.tester.value, o, s.settings, s.clock);
            Step(s, TestStep(o)).table == if c.Some? then Apply(s.table, c.value) else s.table
  {
  }

  /** A test goes on to the probe exactly when the catalogue was listed and a probe was asked
      for; otherwise it is over. */
  lemma TestGoesOn(s: System, o: TestOutcome)
    requires WellKeyed(s.table) && s.tester.Some?
    ensures var test := s.tester.value;
            Step(s, TestStep(o)).tester
            == if o.ModelsReachable? && test.stage == ModelsStage && test.inference
               then Some(test.(stage := ProbeStage)) else None
  {
  }

  /** A model listing reads exactly the enabled rows with no dead credential, reachable ones
      first. */
  lemma ListingReads(s: System, m: nat)
    requires WellKeyed(s.table) && m !in s.models
    ensures var u := Step(s, ModelsBegin(m));
            && u.table == s.table && m in u.models && u.models[m].i == 0
            && Selects(AuthValidQuery, s.table, u.models[m].keys)
  {
    ListingSelects(AuthValidQuery, s.table);
  }

  function Tried(t: Table, id: nat, o: ModelOutcome, now: Instant): Table {
    match o
    case ModelUnusable => t
    case ModelRefused(c, stored) =>
      if stored && c.kind == AuthError then WithRow(t, id, DeadRow(c.message, now)) else t
    case ModelServed(stored) => if stored then WithRow(t, id, ListedRow(now)) else t
  }

  lemma ModelCallWrites(t: Table, k: Key, o: ModelOutcome, now: Instant)
    ensures var c := ModelCall(k, o, now);
            (if c.Some? then Apply(t, c.value) else t) == Tried(t, k.id, o, now)
  {
  }

  /** It ends with the first key that is served, which is marked; a refused credential on
      the way is marked dead; and it goes on to the next key otherwise. */
  lemma ListingWrites(s: System, m: nat, o: ModelOutcome)
    requires WellKeyed(s.table) && m in s.models && s.models[m].i < |s.models[m].keys|
    ensures var u, keys, i := Step(s, ModelsTry(m, o)), s.models[m].keys, s.models[m].i;
            && u.models[m] == ModelRun(keys, if o.ModelServed? then |keys| else i + 1)
            && u.table == Tried(s.table, keys[i].id, o, s.clock)
  {
    ModelCallWrites(s.table, s.models[m].keys[s.models[m].i], o, s.clock);
  }
}
