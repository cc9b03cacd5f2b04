/** Importing a list of upstream keys: line by line, with duplicates told from failures and
    three counters, against the key tables themselves. */
module KeyImport {
  import opened Wrappers
  import opened TextClock
  import opened KeyStore
  import opened Verdict
  import Identity

  /** Whether a key could be sealed, and whether the database took it, duplicates apart. */
  datatype Saving = NotSealed | NotWritten | Written

  datatype Status = Imported | Duplicate | Rejected

  /** One line of the answer: with an imported key go what its test reported, when a test
      was asked for, and its row as it stands after the test, when that can be read. */
  datatype Line = Line(number: nat, name: string, fingerprint: string, status: Status,
                       report: Option<string>, row: Option<Key>)

  /** What a line meets: how saving it goes, when, the statements and the report of the key
      test that follows when one is asked for, and whether the row is readable then. */
  datatype Import = Import(
    lines: seq<string>, prefix: string, priority: int, testing: bool,
    fingerprint: string -> string, seal: string -> string,
    saving: nat -> Saving, at: nat -> Instant,
    tests: nat -> seq<Entry>, reports: nat -> string, readable: nat -> bool)

  const MAX_LINES := 100
  const MAX_SECRET_BYTES := 4096

  function Utf8Bytes(c: char): nat {
    if c as int < 0x80 then 1 else if c as int < 0x800 then 2 else if c as int < 0x1_0000 then 3 else 4
  }

  function ByteLength(s: string, i: nat): nat
    requires i <= |s|
    decreases |s| - i
  {
    if i == |s| then 0 else Utf8Bytes(s[i]) + ByteLength(s, i + 1)
  }

  function Secret(m: Import, i: nat): string
    requires i < |m.lines|
  {
    Identity.Trim(m.lines[i])
  }

  predicate Usable(m: Import, i: nat)
    requires i < |m.lines|
  {
    Secret(m, i) != "" && ByteLength(Secret(m, i), 0) <= MAX_SECRET_BYTES
  }

  function Print(m: Import, i: nat): string
    requires i < |m.lines|
  {
    m.fingerprint(Secret(m, i))
  }

  /** An earlier usable line bears the same fingerprint, whatever became of it. */
  predicate Repeats(m: Import, i: nat)
    requires i < |m.lines|
  {
    exists j :: 0 <= j < i && Usable(m, j) && Print(m, j) == Print(m, i)
  }

  function Fingerprints(t: Table): set<string> {
    set id | id in t.rows :: t.rows[id].fingerprint
  }

  /** What becomes of line i, told from the lines and the fingerprints stored at the start. */
  function StatusOf(m: Import, stored: set<string>, i: nat): Status
    requires i < |m.lines|
  {
    if !Usable(m, i) then Rejected
    else if Repeats(m, i) then Duplicate
    else if m.saving(i) != Written then Rejected
    else if Print(m, i) in stored then Duplicate
    else Imported
  }

  function BasePriority(m: Import): int {
    if m.priority == 0 then 100 else m.priority
  }

  function NameOf(m: Import, i: nat): string
    requires i < |m.lines|
  {
    if Identity.Trim(m.prefix) == "" then "Key " + Print(m, i)
    else if |m.lines| > 1 then Identity.Trim(m.prefix) + " " + Pad(i + 1, 2)
    else Identity.Trim(m.prefix)
  }

  function CreateOf(m: Import, i: nat): Call
    requires i < |m.lines|
  {
    CreateKey(NameOf(m, i), m.seal(Secret(m, i)), Print(m, i), BasePriority(m) + i, true,
              AuthUnknown, QuotaUnknown, ControlUnknown, m.at(i))
  }

  function TestsOf(m: Import, i: nat): seq<Entry> {
    if m.testing then m.tests(i) else []
  }

  /** The tables once line i is imported into them: the new row, then its test. */
  function WithLine(m: Import, t: Table, i: nat): Table
    requires i < |m.lines|
  {
    ApplyEntries(Apply(t, CreateOf(m, i)), TestsOf(m, i))
  }

  /** The tables after the first n lines: the imported ones, in order. */
  function TablesAfter(m: Import, t: Table, n: nat): Table
    requires n <= |m.lines|
  {
    if n == 0 then t
    else if StatusOf(m, Fingerprints(t), n - 1) == Imported then WithLine(m, TablesAfter(m, t, n - 1), n - 1)
    else TablesAfter(m, t, n - 1)
  }

  function RowIn(m: Import, t: Table, id: nat, i: nat): Option<Key> {
    if m.readable(i) && id in t.rows then Some(t.rows[id]) else None
  }

  /** Line i of the answer, told from the lines and the tables at the start. */
  function LineOf(m: Import, t: Table, i: nat): Line
    requires i < |m.lines|
  {
    var status := StatusOf(m, Fingerprints(t), i);
    if !Usable(m, i) then Line(i + 1, "", "", Rejected, None, None)
    else if Repeats(m, i) then Line(i + 1, "", Print(m, i), Duplicate, None, None)
    else if status != Imported then Line(i + 1, NameOf(m, i), Print(m, i), status, None, None)
    else
      Line(i + 1, NameOf(m, i), Print(m, i), Imported,
           if m.testing then Some(m.reports(i)) else None,
           RowIn(m, TablesAfter(m, t, i + 1), TablesAfter(m, t, i).nextId, i))
  }

  function Tally(m: Import, stored: set<string>, status: Status, n: nat): nat
    requires n <= |m.lines|
  {
    if n == 0 then 0 else Tally(m, stored, status, n - 1) + if StatusOf(m, stored, n - 1) == status then 1 else 0
  }

  /** The fingerprints of the imported lines among the first n. */
  function Added(m: Import, stored: set<string>, n: nat): set<string>
    requires n <= |m.lines|
  {
    set i | 0 <= i < n && StatusOf(m, stored, i) == Imported :: Print(m, i)
  }

  // ---------- Key tests in between ----------

  /** The statements a key test may issue. */
  predicate TestStatement(c: Call) {
    c.MarkChecked? || c.MarkInvalid? || c.MarkQuota? || c.MarkUsed?
  }

  predicate OnlyTests(es: seq<Entry>) {
    forall e :: e in es ==> TestStatement(e.call)
  }

  lemma TestKeepsNames(t: Table, c: Call)
    requires WellKeyed(t) && TestStatement(c)
    ensures WellKeyed(Apply(t, c)) && Apply(t, c).nextId == t.nextId
    ensures Fingerprints(Apply(t, c)) == Fingerprints(t)
  {
    var u := Apply(t, c);
    ApplyKeepsKeys(t, c);
    ApplyKeepsNames(t, c);
    assert u.rows.Keys == t.rows.Keys;
    assert forall id :: id in t.rows ==> u.rows[id].fingerprint == t.rows[id].fingerprint;
  }

  lemma {:induction false} TestsKeepNames(t: Table, es: seq<Entry>)
    requires WellKeyed(t) && OnlyTests(es)
    ensures var u := ApplyEntries(t, es);
            WellKeyed(u) && u.nextId == t.nextId && Fingerprints(u) == Fingerprints(t)
    decreases |es|
  {
    if es != [] {
      assert es[0] in es;
      TestKeepsNames(t, es[0].call);
      TestsKeepNames(ApplyEntry(t, es[0]), es[1..]);
    }
  }

  method RunTest(store: Store, es: seq<Entry>)
    requires OnlyTests(es)
    modifies store
    ensures store.Value() == ApplyEntries(old(store.Value()), es)
  {
    for n := 0 to |es|
      invariant ApplyEntries(store.Value(), es[n..]) == ApplyEntries(old(store.Value()), es)
    {
      assert es[n..][1..] == es[n + 1..];
      if es[n].stored {
        assert es[n] in es;
        match es[n].call
        case MarkChecked(id, auth, control, quota, message, now) => store.Check(id, auth, control, quota, message, now);
        case MarkInvalid(id, message, now) => store.Invalidate(id, message, now);
        case MarkQuota(id, window, reset, message, now) => var _ := store.Cool(id, window, reset, message, now);
        case MarkUsed(id, now) => store.Use(id, now);
      }
    }
  }

  // ---------- The import ----------

  lemma CreateAdds(t: Table, c: Call)
    requires WellKeyed(t) && c.CreateKey? && Succeeds(t, c)
    ensures WellKeyed(Apply(t, c)) && Fingerprints(Apply(t, c)) == Fingerprints(t) + {c.fingerprint}
  {
    ApplyKeepsKeys(t, c);
    var u := Apply(t, c);
    assert t.nextId !in t.rows && u.rows[t.nextId].fingerprint == c.fingerprint;
    forall f | f in Fingerprints(t)
      ensures f in Fingerprints(u)
    {
      var id :| id in t.rows && t.rows[id].fingerprint == f;
      assert u.rows[id] == t.rows[id];
    }
  }

  lemma CreateSucceeds(t: Table, c: Call)
    requires c.CreateKey?
    ensures Succeeds(t, c) <==> c.fingerprint !in Fingerprints(t)
  {
  }

  /** The fingerprints of the usable lines among the first n. */
  function Met(m: Import, n: nat): set<string>
    requires n <= |m.lines|
  {
    set j | 0 <= j < n && Usable(m, j) :: Print(m, j)
  }

  lemma MetOneMore(m: Import, i: nat)
    requires i < |m.lines|
    ensures Met(m, i + 1) == Met(m, i) + if Usable(m, i) then {Print(m, i)} else {}
    ensures Print(m, i) in Met(m, i) <==> Repeats(m, i)
  {
  }

  lemma AddedOneMore(m: Import, stored: set<string>, i: nat)
    requires i < |m.lines|
    ensures Added(m, stored, i + 1)
            == Added(m, stored, i) + if StatusOf(m, stored, i) == Imported then {Print(m, i)} else {}
  {
  }

  lemma NotAddedYet(m: Import, stored: set<string>, i: nat)
    requires i < |m.lines| && Usable(m, i) && !Repeats(m, i)
    ensures Print(m, i) !in Added(m, stored, i)
  {
  }

  predicate TestsAreTests(m: Import) {
    forall i :: 0 <= i < |m.lines| ==> OnlyTests(m.tests(i))
  }

  /** An imported line adds its fingerprint and one id. */
  lemma WithLineGains(m: Import, t: Table, i: nat)
    requires WellKeyed(t) && i < |m.lines| && OnlyTests(m.tests(i)) && Print(m, i) !in Fingerprints(t)
    ensures var u := WithLine(m, t, i);
            WellKeyed(u) && u.nextId == t.nextId + 1 && Fingerprints(u) == Fingerprints(t) + {Print(m, i)}
  {
    CreateSucceeds(t, CreateOf(m, i));
    CreateAdds(t, CreateOf(m, i));
    TestsKeepNames(Apply(t, CreateOf(m, i)), TestsOf(m, i));
  }

  /** The tables have the fingerprints of the first n lines imported, and an id for each. */
  ghost predicate Gained(m: Import, t: Table, u: Table, n: nat)
    requires n <= |m.lines|
  {
    && WellKeyed(u)
    && Fingerprints(u) == Fingerprints(t) + Added(m, Fingerprints(t), n)
    && u.nextId == t.nextId + Tally(m, Fingerprints(t), Imported, n)
  }

  lemma LineGains(m: Import, t: Table, u: Table, i: nat)
    requires i < |m.lines| && OnlyTests(m.tests(i)) && Gained(m, t, u, i)
    ensures Gained(m, t, if StatusOf(m, Fingerprints(t), i) == Imported then WithLine(m, u, i) else u, i + 1)
  {
    AddedOneMore(m, Fingerprints(t), i);
    if StatusOf(m, Fingerprints(t), i) == Imported {
      NotAddedYet(m, Fingerprints(t), i);
      WithLineGains(m, u, i);
    }
  }

  /** The tables gain exactly the fingerprints of the imported lines, and an id for each. */
  lemma {:induction false} TablesGain(m: Import, t: Table, n: nat)
    requires WellKeyed(t) && n <= |m.lines| && TestsAreTests(m)
    ensures Gained(m, t, TablesAfter(m, t, n), n)
  {
    if n > 0 {
      TablesGain(m, t, n - 1);
      LineGains(m, t, TablesAfter(m, t, n - 1), n - 1);
    }
  }

  /** What an import gives a key: the name, the sealed secret, its fingerprint, a place in
      the order, and permission to be used. */
  ghost predicate ImportedAs(m: Import, k: Key, i: nat)
    requires i < |m.lines|
  {
    && k.name == (if Identity.Trim(m.prefix) == "" then "Key " + m.fingerprint(Identity.Trim(m.lines[i]))
                  else if |m.lines| > 1 then Identity.Trim(m.prefix) + " " + Pad(i + 1, 2)
                  else Identity.Trim(m.prefix))
    && k.sealed == m.seal(Identity.Trim(m.lines[i]))
    && k.fingerprint == m.fingerprint(Identity.Trim(m.lines[i]))
    && k.priority == (if m.priority == 0 then 100 else m.priority) + i
    && k.enabled && k.created == m.at(i)
  }

  /** Nothing is known of the key yet. */
  predicate Untried(k: Key) {
    && k.role == Standby && k.auth == AuthUnknown && k.quota == QuotaUnknown && k.control == ControlUnknown
    && k.coolingUntil == None && k.lastUsed == None && k.lastChecked == None && k.probeOverride == None
  }

  lemma TestKeepsGift(t: Table, c: Call, id: nat)
    requires TestStatement(c) && id in t.rows
    ensures var u := Apply(t, c);
            && id in u.rows
            && var k, l := t.rows[id], u.rows[id];
               && l.name == k.name && l.sealed == k.sealed && l.fingerprint == k.fingerprint
               && l.priority == k.priority && l.enabled == k.enabled && l.created == k.created
  {
  }

  lemma {:induction false} TestsKeepGift(t: Table, es: seq<Entry>, id: nat)
    requires OnlyTests(es) && id in t.rows
    ensures var u := ApplyEntries(t, es);
            && id in u.rows
            && var k, l := t.rows[id], u.rows[id];
               && l.name == k.name && l.sealed == k.sealed && l.fingerprint == k.fingerprint
               && l.priority == k.priority && l.enabled == k.enabled && l.created == k.created
    decreases |es|
  {
    if es != [] {
      assert es[0] in es;
      TestKeepsGift(t, es[0].call, id);
      TestsKeepGift(ApplyEntry(t, es[0]), es[1..], id);
    }
  }

  /** The row of an imported line bears what the line asked for, whatever its test found. */
  lemma NewRowAs(m: Import, t: Table, i: nat)
    requires i < |m.lines| && OnlyTests(m.tests(i)) && Succeeds(t, CreateOf(m, i))
    ensures var u := WithLine(m, t, i); t.nextId in u.rows && ImportedAs(m, u.rows[t.nextId], i)
    ensures !m.testing ==> Untried(WithLine(m, t, i).rows[t.nextId])
  {
    TestsKeepGift(Apply(t, CreateOf(m, i)), TestsOf(m, i), t.nextId);
  }

  method StoreLine(store: Store, m: Import, i: nat) returns (status: Status, report: Option<string>, row: Option<Key>)
    requires i < |m.lines| && OnlyTests(m.tests(i))
    modifies store
    ensures status == if m.saving(i) != Written then Rejected
                      else if Print(m, i) in old(Fingerprints(store.Value())) then Duplicate else Imported
    ensures store.Value() == if status == Imported then WithLine(m, old(store.Value()), i) else old(store.Value())
    ensures report == if status == Imported && m.testing then Some(m.reports(i)) else None
    ensures row == if status == Imported then RowIn(m, store.Value(), old(store.nextId), i) else None
  {
    report, row := None, None;
    if m.saving(i) != Written {
      return Rejected, report, row;
    }
    CreateSucceeds(store.Value(), CreateOf(m, i));
    var created := store.Create(NameOf(m, i), m.seal(Secret(m, i)), Print(m, i), BasePriority(m) + i, true,
                                AuthUnknown, QuotaUnknown, ControlUnknown, m.at(i));
    if created == None {
      return Duplicate, report, row;
    }
    if m.testing {
      RunTest(store, m.tests(i));
      report := Some(m.reports(i));
    }
    row := if m.readable(i) && created.value.id in store.rows then Some(store.rows[created.value.id]) else None;
    status := Imported;
  }

  /** One usable line whose fingerprint is new to the import: the row is inserted unless the
      key could not be sealed, the database refused, or the fingerprint is stored already. */
  method SaveLine(store: Store, m: Import, i: nat) returns (status: Status, report: Option<string>, row: Option<Key>)
    requires i < |m.lines| && OnlyTests(m.tests(i))
    modifies store
    ensures status == if m.saving(i) != Written then Rejected
                      else if Print(m, i) in old(Fingerprints(store.Value())) then Duplicate else Imported
    ensures store.Value() == if status == Imported then WithLine(m, old(store.Value()), i) else old(store.Value())
    ensures status == Imported ==>
              old(store.nextId) in store.rows && ImportedAs(m, store.rows[old(store.nextId)], i)
    ensures status == Imported && !m.testing ==> Untried(store.rows[old(store.nextId)])
    ensures report == if status == Imported && m.testing then Some(m.reports(i)) else None
    ensures row == if status == Imported then RowIn(m, store.Value(), old(store.nextId), i) else None
  {
    ghost var t := store.Value();
    status, report, row := StoreLine(store, m, i);
    if status == Imported {
      CreateSucceeds(t, CreateOf(m, i));
      NewRowAs(m, t, i);
    }
  }

  lemma SavedStatus(m: Import, t: Table, i: nat)
    requires WellKeyed(t) && i < |m.lines| && TestsAreTests(m) && Usable(m, i) && !Repeats(m, i)
    ensures Print(m, i) in Fingerprints(TablesAfter(m, t, i)) <==> Print(m, i) in Fingerprints(t)
  {
    TablesGain(m, t, i);
    NotAddedYet(m, Fingerprints(t), i);
  }

  /** One pass of the loop. */
  method ImportLine(store: Store, m: Import, i: nat, seen: set<string>, ghost t: Table)
    returns (line: Line, seen': set<string>)
    requires WellKeyed(t) && i < |m.lines| && TestsAreTests(m)
    requires seen == Met(m, i) && store.Value() == TablesAfter(m, t, i)
    modifies store
    ensures line == LineOf(m, t, i) && line.status == StatusOf(m, Fingerprints(t), i) && seen' == Met(m, i + 1)
    ensures store.Value() == TablesAfter(m, t, i + 1)
  {
    var secret := Identity.Trim(m.lines[i]);
    MetOneMore(m, i);
    seen' := seen;
    if secret == "" || ByteLength(secret, 0) > MAX_SECRET_BYTES {
      return Line(i + 1, "", "", Rejected, None, None), seen';
    }
    var fingerprint := m.fingerprint(secret);
    if fingerprint in seen {
      return Line(i + 1, "", fingerprint, Duplicate, None, None), seen';
    }
    seen' := seen + {fingerprint};
    SavedStatus(m, t, i);
    var status, report, row := SaveLine(store, m, i);
    line := Line(i + 1, NameOf(m, i), fingerprint, status, report, row);
  }

  function LinesOf(m: Import, t: Table, n: nat): seq<Line>
    requires n <= |m.lines|
  {
    if n == 0 then [] else LinesOf(m, t, n - 1) + [LineOf(m, t, n - 1)]
  }

  lemma {:induction false} LineIn(m: Import, t: Table, n: nat, i: nat)
    requires i < n <= |m.lines|
    ensures |LinesOf(m, t, n)| == n && LinesOf(m, t, n)[i] == LineOf(m, t, i)
  {
    if i < n - 1 {
      LineIn(m, t, n - 1, i);
    } else {
      LineCount(m, t, n - 1);
    }
  }

  lemma {:induction false} LineCount(m: Import, t: Table, n: nat)
    requires n <= |m.lines|
    ensures |LinesOf(m, t, n)| == n
  {
    if n > 0 {
      LineCount(m, t, n - 1);
    }
  }

  lemma LinesInOrder(m: Import, t: Table, n: nat)
    requires n <= |m.lines|
    ensures |LinesOf(m, t, n)| == n && forall i :: 0 <= i < n ==> LinesOf(m, t, n)[i] == LineOf(m, t, i)
  {
    LineCount(m, t, n);
    forall i | 0 <= i < n
      ensures LinesOf(m, t, n)[i] == LineOf(m, t, i)
    {
      LineIn(m, t, n, i);
    }
  }

  datatype Counts = Counts(imported: nat, duplicates: nat, failed: nat)

  function CountOne(c: Counts, status: Status): Counts {
    match status
    case Imported => c.(imported := c.imported + 1)
    case Duplicate => c.(duplicates := c.duplicates + 1)
    case Rejected => c.(failed := c.failed + 1)
  }

  function CountsAt(m: Import, stored: set<string>, n: nat): Counts
    requires n <= |m.lines|
  {
    if n == 0 then Counts(0, 0, 0) else CountOne(CountsAt(m, stored, n - 1), StatusOf(m, stored, n - 1))
  }

  lemma {:induction false} CountsAreTallies(m: Import, stored: set<string>, n: nat)
    requires n <= |m.lines|
    ensures CountsAt(m, stored, n)
            == Counts(Tally(m, stored, Imported, n), Tally(m, stored, Duplicate, n), Tally(m, stored, Rejected, n))
  {
    if n > 0 {
      CountsAreTallies(m, stored, n - 1);
    }
  }

  /** The loop over the lines. */
  method ImportAll(store: Store, m: Import)
    returns (results: seq<Line>, imported: nat, duplicates: nat, failed: nat)
    requires WellKeyed(store.Value()) && TestsAreTests(m)
    modifies store
    ensures Counted(m, old(store.Value()), results, imported, duplicates, failed)
    ensures store.Value() == TablesAfter(m, old(store.Value()), |m.lines|)
  {
    ghost var t := store.Value();
    ghost var stored := Fingerprints(t);
    var seen: set<string> := {};
    results, imported, duplicates, failed := [], 0, 0, 0;
    for i := 0 to |m.lines|
      invariant results == LinesOf(m, t, i)
      invariant Counts(imported, duplicates, failed) == CountsAt(m, stored, i)
      invariant seen == Met(m, i)
      invariant store.Value() == TablesAfter(m, t, i)
    {
      var line;
      line, seen := ImportLine(store, m, i, seen, t);
      match line.status {
        case Imported => imported := imported + 1;
        case Duplicate => duplicates := duplicates + 1;
        case Rejected => failed := failed + 1;
      }
      results := results + [line];
    }
    LinesInOrder(m, t, |m.lines|);
    CountsAreTallies(m, stored, |m.lines|);
  }

  /** One result a line, in order; and the counters are how often each status occurs. */
  ghost predicate Counted(m: Import, t: Table, results: seq<Line>, imported: nat, duplicates: nat, failed: nat) {
    && |results| == |m.lines|
    && (forall i :: 0 <= i < |m.lines| ==> results[i] == LineOf(m, t, i))
    && imported == Tally(m, Fingerprints(t), Imported, |m.lines|)
    && duplicates == Tally(m, Fingerprints(t), Duplicate, |m.lines|)
    && failed == Tally(m, Fingerprints(t), Rejected, |m.lines|)
  }

  /** importKeys, once its input is decoded. A list of 1 to 100 lines is accepted; the
      tables gain the row of every imported line, with its test, and nothing else. */
  method ImportKeys(store: Store, m: Import)
    returns (accepted: bool, results: seq<Line>, imported: nat, duplicates: nat, failed: nat)
    requires WellKeyed(store.Value()) && TestsAreTests(m)
    modifies store
    ensures WellKeyed(store.Value()) && accepted == (0 < |m.lines| <= MAX_LINES)
    ensures !accepted ==> store.Value() == old(store.Value())
    ensures accepted ==>
              && Counted(m, old(store.Value()), results, imported, duplicates, failed)
              && store.Value() == TablesAfter(m, old(store.Value()), |m.lines|)
    ensures accepted ==>
              var stored := old(Fingerprints(store.Value()));
              && Fingerprints(store.Value()) == stored + Added(m, stored, |m.lines|)
              && store.nextId == old(store.nextId) + imported
  {
    accepted, results, imported, duplicates, failed := 0 < |m.lines| <= MAX_LINES, [], 0, 0, 0;
    if accepted {
      TablesGain(m, store.Value(), |m.lines|);
      results, imported, duplicates, failed := ImportAll(store, m);
    }
  }

  // ---------- What an import means ----------

  /** The three counters add up to the number of lines. */
  lemma {:induction false} CountersPartition(m: Import, stored: set<string>, n: nat)
    requires n <= |m.lines|
    ensures Tally(m, stored, Imported, n) + Tally(m, stored, Duplicate, n) + Tally(m, stored, Rejected, n) == n
  {
    if n > 0 {
      CountersPartition(m, stored, n - 1);
    }
  }

  /** When saving never fails, every usable key is stored afterwards, and importing the
      same list again imports nothing. */
  lemma SecondImportIdle(m: Import, stored: set<string>, i: nat)
    requires i < |m.lines| && forall j :: 0 <= j < |m.lines| ==> m.saving(j) == Written
    ensures var after := stored + Added(m, stored, |m.lines|);
            && (Usable(m, i) ==> Print(m, i) in after)
            && StatusOf(m, after, i) != Imported
  {
    if Usable(m, i) {
      var j := FirstBearer(m, i);
      assert StatusOf(m, stored, j) == Imported || Print(m, j) in stored;
    }
  }

  lemma {:induction false} FirstBearer(m: Import, i: nat) returns (j: nat)
    requires i < |m.lines| && Usable(m, i)
    ensures j <= i && Usable(m, j) && Print(m, j) == Print(m, i) && !Repeats(m, j)
  {
    j := i;
    if Repeats(m, i) {
      var k :| 0 <= k < i && Usable(m, k) && Print(m, k) == Print(m, i);
      j := FirstBearer(m, k);
    }
  }

  /** A line reported as a duplicate has its key stored exactly unless the first line that
      bore the fingerprint could not be saved and the key was not there before. */
  lemma DuplicateIsStoredExactly(m: Import, stored: set<string>, i: nat) returns (j: nat)
    requires i < |m.lines| && StatusOf(m, stored, i) == Duplicate
    ensures j <= i && Usable(m, j) && Print(m, j) == Print(m, i) && !Repeats(m, j)
    ensures Print(m, i) in stored + Added(m, stored, |m.lines|) <==> Print(m, i) in stored || m.saving(j) == Written
  {
    j := FirstBearer(m, i);
    if Print(m, i) in Added(m, stored, |m.lines|) {
      var k :| 0 <= k < |m.lines| && StatusOf(m, stored, k) == Imported && Print(m, k) == Print(m, i);
      assert !Repeats(m, k);
    }
  }

  /** The same key on two lines, the first of which could not be saved: the second is
      reported a duplicate, and the key is stored nowhere. */
  lemma DuplicateNotStored(m: Import)
    requires m.lines == ["abc", "abc"] && m.saving(0) == NotWritten
    ensures StatusOf(m, {}, 1) == Duplicate && Print(m, 1) !in Added(m, {}, 2)
  {
    assert Identity.TrimLeft("abc") == "abc" && Identity.TrimRight("abc") == "abc";
    assert ByteLength("abc", 0) == 1 + ByteLength("abc", 1);
    assert Usable(m, 0) && Print(m, 0) == Print(m, 1);
    assert StatusOf(m, {}, 0) == Rejected;
  }
}
