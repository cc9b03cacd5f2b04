/** The `keys` and `quota_events` tables and every statement that changes them.

    `Apply` gives the effect of one statement or transaction on a table value; the
    class `Store` holds the tables and performs the same statements in place. */
module KeyStore {
  import opened Wrappers
  import opened TextClock

  // ---------- Rows ----------

  datatype Auth = AuthUnknown | AuthValid | AuthInvalid
  datatype Quota = QuotaUnknown | Available | Cooling | HalfOpen
  datatype Control = ControlUnknown | Reachable | Degraded
  datatype Role = Active | Standby

  datatype Key = Key(
    id: nat,
    name: string,
    sealed: string,
    fingerprint: string,
    priority: int,
    enabled: bool,
    auth: Auth,
    quota: Quota,
    control: Control,
    role: Role,
    window: string,
    coolingUntil: Option<Instant>,
    lastError: string,
    lastUsed: Option<Instant>,
    lastChecked: Option<Instant>,
    probeOverride: Option<bool>,
    created: Instant,
    updated: Instant)

  datatype QuotaEvent = QuotaEvent(keyId: nat, window: string, detected: Instant, reset: Option<Instant>,
                                   message: string)

  /** `nextId` is the AUTOINCREMENT counter: it never goes back. */
  datatype Table = Table(rows: map<nat, Key>, nextId: nat, events: seq<QuotaEvent>)

  const EMPTY_TABLE := Table(map[], 1, [])

  // ---------- Statements ----------

  datatype Call =
    | CreateKey(name: string, sealed: string, fingerprint: string, priority: int, enabled: bool,
                auth: Auth, quota: Quota, control: Control, now: Instant)
    | UpdateKey(id: nat, newName: string, newPriority: int, newEnabled: bool, newOverride: Option<bool>, now: Instant)
    | DeleteKey(id: nat)
    | SetActive(id: nat, now: Instant)
    | MarkChecked(id: nat, newAuth: Auth, newControl: Control, newQuota: Option<Quota>, message: string, now: Instant)
    | MarkUsed(id: nat, now: Instant)
    | MarkInvalid(id: nat, message: string, now: Instant)
    | MarkQuota(id: nat, quotaWindow: string, reset: Option<Instant>, message: string, now: Instant)
    | MarkHalfOpenDue(now: Instant)

  predicate FingerprintTaken(t: Table, fingerprint: string) {
    exists id :: id in t.rows && t.rows[id].fingerprint == fingerprint
  }

  predicate DueKey(k: Key, now: Instant) {
    k.quota == Cooling && k.coolingUntil.Some? && Due(k.coolingUntil.value, now)
  }

  /** Whether the statement reports success: an insert needs a fresh fingerprint, an
      activation an enabled row, and a quota event a row its foreign key can point at. */
  predicate Succeeds(t: Table, c: Call) {
    match c
    case CreateKey(_, _, fingerprint, _, _, _, _, _, _) => !FingerprintTaken(t, fingerprint)
    case SetActive(id, _) => id in t.rows && t.rows[id].enabled
    case MarkQuota(id, _, _, _, _) => id in t.rows
    case _ => true
  }

  function NewKey(id: nat, c: Call): Key
    requires c.CreateKey?
  {
    Key(id, c.name, c.sealed, c.fingerprint, c.priority, c.enabled, c.auth, c.quota, c.control, Standby,
        "", None, "", None, None, None, c.now, c.now)
  }

  /** The new value of one row under a statement that addresses it. */
  function Rewrite(k: Key, c: Call): Key {
    match c
    case UpdateKey(_, name, priority, enabled, probeOverride, now) =>
      k.(name := name, priority := priority, enabled := enabled, probeOverride := probeOverride,
         role := if enabled then k.role else Standby, updated := now)
    case MarkChecked(_, auth, control, quota, message, now) =>
      k.(auth := auth, control := control, quota := if quota.Some? then quota.value else k.quota,
         lastError := message, lastChecked := Some(now), updated := now)
    case MarkUsed(_, now) =>
      k.(auth := AuthValid, control := Reachable, quota := Available, window := "", coolingUntil := None,
         lastError := "", lastUsed := Some(now), updated := now)
    case MarkInvalid(_, message, now) =>
      k.(auth := AuthInvalid, role := Standby, lastError := message, lastChecked := Some(now), updated := now)
    case MarkQuota(_, window, reset, message, now) =>
      k.(quota := Cooling, role := Standby, window := window, coolingUntil := reset, lastError := message,
         lastChecked := Some(now), updated := now)
    case _ => k
  }

  function Demote(rows: map<nat, Key>, now: Instant): map<nat, Key> {
    map id | id in rows :: if rows[id].role == Active then rows[id].(role := Standby, updated := now) else rows[id]
  }

  function Release(rows: map<nat, Key>, now: Instant): map<nat, Key> {
    map id | id in rows :: if DueKey(rows[id], now) then rows[id].(quota := HalfOpen, updated := now) else rows[id]
  }

  function EventsAfter(t: Table, c: Call): seq<QuotaEvent>
    requires c.MarkQuota?
  {
    t.events + [QuotaEvent(c.id, c.quotaWindow, c.now, c.reset, c.message)]
  }

  /** ON DELETE CASCADE. */
  function EventsWithout(events: seq<QuotaEvent>, id: nat): (r: seq<QuotaEvent>)
    ensures forall e :: e in r <==> e in events && e.keyId != id
  {
    if events == [] then []
    else if events[0].keyId == id then EventsWithout(events[1..], id)
    else [events[0]] + EventsWithout(events[1..], id)
  }

  /** The effect of a statement; one that fails is rolled back and has none. */
  function Apply(t: Table, c: Call): Table {
    if !Succeeds(t, c) then t
    else
      match c
      case CreateKey(_, _, _, _, _, _, _, _, _) =>
        Table(t.rows[t.nextId := NewKey(t.nextId, c)], t.nextId + 1, t.events)
      case DeleteKey(id) =>
        Table(t.rows - {id}, t.nextId, if id in t.rows then EventsWithout(t.events, id) else t.events)
      case SetActive(id, now) =>
        var standby := Demote(t.rows, now);
        t.(rows := standby[id := standby[id].(role := Active, updated := now)])
      case MarkHalfOpenDue(now) =>
        t.(rows := Release(t.rows, now))
      case MarkQuota(id, _, _, _, _) =>
        t.(rows := t.rows[id := Rewrite(t.rows[id], c)], events := EventsAfter(t, c))
      case _ =>
        if c.id in t.rows then t.(rows := t.rows[c.id := Rewrite(t.rows[c.id], c)]) else t
  }

  // ---------- Table invariant ----------

  ghost predicate WellKeyed(t: Table) {
    && (forall id :: id in t.rows ==> t.rows[id].id == id && id < t.nextId)
    && (forall i, j :: i in t.rows && j in t.rows && t.rows[i].fingerprint == t.rows[j].fingerprint ==> i == j)
  }

  ghost predicate OneActive(t: Table) {
    forall i, j :: i in t.rows && j in t.rows && t.rows[i].role == Active && t.rows[j].role == Active ==> i == j
  }

  ghost predicate RowSound(k: Key) {
    && (k.role == Active ==> k.enabled)
    && (k.quota == Cooling ==> k.coolingUntil.Some?)
  }

  ghost predicate Sound(t: Table) {
    && WellKeyed(t)
    && OneActive(t)
    && (forall id :: id in t.rows ==> RowSound(t.rows[id]))
    && (forall e :: e in t.events ==> e.keyId in t.rows)
  }

  /** What the program's own callers guarantee: a new key is not cooling, a quota mark
      carries a reset time, and a control-plane check leaves the quota alone. */
  predicate ProperCall(c: Call) {
    match c
    case CreateKey(_, _, _, _, _, auth, quota, _, _) => auth == AuthUnknown && quota == QuotaUnknown
    case MarkQuota(_, _, reset, _, _) => reset.Some?
    case MarkChecked(_, auth, _, quota, _, _) => quota.None? && auth != AuthInvalid
    case _ => true
  }

  lemma ApplyKeepsKeys(t: Table, c: Call)
    requires WellKeyed(t)
    ensures WellKeyed(Apply(t, c))
  {
    if !c.CreateKey? {
      ApplyKeepsNames(t, c);
    }
  }

  lemma ApplyKeepsNames(t: Table, c: Call)
    requires WellKeyed(t) && !c.CreateKey?
    ensures Apply(t, c).nextId == t.nextId && Apply(t, c).rows.Keys <= t.rows.Keys
    ensures forall id :: id in Apply(t, c).rows ==>
              && Apply(t, c).rows[id].id == t.rows[id].id
              && Apply(t, c).rows[id].fingerprint == t.rows[id].fingerprint
  {
    forall id | id in Apply(t, c).rows
      ensures id in t.rows && Apply(t, c).rows[id].id == t.rows[id].id
      ensures Apply(t, c).rows[id].fingerprint == t.rows[id].fingerprint
    {
      RowIsOld(t, c, id);
      RowKeepsIdentity(t, c, id);
    }
  }

  lemma RowIsOld(t: Table, c: Call, id: nat)
    requires !c.CreateKey? && id in Apply(t, c).rows
    ensures id in t.rows
  {
  }

  lemma ActiveIsOld(t: Table, c: Call, id: nat)
    requires WellKeyed(t) && !c.SetActive?
    requires id in Apply(t, c).rows && Apply(t, c).rows[id].role == Active
    ensures id in t.rows && t.rows[id].role == Active
  {
    if c.CreateKey? {
      assert t.nextId !in t.rows;
    }
  }

  lemma ActiveIsChosen(t: Table, c: Call, id: nat)
    requires WellKeyed(t) && c.SetActive? && Succeeds(t, c)
    requires id in Apply(t, c).rows && Apply(t, c).rows[id].role == Active
    ensures id == c.id
  {
  }

  lemma ApplyKeepsOneActive(t: Table, c: Call)
    requires WellKeyed(t) && OneActive(t)
    ensures OneActive(Apply(t, c))
  {
    var u := Apply(t, c);
    forall i, j | i in u.rows && j in u.rows && u.rows[i].role == Active && u.rows[j].role == Active
      ensures i == j
    {
      if !c.SetActive? {
        ActiveIsOld(t, c, i);
        ActiveIsOld(t, c, j);
      } else if Succeeds(t, c) {
        ActiveIsChosen(t, c, i);
        ActiveIsChosen(t, c, j);
      }
    }
  }

  lemma ApplyKeepsRows(t: Table, c: Call)
    requires Sound(t) && ProperCall(c)
    ensures forall id :: id in Apply(t, c).rows ==> RowSound(Apply(t, c).rows[id])
  {
  }

  lemma ApplyKeepsEvents(t: Table, c: Call)
    requires Sound(t)
    ensures forall e :: e in Apply(t, c).events ==> e.keyId in Apply(t, c).rows
  {
    var u := Apply(t, c);
    forall e | e in u.events
      ensures e.keyId in u.rows
    {
      if e in t.events {
        assert e.keyId in t.rows;
      }
    }
  }

  /** Every statement keeps at most one active row, active rows enabled, cooling rows
      with a deadline, ids below the counter, and events pointing at rows. */
  lemma ApplyKeepsSound(t: Table, c: Call)
    requires Sound(t) && ProperCall(c)
    ensures Sound(Apply(t, c))
  {
    ApplyKeepsKeys(t, c);
    ApplyKeepsOneActive(t, c);
    ApplyKeepsRows(t, c);
    ApplyKeepsEvents(t, c);
  }

  /** Ids are never reused: the counter never falls, a row that appears carries an id
      the counter had not reached, and a row's identity never changes. */
  lemma ApplyKeepsIdentity(t: Table, c: Call)
    requires WellKeyed(t)
    ensures t.nextId <= Apply(t, c).nextId
    ensures forall id :: id in Apply(t, c).rows && id !in t.rows ==> id >= t.nextId
    ensures forall id :: id in Apply(t, c).rows && id in t.rows ==>
              && Apply(t, c).rows[id].fingerprint == t.rows[id].fingerprint
              && Apply(t, c).rows[id].sealed == t.rows[id].sealed
              && Apply(t, c).rows[id].created == t.rows[id].created
  {
    var u := Apply(t, c);
    forall id | id in u.rows && id in t.rows
      ensures u.rows[id].fingerprint == t.rows[id].fingerprint
      ensures u.rows[id].sealed == t.rows[id].sealed && u.rows[id].created == t.rows[id].created
    {
      RowKeepsIdentity(t, c, id);
    }
  }

  lemma RowKeepsIdentity(t: Table, c: Call, id: nat)
    requires WellKeyed(t) && id in t.rows && id in Apply(t, c).rows
    ensures var k, l := t.rows[id], Apply(t, c).rows[id];
            l.id == k.id && l.fingerprint == k.fingerprint && l.sealed == k.sealed && l.created == k.created
  {
  }

  /** A statement that names a row writes no other, except that activation also takes
      the active role away from the others. */
  lemma ApplyFrame(t: Table, c: Call, other: nat)
    requires WellKeyed(t) && other in t.rows && !c.CreateKey? && !c.MarkHalfOpenDue? && c.id != other
    ensures other in Apply(t, c).rows
    ensures Apply(t, c).rows[other] ==
            if c.SetActive? && Succeeds(t, c) && t.rows[other].role == Active
            then t.rows[other].(role := Standby, updated := c.now) else t.rows[other]
  {
  }

  // ---------- Queries ----------

  predicate Eligible(k: Key) {
    k.enabled && k.auth != AuthInvalid && k.quota != Cooling
  }

  datatype Query = EligibleQuery | AuthValidQuery | ListQuery {
    predicate Wanted(k: Key) {
      match this
      case EligibleQuery => Eligible(k)
      case AuthValidQuery => k.enabled && k.auth != AuthInvalid
      case ListQuery => true
    }

    function Group(k: Key): int {
      match this
      case EligibleQuery => if k.role == Active then 0 else 1
      case AuthValidQuery => if k.control == Reachable then 0 else 1
      case ListQuery => 0
    }

    /** ORDER BY group, priority, id. */
    predicate Before(a: Key, b: Key) {
      || Group(a) < Group(b)
      || (Group(a) == Group(b) && a.priority < b.priority)
      || (Group(a) == Group(b) && a.priority == b.priority && a.id < b.id)
    }

    ghost predicate First(rows: map<nat, Key>, ids: set<nat>, m: nat)
      requires ids <= rows.Keys
    {
      m in ids && forall x :: x in ids && x != m ==> Before(rows[m], rows[x])
    }
  }

  predicate IdsMatch(rows: map<nat, Key>) {
    forall id :: id in rows ==> rows[id].id == id
  }

  lemma {:induction false} FirstExists(q: Query, rows: map<nat, Key>, ids: set<nat>)
    requires IdsMatch(rows) && ids <= rows.Keys && ids != {}
    ensures exists m :: q.First(rows, ids, m)
    decreases |ids|
  {
    var x :| x in ids;
    var rest := ids - {x};
    if rest == {} {
      assert ids == {x};
      assert q.First(rows, ids, x);
    } else {
      FirstExists(q, rows, rest);
      var m :| q.First(rows, rest, m);
      if q.Before(rows[m], rows[x]) {
        assert q.First(rows, ids, m);
      } else {
        assert q.First(rows, ids, x);
      }
    }
  }

  /** The listed rows in order: each wanted row once, smallest first. */
  ghost function Ordered(q: Query, rows: map<nat, Key>, ids: set<nat>): seq<Key>
    requires IdsMatch(rows) && ids <= rows.Keys
    decreases |ids|
  {
    if ids == {} then []
    else
      FirstExists(q, rows, ids);
      var m :| q.First(rows, ids, m);
      [rows[m]] + Ordered(q, rows, ids - {m})
  }

  /** r lists the rows with these ids, each once, in the query's order. */
  ghost predicate Lists(q: Query, rows: map<nat, Key>, ids: set<nat>, r: seq<Key>)
    requires ids <= rows.Keys
  {
    && |r| == |ids|
    && (forall i :: 0 <= i < |r| ==> r[i].id in ids && r[i] == rows[r[i].id])
    && (forall i, j :: 0 <= i < j < |r| ==> q.Before(r[i], r[j]))
    && (forall id :: id in ids ==> rows[id] in r)
  }

  lemma ListsOneMore(q: Query, rows: map<nat, Key>, ids: set<nat>, m: nat, r: seq<Key>)
    requires IdsMatch(rows) && ids <= rows.Keys && q.First(rows, ids, m)
    requires Lists(q, rows, ids - {m}, r)
    ensures Lists(q, rows, ids, [rows[m]] + r)
  {
    var all := [rows[m]] + r;
    forall id | id in ids
      ensures rows[id] in all
    {
      assert id == m || rows[id] in r;
      assert all[0] == rows[m];
    }
    forall i, j | 0 <= i < j < |all|
      ensures q.Before(all[i], all[j])
    {
      assert all[j] == r[j - 1] && r[j - 1].id in ids - {m};
    }
  }

  lemma {:induction false} OrderedFacts(q: Query, rows: map<nat, Key>, ids: set<nat>)
    requires IdsMatch(rows) && ids <= rows.Keys
    ensures Lists(q, rows, ids, Ordered(q, rows, ids))
    decreases |ids|
  {
    if ids != {} {
      FirstExists(q, rows, ids);
      var m :| q.First(rows, ids, m) && Ordered(q, rows, ids) == [rows[m]] + Ordered(q, rows, ids - {m});
      OrderedFacts(q, rows, ids - {m});
      ListsOneMore(q, rows, ids, m, Ordered(q, rows, ids - {m}));
    }
  }

  function WantedIds(q: Query, rows: map<nat, Key>): set<nat> {
    set id | id in rows && q.Wanted(rows[id])
  }

  ghost function Listing(q: Query, t: Table): (r: seq<Key>)
    requires WellKeyed(t)
    ensures forall i :: 0 <= i < |r| ==> r[i].id in t.rows && r[i] == t.rows[r[i].id] && q.Wanted(r[i])
    ensures forall i, j :: 0 <= i < j < |r| ==> q.Before(r[i], r[j]) && r[i].id != r[j].id
    ensures forall id :: id in t.rows && q.Wanted(t.rows[id]) ==> t.rows[id] in r
    ensures |r| == |WantedIds(q, t.rows)|
  {
    OrderedFacts(q, t.rows, WantedIds(q, t.rows));
    Ordered(q, t.rows, WantedIds(q, t.rows))
  }

  /** An active eligible key is the first one a request sees. */
  lemma ActiveHeadsListing(t: Table, id: nat)
    requires WellKeyed(t) && OneActive(t) && id in t.rows
    requires t.rows[id].role == Active && Eligible(t.rows[id])
    ensures Listing(EligibleQuery, t) != []
    ensures Listing(EligibleQuery, t)[0] == t.rows[id]
  {
    var r := Listing(EligibleQuery, t);
    assert t.rows[id] in r;
    var i :| 0 <= i < |r| && r[i] == t.rows[id];
  }

  // ---------- The selections in terms of columns ----------

  /** The WHERE clause of each selection. */
  predicate Where(q: Query, k: Key) {
    match q
    case EligibleQuery =>
      k.enabled && k.auth != AuthInvalid && (k.quota.QuotaUnknown? || k.quota.Available? || k.quota.HalfOpen?)
    case AuthValidQuery => k.enabled && k.auth != AuthInvalid
    case ListQuery => true
  }

  /** The CASE that heads the ORDER BY clause, where there is one. */
  predicate Ahead(q: Query, k: Key) {
    (q.EligibleQuery? && k.role == Active) || (q.AuthValidQuery? && k.control == Reachable)
  }

  /** ORDER BY the case, priority ascending, id ascending. */
  predicate Ascends(q: Query, a: Key, b: Key) {
    if Ahead(q, a) != Ahead(q, b) then Ahead(q, a)
    else a.priority < b.priority || (a.priority == b.priority && a.id < b.id)
  }

  ghost predicate Sorted(q: Query, r: seq<Key>) {
    forall i, j :: 0 <= i < j < |r| ==> Ascends(q, r[i], r[j])
  }

  /** The rows that meet the WHERE clause, and no others, in ascending order. */
  ghost predicate Selects(q: Query, t: Table, r: seq<Key>) {
    && (forall k :: k in r <==> k.id in t.rows && t.rows[k.id] == k && Where(q, k))
    && Sorted(q, r)
  }

  ghost predicate SameKeys(xs: seq<Key>, ys: seq<Key>) {
    forall k :: k in xs <==> k in ys
  }

  lemma HeadFirst(q: Query, xs: seq<Key>, k: Key)
    requires Sorted(q, xs) && k in xs
    ensures k == xs[0] || Ascends(q, xs[0], k)
  {
  }

  lemma SameHead(q: Query, xs: seq<Key>, ys: seq<Key>)
    requires SameKeys(xs, ys) && Sorted(q, xs) && Sorted(q, ys) && xs != [] && ys != []
    ensures xs[0] == ys[0]
  {
    assert xs[0] in xs && ys[0] in ys;
    HeadFirst(q, xs, ys[0]);
    HeadFirst(q, ys, xs[0]);
  }

  lemma TailOf(q: Query, xs: seq<Key>, k: Key)
    requires xs != [] && Sorted(q, xs)
    ensures k in xs[1..] <==> k in xs && k != xs[0]
  {
    assert forall j :: 0 < j < |xs| ==> Ascends(q, xs[0], xs[j]) && xs[j] == xs[1..][j - 1];
  }

  lemma SameTail(q: Query, xs: seq<Key>, ys: seq<Key>)
    requires SameKeys(xs, ys) && Sorted(q, xs) && Sorted(q, ys) && xs != [] && ys != [] && xs[0] == ys[0]
    ensures SameKeys(xs[1..], ys[1..]) && Sorted(q, xs[1..]) && Sorted(q, ys[1..])
  {
    forall k
      ensures k in xs[1..] <==> k in ys[1..]
    {
      TailOf(q, xs, k);
      TailOf(q, ys, k);
    }
  }

  lemma {:induction false} SortedIsUnique(q: Query, xs: seq<Key>, ys: seq<Key>)
    requires SameKeys(xs, ys) && Sorted(q, xs) && Sorted(q, ys)
    ensures xs == ys
    decreases |xs|
  {
    assert |ys| > 0 ==> ys[0] in ys && ys[0] in xs;
    if xs != [] {
      assert xs[0] in ys;
      SameHead(q, xs, ys);
      SameTail(q, xs, ys);
      SortedIsUnique(q, xs[1..], ys[1..]);
      assert xs == [xs[0]] + xs[1..] && ys == [ys[0]] + ys[1..];
    }
  }

  lemma ListingSelects(q: Query, t: Table)
    requires WellKeyed(t)
    ensures Selects(q, t, Listing(q, t))
  {
    var r := Listing(q, t);
    forall k: Key | k.id in t.rows && t.rows[k.id] == k && Where(q, k)
      ensures k in r
    {
      assert q.Wanted(t.rows[k.id]);
    }
    forall i, j | 0 <= i < j < |r|
      ensures Ascends(q, r[i], r[j])
    {
      assert q.Before(r[i], r[j]);
    }
  }

  /** A listing is the one answer the SQL text allows: the rows its WHERE clause asks for,
      each once, active before standby or reachable before the rest, then by rising
      priority, then by rising id. */
  lemma SelectsExactly(q: Query, t: Table, r: seq<Key>)
    requires WellKeyed(t)
    ensures Selects(q, t, r) <==> r == Listing(q, t)
  {
    ListingSelects(q, t);
    if Selects(q, t, r) {
      SortedIsUnique(q, r, Listing(q, t));
    }
  }

  // ---------- The store object ----------

  class Store {
    var rows: map<nat, Key>
    var nextId: nat
    var events: seq<QuotaEvent>

    function Value(): Table
      reads this
    {
      Table(rows, nextId, events)
    }

    constructor ()
      ensures Value() == EMPTY_TABLE
    {
      rows, nextId, events := map[], 1, [];
    }

    /** INSERT; the UNIQUE constraint on the fingerprint rejects a duplicate. */
    method Create(name: string, sealed: string, fingerprint: string, priority: int, enabled: bool,
                  auth: Auth, quota: Quota, control: Control, now: Instant)
      returns (created: Option<Key>)
      modifies this
      ensures var c := CreateKey(name, sealed, fingerprint, priority, enabled, auth, quota, control, now);
              && Value() == Apply(old(Value()), c)
              && created == (if Succeeds(old(Value()), c) then Some(NewKey(old(nextId), c)) else None)
      ensures created.None? <==> exists id :: id in old(rows) && old(rows)[id].fingerprint == fingerprint
      ensures created.Some? ==>
                created.value == Key(old(nextId), name, sealed, fingerprint, priority, enabled, auth, quota, control,
                                     Standby, "", None, "", None, None, None, now, now)
      ensures events == old(events)
      ensures rows == if created.Some? then old(rows)[old(nextId) := created.value] else old(rows)
    {
      var c := CreateKey(name, sealed, fingerprint, priority, enabled, auth, quota, control, now);
      if exists id :: id in rows && rows[id].fingerprint == fingerprint {
        return None;
      }
      var key := NewKey(nextId, c);
      rows := rows[nextId := key];
      nextId := nextId + 1;
      created := Some(key);
    }

    method Update(id: nat, name: string, priority: int, enabled: bool, probeOverride: Option<bool>, now: Instant)
      returns (updated: Option<Key>)
      modifies this
      ensures Value() == Apply(old(Value()), UpdateKey(id, name, priority, enabled, probeOverride, now))
      ensures updated == (if id in rows then Some(rows[id]) else None) && nextId == old(nextId) && events == old(events)
      ensures rows == if id !in old(rows) then old(rows)
                      else old(rows)[id := old(rows)[id].(name := name, priority := priority, enabled := enabled,
                                                          probeOverride := probeOverride, updated := now,
                                                          role := if enabled then old(rows)[id].role else Standby)]
    {
      if id in rows {
        var k := rows[id].(name := name, priority := priority, enabled := enabled,
                           probeOverride := probeOverride, updated := now);
        if !enabled {
          k := k.(role := Standby);
        }
        rows := rows[id := k];
        return Some(k);
      }
      updated := None;
    }

    method Delete(id: nat)
      modifies this
      ensures Value() == Apply(old(Value()), DeleteKey(id))
      ensures rows == old(rows) - {id} && nextId == old(nextId)
      ensures id in old(rows) ==> forall e :: e in events <==> e in old(events) && e.keyId != id
    {
      if id in rows {
        events := EventsWithout(events, id);
      }
      rows := rows - {id};
    }

    /** One transaction: everybody is demoted first, and that is undone when the second
        UPDATE does not hit exactly one row. */
    method Activate(id: nat, now: Instant) returns (ok: bool)
      modifies this
      ensures Value() == Apply(old(Value()), SetActive(id, now))
      ensures ok == Succeeds(old(Value()), SetActive(id, now))
      ensures ok == (id in old(rows) && old(rows)[id].enabled)
      ensures ok ==> rows == map x | x in old(rows) ::
                       if x == id then old(rows)[x].(role := Active, updated := now)
                       else if old(rows)[x].role == Active then old(rows)[x].(role := Standby, updated := now)
                       else old(rows)[x]
      ensures !ok ==> Value() == old(Value())
    {
      var before := rows;
      rows := Demote(rows, now);
      var affected := 0;
      if id in rows && rows[id].enabled {
        rows := rows[id := rows[id].(role := Active, updated := now)];
        affected := 1;
      }
      if affected != 1 {
        rows := before;
        return false;
      }
      ok := true;
    }

    method Check(id: nat, auth: Auth, control: Control, quota: Option<Quota>, message: string, now: Instant)
      modifies this
      ensures Value() == Apply(old(Value()), MarkChecked(id, auth, control, quota, message, now))
      ensures rows == if id !in old(rows) then old(rows)
                      else old(rows)[id := old(rows)[id].(auth := auth, control := control, lastError := message,
                                                          lastChecked := Some(now), updated := now,
                                                          quota := if quota.Some? then quota.value
                                                                   else old(rows)[id].quota)]
    {
      if id in rows {
        var k := rows[id].(auth := auth, control := control, lastError := message,
                           lastChecked := Some(now), updated := now);
        if quota.Some? {
          k := k.(quota := quota.value);
        }
        rows := rows[id := k];
      }
    }

    method Use(id: nat, now: Instant)
      modifies this
      ensures Value() == Apply(old(Value()), MarkUsed(id, now))
      ensures rows == if id !in old(rows) then old(rows)
                      else old(rows)[id := old(rows)[id].(auth := AuthValid, control := Reachable, quota := Available,
                                                          window := "", coolingUntil := None, lastError := "",
                                                          lastUsed := Some(now), updated := now)]
    {
      if id in rows {
        rows := rows[id := rows[id].(auth := AuthValid, control := Reachable, quota := Available, window := "",
                                     coolingUntil := None, lastError := "", lastUsed := Some(now), updated := now)];
      }
    }

    method Invalidate(id: nat, message: string, now: Instant)
      modifies this
      ensures Value() == Apply(old(Value()), MarkInvalid(id, message, now))
      ensures rows == if id !in old(rows) then old(rows)
                      else old(rows)[id := old(rows)[id].(auth := AuthInvalid, role := Standby, lastError := message,
                                                          lastChecked := Some(now), updated := now)]
    {
      if id in rows {
        rows := rows[id := rows[id].(auth := AuthInvalid, role := Standby, lastError := message,
                                     lastChecked := Some(now), updated := now)];
      }
    }

    /** One transaction: the row is cooled and an event is recorded, or neither. */
    method Cool(id: nat, window: string, reset: Option<Instant>, message: string, now: Instant) returns (ok: bool)
      modifies this
      ensures Value() == Apply(old(Value()), MarkQuota(id, window, reset, message, now))
      ensures ok == (id in old(rows))
      ensures rows == if !ok then old(rows)
                      else old(rows)[id := old(rows)[id].(quota := Cooling, role := Standby, window := window,
                                                          coolingUntil := reset, lastError := message,
                                                          lastChecked := Some(now), updated := now)]
      ensures events == old(events) + if ok then [QuotaEvent(id, window, now, reset, message)] else []
    {
      var before := rows;
      if id in rows {
        rows := rows[id := rows[id].(quota := Cooling, role := Standby, window := window, coolingUntil := reset,
                                     lastError := message, lastChecked := Some(now), updated := now)];
      }
      if id !in rows {
        rows := before;
        return false;
      }
      events := events + [QuotaEvent(id, window, now, reset, message)];
      ok := true;
    }

    method HalfOpenDue(now: Instant)
      modifies this
      ensures Value() == Apply(old(Value()), MarkHalfOpenDue(now))
      ensures rows == map x | x in old(rows) ::
                        if && old(rows)[x].quota == Cooling && old(rows)[x].coolingUntil.Some?
                           && Due(old(rows)[x].coolingUntil.value, now)
                        then old(rows)[x].(quota := HalfOpen, updated := now) else old(rows)[x]
    {
      rows := map id | id in rows ::
        if DueKey(rows[id], now)
        then rows[id].(quota := HalfOpen, updated := now)
        else rows[id];
    }

    method Select(q: Query) returns (keys: seq<Key>)
      requires WellKeyed(Value())
      ensures keys == Listing(q, Value()) && Selects(q, Value(), keys)
    {
      keys := Fetch(q, rows, WantedIds(q, rows));
      ListingSelects(q, Value());
    }
  }

  lemma FirstIsUnique(q: Query, rows: map<nat, Key>, ids: set<nat>, m: nat)
    requires IdsMatch(rows) && ids <= rows.Keys && q.First(rows, ids, m)
    ensures Ordered(q, rows, ids) == [rows[m]] + Ordered(q, rows, ids - {m})
  {
    forall n | q.First(rows, ids, n)
      ensures n == m
    {
    }
  }

  lemma MoveOne(done: seq<Key>, k: Key, rest: seq<Key>)
    ensures done + ([k] + rest) == (done + [k]) + rest
  {
  }

  /** SELECT ... ORDER BY: rows come out one at a time, smallest first. */
  method Fetch(q: Query, rows: map<nat, Key>, ids: set<nat>) returns (keys: seq<Key>)
    requires IdsMatch(rows) && ids <= rows.Keys
    ensures keys == Ordered(q, rows, ids)
  {
    var remaining := ids;
    keys := [];
    while remaining != {}
      invariant remaining <= rows.Keys
      invariant keys + Ordered(q, rows, remaining) == Ordered(q, rows, ids)
      decreases |remaining|
    {
      FirstExists(q, rows, remaining);
      var m :| m in remaining && forall x :: x in remaining && x != m ==> q.Before(rows[m], rows[x]);
      FirstIsUnique(q, rows, remaining, m);
      MoveOne(keys, rows[m], Ordered(q, rows, remaining - {m}));
      keys := keys + [rows[m]];
      remaining := remaining - {m};
    }
  }
}
