/** Whole lives of an instance's identity: any sequence of operations and restarts. */
module IdentityRuns {
  import opened Wrappers
  import opened Identity

  type Hash = string -> string

  function WorldAt(calls: seq<Call>, n: nat, hash: Hash): World
    requires n <= |calls|
  {
    if n == 0 then UNSET else After(WorldAt(calls, n - 1, hash), calls[n - 1], hash)
  }

  function ResultAt(calls: seq<Call>, i: nat, hash: Hash): Result
    requires i < |calls|
  {
    Returned(WorldAt(calls, i, hash), calls[i], hash)
  }

  predicate LosesAfterRename(c: Call) {
    !c.Reopen? && c.outcome == LostAfterRename
  }

  /** No write fails between the renaming of the file and the end. */
  predicate CleanFailures(calls: seq<Call>) {
    forall i :: 0 <= i < |calls| ==> !LosesAfterRename(calls[i])
  }

  // ---------- Memory and file ----------

  /** The call asks for what is there already, at the very instant of the last change: a
      name the client bears, or a key hashed with the salt in use. */
  predicate Idle(w: World, c: Call, hash: Hash) {
    w.memory.Some? &&
    var s := w.memory.value;
    match c
    case Rename(id, name, now, _) =>
      now == s.updatedAt && Find(s.clients, id) >= 0 && s.clients[Find(s.clients, id)].name == Trim(name)
    case Rotate(requested, keyDraw, salt, now, _) =>
      && now == s.updatedAt && s.unified && salt == Some(s.admin.salt)
      && var key := if Trim(requested) == "" && keyDraw.Some? then "opm_" + keyDraw.value else Trim(requested);
         s.admin.password == key && s.proxyHash == hash(key)
    case _ => false
  }

  /** The call gets as far as writing the file. */
  predicate Writes(w: World, c: Call, hash: Hash) {
    !c.Reopen? && PlanOf(w.memory, c, hash).Write?
  }

  lemma RenameChanges(s: State, c: Call)
    requires c.Rename? && PlanRename(Some(s), c).Write?
    ensures PlanRename(Some(s), c).next == s <==>
            c.now == s.updatedAt && s.clients[Find(s.clients, c.id)].name == Trim(c.name)
  {
    var k := Find(s.clients, c.id);
    var after := s.clients[k := s.clients[k].(name := Trim(c.name))];
    assert after[k].name == Trim(c.name);
    if s.clients[k].name == Trim(c.name) {
      assert after == s.clients;
    }
  }

  /** What a call writes is what the memory holds already exactly when it is idle. */
  lemma WritesNothingNewExactly(w: World, c: Call, hash: Hash)
    requires Writes(w, c, hash)
    ensures Some(PlanOf(w.memory, c, hash).next) == w.memory <==> Idle(w, c, hash)
  {
    if w.memory.Some? {
      var s, next := w.memory.value, PlanOf(w.memory, c, hash).next;
      match c
      case Issue(_, _, _, _, _) => assert |next.clients| == |s.clients| + 1;
      case Revoke(_, _, _) => assert |next.clients| == |s.clients| - 1;
      case Rename(_, _, _, _) => RenameChanges(s, c);
      case _ =>
    }
  }

  /** From agreement, a call ends in disagreement exactly when it writes, fails after the
      rename, and is not idle. */
  lemma AgreementExactly(w: World, c: Call, hash: Hash)
    requires w.memory == w.disk
    ensures var v := After(w, c, hash);
            v.memory != v.disk <==> Writes(w, c, hash) && LosesAfterRename(c) && !Idle(w, c, hash)
  {
    if Writes(w, c, hash) {
      WritesNothingNewExactly(w, c, hash);
    }
  }

  /** A failed call leaves the memory as it was, and the file too unless the failure came
      after the rename. */
  lemma FailureKeeps(w: World, c: Call, hash: Hash)
    requires Returned(w, c, hash).Failed?
    ensures After(w, c, hash).memory == w.memory
    ensures !LosesAfterRename(c) ==> After(w, c, hash) == w
  {
  }

  lemma {:induction false} MemoryIsDisk(calls: seq<Call>, n: nat, hash: Hash)
    requires n <= |calls| && CleanFailures(calls)
    ensures WorldAt(calls, n, hash).memory == WorldAt(calls, n, hash).disk
  {
    if n > 0 {
      MemoryIsDisk(calls, n - 1, hash);
    }
  }

  /** Going back in time, the first call that got as far as the rename, or restart, was
      one that ended well. */
  predicate Settled(calls: seq<Call>, n: nat, hash: Hash)
    requires n <= |calls|
  {
    n == 0 ||
    var c := calls[n - 1];
    c.Reopen? ||
    var plan := PlanOf(WorldAt(calls, n - 1, hash).memory, c, hash);
    if plan.Stop? || c.outcome == LostBeforeRename then Settled(calls, n - 1, hash)
    else c.outcome == Saved
  }

  /** Whatever failures there were, the next completed write or restart repairs them. */
  lemma {:induction false} SettledAgrees(calls: seq<Call>, n: nat, hash: Hash)
    requires n <= |calls| && Settled(calls, n, hash)
    ensures WorldAt(calls, n, hash).memory == WorldAt(calls, n, hash).disk
  {
    if n > 0 {
      var c := calls[n - 1];
      if !c.Reopen? {
        var plan := PlanOf(WorldAt(calls, n - 1, hash).memory, c, hash);
        if plan.Stop? || c.outcome == LostBeforeRename {
          SettledAgrees(calls, n - 1, hash);
        }
      }
    }
  }

  /** A run that begins with a setup whose write fails after the rename, and a restart, and
      goes on with setups and restarts only. */
  predicate LockingRun(calls: seq<Call>) {
    && |calls| >= 2
    && calls[0].Initialize? && calls[0].masterDraw.Some? && calls[0].keyDraw.Some? && calls[0].salt.Some?
    && calls[0].cipherMade && LosesAfterRename(calls[0])
    && calls[1].Reopen?
    && forall i :: 2 <= i < |calls| ==> calls[i].Initialize? || calls[i].Reopen?
  }

  /** In such a run the first setup fails, so its key is never returned; and for good after
      it that key is the only password and every setup is refused. */
  lemma {:induction false} SetupCanLockOut(calls: seq<Call>, n: nat, hash: Hash)
    requires LockingRun(calls) && 2 <= n <= |calls|
    ensures ResultAt(calls, 0, hash) == Failed(NotWritten)
    ensures VerifyAdmin(WorldAt(calls, n, hash).memory, "opm_" + calls[0].keyDraw.value)
    ensures WorldAt(calls, n, hash) == WorldAt(calls, 2, hash)
    ensures n < |calls| && calls[n].Initialize? ==> ResultAt(calls, n, hash) == Failed(AlreadyInitialized)
  {
    if n > 2 {
      SetupCanLockOut(calls, n - 1, hash);
    } else {
      assert WorldAt(calls, 1, hash) == After(UNSET, calls[0], hash);
      assert WorldAt(calls, 2, hash) == After(WorldAt(calls, 1, hash), calls[1], hash);
    }
  }

  // ---------- One setup, and bounds ----------

  predicate NameSized(c: Client) { 1 <= |c.name| <= 80 }

  predicate Sized(s: Option<State>) {
    s.Some? ==> |s.value.clients| <= 100 && forall c :: c in s.value.clients ==> NameSized(c)
  }

  lemma PlanSized(memory: Option<State>, c: Call, hash: Hash)
    requires Sized(memory) && !c.Reopen?
    ensures var plan := PlanOf(memory, c, hash); plan.Write? ==> Sized(Some(plan.next))
  {
    var plan := PlanOf(memory, c, hash);
    if plan.Write? && memory.Some? {
      forall d | d in plan.next.clients
        ensures NameSized(d)
      {
        if d !in memory.value.clients {
          assert c.Issue? || c.Rename?;
        }
      }
    }
  }

  /** At every moment of every run, whatever fails, memory and file hold at most a hundred
      client tokens with names of 1 to 80 characters, and only an instance whose file is
      set up is set up in memory. */
  lemma {:induction false} AlwaysSized(calls: seq<Call>, n: nat, hash: Hash)
    requires n <= |calls|
    ensures Sized(WorldAt(calls, n, hash).memory) && Sized(WorldAt(calls, n, hash).disk)
    ensures WorldAt(calls, n, hash).memory.Some? ==> WorldAt(calls, n, hash).disk.Some?
  {
    if n > 0 {
      AlwaysSized(calls, n - 1, hash);
      if !calls[n - 1].Reopen? {
        PlanSized(WorldAt(calls, n - 1, hash).memory, calls[n - 1], hash);
      }
    }
  }

  lemma {:induction false} SetUpForGood(calls: seq<Call>, i: nat, n: nat, hash: Hash)
    requires i <= n <= |calls| && WorldAt(calls, i, hash).memory.Some?
    ensures WorldAt(calls, n, hash).memory.Some?
    decreases n
  {
    if i < n {
      SetUpForGood(calls, i, n - 1, hash);
      AlwaysSized(calls, n - 1, hash);
    }
  }

  /** At most one setup ever succeeds, in any run whatever. */
  lemma OneSetup(calls: seq<Call>, i: nat, j: nat, hash: Hash)
    requires i < j < |calls|
    requires ResultAt(calls, i, hash).Secrets?
    ensures !ResultAt(calls, j, hash).Secrets?
  {
    assert WorldAt(calls, i + 1, hash).memory.Some?;
    SetUpForGood(calls, i + 1, j, hash);
  }

  // ---------- Histories ----------

  /** A call, what it returned, and the memory before and after it. */
  datatype Event = Event(call: Call, result: Result, before: Option<State>, after: Option<State>)

  type History = seq<Event>

  function ClientsOf(memory: Option<State>): seq<Client> {
    if memory.Some? then memory.value.clients else []
  }

  function EventOf(calls: seq<Call>, i: nat, n: nat, hash: Hash): Event
    requires i < |calls| && n == i + 1
  {
    Event(calls[i], ResultAt(calls, i, hash), WorldAt(calls, i, hash).memory, WorldAt(calls, n, hash).memory)
  }

  function HistoryOf(calls: seq<Call>, hash: Hash): (h: History)
    ensures |h| == |calls|
  {
    seq(|calls|, i requires 0 <= i < |calls| => EventOf(calls, i, i + 1, hash))
  }

  /** The memory after the first n events. */
  function MemoryAt(h: History, n: nat): Option<State>
    requires n <= |h|
  {
    if n == 0 then None else h[n - 1].after
  }

  /** Some call issued token t to client c, and no later call revoked c. */
  predicate Live(h: History, n: nat, t: string, c: string)
    requires n <= |h|
  {
    n > 0 &&
    var e := h[n - 1];
    if e.result.Issued? && e.result.id == c && e.result.token == t then true
    else if e.result.Revoked? && e.call.Revoke? && e.call.id == c then false
    else Live(h, n - 1, t, c)
  }

  function KeyNext(key: Option<string>, r: Result): Option<string> {
    if r.Secrets? || r.NewKey? then Some(r.accessKey) else key
  }

  /** The access key most recently handed out. */
  function CurrentKey(h: History, n: nat): Option<string>
    requires n <= |h|
  {
    if n == 0 then None else KeyNext(CurrentKey(h, n - 1), h[n - 1].result)
  }

  /** Every draw of a token or of an id is new. */
  predicate FreshDraws(calls: seq<Call>) {
    forall i, j :: 0 <= i < j < |calls| && calls[i].Issue? && calls[j].Issue? ==>
      && (calls[i].tokenDraw.Some? ==> calls[i].tokenDraw != calls[j].tokenDraw)
      && (calls[i].idDraw.Some? ==> calls[i].idDraw != calls[j].idDraw)
  }

  ghost predicate Injective(hash: Hash) {
    forall a, b :: hash(a) == hash(b) ==> a == b
  }

  // ---------- The tokens behind the list of clients ----------

  datatype Entry = Entry(token: string, id: string)

  function Drop(ledger: seq<Entry>, k: int): seq<Entry> {
    if 0 <= k < |ledger| then ledger[..k] + ledger[k + 1..] else ledger
  }

  function LedgerNext(before: seq<Entry>, e: Event): seq<Entry> {
    if e.result.Issued? then before + [Entry(e.result.token, e.result.id)]
    else if e.result.Revoked? && e.call.Revoke? then Drop(before, Find(ClientsOf(e.before), e.call.id))
    else before
  }

  /** The list of clients with the tokens themselves in place of their hashes. */
  function Ledger(h: History, n: nat): seq<Entry>
    requires n <= |h|
  {
    if n == 0 then [] else LedgerNext(Ledger(h, n - 1), h[n - 1])
  }

  predicate Agree(c: Client, e: Entry, hash: Hash) {
    c.id == e.id && c.tokenHash == hash(e.token)
  }

  predicate Aligned(clients: seq<Client>, ledger: seq<Entry>, hash: Hash) {
    |clients| == |ledger| && forall k :: 0 <= k < |clients| ==> Agree(clients[k], ledger[k], hash)
  }

  lemma AlignedWithout(clients: seq<Client>, ledger: seq<Entry>, k: nat, hash: Hash)
    requires Aligned(clients, ledger, hash) && k < |clients|
    ensures Aligned(Without(clients, k), Drop(ledger, k), hash)
  {
    forall i | 0 <= i < |clients| - 1
      ensures Agree(Without(clients, k)[i], Drop(ledger, k)[i], hash)
    {
      var j := if i < k then i else i + 1;
      assert Agree(clients[j], ledger[j], hash);
    }
  }

  lemma AlignedAppend(clients: seq<Client>, ledger: seq<Entry>, client: Client, e: Entry, hash: Hash)
    requires Aligned(clients, ledger, hash) && Agree(client, e, hash)
    ensures Aligned(clients + [client], ledger + [e], hash)
  {
  }

  lemma AlignedSame(before: seq<Client>, after: seq<Client>, ledger: seq<Entry>, hash: Hash)
    requires Aligned(before, ledger, hash) && |after| == |before|
    requires forall k :: 0 <= k < |before| ==> after[k].id == before[k].id && after[k].tokenHash == before[k].tokenHash
    ensures Aligned(after, ledger, hash)
  {
    forall k | 0 <= k < |after|
      ensures Agree(after[k], ledger[k], hash)
    {
      assert Agree(before[k], ledger[k], hash);
    }
  }

  /** What a call does to the list of clients, told from its result. */
  predicate ClientsNext(before: seq<Client>, after: seq<Client>, c: Call, r: Result, hash: Hash) {
    if r.Issued? then after == before + [Client(r.id, r.name, hash(r.token), r.createdAt)]
    else if r.Revoked? then c.Revoke? && Find(before, c.id) >= 0 && after == Without(before, Find(before, c.id))
    else |after| == |before| && forall k :: 0 <= k < |before| ==>
           after[k].id == before[k].id && after[k].tokenHash == before[k].tokenHash
  }

  predicate KeyNextTo(before: Option<State>, after: Option<State>, r: Result, hash: Hash) {
    if r.Secrets? || r.NewKey?
    then after.Some? && after.value.proxyHash == hash(r.accessKey) && after.value.admin.password == r.accessKey
    else (after.Some? <==> before.Some?)
         && (after.Some? ==> after.value.proxyHash == before.value.proxyHash && after.value.admin == before.value.admin)
  }

  /** What the result of a call tells about the memory before and after it. */
  predicate Told(e: Event, hash: Hash) {
    && ClientsNext(ClientsOf(e.before), ClientsOf(e.after), e.call, e.result, hash)
    && KeyNextTo(e.before, e.after, e.result, hash)
  }

  lemma StepTold(w: World, c: Call, hash: Hash)
    requires w.memory == w.disk
    ensures Told(Event(c, Returned(w, c, hash), w.memory, After(w, c, hash).memory), hash)
  {
    if c.Issue? {
      IssueTold(w, c, hash);
    } else if c.Revoke? {
      RevokeTold(w, c, hash);
    } else if c.Rename? {
      RenameTold(w, c, hash);
    } else {
      KeyTold(w, c, hash);
    }
  }

  lemma IssueTold(w: World, c: Call, hash: Hash)
    requires w.memory == w.disk && c.Issue?
    ensures Told(Event(c, Returned(w, c, hash), w.memory, After(w, c, hash).memory), hash)
  {
  }

  lemma RevokeTold(w: World, c: Call, hash: Hash)
    requires w.memory == w.disk && c.Revoke?
    ensures Told(Event(c, Returned(w, c, hash), w.memory, After(w, c, hash).memory), hash)
  {
  }

  lemma RenameTold(w: World, c: Call, hash: Hash)
    requires w.memory == w.disk && c.Rename?
    ensures Told(Event(c, Returned(w, c, hash), w.memory, After(w, c, hash).memory), hash)
  {
  }

  lemma KeyTold(w: World, c: Call, hash: Hash)
    requires w.memory == w.disk && (c.Initialize? || c.Rotate? || c.Reopen?)
    ensures Told(Event(c, Returned(w, c, hash), w.memory, After(w, c, hash).memory), hash)
  {
  }

  predicate LinkedAt(h: History, i: nat, hash: Hash)
    requires i < |h|
  {
    h[i].before == MemoryAt(h, i) && Told(h[i], hash)
  }

  ghost predicate Linked(h: History, hash: Hash) {
    forall i {:trigger LinkedAt(h, i, hash)} :: 0 <= i < |h| ==> LinkedAt(h, i, hash)
  }

  lemma HistoryLinked(calls: seq<Call>, hash: Hash)
    requires CleanFailures(calls)
    ensures Linked(HistoryOf(calls, hash), hash)
  {
    var h := HistoryOf(calls, hash);
    forall i | 0 <= i < |h|
      ensures LinkedAt(h, i, hash)
    {
      MemoryIsDisk(calls, i, hash);
      StepTold(WorldAt(calls, i, hash), calls[i], hash);
    }
  }

  lemma AlignedNext(ledger: seq<Entry>, e: Event, hash: Hash)
    requires Aligned(ClientsOf(e.before), ledger, hash) && Told(e, hash)
    ensures Aligned(ClientsOf(e.after), LedgerNext(ledger, e), hash)
  {
    var before, r := ClientsOf(e.before), e.result;
    if r.Issued? {
      AlignedAppend(before, ledger, Client(r.id, r.name, hash(r.token), r.createdAt), Entry(r.token, r.id), hash);
    } else if r.Revoked? {
      AlignedWithout(before, ledger, Find(before, e.call.id), hash);
    } else {
      AlignedSame(before, ClientsOf(e.after), ledger, hash);
    }
  }

  predicate AlignedAt(h: History, n: nat, hash: Hash)
    requires n <= |h|
  {
    Aligned(ClientsOf(MemoryAt(h, n)), Ledger(h, n), hash)
  }

  lemma AlignedStep(h: History, i: nat, n: nat, hash: Hash)
    requires i < |h| && n == i + 1 && Linked(h, hash) && AlignedAt(h, i, hash)
    ensures AlignedAt(h, n, hash)
  {
    assert LinkedAt(h, i, hash);
    AlignedNext(Ledger(h, i), h[i], hash);
  }

  lemma LedgerAligned(h: History, n: nat, hash: Hash)
    requires n <= |h| && Linked(h, hash)
    ensures Aligned(ClientsOf(MemoryAt(h, n)), Ledger(h, n), hash)
  {
    var p := (l: nat) => l <= |h| && AlignedAt(h, l, hash);
    assert p(0);
    forall l: nat | l < n && p(l)
      ensures p(l + 1)
    {
      AlignedStep(h, l, l + 1, hash);
    }
    Lasts(p, 0, n);
  }

  /** An issued token and id are the draws of its call. */
  predicate Drawn(e: Event) {
    e.result.Issued? ==>
      && e.call.Issue? && e.call.tokenDraw.Some? && e.call.idDraw == Some(e.result.id)
      && e.result.token == "opc_" + e.call.tokenDraw.value
  }

  lemma AllDrawn(calls: seq<Call>, hash: Hash)
    ensures var h := HistoryOf(calls, hash); forall i :: 0 <= i < |h| ==> Drawn(h[i])
  {
  }

  lemma {:induction false} LedgerDrawn(h: History, n: nat, e: Entry) returns (j: nat)
    requires n <= |h| && e in Ledger(h, n)
    ensures j < n && h[j].result.Issued? && e == Entry(h[j].result.token, h[j].result.id)
  {
    if e in Ledger(h, n - 1) {
      j := LedgerDrawn(h, n - 1, e);
    } else {
      j := n - 1;
    }
  }

  predicate Distinct(ledger: seq<Entry>) {
    forall i, j :: 0 <= i < j < |ledger| ==> ledger[i].id != ledger[j].id && ledger[i].token != ledger[j].token
  }

  /** No two calls issue the same token or the same id. */
  predicate IssuesDiffer(h: History) {
    forall i, j :: 0 <= i < j < |h| && h[i].result.Issued? && h[j].result.Issued? ==>
      h[i].result.id != h[j].result.id && h[i].result.token != h[j].result.token
  }

  lemma FreshIssuesDiffer(calls: seq<Call>, hash: Hash)
    requires FreshDraws(calls)
    ensures IssuesDiffer(HistoryOf(calls, hash))
  {
    AllDrawn(calls, hash);
    var h := HistoryOf(calls, hash);
    forall i, j | 0 <= i < j < |h| && h[i].result.Issued? && h[j].result.Issued?
      ensures h[i].result.id != h[j].result.id && h[i].result.token != h[j].result.token
    {
      DrawsDiffer(h[i], h[j]);
    }
  }

  lemma DrawsDiffer(d: Event, e: Event)
    requires d.result.Issued? && e.result.Issued? && Drawn(d) && Drawn(e)
    requires d.call.tokenDraw != e.call.tokenDraw && d.call.idDraw != e.call.idDraw
    ensures d.result.id != e.result.id && d.result.token != e.result.token
  {
    assert d.result.token[4..] == d.call.tokenDraw.value && e.result.token[4..] == e.call.tokenDraw.value;
  }

  lemma DistinctNext(before: seq<Entry>, e: Event)
    requires Distinct(before)
    requires e.result.Issued? ==> forall x :: x in before ==> x.id != e.result.id && x.token != e.result.token
    ensures Distinct(LedgerNext(before, e))
  {
  }

  lemma {:induction false} LedgerDistinct(h: History, n: nat)
    requires n <= |h| && IssuesDiffer(h)
    ensures Distinct(Ledger(h, n))
  {
    if n > 0 {
      LedgerDistinct(h, n - 1);
      var before, e := Ledger(h, n - 1), h[n - 1];
      forall x | e.result.Issued? && x in before
        ensures x.id != e.result.id && x.token != e.result.token
      {
        var j := LedgerDrawn(h, n - 1, x);
      }
      DistinctNext(before, e);
    }
  }

  lemma DropExactly(ledger: seq<Entry>, k: nat, e: Entry)
    requires k < |ledger| && Distinct(ledger)
    ensures e in Drop(ledger, k) <==> e in ledger && e.id != ledger[k].id
  {
    var after := Drop(ledger, k);
    if e in ledger && e.id != ledger[k].id {
      var i :| 0 <= i < |ledger| && ledger[i] == e;
      assert after[if i < k then i else i - 1] == e;
    }
  }

  /** A revocation found the client it was asked for, in the list that the ledger mirrors. */
  predicate FoundInLedger(e: Event, ledger: seq<Entry>) {
    e.result.Revoked? && e.call.Revoke? ==>
      var k := Find(ClientsOf(e.before), e.call.id);
      0 <= k < |ledger| && ledger[k].id == e.call.id
  }

  lemma AlwaysFound(h: History, i: nat, hash: Hash)
    requires i < |h| && Linked(h, hash)
    ensures FoundInLedger(h[i], Ledger(h, i))
  {
    LedgerAligned(h, i, hash);
    assert LinkedAt(h, i, hash);
    var e, clients := h[i], ClientsOf(h[i].before);
    if e.result.Revoked? {
      assert Agree(clients[Find(clients, e.call.id)], Ledger(h, i)[Find(clients, e.call.id)], hash);
    }
  }

  lemma LedgerNextExactly(before: seq<Entry>, e: Event, t: string, c: string)
    requires Distinct(before) && FoundInLedger(e, before)
    ensures Entry(t, c) in LedgerNext(before, e) <==>
            if e.result.Issued? && e.result.id == c && e.result.token == t then true
            else if e.result.Revoked? && e.call.Revoke? && e.call.id == c then false
            else Entry(t, c) in before
  {
    if e.result.Revoked? && e.call.Revoke? {
      DropExactly(before, Find(ClientsOf(e.before), e.call.id), Entry(t, c));
    }
  }

  /** The ledger is the history: what was issued and not revoked since. */
  lemma {:induction false} LedgerIsLive(h: History, n: nat, t: string, c: string, hash: Hash)
    requires n <= |h| && IssuesDiffer(h) && Linked(h, hash)
    ensures Entry(t, c) in Ledger(h, n) <==> Live(h, n, t, c)
  {
    if n > 0 {
      var before, e := Ledger(h, n - 1), h[n - 1];
      LedgerIsLive(h, n - 1, t, c, hash);
      assert Entry(t, c) in LedgerNext(before, e) <==>
             if e.result.Issued? && e.result.id == c && e.result.token == t then true
             else if e.result.Revoked? && e.call.Revoke? && e.call.id == c then false
             else Entry(t, c) in before by {
        LedgerDistinct(h, n - 1);
        AlwaysFound(h, n - 1, hash);
        LedgerNextExactly(before, e, t, c);
      }
    }
  }

  // ---------- Who is let in ----------

  lemma {:induction false} HolderFinds(clients: seq<Client>, hashed: string, i: nat) returns (k: nat)
    requires i <= |clients|
    ensures Holder(clients, hashed, i).Some? ==>
              i <= k < |clients| && clients[k].tokenHash == hashed
              && Holder(clients, hashed, i) == Some(Bearer(clients[k].id, clients[k].name))
    ensures Holder(clients, hashed, i).None? ==> forall j :: i <= j < |clients| ==> clients[j].tokenHash != hashed
    decreases |clients| - i
  {
    k := i;
    if i < |clients| && clients[i].tokenHash != hashed {
      k := HolderFinds(clients, hashed, i + 1);
    }
  }

  predicate SpeaksFor(who: Option<Principal>, c: string) {
    who.Some? && who.value.Bearer? && who.value.id == c
  }

  predicate Opens(memory: Option<State>, key: Option<string>, hash: Hash) {
    && (memory.Some? <==> key.Some?)
    && (memory.Some? ==> memory.value.proxyHash == hash(key.value) && memory.value.admin.password == key.value)
  }

  lemma {:induction false} KeyBehindHash(h: History, n: nat, hash: Hash)
    requires n <= |h| && Linked(h, hash)
    ensures Opens(MemoryAt(h, n), CurrentKey(h, n), hash)
  {
    if n > 0 {
      KeyBehindHash(h, n - 1, hash);
      assert LinkedAt(h, n - 1, hash);
    }
  }

  lemma MemoryOfRun(calls: seq<Call>, n: nat, hash: Hash)
    requires n <= |calls|
    ensures MemoryAt(HistoryOf(calls, hash), n) == WorldAt(calls, n, hash).memory
  {
    if n > 0 {
      EventOfRun(calls, n - 1, n, hash);
    }
  }

  lemma EventOfRun(calls: seq<Call>, i: nat, n: nat, hash: Hash)
    requires i < |calls| && n == i + 1
    ensures HistoryOf(calls, hash)[i].after == WorldAt(calls, n, hash).memory
  {
  }

  /** The current access key, and it alone, is the master key and the admin password. */
  lemma MasterExactly(calls: seq<Call>, n: nat, t: string, hash: Hash)
    requires n <= |calls| && CleanFailures(calls) && Injective(hash)
    ensures var memory, key := WorldAt(calls, n, hash).memory, CurrentKey(HistoryOf(calls, hash), n);
            && (Authenticate(memory, t, hash) == Some(Master) <==> key == Some(t))
            && (VerifyAdmin(memory, t) <==> key == Some(t))
  {
    HistoryLinked(calls, hash);
    KeyBehindHash(HistoryOf(calls, hash), n, hash);
    MemoryOfRun(calls, n, hash);
    MasterHeld(WorldAt(calls, n, hash).memory, CurrentKey(HistoryOf(calls, hash), n), t, hash);
  }

  lemma MasterHeld(memory: Option<State>, key: Option<string>, t: string, hash: Hash)
    requires Opens(memory, key, hash) && Injective(hash)
    ensures Authenticate(memory, t, hash) == Some(Master) <==> key == Some(t)
    ensures VerifyAdmin(memory, t) <==> key == Some(t)
  {
    if memory.Some? {
      var _ := HolderFinds(memory.value.clients, hash(t), 0);
    }
  }

  /** A token other than the current access key is accepted as client c's exactly when it
      was issued for c and c has not been revoked since. */
  lemma AcceptedExactly(calls: seq<Call>, n: nat, t: string, c: string, hash: Hash)
    requires n <= |calls| && CleanFailures(calls) && FreshDraws(calls) && Injective(hash)
    requires CurrentKey(HistoryOf(calls, hash), n) != Some(t)
    ensures SpeaksFor(Authenticate(WorldAt(calls, n, hash).memory, t, hash), c)
            <==> Live(HistoryOf(calls, hash), n, t, c)
  {
    var h := HistoryOf(calls, hash);
    MasterExactly(calls, n, t, hash);
    HistoryLinked(calls, hash);
    FreshIssuesDiffer(calls, hash);
    LedgerAligned(h, n, hash);
    LedgerDistinct(h, n);
    LedgerIsLive(h, n, t, c, hash);
    MemoryOfRun(calls, n, hash);
    HeldExactly(ClientsOf(WorldAt(calls, n, hash).memory), Ledger(h, n), t, c, hash);
  }

  lemma HeldExactly(clients: seq<Client>, ledger: seq<Entry>, t: string, c: string, hash: Hash)
    requires Aligned(clients, ledger, hash) && Distinct(ledger) && Injective(hash)
    ensures SpeaksFor(Holder(clients, hash(t), 0), c) <==> Entry(t, c) in ledger
  {
    var k := HolderFinds(clients, hash(t), 0);
    var who := Holder(clients, hash(t), 0);
    if who.Some? {
      assert Agree(clients[k], ledger[k], hash);
      assert ledger[k].token == t;
    }
    if Entry(t, c) in ledger {
      var i :| 0 <= i < |ledger| && ledger[i] == Entry(t, c);
      assert Agree(clients[i], ledger[i], hash);
      assert who.Some?;
      assert k == i;
    }
  }

  /** Setting up, rotating the access key, renaming and restarting change for no token
      which client it belongs to. */
  lemma OnlyIssueAndRevokeMatter(w: World, c: Call, hashed: string, hash: Hash)
    requires w.memory == w.disk && !LosesAfterRename(c) && !c.Issue? && !c.Revoke?
    ensures OwnerId(ClientsOf(After(w, c, hash).memory), hashed) == OwnerId(ClientsOf(w.memory), hashed)
  {
    if c.Rename? && w.memory.Some? {
      var clients := w.memory.value.clients;
      var k := Find(clients, c.id);
      if k >= 0 {
        RenamedOwner(clients, k, Trim(c.name), hashed, 0);
      }
    }
  }

  function OwnerId(clients: seq<Client>, hashed: string): Option<string> {
    var who := Holder(clients, hashed, 0);
    if who.Some? && who.value.Bearer? then Some(who.value.id) else None
  }

  lemma {:induction false} RenamedOwner(clients: seq<Client>, k: nat, name: string, hashed: string, i: nat)
    requires k < |clients| && i <= |clients|
    ensures var after := clients[k := clients[k].(name := name)];
            var a, b := Holder(after, hashed, i), Holder(clients, hashed, i);
            (a.None? && b.None?)
                || (a.Some? && b.Some? && a.value.Bearer? && b.value.Bearer? && a.value.id == b.value.id)
    decreases |clients| - i
  {
    if i < |clients| {
      RenamedOwner(clients, k, name, hashed, i + 1);
    }
  }
}
