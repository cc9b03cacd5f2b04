/** When each operation of the identity manager succeeds and why it fails, and what an
    instance keeps through any run: its recovery key, the names of its clients, and when it
    was set up and last changed. */
module IdentityRecord {
  import opened Wrappers
  import opened Identity
  import opened IdentityRuns

  // ---------- Success and failure ----------

  predicate Known(memory: Option<State>, id: string) {
    memory.Some? && exists k :: 0 <= k < |memory.value.clients| && memory.value.clients[k].id == id
  }

  lemma KnownIsFound(memory: Option<State>, id: string)
    requires memory.Some?
    ensures Find(memory.value.clients, id) >= 0 <==> Known(memory, id)
  {
    FindIsFirst(memory.value.clients, id, 0);
  }

  predicate GoodName(name: string) { 1 <= |Trim(name)| <= 80 }

  /** The key a rotation asks for, or else the one drawn. */
  function AskedKey(c: Call): string
    requires c.Rotate?
  {
    if |Trim(c.requested)| > 0 then Trim(c.requested)
    else "opm_" + if c.keyDraw.Some? then c.keyDraw.value else ""
  }

  predicate HasKey(c: Call)
    requires c.Rotate?
  {
    |Trim(c.requested)| > 0 || c.keyDraw.Some?
  }

  /** The call gets as far as writing the file. */
  predicate Allowed(memory: Option<State>, c: Call) {
    match c
    case Initialize(masterDraw, keyDraw, salt, cipherMade, _, _) =>
      memory.None? && masterDraw.Some? && keyDraw.Some? && salt.Some? && cipherMade
    case Rotate(_, _, salt, _, _) =>
      memory.Some? && HasKey(c) && 16 <= |AskedKey(c)| <= 256 && salt.Some?
    case Issue(_, tokenDraw, idDraw, _, _) =>
      memory.Some? && |memory.value.clients| < 100 && tokenDraw.Some? && idDraw.Some?
    case Rename(id, name, _, _) => GoodName(name) && Known(memory, id)
    case Revoke(id, _, _) => Known(memory, id)
    case Reopen => true
  }

  /** A call succeeds exactly when it is allowed and its write goes through. */
  lemma SucceedsExactly(w: World, c: Call, hash: Hash)
    ensures !Returned(w, c, hash).Failed? <==> Allowed(w.memory, c) && (c.Reopen? || c.outcome == Saved)
  {
    if (c.Rename? || c.Revoke?) && w.memory.Some? {
      KnownIsFound(w.memory, c.id);
    }
  }

  /** Each reason to fail, exactly. */
  lemma FailsBecause(w: World, c: Call, hash: Hash)
    ensures var r := Returned(w, c, hash);
            && (r == Failed(AlreadyInitialized) <==> c.Initialize? && w.memory.Some?)
            && (r == Failed(SetupRequired) <==> w.memory.None? && (c.Rotate? || c.Issue? || c.Revoke?))
            && (r == Failed(NilDereference) <==> w.memory.None? && c.Rename? && GoodName(c.name))
            && (r == Failed(BadName) <==> c.Rename? && !GoodName(c.name))
            && (r == Failed(LimitReached) <==> c.Issue? && w.memory.Some? && |w.memory.value.clients| >= 100)
            && (r == Failed(BadKeyLength) <==>
                  c.Rotate? && w.memory.Some? && HasKey(c) && !(16 <= |AskedKey(c)| <= 256))
            && (r == Failed(NotFound) <==>
                  w.memory.Some? && ((c.Rename? && GoodName(c.name)) || c.Revoke?) && !Known(w.memory, c.id))
            && (r == Failed(NoCipher) <==>
                  && c.Initialize? && w.memory.None? && c.masterDraw.Some? && c.keyDraw.Some? && c.salt.Some?
                  && !c.cipherMade)
            && (r == Failed(NotWritten) <==> !c.Reopen? && Allowed(w.memory, c) && c.outcome != Saved)
  {
    if (c.Rename? || c.Revoke?) && w.memory.Some? {
      KnownIsFound(w.memory, c.id);
    }
  }

  // ---------- What a successful call leaves ----------

  /** A setup hands out the key it draws and, as recovery key, the master key it keeps; the
      other calls leave the master key, the access flag and the time of the setup alone; and
      each leaves its own time as that of the last change. */
  lemma WrittenExactly(w: World, c: Call, hash: Hash)
    requires !c.Reopen? && !Returned(w, c, hash).Failed?
    ensures var v, r := After(w, c, hash), Returned(w, c, hash);
            && v.memory.Some? && v.disk == v.memory && v.memory.value.updatedAt == c.now
            && var s := v.memory.value;
               if c.Initialize? then
                 && c.keyDraw.Some? && r == Secrets("opm_" + c.keyDraw.value, s.master)
                 && c.masterDraw == Some(s.master) && s.clients == [] && s.createdAt == c.now && s.unified
               else
                 && w.memory.Some?
                 && var o := w.memory.value;
                    && s.master == o.master && s.createdAt == o.createdAt && s.unified == (o.unified || c.Rotate?)
                    && (c.Rotate? ==> r == NewKey(AskedKey(c)) && s.clients == o.clients)
                    && (!c.Rotate? ==> s.admin == o.admin && s.proxyHash == o.proxyHash)
  {
  }

  // ---------- Over whole runs ----------

  /** Once an instance is set up its file keeps the master key it was set up with, and the
      memory never has another. */
  lemma {:induction false} MasterKeyForGood(calls: seq<Call>, i: nat, n: nat, hash: Hash)
    requires i <= n <= |calls| && WorldAt(calls, i, hash).disk.Some? && WorldAt(calls, i, hash).memory.Some?
    requires WorldAt(calls, i, hash).memory.value.master == WorldAt(calls, i, hash).disk.value.master
    requires WorldAt(calls, i, hash).memory.value.createdAt == WorldAt(calls, i, hash).disk.value.createdAt
    ensures var v, w := WorldAt(calls, i, hash), WorldAt(calls, n, hash);
            && w.disk.Some? && w.memory.Some?
            && w.disk.value.master == v.disk.value.master && w.memory.value.master == v.disk.value.master
            && w.disk.value.createdAt == v.disk.value.createdAt && w.memory.value.createdAt == v.disk.value.createdAt
    decreases n
  {
    if i < n {
      MasterKeyForGood(calls, i, n - 1, hash);
    }
  }

  /** The recovery key a setup handed out, most recently. */
  function RecoveryKey(h: History, n: nat): Option<string>
    requires n <= |h|
  {
    if n == 0 then None
    else if h[n - 1].result.Secrets? then Some(h[n - 1].result.recoveryKey)
    else RecoveryKey(h, n - 1)
  }

  /** When the last call that succeeded was made. */
  function LastChange(h: History, n: nat): Option<nat>
    requires n <= |h|
  {
    if n == 0 then None
    else if h[n - 1].result.Failed? || h[n - 1].call.Reopen? then LastChange(h, n - 1)
    else Some(h[n - 1].call.now)
  }

  ghost predicate Recorded(memory: Option<State>, h: History, n: nat)
    requires n <= |h|
  {
    && (memory.Some? <==> RecoveryKey(h, n).Some?)
    && (memory.Some? ==>
          && memory.value.master == RecoveryKey(h, n).value && memory.value.unified
          && LastChange(h, n) == Some(memory.value.updatedAt))
  }

  /** The master key that seals the upstream keys is at any moment the recovery key that was
      handed out, access is unified, and the record says when the last call succeeded. */
  lemma {:induction false} RecoveryKeyOpens(calls: seq<Call>, n: nat, hash: Hash)
    requires n <= |calls| && CleanFailures(calls)
    ensures Recorded(WorldAt(calls, n, hash).memory, HistoryOf(calls, hash), n)
  {
    if n > 0 {
      RecoveryKeyOpens(calls, n - 1, hash);
      MemoryIsDisk(calls, n - 1, hash);
      RecordedAt(calls, WorldAt(calls, n - 1, hash), WorldAt(calls, n, hash), n - 1, n, hash);
    }
  }

  lemma WorldNext(calls: seq<Call>, i: nat, n: nat, hash: Hash)
    requires i < |calls| && n == i + 1
    ensures WorldAt(calls, n, hash) == After(WorldAt(calls, i, hash), calls[i], hash)
  {
  }

  lemma EventAt(calls: seq<Call>, i: nat, n: nat, hash: Hash)
    requires i < |calls| && n == i + 1
    ensures HistoryOf(calls, hash)[i] == Event(calls[i], ResultAt(calls, i, hash), WorldAt(calls, i, hash).memory,
                                               WorldAt(calls, n, hash).memory)
  {
  }

  lemma RecordedAt(calls: seq<Call>, w: World, v: World, i: nat, n: nat, hash: Hash)
    requires i < |calls| && n == i + 1 && w == WorldAt(calls, i, hash) && v == WorldAt(calls, n, hash)
    requires w.memory == w.disk && !LosesAfterRename(calls[i]) && Recorded(w.memory, HistoryOf(calls, hash), i)
    ensures Recorded(v.memory, HistoryOf(calls, hash), n)
  {
    WorldNext(calls, i, n, hash);
    EventAt(calls, i, n, hash);
    RecordedNext(w, HistoryOf(calls, hash), i, hash);
  }

  lemma RecordedNext(w: World, h: History, i: nat, hash: Hash)
    requires i < |h| && w.memory == w.disk && !LosesAfterRename(h[i].call) && Recorded(w.memory, h, i)
    requires h[i] == Event(h[i].call, Returned(w, h[i].call, hash), w.memory, After(w, h[i].call, hash).memory)
    ensures Recorded(After(w, h[i].call, hash).memory, h, i + 1)
  {
    var c := h[i].call;
    if !c.Reopen? {
      if h[i].result.Failed? {
        FailureKeeps(w, c, hash);
      } else {
        WrittenExactly(w, c, hash);
      }
    }
  }

  // ---------- Names ----------

  /** The name a client was last given, by its issue or a renaming, unless it was revoked. */
  function NameGiven(h: History, n: nat, id: string): Option<string>
    requires n <= |h|
  {
    if n == 0 then None else NameNext(NameGiven(h, n - 1, id), h[n - 1], id)
  }

  function NameNext(name: Option<string>, e: Event, id: string): Option<string> {
    match e.result
    case Issued(i, given, _, _) => if i == id then Some(given) else name
    case Renamed(i, given, _) => if i == id then Some(given) else name
    case Revoked => if e.call.Revoke? && e.call.id == id then None else name
    case _ => name
  }

  predicate IdsDiffer(clients: seq<Client>) {
    forall i, j :: 0 <= i < j < |clients| ==> clients[i].id != clients[j].id
  }

  /** Every client bears the name it was last given. */
  ghost predicate Named(clients: seq<Client>, h: History, n: nat)
    requires n <= |h|
  {
    forall k :: 0 <= k < |clients| ==> NameGiven(h, n, clients[k].id) == Some(clients[k].name)
  }

  lemma IdsAlwaysDiffer(calls: seq<Call>, n: nat, hash: Hash)
    requires n <= |calls| && CleanFailures(calls) && FreshDraws(calls)
    ensures IdsDiffer(ClientsOf(WorldAt(calls, n, hash).memory))
  {
    var h := HistoryOf(calls, hash);
    HistoryLinked(calls, hash);
    FreshIssuesDiffer(calls, hash);
    LedgerAligned(h, n, hash);
    LedgerDistinct(h, n);
    MemoryOfRun(calls, n, hash);
    var clients, ledger := ClientsOf(WorldAt(calls, n, hash).memory), Ledger(h, n);
    forall i, j | 0 <= i < j < |clients|
      ensures clients[i].id != clients[j].id
    {
      assert Agree(clients[i], ledger[i], hash) && Agree(clients[j], ledger[j], hash);
    }
  }

  /** The client was given its name by this event, or was on the list before, under its name,
      and the event gives it none. */
  ghost predicate KeepsName(client: Client, before: seq<Client>, e: Event) {
    || NameNext(None, e, client.id) == Some(client.name)
    || (client in before && forall name :: NameNext(name, e, client.id) == name)
  }

  lemma IssuedNames(before: seq<Client>, client: Client, e: Event, k: nat)
    requires e.result.Issued? && client.id == e.result.id && client.name == e.result.name
    requires k <= |before| && IdsDiffer(before + [client])
    ensures KeepsName((before + [client])[k], before, e)
  {
    var after := before + [client];
    if k < |before| {
      assert after[k] == before[k] && after[|before|] == client;
      assert after[k].id != client.id;
    }
  }

  lemma RenamedNames(before: seq<Client>, i: nat, name: string, e: Event, k: nat)
    requires i < |before| && k < |before| && IdsDiffer(before)
    requires e.result.Renamed? && e.result.id == before[i].id && e.result.name == name
    ensures KeepsName(before[i := before[i].(name := name)][k], before, e)
  {
  }

  lemma RevokedNames(before: seq<Client>, i: nat, e: Event, k: nat)
    requires i < |before| && k < |before| - 1 && IdsDiffer(before)
    requires e.result.Revoked? && e.call.Revoke? && e.call.id == before[i].id
    ensures KeepsName(Without(before, i)[k], before, e)
  {
    var j := if k < i then k else k + 1;
    assert Without(before, i)[k] == before[j];
  }

  lemma UnchangedNames(before: seq<Client>, e: Event, k: nat)
    requires k < |before| && !e.result.Issued? && !e.result.Renamed? && !e.result.Revoked?
    ensures KeepsName(before[k], before, e)
  {
  }

  /** What a call does to the list of clients. */
  lemma ListAfter(w: World, c: Call, hash: Hash)
    requires w.memory == w.disk && !LosesAfterRename(c)
    ensures var before, after := ClientsOf(w.memory), ClientsOf(After(w, c, hash).memory);
            match Returned(w, c, hash)
            case Issued(id, name, at, token) => after == before + [Client(id, name, hash(token), at)]
            case Renamed(id, name, _) =>
              var i := Find(before, id);
              i >= 0 && after == before[i := before[i].(name := name)]
            case Revoked => c.Revoke? && Find(before, c.id) >= 0 && after == Without(before, Find(before, c.id))
            case _ => after == before
  {
    if c.Issue? || c.Initialize? {
      GrownList(w, c, hash);
    } else if c.Rename? || c.Revoke? {
      ChangedList(w, c, hash);
    }
  }

  lemma GrownList(w: World, c: Call, hash: Hash)
    requires w.memory == w.disk && !LosesAfterRename(c) && (c.Issue? || c.Initialize?)
    ensures var before, after, r := ClientsOf(w.memory), ClientsOf(After(w, c, hash).memory), Returned(w, c, hash);
            if r.Issued? then after == before + [Client(r.id, r.name, hash(r.token), r.createdAt)] else after == before
    ensures !Returned(w, c, hash).Renamed? && !Returned(w, c, hash).Revoked?
  {
  }

  lemma ChangedList(w: World, c: Call, hash: Hash)
    requires w.memory == w.disk && !LosesAfterRename(c) && (c.Rename? || c.Revoke?)
    ensures var before, after, r := ClientsOf(w.memory), ClientsOf(After(w, c, hash).memory), Returned(w, c, hash);
            var i := Find(before, c.id);
            if r.Renamed? then r.id == c.id && i >= 0 && after == before[i := before[i].(name := r.name)]
            else if r.Revoked? then c.Revoke? && i >= 0 && after == Without(before, i)
            else after == before
    ensures !Returned(w, c, hash).Issued?
  {
  }

  /** What a call does to the names on the list. */
  lemma NamesAfter(before: seq<Client>, after: seq<Client>, e: Event, k: nat, hash: Hash)
    requires match e.result
             case Issued(id, name, at, token) => after == before + [Client(id, name, hash(token), at)]
             case Renamed(id, name, _) =>
               var i := Find(before, id);
               i >= 0 && after == before[i := before[i].(name := name)]
             case Revoked => e.call.Revoke? && Find(before, e.call.id) >= 0
                             && after == Without(before, Find(before, e.call.id))
             case _ => after == before
    requires k < |after| && IdsDiffer(before) && IdsDiffer(after)
    ensures KeepsName(after[k], before, e)
  {
    match e.result
    case Issued(id, name, at, token) => IssuedNames(before, Client(id, name, hash(token), at), e, k);
    case Renamed(id, name, _) => RenamedNames(before, Find(before, id), name, e, k);
    case Revoked => RevokedNames(before, Find(before, e.call.id), e, k);
    case _ => UnchangedNames(before, e, k);
  }

  /** Every client on the list after n calls bears the name it was last given. */
  ghost predicate NamedAfter(calls: seq<Call>, n: nat, hash: Hash)
    requires n <= |calls|
  {
    Named(ClientsOf(WorldAt(calls, n, hash).memory), HistoryOf(calls, hash), n)
  }

  lemma NamedAtStart(calls: seq<Call>, hash: Hash)
    ensures NamedAfter(calls, 0, hash)
  {
  }

  /** In every run with clean failures, each client on the list bears the name it was last
      given; so a token is accepted under that name. */
  lemma NamesKept(calls: seq<Call>, n: nat, hash: Hash)
    requires n <= |calls| && CleanFailures(calls) && FreshDraws(calls)
    ensures NamedAfter(calls, n, hash)
  {
    var p := (l: nat) => l <= |calls| && NamedAfter(calls, l, hash);
    NamedAtStart(calls, hash);
    forall l: nat | l < n && p(l)
      ensures p(l + 1)
    {
      NamedStep(calls, l, l + 1, hash);
    }
    Lasts(p, 0, n);
  }

  lemma NamedStep(calls: seq<Call>, i: nat, n: nat, hash: Hash)
    requires i < |calls| && n == i + 1 && CleanFailures(calls) && FreshDraws(calls)
    requires NamedAfter(calls, i, hash)
    ensures NamedAfter(calls, n, hash)
  {
    MemoryIsDisk(calls, i, hash);
    IdsAlwaysDiffer(calls, i, hash);
    IdsAlwaysDiffer(calls, n, hash);
    NamedAt(calls, WorldAt(calls, i, hash), WorldAt(calls, n, hash), i, n, hash);
  }

  lemma NamedAt(calls: seq<Call>, w: World, v: World, i: nat, n: nat, hash: Hash)
    requires i < |calls| && n == i + 1 && w == WorldAt(calls, i, hash) && v == WorldAt(calls, n, hash)
    requires w.memory == w.disk && !LosesAfterRename(calls[i])
    requires Named(ClientsOf(w.memory), HistoryOf(calls, hash), i)
    requires IdsDiffer(ClientsOf(w.memory)) && IdsDiffer(ClientsOf(v.memory))
    ensures Named(ClientsOf(v.memory), HistoryOf(calls, hash), n)
  {
    WorldNext(calls, i, n, hash);
    EventAt(calls, i, n, hash);
    NamedNext(w, HistoryOf(calls, hash), i, hash);
  }

  lemma NamedNext(w: World, h: History, i: nat, hash: Hash)
    requires i < |h| && w.memory == w.disk && !LosesAfterRename(h[i].call) && Named(ClientsOf(w.memory), h, i)
    requires h[i] == Event(h[i].call, Returned(w, h[i].call, hash), w.memory, After(w, h[i].call, hash).memory)
    requires IdsDiffer(ClientsOf(w.memory)) && IdsDiffer(ClientsOf(After(w, h[i].call, hash).memory))
    ensures Named(ClientsOf(After(w, h[i].call, hash).memory), h, i + 1)
  {
    var after := ClientsOf(After(w, h[i].call, hash).memory);
    ListAfter(w, h[i].call, hash);
    forall k | 0 <= k < |after|
      ensures NameGiven(h, i + 1, after[k].id) == Some(after[k].name)
    {
      NamesAfter(ClientsOf(w.memory), after, h[i], k, hash);
      assert NameGiven(h, i + 1, after[k].id) == NameNext(NameGiven(h, i, after[k].id), h[i], after[k].id);
      GivenOrKept(NameGiven(h, i, after[k].id), h[i], after[k].id);
    }
  }

  /** A name given now does not depend on the one before. */
  lemma GivenOrKept(name: Option<string>, e: Event, id: string)
    ensures NameNext(None, e, id).Some? ==> NameNext(name, e, id) == NameNext(None, e, id)
  {
  }

  /** A token is accepted under the name its client was last given. */
  lemma AcceptedByName(calls: seq<Call>, n: nat, t: string, id: string, name: string, hash: Hash)
    requires n <= |calls| && CleanFailures(calls) && FreshDraws(calls)
    requires Authenticate(WorldAt(calls, n, hash).memory, t, hash) == Some(Bearer(id, name))
    ensures NameGiven(HistoryOf(calls, hash), n, id) == Some(name)
  {
    NamesKept(calls, n, hash);
    var k := HolderFinds(WorldAt(calls, n, hash).memory.value.clients, hash(t), 0);
  }
}
