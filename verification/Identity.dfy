/** The identity manager: what it holds in memory, the file it keeps it in, and the five
    operations that change both. Randomness, hashing of passwords and the file system are
    outcomes handed to each call. */
module Identity {
  import opened Wrappers

  // ---------- State ----------

  datatype Client = Client(id: string, name: string, tokenHash: string, createdAt: nat)

  /** Argon2 with its salt: the right password verifies and no other does. */
  datatype PasswordHash = Argon2(password: string, salt: string)

  datatype State = State(master: string, admin: PasswordHash, proxyHash: string, unified: bool,
                         clients: seq<Client>, createdAt: nat, updatedAt: nat)

  /** What the manager holds and what its file holds; None before the first setup. */
  datatype World = World(memory: Option<State>, disk: Option<State>)

  const UNSET := World(None, None)

  /** How writing the file went. The last step of writing sets the file's mode, after the
      new file has already taken the old one's place. */
  datatype Outcome = Saved | LostBeforeRename | LostAfterRename

  datatype Call =
    | Initialize(masterDraw: Option<string>, keyDraw: Option<string>, salt: Option<string>, cipherMade: bool,
                 now: nat, outcome: Outcome)
    | Rotate(requested: string, keyDraw: Option<string>, salt: Option<string>, now: nat, outcome: Outcome)
    | Issue(name: string, tokenDraw: Option<string>, idDraw: Option<string>, now: nat, outcome: Outcome)
    | Rename(id: string, name: string, now: nat, outcome: Outcome)
    | Revoke(id: string, now: nat, outcome: Outcome)
    | Reopen

  datatype Error =
    | AlreadyInitialized | SetupRequired | DrawFailed | NoCipher | BadKeyLength | LimitReached
    | BadName | NotFound | NotWritten | NilDereference

  datatype Result =
    | Secrets(accessKey: string, recoveryKey: string)
    | NewKey(accessKey: string)
    | Issued(id: string, name: string, createdAt: nat, token: string)
    | Renamed(id: string, name: string, createdAt: nat)
    | Revoked
    | Reopened
    | Failed(error: Error)

  const MAX_CLIENTS := 100
  const MAX_NAME := 80

  // ---------- Names and keys ----------

  /** White space as strings.TrimSpace sees it. */
  predicate IsSpace(c: char) {
    || c in "\t\n\r "
    || c as int in {0x0B, 0x0C, 0x85, 0xA0, 0x1680, 0x2028, 0x2029, 0x202F, 0x205F, 0x3000}
    || 0x2000 <= c as int <= 0x200A
  }

  function TrimLeft(s: string): string {
    if s != "" && IsSpace(s[0]) then TrimLeft(s[1..]) else s
  }

  function TrimRight(s: string): string {
    if s != "" && IsSpace(s[|s| - 1]) then TrimRight(s[..|s| - 1]) else s
  }

  function Trim(s: string): string {
    TrimRight(TrimLeft(s))
  }

  function ClientName(requested: string): (name: string)
    ensures 1 <= |name| <= MAX_NAME
  {
    var name := if Trim(requested) == "" then "OpenCode client" else Trim(requested);
    if |name| > MAX_NAME then name[..MAX_NAME] else name
  }

  // ---------- What an operation sets out to do ----------

  datatype Plan = Stop(result: Result) | Write(next: State, result: Result)

  function Find(clients: seq<Client>, id: string): (k: int)
    ensures -1 <= k < |clients|
    ensures k >= 0 ==> clients[k].id == id
  {
    FindFrom(clients, id, 0)
  }

  function FindFrom(clients: seq<Client>, id: string, i: nat): (k: int)
    requires i <= |clients|
    ensures k == -1 || i <= k < |clients|
    ensures k >= 0 ==> clients[k].id == id
    decreases |clients| - i
  {
    if i == |clients| then -1 else if clients[i].id == id then i else FindFrom(clients, id, i + 1)
  }

  /** The first client with the id, if there is one. */
  lemma {:induction false} FindIsFirst(clients: seq<Client>, id: string, i: nat)
    requires i <= |clients|
    ensures var k := FindFrom(clients, id, i);
            forall j :: i <= j < (if k < 0 then |clients| else k) ==> clients[j].id != id
    decreases |clients| - i
  {
    if i < |clients| && clients[i].id != id {
      FindIsFirst(clients, id, i + 1);
    }
  }

  function Without(clients: seq<Client>, k: nat): seq<Client>
    requires k < |clients|
  {
    clients[..k] + clients[k + 1..]
  }

  function PlanInitialize(memory: Option<State>, c: Call, hash: string -> string): Plan
    requires c.Initialize?
  {
    if memory.Some? then Stop(Failed(AlreadyInitialized))
    else if c.masterDraw.None? || c.keyDraw.None? || c.salt.None? then Stop(Failed(DrawFailed))
    else if !c.cipherMade then Stop(Failed(NoCipher))
    else
      var key := "opm_" + c.keyDraw.value;
      Write(State(c.masterDraw.value, Argon2(key, c.salt.value), hash(key), true, [], c.now, c.now),
            Secrets(key, c.masterDraw.value))
  }

  function PlanRotate(memory: Option<State>, c: Call, hash: string -> string): Plan
    requires c.Rotate?
  {
    if memory.None? then Stop(Failed(SetupRequired))
    else
      var s := memory.value;
      if Trim(c.requested) == "" && c.keyDraw.None? then Stop(Failed(DrawFailed))
      else
        var key := if Trim(c.requested) == "" then "opm_" + c.keyDraw.value else Trim(c.requested);
        if |key| < 16 || |key| > 256 then Stop(Failed(BadKeyLength))
        else if c.salt.None? then Stop(Failed(DrawFailed))
        else Write(s.(admin := Argon2(key, c.salt.value), proxyHash := hash(key), unified := true, updatedAt := c.now),
                   NewKey(key))
  }

  function PlanIssue(memory: Option<State>, c: Call, hash: string -> string): Plan
    requires c.Issue?
  {
    if memory.None? then Stop(Failed(SetupRequired))
    else
      var s := memory.value;
      if |s.clients| >= MAX_CLIENTS then Stop(Failed(LimitReached))
      else if c.tokenDraw.None? || c.idDraw.None? then Stop(Failed(DrawFailed))
      else
        var token := "opc_" + c.tokenDraw.value;
        var client := Client(c.idDraw.value, ClientName(c.name), hash(token), c.now);
        Write(s.(clients := s.clients + [client], updatedAt := c.now),
              Issued(client.id, client.name, c.now, token))
  }

  /** The name is checked before anything else, and whether there is a state is not
      checked at all. */
  function PlanRename(memory: Option<State>, c: Call): Plan
    requires c.Rename?
  {
    var name := Trim(c.name);
    if name == "" || |name| > MAX_NAME then Stop(Failed(BadName))
    else if memory.None? then Stop(Failed(NilDereference))
    else
      var s := memory.value;
      var k := Find(s.clients, c.id);
      if k < 0 then Stop(Failed(NotFound))
      else Write(s.(clients := s.clients[k := s.clients[k].(name := name)], updatedAt := c.now),
                 Renamed(c.id, name, s.clients[k].createdAt))
  }

  function PlanRevoke(memory: Option<State>, c: Call): Plan
    requires c.Revoke?
  {
    if memory.None? then Stop(Failed(SetupRequired))
    else
      var s := memory.value;
      var k := Find(s.clients, c.id);
      if k < 0 then Stop(Failed(NotFound))
      else Write(s.(clients := Without(s.clients, k), updatedAt := c.now), Revoked)
  }

  function PlanOf(memory: Option<State>, c: Call, hash: string -> string): Plan
    requires !c.Reopen?
  {
    match c
    case Initialize(_, _, _, _, _, _) => PlanInitialize(memory, c, hash)
    case Rotate(_, _, _, _, _) => PlanRotate(memory, c, hash)
    case Issue(_, _, _, _, _) => PlanIssue(memory, c, hash)
    case Rename(_, _, _, _) => PlanRename(memory, c)
    case Revoke(_, _, _) => PlanRevoke(memory, c)
  }

  /** What a plan leaves behind, given how writing the file goes. */
  function Carried(w: World, plan: Plan, outcome: Outcome): World {
    match plan
    case Stop(_) => w
    case Write(next, _) =>
      match outcome
      case Saved => World(Some(next), Some(next))
      case LostBeforeRename => w
      case LostAfterRename => w.(disk := Some(next))
  }

  function ResultOf(plan: Plan, outcome: Outcome): Result {
    if plan.Write? && !outcome.Saved? then Failed(NotWritten) else plan.result
  }

  function After(w: World, c: Call, hash: string -> string): World {
    if c.Reopen? then w.(memory := w.disk)
    else Carried(w, PlanOf(w.memory, c, hash), c.outcome)
  }

  function Returned(w: World, c: Call, hash: string -> string): Result {
    if c.Reopen? then Reopened else ResultOf(PlanOf(w.memory, c, hash), c.outcome)
  }

  // ---------- The manager ----------

  /** The manager's own form: the state's fields, changed in place, with the client tokens
      in the first count cells of a backing array that grows when it is full. */
  class Manager {
    const hash: string -> string
    var initialized: bool
    var sealed: bool
    var master: string
    var admin: PasswordHash
    var proxyHash: string
    var unified: bool
    var tokens: array<Client>
    var count: nat
    var createdAt: nat
    var updatedAt: nat
    var disk: Option<State>

    /** The cipher is there exactly when the state is. */
    ghost predicate Valid()
      reads this
    {
      count <= tokens.Length && sealed == initialized
    }

    ghost function Memory(): Option<State>
      reads this, tokens
      requires Valid()
    {
      if initialized
      then Some(State(master, admin, proxyHash, unified, tokens[..count], createdAt, updatedAt))
      else None
    }

    ghost function View(): World
      reads this, tokens
      requires Valid()
    {
      World(Memory(), disk)
    }

    /** Opening the file another run of the program left. */
    constructor Open(hash: string -> string, disk: Option<State>)
      ensures Valid() && fresh(tokens) && this.hash == hash
      ensures View() == World(disk, disk)
    {
      this.hash := hash;
      this.disk := disk;
      initialized := disk.Some?;
      sealed := disk.Some?;
      var s := if disk.Some? then disk.value else State("", Argon2("", ""), "", false, [], 0, 0);
      master, admin, proxyHash, unified := s.master, s.admin, s.proxyHash, s.unified;
      tokens := new Client[|s.clients|](i requires 0 <= i < |s.clients| => s.clients[i]);
      count := |s.clients|;
      createdAt, updatedAt := s.createdAt, s.updatedAt;
      new;
      assert tokens[..count] == s.clients;
    }

    method Persist(outcome: Outcome) returns (ok: bool)
      requires Valid()
      modifies this`disk
      ensures Valid() && ok == outcome.Saved? && Memory() == old(Memory())
      ensures disk == if outcome == LostBeforeRename then old(disk) else old(Memory())
    {
      ok := outcome.Saved?;
      if outcome != LostBeforeRename {
        disk := if initialized
          then Some(State(master, admin, proxyHash, unified, tokens[..count], createdAt, updatedAt))
          else None;
      }
    }

    /** A new state, not yet sealed with a cipher. */
    method FillState(master: string, admin: PasswordHash, proxyHash: string, now: nat)
      modifies this
      ensures initialized && sealed == old(sealed) && disk == old(disk) && fresh(tokens) && count <= tokens.Length
      ensures State(this.master, this.admin, this.proxyHash, unified, tokens[..count], createdAt, updatedAt)
              == State(master, admin, proxyHash, true, [], now, now)
    {
      initialized := true;
      this.master, this.admin, this.proxyHash, unified := master, admin, proxyHash, true;
      tokens, count := new Client[0], 0;
      createdAt, updatedAt := now, now;
    }

    method Initialize(c: Call) returns (r: Result)
      requires Valid() && c.Initialize?
      modifies this
      ensures Valid() && (fresh(tokens) || tokens == old(tokens))
      ensures var plan := PlanInitialize(old(Memory()), c, hash);
              View() == Carried(old(View()), plan, c.outcome) && r == ResultOf(plan, c.outcome)
    {
      if initialized {
        return Failed(AlreadyInitialized);
      }
      if c.masterDraw.None? || c.keyDraw.None? || c.salt.None? {
        return Failed(DrawFailed);
      }
      var accessKey := "opm_" + c.keyDraw.value;
      FillState(c.masterDraw.value, Argon2(accessKey, c.salt.value), hash(accessKey), c.now);
      if !c.cipherMade {
        initialized := false;
        return Failed(NoCipher);
      }
      sealed := true;
      var ok := Persist(c.outcome);
      if !ok {
        initialized, sealed := false, false;
        return Failed(NotWritten);
      }
      r := Secrets(accessKey, master);
    }

    method RotateAccessKey(c: Call) returns (r: Result)
      requires Valid() && c.Rotate?
      modifies this
      ensures Valid() && tokens == old(tokens)
      ensures var plan := PlanRotate(old(Memory()), c, hash);
              View() == Carried(old(View()), plan, c.outcome) && r == ResultOf(plan, c.outcome)
    {
      if !initialized {
        return Failed(SetupRequired);
      }
      var accessKey := Trim(c.requested);
      if accessKey == "" {
        if c.keyDraw.None? {
          return Failed(DrawFailed);
        }
        accessKey := "opm_" + c.keyDraw.value;
      }
      if |accessKey| < 16 || |accessKey| > 256 {
        return Failed(BadKeyLength);
      }
      if c.salt.None? {
        return Failed(DrawFailed);
      }
      var oldAdmin, oldProxyHash, oldUnified, oldUpdated := admin, proxyHash, unified, updatedAt;
      admin := Argon2(accessKey, c.salt.value);
      proxyHash, unified, updatedAt := hash(accessKey), true, c.now;
      var ok := Persist(c.outcome);
      if !ok {
        admin, proxyHash, unified, updatedAt := oldAdmin, oldProxyHash, oldUnified, oldUpdated;
        return Failed(NotWritten);
      }
      r := NewKey(accessKey);
    }

    /** A copy that shares nothing with the list. */
    method CopyTokens() returns (copy: array<Client>)
      requires Valid()
      ensures fresh(copy) && copy[..] == tokens[..count]
    {
      copy := new Client[count](i requires 0 <= i < count <= tokens.Length reads this, tokens => tokens[i]);
    }

    /** append: in place while there is room, into a larger array once there is none. */
    method AppendToken(client: Client)
      requires Valid()
      modifies this`tokens, this`count, tokens
      ensures Valid() && (fresh(tokens) || tokens == old(tokens))
      ensures tokens[..count] == old(tokens[..count]) + [client]
    {
      if count == tokens.Length {
        var was := tokens[..count];
        tokens := new Client[2 * count + 1](i => if 0 <= i < |was| then was[i] else client);
        assert tokens[..count] == was;
      }
      ghost var before := tokens[..count];
      tokens[count] := client;
      count := count + 1;
      assert tokens[..count] == before + [client];
    }

    /** append(list[:index], list[index+1:]...): the tail moves down one cell in place. */
    method RemoveToken(index: nat)
      requires Valid() && index < count
      modifies this`count, tokens
      ensures Valid()
      ensures tokens[..count] == old(Without(tokens[..count], index))
    {
      ghost var was := tokens[..count];
      for i := index to count - 1
        modifies tokens
        invariant tokens[..i] == was[..index] + was[index + 1..i + 1]
        invariant tokens[i..count] == was[i..]
      {
        assert tokens[i + 1] == tokens[i..count][1] == was[i + 1];
        ghost var rest := tokens[i + 1..count];
        assert rest == was[i + 1..] by {
          assert rest == tokens[i..count][1..];
        }
        tokens[i] := tokens[i + 1];
        assert tokens[i + 1..count] == rest;
        assert tokens[..i + 1] == was[..index] + was[index + 1..i + 2];
      }
      count := count - 1;
    }

    method IssueClientToken(c: Call) returns (r: Result)
      requires Valid() && c.Issue?
      modifies this, tokens
      ensures Valid() && (fresh(tokens) || tokens == old(tokens))
      ensures var plan := PlanIssue(old(Memory()), c, hash);
              View() == Carried(old(View()), plan, c.outcome) && r == ResultOf(plan, c.outcome)
    {
      if !initialized {
        return Failed(SetupRequired);
      }
      if count >= MAX_CLIENTS {
        return Failed(LimitReached);
      }
      var name := Trim(c.name);
      if name == "" {
        name := "OpenCode client";
      }
      if |name| > MAX_NAME {
        name := name[..MAX_NAME];
      }
      if c.tokenDraw.None? || c.idDraw.None? {
        return Failed(DrawFailed);
      }
      var token := "opc_" + c.tokenDraw.value;
      var client := Client(c.idDraw.value, name, hash(token), c.now);
      var previous := CopyTokens();
      var previousUpdatedAt := updatedAt;
      AppendToken(client);
      updatedAt := client.createdAt;
      var ok := Persist(c.outcome);
      if !ok {
        tokens, count := previous, previous.Length;
        updatedAt := previousUpdatedAt;
        assert tokens[..count] == previous[..];
        return Failed(NotWritten);
      }
      r := Issued(client.id, client.name, client.createdAt, token);
    }

    method FindToken(id: string) returns (index: int)
      requires Valid()
      ensures index == Find(tokens[..count], id)
    {
      index := -1;
      for i := 0 to count
        invariant index == -1
        invariant FindFrom(tokens[..count], id, i) == Find(tokens[..count], id)
      {
        if tokens[i].id == id {
          index := i;
          break;
        }
      }
    }

    method RenameClientToken(c: Call) returns (r: Result)
      requires Valid() && c.Rename?
      modifies this, tokens
      ensures Valid() && tokens == old(tokens)
      ensures var plan := PlanRename(old(Memory()), c);
              View() == Carried(old(View()), plan, c.outcome) && r == ResultOf(plan, c.outcome)
    {
      var name := Trim(c.name);
      if name == "" || |name| > MAX_NAME {
        return Failed(BadName);
      }
      if !initialized {
        return Failed(NilDereference);
      }
      var index := FindToken(c.id);
      if index < 0 {
        return Failed(NotFound);
      }
      ghost var was := tokens[..count];
      var previousName, previousUpdatedAt := tokens[index].name, updatedAt;
      tokens[index] := tokens[index].(name := name);
      assert tokens[..count] == was[index := was[index].(name := name)];
      updatedAt := c.now;
      var ok := Persist(c.outcome);
      if !ok {
        tokens[index] := tokens[index].(name := previousName);
        updatedAt := previousUpdatedAt;
        assert tokens[..count] == was;
        return Failed(NotWritten);
      }
      r := Renamed(tokens[index].id, tokens[index].name, tokens[index].createdAt);
    }

    method RevokeClientToken(c: Call) returns (r: Result)
      requires Valid() && c.Revoke?
      modifies this, tokens
      ensures Valid() && (fresh(tokens) || tokens == old(tokens))
      ensures var plan := PlanRevoke(old(Memory()), c);
              View() == Carried(old(View()), plan, c.outcome) && r == ResultOf(plan, c.outcome)
    {
      if !initialized {
        return Failed(SetupRequired);
      }
      var index := FindToken(c.id);
      if index < 0 {
        return Failed(NotFound);
      }
      var previous := CopyTokens();
      var previousUpdatedAt := updatedAt;
      RemoveToken(index);
      updatedAt := c.now;
      var ok := Persist(c.outcome);
      if !ok {
        tokens, count := previous, previous.Length;
        updatedAt := previousUpdatedAt;
        assert tokens[..count] == previous[..];
        return Failed(NotWritten);
      }
      r := Revoked;
    }

    /** Whom a token speaks for. */
    method AuthenticateProxy(token: string) returns (who: Option<Principal>)
      requires Valid()
      ensures who == Authenticate(Memory(), token, hash)
    {
      if !initialized {
        return None;
      }
      var got := hash(token);
      if got == proxyHash {
        return Some(Master);
      }
      who := None;
      for i := 0 to count
        invariant who == None
        invariant Holder(tokens[..count], got, i) == Holder(tokens[..count], got, 0)
      {
        if tokens[i].tokenHash == got {
          who := Some(Bearer(tokens[i].id, tokens[i].name));
          break;
        }
      }
    }
  }

  // ---------- Authentication ----------

  datatype Principal = Master | Bearer(id: string, name: string)

  function Holder(clients: seq<Client>, hashed: string, i: nat): Option<Principal>
    requires i <= |clients|
    decreases |clients| - i
  {
    if i == |clients| then None
    else if clients[i].tokenHash == hashed then Some(Bearer(clients[i].id, clients[i].name))
    else Holder(clients, hashed, i + 1)
  }

  function Authenticate(memory: Option<State>, token: string, hash: string -> string): Option<Principal> {
    if memory.None? then None
    else if hash(token) == memory.value.proxyHash then Some(Master)
    else Holder(memory.value.clients, hash(token), 0)
  }

  function VerifyAdmin(memory: Option<State>, password: string): bool {
    memory.Some? && memory.value.admin.password == password
  }
}
