/** One-time pairing tickets: the store that holds them, the two requests that use it, and
    whole runs of requests against it. Clock readings are part of each request. */
module Enrollment {
  import opened Wrappers
  import opened TextClock
  import opened Identity

  const LIFETIME: nat := 600 * NANOS_PER_SECOND

  datatype Ticket = Ticket(name: string, expiresAt: nat)

  /** Tickets by the hash of their text. */
  type Tickets = map<string, Ticket>

  /** A request. Opening reads the clock once before it takes the lock, and once for each
      stored ticket while it holds it; a request that enrolls reads it once. */
  datatype Request =
    | Open(requested: string, draw: Option<string>, born: nat, at: nat, readings: map<string, nat>, until: nat)
    | Enroll(ready: bool, wellFormed: bool, sent: string, at: nat, issues: bool)

  datatype Answer =
    | Opened(ticket: string, expiresAt: nat)
    | NameTooLong
    | DrawLost
    | Enrolled(name: string)
    | NotSetUp
    | BadRequest
    | Unauthorized
    | NotIssued(name: string)

  function ReadingFor(r: Request, key: string): nat
    requires r.Open?
  {
    if key in r.readings then r.readings[key] else r.at
  }

  function TicketName(requested: string): string {
    if Trim(requested) == "" then "OpenCode client" else Trim(requested)
  }

  // ---------- Each request ----------

  /** The tickets that outlive the purge. */
  function Purged(tickets: Tickets, r: Request): Tickets
    requires r.Open?
  {
    map key | key in tickets && ReadingFor(r, key) <= tickets[key].expiresAt :: tickets[key]
  }

  predicate Opens(r: Request) {
    r.Open? && |TicketName(r.requested)| <= MAX_NAME && r.draw.Some?
  }

  /** The request gets as far as taking its ticket out of the store. */
  predicate Spends(r: Request, ticket: string) {
    r.Enroll? && r.ready && r.wellFormed && Trim(r.sent) == ticket
  }

  function TicketOf(r: Request): Ticket
    requires Opens(r)
  {
    Ticket(TicketName(r.requested), r.born + LIFETIME)
  }

  /** The tickets after a request, with or without the purge. */
  function Next(tickets: Tickets, r: Request, purge: bool, hash: string -> string): Tickets {
    if Opens(r) then
      (if purge then Purged(tickets, r) else tickets)[hash(r.draw.value) := TicketOf(r)]
    else if r.Enroll? && r.ready && r.wellFormed then tickets - {hash(Trim(r.sent))}
    else tickets
  }

  function Redeemed(held: Option<Ticket>, at: nat): Option<Ticket> {
    if held.Some? && at <= held.value.expiresAt then held else None
  }

  function Held(tickets: Tickets, key: string): Option<Ticket> {
    if key in tickets then Some(tickets[key]) else None
  }

  function AnswerTo(tickets: Tickets, r: Request, hash: string -> string): Answer {
    match r
    case Open(requested, draw, born, _, _, _) =>
      if |TicketName(requested)| > MAX_NAME then NameTooLong
      else if draw.None? then DrawLost
      else Opened(draw.value, born + LIFETIME)
    case Enroll(ready, wellFormed, sent, at, issues) =>
      if !ready then NotSetUp
      else if !wellFormed then BadRequest
      else
        var item := Redeemed(Held(tickets, hash(Trim(sent))), at);
        if item.None? then Unauthorized
        else if issues then Enrolled(item.value.name)
        else NotIssued(item.value.name)
  }

  // ---------- The store ----------

  class EnrollmentStore {
    const hash: string -> string
    var tickets: Tickets

    constructor (hash: string -> string)
      ensures tickets == map[] && this.hash == hash
    {
      this.hash := hash;
      tickets := map[];
    }

    /** Purges while it walks over the map, in any order, reading the clock for each. */
    method Create(name: string, r: Request) returns (ticket: Option<string>, expiresAt: nat)
      requires r.Open?
      modifies this
      ensures r.draw.None? ==> ticket == None && tickets == old(tickets)
      ensures r.draw.Some? ==> ticket == r.draw && expiresAt == r.born + LIFETIME
      ensures r.draw.Some? ==> tickets == Purged(old(tickets), r)[hash(r.draw.value) := Ticket(name, r.born + LIFETIME)]
    {
      ticket, expiresAt := r.draw, r.born + LIFETIME;
      if ticket.None? {
        return;
      }
      ghost var was := tickets;
      var waiting := tickets.Keys;
      while waiting != {}
        invariant waiting <= was.Keys
        invariant tickets == map key | key in was && (key in waiting || key in Purged(was, r)) :: was[key]
        decreases |waiting|
      {
        var key :| key in waiting;
        waiting := waiting - {key};
        if ReadingFor(r, key) > tickets[key].expiresAt {
          tickets := tickets - {key};
        }
      }
      assert tickets == Purged(was, r);
      tickets := tickets[hash(ticket.value) := Ticket(name, expiresAt)];
    }

    /** The ticket is gone whether or not it was still good. */
    method Consume(ticket: string, now: nat) returns (item: Option<Ticket>)
      modifies this
      ensures tickets == old(tickets) - {hash(ticket)}
      ensures item == Redeemed(Held(old(tickets), hash(ticket)), now)
    {
      var key := hash(ticket);
      if key !in tickets {
        assert tickets == tickets - {key};
        return None;
      }
      var held := tickets[key];
      tickets := tickets - {key};
      if now > held.expiresAt {
        return None;
      }
      item := Some(held);
    }
  }

  method CreateClientEnrollment(store: EnrollmentStore, r: Request) returns (a: Answer)
    requires r.Open?
    modifies store
    ensures store.tickets == Next(old(store.tickets), r, true, store.hash)
    ensures a == AnswerTo(old(store.tickets), r, store.hash)
    ensures a == NameTooLong <==> |Trim(r.requested)| > 80
    ensures a == DrawLost <==> |Trim(r.requested)| <= 80 && r.draw.None?
    ensures a.Opened? ==> r.draw == Some(a.ticket) && a.expiresAt == r.born + 600 * NANOS_PER_SECOND
    ensures !a.Opened? ==> store.tickets == old(store.tickets)
  {
    var name := Trim(r.requested);
    if name == "" {
      name := "OpenCode client";
    }
    if |name| > MAX_NAME {
      return NameTooLong;
    }
    var ticket, expiresAt := store.Create(name, r);
    if ticket.None? {
      return DrawLost;
    }
    a := Opened(ticket.value, expiresAt);
  }

  method ClientEnroll(store: EnrollmentStore, r: Request) returns (a: Answer)
    requires r.Enroll?
    modifies store
    ensures store.tickets == Next(old(store.tickets), r, true, store.hash)
    ensures a == AnswerTo(old(store.tickets), r, store.hash)
    ensures a == NotSetUp <==> !r.ready
    ensures a == BadRequest <==> r.ready && !r.wellFormed
    ensures !r.ready || !r.wellFormed ==> store.tickets == old(store.tickets)
    ensures r.ready && r.wellFormed ==> store.tickets == old(store.tickets) - {store.hash(Trim(r.sent))}
  {
    if !r.ready {
      return NotSetUp;
    }
    if !r.wellFormed {
      return BadRequest;
    }
    var item := store.Consume(Trim(r.sent), r.at);
    if item.None? {
      return Unauthorized;
    }
    if !r.issues {
      return NotIssued(item.value.name);
    }
    a := Enrolled(item.value.name);
  }

  // ---------- Runs ----------

  function End(r: Request): nat { if r.Open? then r.until else r.at }

  predicate Clocked(r: Request) {
    r.Open? ==>
      && r.born <= r.at <= r.until
      && forall key :: key in r.readings ==> r.at <= r.readings[key] <= r.until
  }

  /** Readings made under the lock never go backwards from one request to a later one. */
  predicate InOrder(rs: seq<Request>) {
    && (forall i :: 0 <= i < |rs| ==> Clocked(rs[i]))
    && (forall i, j :: 0 <= i < j < |rs| ==> End(rs[i]) <= rs[j].at)
  }

  function TicketsAt(rs: seq<Request>, n: nat, purge: bool, hash: string -> string): Tickets
    requires n <= |rs|
  {
    if n == 0 then map[] else Next(TicketsAt(rs, n - 1, purge, hash), rs[n - 1], purge, hash)
  }

  function AnswerAt(rs: seq<Request>, i: nat, purge: bool, hash: string -> string): Answer
    requires i < |rs|
  {
    AnswerTo(TicketsAt(rs, i, purge, hash), rs[i], hash)
  }

  // ---------- The purge cannot be noticed ----------

  /** The purging store holds what the other holds, short of some tickets that expired
      before the time given. */
  predicate Trails(purging: Tickets, keeping: Tickets, time: nat) {
    && (forall key :: key in purging ==> key in keeping && keeping[key] == purging[key])
    && (forall key :: key in keeping && key !in purging ==> keeping[key].expiresAt < time)
  }

  lemma TrailsNext(purging: Tickets, keeping: Tickets, time: nat, r: Request, hash: string -> string)
    requires Trails(purging, keeping, time) && time <= r.at && Clocked(r)
    ensures Trails(Next(purging, r, true, hash), Next(keeping, r, false, hash), End(r))
    ensures AnswerTo(purging, r, hash) == AnswerTo(keeping, r, hash)
  {
  }

  lemma {:induction false} StoreTrails(rs: seq<Request>, n: nat, hash: string -> string)
    requires n <= |rs| && InOrder(rs)
    ensures Trails(TicketsAt(rs, n, true, hash), TicketsAt(rs, n, false, hash), if n == 0 then 0 else End(rs[n - 1]))
  {
    if n > 0 {
      StoreTrails(rs, n - 1, hash);
      TrailsNext(TicketsAt(rs, n - 1, true, hash), TicketsAt(rs, n - 1, false, hash),
                 if n == 1 then 0 else End(rs[n - 2]), rs[n - 1], hash);
    }
  }

  /** Every request gets the answer it would get from a store that never purges. */
  lemma PurgeUnnoticed(rs: seq<Request>, i: nat, hash: string -> string)
    requires i < |rs| && InOrder(rs)
    ensures AnswerAt(rs, i, true, hash) == AnswerAt(rs, i, false, hash)
  {
    StoreTrails(rs, i, hash);
    TrailsNext(TicketsAt(rs, i, true, hash), TicketsAt(rs, i, false, hash),
               if i == 0 then 0 else End(rs[i - 1]), rs[i], hash);
  }

  // ---------- What redeems a ticket ----------

  /** The ticket's entry, if it was created and no request has taken it out since. */
  function Pending(rs: seq<Request>, n: nat, ticket: string): Option<Ticket>
    requires n <= |rs|
  {
    if n == 0 then None
    else if Opens(rs[n - 1]) && rs[n - 1].draw == Some(ticket) then Some(TicketOf(rs[n - 1]))
    else if Spends(rs[n - 1], ticket) then None
    else Pending(rs, n - 1, ticket)
  }

  ghost predicate Injective(hash: string -> string) {
    forall a, b :: hash(a) == hash(b) ==> a == b
  }

  lemma {:induction false} KeepingIsPending(rs: seq<Request>, n: nat, ticket: string, hash: string -> string)
    requires n <= |rs| && Injective(hash)
    ensures Held(TicketsAt(rs, n, false, hash), hash(ticket)) == Pending(rs, n, ticket)
  {
    if n > 0 {
      KeepingIsPending(rs, n - 1, ticket, hash);
    }
  }

  /** A request that reaches the store is accepted exactly when its ticket was created, no
      request has spent it since, and the clock has not passed its expiry; and it gets the
      name the ticket was created for. */
  lemma AcceptedExactly(rs: seq<Request>, i: nat, ticket: string, hash: string -> string)
    requires i < |rs| && InOrder(rs) && Injective(hash) && Spends(rs[i], ticket)
    ensures var item := Redeemed(Pending(rs, i, ticket), rs[i].at);
            AnswerAt(rs, i, true, hash)
            == if item.None? then Unauthorized
               else if rs[i].issues then Enrolled(item.value.name)
               else NotIssued(item.value.name)
  {
    PurgeUnnoticed(rs, i, hash);
    KeepingIsPending(rs, i, ticket, hash);
  }

  predicate Accepted(a: Answer) { a.Enrolled? || a.NotIssued? }

  /** Request j created the ticket, and nobody has spent it between then and request i. */
  ghost predicate Unspent(rs: seq<Request>, j: nat, i: nat, ticket: string)
    requires i <= |rs|
  {
    && j < i && rs[j].Open? && |Trim(rs[j].requested)| <= 80 && rs[j].draw == Some(ticket)
    && forall k :: j < k < i ==> !Spends(rs[k], ticket)
  }

  /** In terms of the requests: a ticket is accepted exactly when an earlier request created
      it, none has spent it since, and it is redeemed no more than ten minutes after that
      request's clock reading; and the answer then names what that request asked for. */
  lemma AcceptedWithin(rs: seq<Request>, i: nat, ticket: string, hash: string -> string)
    requires i < |rs| && InOrder(rs) && Injective(hash) && FreshTickets(rs) && Spends(rs[i], ticket)
    ensures Accepted(AnswerAt(rs, i, true, hash)) <==>
            exists j: nat :: Unspent(rs, j, i, ticket) && rs[i].at <= rs[j].born + 600 * NANOS_PER_SECOND
    ensures forall j: nat :: Unspent(rs, j, i, ticket) && Accepted(AnswerAt(rs, i, true, hash)) ==>
              AnswerAt(rs, i, true, hash).name
              == if Trim(rs[j].requested) == "" then "OpenCode client" else Trim(rs[j].requested)
    ensures Accepted(AnswerAt(rs, i, true, hash)) || AnswerAt(rs, i, true, hash) == Unauthorized
    ensures AnswerAt(rs, i, true, hash).Enrolled? ==> rs[i].issues
    ensures AnswerAt(rs, i, true, hash).NotIssued? ==> !rs[i].issues
  {
    AcceptedExactly(rs, i, ticket, hash);
    if Pending(rs, i, ticket).Some? {
      var j := PendingOrigin(rs, i, ticket);
      assert Unspent(rs, j, i, ticket);
    }
    forall j: nat | Unspent(rs, j, i, ticket)
      ensures Pending(rs, i, ticket) == Some(TicketOf(rs[j]))
    {
      UnspentPending(rs, j, i, ticket);
    }
  }

  lemma {:induction false} UnspentPending(rs: seq<Request>, j: nat, i: nat, ticket: string)
    requires i <= |rs| && FreshTickets(rs) && Unspent(rs, j, i, ticket)
    ensures Opens(rs[j]) && Pending(rs, i, ticket) == Some(TicketOf(rs[j]))
    decreases i
  {
    if j < i - 1 {
      UnspentPending(rs, j, i - 1, ticket);
    }
  }

  /** No ticket is drawn twice. */
  predicate FreshTickets(rs: seq<Request>) {
    forall i, j :: 0 <= i < j < |rs| && rs[i].Open? && rs[j].Open? && rs[i].draw.Some? ==> rs[i].draw != rs[j].draw
  }

  lemma {:induction false} PendingOrigin(rs: seq<Request>, n: nat, ticket: string) returns (j: nat)
    requires n <= |rs| && Pending(rs, n, ticket).Some?
    ensures j < n && Opens(rs[j]) && rs[j].draw == Some(ticket) && Pending(rs, n, ticket) == Some(TicketOf(rs[j]))
    ensures forall k :: j < k < n ==> !Spends(rs[k], ticket)
  {
    if Opens(rs[n - 1]) && rs[n - 1].draw == Some(ticket) {
      j := n - 1;
    } else {
      j := PendingOrigin(rs, n - 1, ticket);
    }
  }

  /** An accepted ticket was created before, by a request whose clock reading is at most ten
      minutes back; and no earlier request ever spent it. */
  lemma RedeemedInTime(rs: seq<Request>, i: nat, ticket: string, hash: string -> string) returns (j: nat)
    requires i < |rs| && InOrder(rs) && Injective(hash) && FreshTickets(rs)
    requires Spends(rs[i], ticket) && Accepted(AnswerAt(rs, i, true, hash))
    ensures j < i && Opens(rs[j]) && rs[j].draw == Some(ticket) && rs[i].at <= rs[j].born + LIFETIME
    ensures forall k :: j < k < i ==> !Spends(rs[k], ticket)
  {
    AcceptedExactly(rs, i, ticket, hash);
    j := PendingOrigin(rs, i, ticket);
  }

  /** No ticket is accepted twice, even if issuing the token failed the first time. */
  lemma RedeemedOnce(rs: seq<Request>, i: nat, k: nat, ticket: string, hash: string -> string)
    requires i < k < |rs| && InOrder(rs) && Injective(hash) && FreshTickets(rs)
    requires Spends(rs[i], ticket) && Spends(rs[k], ticket)
    requires Accepted(AnswerAt(rs, i, true, hash))
    ensures AnswerAt(rs, k, true, hash) == Unauthorized
  {
    AcceptedExactly(rs, k, ticket, hash);
    var j := RedeemedInTime(rs, i, ticket, hash);
    if Pending(rs, k, ticket).Some? {
      var l := PendingOrigin(rs, k, ticket);
      assert false;
    }
  }

  // ---------- Conservation ----------

  /** The store after some requests, with how many tickets they created, how many they
      had accepted, and how many client tokens they were given. */
  datatype Tally = Tally(tickets: Tickets, created: nat, accepted: nat, issued: nat)

  function TallyNext(t: Tally, r: Request, hash: string -> string): Tally {
    var a := AnswerTo(t.tickets, r, hash);
    Tally(Next(t.tickets, r, true, hash),
          t.created + if Opens(r) then 1 else 0,
          t.accepted + if Accepted(a) then 1 else 0,
          t.issued + if a.Enrolled? then 1 else 0)
  }

  function TallyAt(rs: seq<Request>, n: nat, hash: string -> string): Tally
    requires n <= |rs|
  {
    if n == 0 then Tally(map[], 0, 0, 0) else TallyNext(TallyAt(rs, n - 1, hash), rs[n - 1], hash)
  }

  lemma {:induction false} TallyFollows(rs: seq<Request>, n: nat, hash: string -> string)
    requires n <= |rs|
    ensures TallyAt(rs, n, hash).tickets == TicketsAt(rs, n, true, hash)
  {
    if n > 0 {
      TallyFollows(rs, n - 1, hash);
    }
  }

  predicate Balanced(t: Tally) {
    |t.tickets| + t.accepted <= t.created && t.issued <= t.accepted
  }

  lemma PurgeCount(tickets: Tickets, r: Request)
    requires r.Open?
    ensures |Purged(tickets, r)| <= |tickets|
  {
    var kept := Purged(tickets, r).Keys;
    assert tickets.Keys == kept + (tickets.Keys - kept);
    assert |tickets.Keys| == |tickets| && |kept| == |Purged(tickets, r)|;
  }

  lemma AddCount(tickets: Tickets, key: string, t: Ticket)
    ensures |tickets[key := t]| <= |tickets| + 1
  {
    assert tickets[key := t].Keys == tickets.Keys + {key};
    assert |tickets.Keys + {key}| <= |tickets.Keys| + 1;
  }

  lemma TakeCount(tickets: Tickets, key: string)
    ensures |tickets - {key}| + (if key in tickets then 1 else 0) == |tickets|
  {
    assert (tickets - {key}).Keys == tickets.Keys - {key};
    assert |tickets.Keys| == |tickets| && |(tickets - {key}).Keys| == |tickets - {key}|;
  }

  lemma NextCount(tickets: Tickets, r: Request, hash: string -> string)
    ensures |Next(tickets, r, true, hash)| + (if Accepted(AnswerTo(tickets, r, hash)) then 1 else 0)
            <= |tickets| + if Opens(r) then 1 else 0
  {
    if Opens(r) {
      PurgeCount(tickets, r);
      AddCount(Purged(tickets, r), hash(r.draw.value), TicketOf(r));
    } else if r.Enroll? && r.ready && r.wellFormed {
      TakeCount(tickets, hash(Trim(r.sent)));
    }
  }

  lemma BalancedNext(t: Tally, r: Request, hash: string -> string)
    requires Balanced(t)
    ensures Balanced(TallyNext(t, r, hash))
  {
    NextCount(t.tickets, r, hash);
  }

  lemma {:induction false} TallyBalanced(rs: seq<Request>, n: nat, hash: string -> string)
    requires n <= |rs|
    ensures Balanced(TallyAt(rs, n, hash))
  {
    if n > 0 {
      TallyBalanced(rs, n - 1, hash);
      var t := TallyAt(rs, n - 1, hash);
      assert TallyAt(rs, n, hash) == TallyNext(t, rs[n - 1], hash);
      BalancedNext(t, rs[n - 1], hash);
    }
  }

  /** At any moment, tickets still stored and tickets accepted so far are together no more
      than tickets created; so tokens handed out by enrollment never outnumber them. */
  lemma TicketsConserved(rs: seq<Request>, n: nat, hash: string -> string)
    requires n <= |rs|
    ensures Balanced(TallyAt(rs, n, hash)) && TallyAt(rs, n, hash).tickets == TicketsAt(rs, n, true, hash)
  {
    TallyFollows(rs, n, hash);
    TallyBalanced(rs, n, hash);
  }

  // ---------- The name on the ticket ----------

  lemma {:induction false} TrimmedEnds(s: string)
    ensures TrimLeft(s) == "" || !IsSpace(TrimLeft(s)[0])
    ensures TrimRight(s) == "" || !IsSpace(TrimRight(s)[|TrimRight(s)| - 1])
    ensures |TrimRight(s)| <= |s| && TrimRight(s) == s[..|TrimRight(s)|]
    decreases |s|
  {
    if s != "" {
      TrimmedEnds(s[1..]);
      TrimmedEnds(s[..|s| - 1]);
    }
  }

  /** The client enrolled with a ticket bears exactly the name the ticket was opened with:
      issuing trims and cuts names again, to no effect. */
  lemma NameKept(requested: string)
    requires |TicketName(requested)| <= MAX_NAME
    ensures ClientName(TicketName(requested)) == TicketName(requested)
  {
    var name := TicketName(requested);
    TrimmedEnds(requested);
    TrimmedEnds(TrimLeft(requested));
    assert Trim(name) == name;
  }
}
