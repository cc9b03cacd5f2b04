/** One inference request, from the key snapshot to the reply: `HandleInference` with
    nobody interfering, over any behaviour of the upstream and of the client. */
module Inference {
  import opened Wrappers
  import opened TextClock
  import opened KeyStore
  import opened Verdict
  import opened Sse
  import opened Forwarding
  import SequentialRuns

  // ---------- Surroundings ----------

  /** What happens when one key is tried. */
  datatype Exchange =
    | SecretLost
    | NoConnection
    | Reply(status: nat, header: Header, eventStream: bool, body: seq<byte>, ending: Ending)

  /** `classify` sees the status, headers and data, and the attempt and event it is asked
      about (which stand for the moment of asking). `stored` and `promoted` say whether
      the store accepts the writes after an attempt. */
  datatype Env = Env(
    stream: bool,
    classify: (nat, Header, seq<byte>, nat, nat) -> Classification,
    probeIntervalSec: Option<int>,
    at: nat -> Instant,
    stored: nat -> bool,
    promoted: nat -> bool,
    maxEvent: nat,
    maxBody: nat,
    room: nat,
    texts: Texts)

  datatype Texts = Texts(
    json: Header, tooLarge: seq<byte>, noKey: seq<byte>, network: seq<byte>, read: seq<byte>, exhausted: seq<byte>)

  function Bytes(text: string): (b: seq<byte>)
    ensures |b| == |text|
  {
    seq(|text|, i requires 0 <= i < |text| => text[i] as int % 256)
  }

  function ErrorJson(message: string, kind: string): seq<byte> {
    Bytes("{\"error\":{\"message\":\"" + message + "\",\"type\":\"" + kind + "\"}}\n")
  }

  /** The replies the proxy makes up itself; what is proved below holds of any wording. */
  const OWN_TEXTS := Texts(
    "Content-Type: application/json",
    ErrorJson("request body exceeds the limit", "request_too_large"),
    ErrorJson("No inference key is currently available", "opencodeproxy_unavailable"),
    ErrorJson("OpenCode upstream request failed", "upstream_network_error"),
    ErrorJson("Could not read OpenCode response", "upstream_read_error"),
    Bytes("{\"error\":{\"message\":\"All inference keys are unavailable\",\"type\":\"opencodeproxy_unavailable\"}}"))

  function Nth(exchanges: seq<Exchange>, i: nat): Exchange {
    if i < |exchanges| then exchanges[i] else NoConnection
  }

  predicate Streams(env: Env, e: Exchange) {
    env.stream && e.Reply? && 200 <= e.status < 300 && e.eventStream
  }

  /** io.ReadAll on a limited body: a longer body is cut without an error. */
  function LimitedBody(env: Env, e: Exchange): Option<seq<byte>>
    requires e.Reply?
  {
    if |e.body| >= env.maxBody then Some(e.body[..env.maxBody])
    else if e.ending == Broken then None
    else Some(e.body)
  }

  function JudgeOf(env: Env, e: Exchange, i: nat): Judge
    requires e.Reply?
  {
    (data: seq<byte>, n: nat) => env.classify(e.status, e.header, data, i, n)
  }

  function ForwardOf(env: Env, e: Exchange, i: nat): Forwarded
    requires e.Reply?
  {
    Forward(e.body, e.ending, env.maxEvent, JudgeOf(env, e, i), env.room)
  }

  // ---------- What one turn comes to ----------

  function AnswerOf(env: Env, e: Exchange, i: nat): (a: Answer)
    ensures a.Proper()
  {
    match e
    case SecretLost => Undecryptable
    case NoConnection => NetworkDown
    case Reply(status, header, _, _, _) =>
      if Streams(env, e) then
        var result := ForwardOf(env, e, i).result;
        if result.firstError.Some?
        then Refused(result.firstError.value, env.probeIntervalSec, env.at(i), env.stored(i))
        else Streamed(result.lateError, env.probeIntervalSec, env.at(i), env.stored(i), env.promoted(i))
      else
        var body := LimitedBody(env, e);
        if body.None? then BodyLost
        else
          var verdict := env.classify(status, header, body.value, i, 0);
          if verdict.FailsOver() then Refused(verdict, env.probeIntervalSec, env.at(i), env.stored(i))
          else Plain(status, env.at(i), env.stored(i), env.promoted(i))
  }

  function Answers(env: Env, exchanges: seq<Exchange>, count: nat): (r: seq<Answer>)
    ensures |r| == count
    ensures forall i :: 0 <= i < count ==> r[i] == AnswerOf(env, Nth(exchanges, i), i)
  {
    seq(count, i requires 0 <= i < count => AnswerOf(env, Nth(exchanges, i), i))
  }

  // ---------- Telemetry and the client's view ----------

  datatype Outcome = Success | Error | Failover

  datatype ErrorClass = Class(kind: Kind) | NoAvailableKey

  datatype Attempt = Attempt(keyId: nat, attemptNo: nat, status: nat, outcome: Outcome, kind: Kind)

  datatype Finish = Finish(finalKey: Option<nat>, attemptCount: nat, status: nat, outcome: Outcome,
                           errorClass: ErrorClass)

  /** What the handler has sent the client; status 0 means nothing yet. */
  datatype View = View(headers: seq<Header>, status: nat, body: seq<byte>)

  /** What the client has got once the handler has returned. */
  function Received(v: View): View {
    if v.status == 0 then v.(status := 200) else v
  }

  /** What the loop remembers of refusals. */
  datatype Memo = Memo(status: nat, header: Option<Header>, body: seq<byte>, kind: Kind, finalKey: Option<nat>)

  const NO_MEMO := Memo(0, None, [], NoError, None)

  function Cut(s: seq<byte>, room: nat): seq<byte> {
    if room < |s| then s[..room] else s
  }

  function StreamOutcome(r: StreamResult): (Outcome, Kind) {
    if r.lateError.Some? then (Error, r.lateError.value.kind)
    else if r.copyErr != CopyFine then (Error, NetworkError)
    else (Success, NoError)
  }

  function TurnAttempts(env: Env, key: Key, e: Exchange, i: nat): seq<Attempt> {
    match AnswerOf(env, e, i)
    case Undecryptable => []
    case BodyLost => []
    case NetworkDown => [Attempt(key.id, i + 1, 0, Error, NetworkError)]
    case Refused(why, _, _, _) =>
      [Attempt(key.id, i + 1, if Streams(env, e) then 429 else e.status, Failover, why.kind)]
    case Streamed(_, _, _, _, _) =>
      var (outcome, kind) := StreamOutcome(ForwardOf(env, e, i).result);
      [Attempt(key.id, i + 1, e.status, outcome, kind)]
    case Plain(status, _, _, _) =>
      [Attempt(key.id, i + 1, status, if status >= 400 then Error else Success,
               env.classify(status, e.header, LimitedBody(env, e).value, i, 0).kind)]
  }

  /** How a turn that moves on changes what is remembered of refusals. */
  function TurnMemo(env: Env, key: Key, e: Exchange, i: nat, m: Memo): Memo {
    match AnswerOf(env, e, i)
    case Refused(why, _, _, _) =>
      if Streams(env, e) then
        m.(status := 429, body := ForwardOf(env, e, i).result.firstData, kind := why.kind, finalKey := Some(key.id))
      else
        Memo(e.status, Some(e.header), LimitedBody(env, e).value, why.kind, Some(key.id))
    case _ => m
  }

  /** What the client gets from a turn that ends the request. */
  function TurnView(env: Env, e: Exchange, i: nat): View
    requires !AnswerOf(env, e, i).MovesOn()
  {
    match AnswerOf(env, e, i)
    case NetworkDown => View([env.texts.json], 502, Cut(env.texts.network, env.room))
    case BodyLost => View([env.texts.json], 502, Cut(env.texts.read, env.room))
    case Streamed(_, _, _, _, _) =>
      var f := ForwardOf(env, e, i);
      View(if f.committed then [e.header] else [], if f.committed then e.status else 0, e.body[..f.upTo])
    case Plain(status, _, _, _) => View([e.header], status, Cut(LimitedBody(env, e).value, env.room))
  }

  function TurnFinish(env: Env, key: Key, e: Exchange, i: nat): Option<Finish>
    requires !AnswerOf(env, e, i).MovesOn()
  {
    match AnswerOf(env, e, i)
    case NetworkDown => Some(Finish(Some(key.id), i + 1, 502, Error, Class(NetworkError)))
    case BodyLost => None
    case Streamed(_, _, _, _, _) =>
      var (outcome, kind) := StreamOutcome(ForwardOf(env, e, i).result);
      Some(Finish(Some(key.id), i + 1, e.status, outcome, Class(kind)))
    case Plain(status, _, _, _) =>
      Some(Finish(Some(key.id), i + 1, status, if status >= 400 then Error else Success,
                  Class(env.classify(status, e.header, LimitedBody(env, e).value, i, 0).kind)))
  }

  datatype Served = Served(view: View, attempts: seq<Attempt>, finish: Option<Finish>)

  /** All keys used up: the last refusal is relayed, or a 503 of the proxy's own. */
  function Exhausted(env: Env, count: nat, m: Memo, attempts: seq<Attempt>): Served {
    var status := if m.status == 0 then 503 else m.status;
    var body := if m.body != [] then m.body else env.texts.exhausted;
    Served(View(if m.header.Some? then [m.header.value] else [], status, Cut(body, env.room)), attempts,
           Some(Finish(m.finalKey, count, status, Error, Class(m.kind))))
  }

  /** The request from turn i on. */
  function Serve(env: Env, keys: seq<Key>, exchanges: seq<Exchange>, i: nat, m: Memo, attempts: seq<Attempt>): Served
    requires i <= |keys|
    decreases |keys| - i
  {
    if i == |keys| then Exhausted(env, |keys|, m, attempts)
    else
      var e := Nth(exchanges, i);
      var attempts' := attempts + TurnAttempts(env, keys[i], e, i);
      if AnswerOf(env, e, i).MovesOn()
      then Serve(env, keys, exchanges, i + 1, TurnMemo(env, keys[i], e, i, m), attempts')
      else Served(TurnView(env, e, i), attempts', TurnFinish(env, keys[i], e, i))
  }

  // ---------- The method's parts ----------

  /** recordKeyFailure. */
  method RecordKeyFailure(store: Store, id: nat, c: Classification, probeIntervalSec: Option<int>, now: Instant)
    requires c.FailsOver()
    modifies store
    ensures store.Value() == Apply(old(store.Value()), FailureCall(id, c, probeIntervalSec, now))
  {
    if c.kind == AuthError {
      store.Invalidate(id, c.message, now);
      return;
    }
    var reset := c.resetAt;
    if reset == None {
      var interval := DEFAULT_PROBE_SEC;
      if probeIntervalSec.Some? && probeIntervalSec.value >= 60 {
        interval := probeIntervalSec.value;
      }
      reset := Some(now + interval * NANOS_PER_SECOND);
    }
    var _ := store.Cool(id, c.window, reset, c.message, now);
  }

  /** MarkUsed and promoteIfNeeded. */
  method MarkServed(store: Store, key: Key, a: Answer)
    requires a.Proper() && a.Served()
    modifies store
    ensures store.Value() == ApplyEntries(old(store.Value()), AnswerEntries(key, a))
  {
    ghost var t := store.Value();
    if a.stored {
      store.Use(key.id, a.at);
    }
    ghost var u := store.Value();
    if key.role != Active && a.promoted {
      var _ := store.Activate(key.id, a.at);
    }
    ServedEntries(t, u, store.Value(), key, a);
  }

  lemma ServedEntries(t: Table, u: Table, v: Table, key: Key, a: Answer)
    requires a.Proper() && a.Served()
    requires u == if a.stored then Apply(t, MarkUsed(key.id, a.at)) else t
    requires v == if key.role != Active && a.promoted then Apply(u, SetActive(key.id, a.at)) else u
    ensures ApplyEntries(t, AnswerEntries(key, a)) == v
  {
    var es := AnswerEntries(key, a);
    assert es[0] == Entry(MarkUsed(key.id, a.at), false, a.stored);
    if key.role != Active {
      assert es[1..] == [Entry(SetActive(key.id, a.at), false, a.promoted)];
      assert es[1..][1..] == [];
      assert ApplyEntries(t, es) == ApplyEntries(u, es[1..]);
      assert ApplyEntries(u, es[1..]) == ApplyEntries(v, es[1..][1..]);
    } else {
      assert es[1..] == [];
    }
  }

  // ---------- The method ----------

  /** An upstream call, with what the client had been sent when it started. */
  datatype CallMark = CallMark(keyId: nat, clientStatus: nat, clientBytes: nat)

  method WriteJson(w: ResponseWriter, json: Header, status: nat, message: seq<byte>)
    requires w.status == 0 && w.body == [] && status != 0
    modifies w
    ensures w.headers == old(w.headers) + [json] && w.status == status && w.body == Cut(message, old(w.room))
  {
    w.CopyHeaders(json);
    w.WriteHeader(status);
    var _ := w.Write(message);
  }

  /** What the method keeps true of the client's connection until a turn ends the request. */
  predicate Pristine(w: ResponseWriter, env: Env)
    reads w
  {
    w.headers == [] && w.status == 0 && w.body == [] && w.room == env.room
  }

  predicate Shows(w: ResponseWriter, v: View)
    reads w
  {
    w.headers == v.headers && w.status == v.status && w.body == v.body
  }

  datatype TurnResult = TurnResult(ended: bool, memo: Memo, attempts: seq<Attempt>, finish: Option<Finish>)

  /** One pass of the loop over the keys when the upstream answers with an event stream. */
  method StreamTurn(store: Store, w: ResponseWriter, env: Env, key: Key, e: Exchange, i: nat, memo: Memo)
    returns (t: TurnResult)
    requires Streams(env, e) && Pristine(w, env)
    modifies store, w
    ensures store.Value() == ApplyEntries(old(store.Value()), AnswerEntries(key, AnswerOf(env, e, i)))
    ensures t.attempts == TurnAttempts(env, key, e, i)
    ensures t.ended == !AnswerOf(env, e, i).MovesOn()
    ensures !t.ended ==> Pristine(w, env) && t.memo == TurnMemo(env, key, e, i, memo)
    ensures t.ended ==> Shows(w, TurnView(env, e, i)) && t.finish == TurnFinish(env, key, e, i)
  {
    ghost var a := AnswerOf(env, e, i);
    var reader := new Reader(e.body, e.ending);
    var result := ForwardStream(w, reader, e.header, e.status, env.maxEvent, JudgeOf(env, e, i));
    if result.firstError.Some? {
      var why := result.firstError.value;
      if env.stored(i) {
        RecordKeyFailure(store, key.id, why, env.probeIntervalSec, env.at(i));
      }
      var memo' := memo.(status := 429, body := result.firstData, kind := why.kind, finalKey := Some(key.id));
      return TurnResult(false, memo', [Attempt(key.id, i + 1, 429, Failover, why.kind)], None);
    }
    if result.lateError.Some? {
      if env.stored(i) {
        RecordKeyFailure(store, key.id, result.lateError.value, env.probeIntervalSec, env.at(i));
      }
    } else {
      MarkServed(store, key, Streamed(None, env.probeIntervalSec, env.at(i), env.stored(i), env.promoted(i)));
    }
    var outcome, kind := Success, NoError;
    if result.copyErr != CopyFine {
      outcome, kind := Error, NetworkError;
    }
    if result.lateError.Some? {
      outcome, kind := Error, result.lateError.value.kind;
    }
    t := TurnResult(true, memo, [Attempt(key.id, i + 1, e.status, outcome, kind)],
                    Some(Finish(Some(key.id), i + 1, e.status, outcome, Class(kind))));
  }

  /** The same for any other answer. */
  method BodyTurn(store: Store, w: ResponseWriter, env: Env, key: Key, e: Exchange, i: nat, memo: Memo)
    returns (t: TurnResult)
    requires e.Reply? && !Streams(env, e) && Pristine(w, env) && e.status != 0
    modifies store, w
    ensures store.Value() == ApplyEntries(old(store.Value()), AnswerEntries(key, AnswerOf(env, e, i)))
    ensures t.attempts == TurnAttempts(env, key, e, i)
    ensures t.ended == !AnswerOf(env, e, i).MovesOn()
    ensures !t.ended ==> Pristine(w, env) && t.memo == TurnMemo(env, key, e, i, memo)
    ensures t.ended ==> Shows(w, TurnView(env, e, i)) && t.finish == TurnFinish(env, key, e, i)
  {
    var body := LimitedBody(env, e);
    if body.None? {
      WriteJson(w, env.texts.json, 502, env.texts.read);
      return TurnResult(true, memo, [], None);
    }
    var verdict := env.classify(e.status, e.header, body.value, i, 0);
    if verdict.kind == QuotaError || verdict.kind == AuthError {
      if env.stored(i) {
        RecordKeyFailure(store, key.id, verdict, env.probeIntervalSec, env.at(i));
      }
      var memo' := Memo(e.status, Some(e.header), body.value, verdict.kind, Some(key.id));
      return TurnResult(false, memo', [Attempt(key.id, i + 1, e.status, Failover, verdict.kind)], None);
    }
    var outcome := Success;
    if e.status >= 400 {
      outcome := Error;
    }
    if e.status < 400 {
      MarkServed(store, key, Plain(e.status, env.at(i), env.stored(i), env.promoted(i)));
    }
    w.CopyHeaders(e.header);
    w.WriteHeader(e.status);
    var _ := w.Write(body.value);
    t := TurnResult(true, memo, [Attempt(key.id, i + 1, e.status, outcome, verdict.kind)],
                    Some(Finish(Some(key.id), i + 1, e.status, outcome, Class(verdict.kind))));
  }

  ghost predicate StatusesReal(exchanges: seq<Exchange>) {
    forall e :: e in exchanges && e.Reply? ==> e.status != 0
  }

  /** The calls went to these keys, each while the client had been sent nothing. */
  ghost predicate CallsMade(calls: seq<CallMark>, ids: seq<nat>) {
    |calls| == |ids| && forall n :: 0 <= n < |calls| ==> calls[n] == CallMark(ids[n], 0, 0)
  }

  /** One pass of the loop, whatever the upstream does. */
  method TakeTurn(store: Store, w: ResponseWriter, env: Env, key: Key, e: Exchange, i: nat, memo: Memo)
    returns (calls: seq<CallMark>, t: TurnResult)
    requires Pristine(w, env) && (e.Reply? ==> e.status != 0)
    modifies store, w
    ensures store.Value() == ApplyEntries(old(store.Value()), AnswerEntries(key, AnswerOf(env, e, i)))
    ensures CallsMade(calls, if e.SecretLost? then [] else [key.id])
    ensures t.attempts == TurnAttempts(env, key, e, i)
    ensures t.ended == !AnswerOf(env, e, i).MovesOn()
    ensures !t.ended ==> Pristine(w, env) && t.memo == TurnMemo(env, key, e, i, memo)
    ensures t.ended ==> Shows(w, TurnView(env, e, i)) && t.finish == TurnFinish(env, key, e, i)
  {
    if e.SecretLost? {
      return [], TurnResult(false, memo, [], None);
    }
    calls := [CallMark(key.id, w.status, |w.body|)];
    if e.NoConnection? {
      WriteJson(w, env.texts.json, 502, env.texts.network);
      t := TurnResult(true, memo, [Attempt(key.id, i + 1, 0, Error, NetworkError)],
                      Some(Finish(Some(key.id), i + 1, 502, Error, Class(NetworkError))));
    } else if env.stream && 200 <= e.status < 300 && e.eventStream {
      t := StreamTurn(store, w, env, key, e, i, memo);
    } else {
      t := BodyTurn(store, w, env, key, e, i, memo);
    }
  }

  lemma CallsTurn(keys: seq<Key>, answers: seq<Answer>, i: nat)
    requires i < |keys|
    ensures var a := Verdict.Nth(answers, i);
            WalkCalls(keys, answers, i)
            == (if a.Undecryptable? then [] else [keys[i].id])
               + (if a.MovesOn() then WalkCalls(keys, answers, i + 1) else [])
  {
  }

  lemma WalkTurn(t: Table, env: Env, keys: seq<Key>, exchanges: seq<Exchange>, i: nat)
    requires i < |keys|
    ensures var answers := Answers(env, exchanges, |keys|);
            var a := AnswerOf(env, Nth(exchanges, i), i);
            var u := ApplyEntries(t, AnswerEntries(keys[i], a));
            && ApplyEntries(t, WalkEntries(keys, answers, i))
               == (if a.MovesOn() then ApplyEntries(u, WalkEntries(keys, answers, i + 1)) else u)
            && WalkCalls(keys, answers, i)
               == (if Nth(exchanges, i).SecretLost? then [] else [keys[i].id])
                  + (if a.MovesOn() then WalkCalls(keys, answers, i + 1) else [])
  {
    var answers := Answers(env, exchanges, |keys|);
    var a := AnswerOf(env, Nth(exchanges, i), i);
    assert Verdict.Nth(answers, i) == a;
    var rest := if a.MovesOn() then WalkEntries(keys, answers, i + 1) else [];
    SequentialRuns.WalkUnfolds(keys, answers, i, rest);
    ApplyEntriesAppend(t, AnswerEntries(keys[i], a), rest);
    CallsTurn(keys, answers, i);
  }

  lemma CallsMadeAppend(xs: seq<CallMark>, a: seq<nat>, ys: seq<CallMark>, b: seq<nat>)
    requires CallsMade(xs, a) && CallsMade(ys, b)
    ensures CallsMade(xs + ys, a + b)
  {
  }

  lemma IdsJoin(a: seq<nat>, b: seq<nat>, c: seq<nat>)
    ensures a + b + c == a + (b + c)
  {
  }

  /** After the last key: the last refusal is relayed. */
  method RelayRefusal(w: ResponseWriter, env: Env, count: nat, memo: Memo, ghost attempts: seq<Attempt>)
    returns (finish: Option<Finish>)
    requires Pristine(w, env)
    modifies w
    ensures Shows(w, Exhausted(env, count, memo, attempts).view)
    ensures finish == Exhausted(env, count, memo, attempts).finish
  {
    var status := memo.status;
    if status == 0 {
      status := 503;
    }
    if memo.header.Some? {
      w.CopyHeaders(memo.header.value);
    }
    finish := Some(Finish(memo.finalKey, count, status, Error, Class(memo.kind)));
    w.WriteHeader(status);
    if |memo.body| > 0 {
      var _ := w.Write(memo.body);
    } else {
      var _ := w.Write(env.texts.exhausted);
    }
  }

  function TurnCalls(key: Key, e: Exchange): seq<nat> {
    if e.SecretLost? then [] else [key.id]
  }

  lemma ServeTurn(env: Env, keys: seq<Key>, exchanges: seq<Exchange>, i: nat, m: Memo, attempts: seq<Attempt>)
    requires i < |keys|
    ensures var e := Nth(exchanges, i);
            var attempts' := attempts + TurnAttempts(env, keys[i], e, i);
            Serve(env, keys, exchanges, i, m, attempts) ==
            if AnswerOf(env, e, i).MovesOn()
            then Serve(env, keys, exchanges, i + 1, TurnMemo(env, keys[i], e, i, m), attempts')
            else Served(TurnView(env, e, i), attempts', TurnFinish(env, keys[i], e, i))
  {
  }

  lemma StatusReal(exchanges: seq<Exchange>, i: nat)
    requires StatusesReal(exchanges)
    ensures Nth(exchanges, i).Reply? ==> Nth(exchanges, i).status != 0
  {
  }

  /** What the walk comes to: the table, the keys called, the client's view and the telemetry. */
  datatype Walk = Walk(end: Table, ids: seq<nat>, served: Served)

  ghost function WalkOf(t: Table, env: Env, keys: seq<Key>, exchanges: seq<Exchange>): Walk {
    var answers := Answers(env, exchanges, |keys|);
    Walk(ApplyEntries(t, WalkEntries(keys, answers, 0)), WalkCalls(keys, answers, 0),
         Serve(env, keys, exchanges, 0, NO_MEMO, []))
  }

  /** Where the loop stands: the table, the keys called so far, and what it remembers. */
  datatype Progress = Progress(table: Table, done: seq<nat>, memo: Memo, attempts: seq<Attempt>)

  /** Going on from turn i leads to the goal. */
  ghost predicate Going(p: Progress, env: Env, keys: seq<Key>, exchanges: seq<Exchange>, i: nat, goal: Walk)
    requires i <= |keys|
  {
    var answers := Answers(env, exchanges, |keys|);
    && ApplyEntries(p.table, WalkEntries(keys, answers, i)) == goal.end
    && p.done + WalkCalls(keys, answers, i) == goal.ids
    && Serve(env, keys, exchanges, i, p.memo, p.attempts) == goal.served
  }

  /** What a turn makes of the progress, the memory apart. */
  function Turned(p: Progress, table: Table, memo: Memo, env: Env, key: Key, e: Exchange, i: nat): Progress {
    Progress(table, p.done + TurnCalls(key, e), memo, p.attempts + TurnAttempts(env, key, e, i))
  }

  lemma GoingStarts(t: Table, env: Env, keys: seq<Key>, exchanges: seq<Exchange>)
    ensures Going(Progress(t, [], NO_MEMO, []), env, keys, exchanges, 0, WalkOf(t, env, keys, exchanges))
  {
    var ids := WalkCalls(keys, Answers(env, exchanges, |keys|), 0);
    assert [] + ids == ids;
  }

  lemma GoingOn(p: Progress, env: Env, keys: seq<Key>, exchanges: seq<Exchange>, i: nat, goal: Walk, table: Table)
    requires i < |keys| && Going(p, env, keys, exchanges, i, goal)
    requires AnswerOf(env, Nth(exchanges, i), i).MovesOn()
    requires table == ApplyEntries(p.table, AnswerEntries(keys[i], AnswerOf(env, Nth(exchanges, i), i)))
    ensures var e := Nth(exchanges, i);
            Going(Turned(p, table, TurnMemo(env, keys[i], e, i, p.memo), env, keys[i], e, i),
                  env, keys, exchanges, i + 1, goal)
  {
    ServeTurn(env, keys, exchanges, i, p.memo, p.attempts);
    WalkTurn(p.table, env, keys, exchanges, i);
    IdsJoin(p.done, TurnCalls(keys[i], Nth(exchanges, i)), WalkCalls(keys, Answers(env, exchanges, |keys|), i + 1));
  }

  lemma GoingEnds(p: Progress, env: Env, keys: seq<Key>, exchanges: seq<Exchange>, i: nat, goal: Walk, table: Table)
    requires i < |keys| && Going(p, env, keys, exchanges, i, goal)
    requires !AnswerOf(env, Nth(exchanges, i), i).MovesOn()
    requires table == ApplyEntries(p.table, AnswerEntries(keys[i], AnswerOf(env, Nth(exchanges, i), i)))
    ensures var e := Nth(exchanges, i);
            && table == goal.end && p.done + TurnCalls(keys[i], e) == goal.ids
            && goal.served == Served(TurnView(env, e, i), p.attempts + TurnAttempts(env, keys[i], e, i),
                                     TurnFinish(env, keys[i], e, i))
  {
    ServeTurn(env, keys, exchanges, i, p.memo, p.attempts);
    WalkTurn(p.table, env, keys, exchanges, i);
    var turn := TurnCalls(keys[i], Nth(exchanges, i));
    assert turn + [] == turn;
  }

  lemma GoingOut(p: Progress, env: Env, keys: seq<Key>, exchanges: seq<Exchange>, goal: Walk)
    requires Going(p, env, keys, exchanges, |keys|, goal)
    ensures p.table == goal.end && p.done == goal.ids && Exhausted(env, |keys|, p.memo, p.attempts) == goal.served
  {
    assert p.done + [] == p.done;
  }

  /** One pass, told in terms of the whole walk: either the rest of the walk still leads to
      the goal, or the goal is reached. */
  method Pass(store: Store, w: ResponseWriter, env: Env, keys: seq<Key>, exchanges: seq<Exchange>, i: nat,
              ghost p: Progress, memo: Memo, ghost goal: Walk)
    returns (calls: seq<CallMark>, t: TurnResult, ghost p': Progress)
    requires i < |keys| && Pristine(w, env) && StatusesReal(exchanges)
    requires Going(p, env, keys, exchanges, i, goal) && p.table == store.Value() && p.memo == memo
    modifies store, w
    ensures p'.table == store.Value() && p'.memo == t.memo && p'.attempts == p.attempts + t.attempts
    ensures CallsMade(calls, TurnCalls(keys[i], Nth(exchanges, i)))
    ensures p'.done == p.done + TurnCalls(keys[i], Nth(exchanges, i))
    ensures if t.ended then Reached(p', goal) && Shows(w, goal.served.view) && t.finish == goal.served.finish
            else Pristine(w, env) && Going(p', env, keys, exchanges, i + 1, goal)
  {
    ghost var e := Nth(exchanges, i);
    StatusReal(exchanges, i);
    calls, t := TakeTurn(store, w, env, keys[i], Nth(exchanges, i), i, memo);
    p' := Turned(p, store.Value(), t.memo, env, keys[i], e, i);
    if t.ended {
      GoingEnds(p, env, keys, exchanges, i, goal, store.Value());
    } else {
      GoingOn(p, env, keys, exchanges, i, goal, store.Value());
    }
  }

  ghost predicate Reached(p: Progress, goal: Walk) {
    p.table == goal.end && p.done == goal.ids && p.attempts == goal.served.attempts
  }

  /** The loop over the snapshot, up to a turn that ends the request or to the last key. */
  method WalkLoop(store: Store, w: ResponseWriter, env: Env, keys: seq<Key>, exchanges: seq<Exchange>, ghost goal: Walk)
    returns (calls: seq<CallMark>, attempts: seq<Attempt>, finish: Option<Finish>, memo: Memo, ended: bool)
    requires Pristine(w, env) && StatusesReal(exchanges)
    requires Going(Progress(store.Value(), [], NO_MEMO, []), env, keys, exchanges, 0, goal)
    modifies store, w
    ensures store.Value() == goal.end && CallsMade(calls, goal.ids)
    ensures if ended then Shows(w, goal.served.view) && attempts == goal.served.attempts && finish == goal.served.finish
            else Pristine(w, env) && Exhausted(env, |keys|, memo, attempts) == goal.served
  {
    calls, attempts, finish, memo, ended := [], [], None, NO_MEMO, false;
    ghost var p := Progress(store.Value(), [], memo, attempts);
    var i := 0;
    while i < |keys| && !ended
      invariant 0 <= i <= |keys| && CallsMade(calls, p.done)
      invariant p.table == store.Value() && p.memo == memo && p.attempts == attempts
      invariant !ended ==> Pristine(w, env) && Going(p, env, keys, exchanges, i, goal)
      invariant ended ==> Reached(p, goal) && Shows(w, goal.served.view) && finish == goal.served.finish
    {
      ghost var before := p;
      var made, t;
      made, t, p := Pass(store, w, env, keys, exchanges, i, p, memo, goal);
      CallsMadeAppend(calls, before.done, made, TurnCalls(keys[i], Nth(exchanges, i)));
      calls, attempts := calls + made, attempts + t.attempts;
      memo, ended, finish := t.memo, t.ended, t.finish;
      i := i + 1;
    }
    if !ended {
      GoingOut(p, env, keys, exchanges, goal);
    }
  }

  /** The loop over the snapshot and what follows it. */
  method WalkKeys(store: Store, w: ResponseWriter, env: Env, keys: seq<Key>, exchanges: seq<Exchange>)
    returns (calls: seq<CallMark>, attempts: seq<Attempt>, finish: Option<Finish>)
    requires Pristine(w, env) && StatusesReal(exchanges)
    modifies store, w
    ensures var goal := WalkOf(old(store.Value()), env, keys, exchanges);
            && store.Value() == goal.end && CallsMade(calls, goal.ids)
            && Shows(w, goal.served.view) && attempts == goal.served.attempts && finish == goal.served.finish
  {
    ghost var goal := WalkOf(store.Value(), env, keys, exchanges);
    GoingStarts(store.Value(), env, keys, exchanges);
    var memo, ended;
    calls, attempts, finish, memo, ended := WalkLoop(store, w, env, keys, exchanges, goal);
    if !ended {
      finish := RelayRefusal(w, env, |keys|, memo, attempts);
    }
  }

  // ---------- The whole request ----------

  ghost function SnapshotOf(t: Table, now: Instant, released: bool, listed: bool): seq<Key>
    requires WellKeyed(t)
  {
    if listed then SequentialRuns.SnapshotKeys(t, SequentialRuns.Infer(now, released, [])) else []
  }

  /** What a request comes to: the table, the keys called, what the client has got when the
      handler has returned, and the telemetry. */
  datatype Handling = Handling(end: Table, ids: seq<nat>, view: View, attempts: seq<Attempt>, finish: Option<Finish>)

  /** `listed` is whether the snapshot query succeeds. */
  ghost function Handle(t: Table, env: Env, exchanges: seq<Exchange>, now: Instant, released: bool,
                        listed: bool): Handling
    requires WellKeyed(t)
  {
    var keys, t1 := SnapshotOf(t, now, released, listed), ApplyEntry(t, SequentialRuns.ReleaseEntry(now, released));
    if keys == [] then
      Handling(t1, [], View([env.texts.json], 503, Cut(env.texts.noKey, env.room)), [],
               Some(Finish(None, 0, 503, Error, NoAvailableKey)))
    else
      var goal := WalkOf(t1, env, keys, exchanges);
      Handling(goal.end, goal.ids, Received(goal.served.view), goal.served.attempts, goal.served.finish)
  }

  /** The part of HandleInference that follows the reading of the request. */
  method ServeRequest(store: Store, w: ResponseWriter, env: Env, exchanges: seq<Exchange>,
                      now: Instant, released: bool, listed: bool)
    returns (calls: seq<CallMark>, attempts: seq<Attempt>, finish: Option<Finish>)
    requires WellKeyed(store.Value()) && Pristine(w, env) && StatusesReal(exchanges)
    modifies store, w
    ensures var h := Handle(old(store.Value()), env, exchanges, now, released, listed);
            && store.Value() == h.end && CallsMade(calls, h.ids)
            && Shows(w, h.view) && attempts == h.attempts && finish == h.finish
  {
    ApplyKeepsKeys(store.Value(), MarkHalfOpenDue(now));
    if released {
      store.HalfOpenDue(now);
    }
    var keys := [];
    if listed {
      keys := store.Select(EligibleQuery);
    }
    assert keys == SnapshotOf(old(store.Value()), now, released, listed);
    if |keys| == 0 {
      finish := Some(Finish(None, 0, 503, Error, NoAvailableKey));
      WriteJson(w, env.texts.json, 503, env.texts.noKey);
      calls, attempts := [], [];
    } else {
      calls, attempts, finish := WalkKeys(store, w, env, keys, exchanges);
      w.EndResponse();
    }
  }

  /** The client's request body, and whether reading it ends well. */
  datatype Incoming = Incoming(body: seq<byte>, ending: Ending)

  /** readLimited: one byte beyond the limit is enough to refuse. */
  function ReadLimited(r: Incoming, max: nat): Option<seq<byte>> {
    if |r.body| > max || r.ending == Broken then None else Some(r.body)
  }

  /** HandleInference. A request whose body is longer than the limit, or cannot be read, is
      answered 413 and leaves no trace; any other is served as `Handle` says, as a stream
      if its body asks for one. Every upstream call is made in snapshot order while the client has been
      sent nothing. */
  method HandleInference(store: Store, w: ResponseWriter, env: Env, r: Incoming, maxRequest: nat,
                         asksForStream: seq<byte> -> bool, exchanges: seq<Exchange>,
                         now: Instant, released: bool, listed: bool)
    returns (calls: seq<CallMark>, attempts: seq<Attempt>, finish: Option<Finish>)
    requires WellKeyed(store.Value()) && Pristine(w, env) && StatusesReal(exchanges)
    modifies store, w
    ensures if |r.body| > maxRequest || r.ending == Broken then
              && store.Value() == old(store.Value()) && calls == [] && attempts == [] && finish == None
              && Shows(w, View([env.texts.json], 413, Cut(env.texts.tooLarge, env.room)))
            else
              var h := Handle(old(store.Value()), env.(stream := asksForStream(r.body)), exchanges, now, released,
                              listed);
              && store.Value() == h.end && CallsMade(calls, h.ids)
              && Shows(w, h.view) && attempts == h.attempts && finish == h.finish
  {
    var body := ReadLimited(r, maxRequest);
    if body.None? {
      WriteJson(w, env.texts.json, 413, env.texts.tooLarge);
      return [], [], None;
    }
    var env' := env.(stream := asksForStream(body.value));
    calls, attempts, finish := ServeRequest(store, w, env', exchanges, now, released, listed);
  }

  /** What a request does to the tables is the run model's `Infer` operation, so all that
      is proved of sequential runs holds of it. */
  lemma HandleIsInfer(t: Table, env: Env, exchanges: seq<Exchange>, now: Instant, released: bool)
    requires WellKeyed(t)
    ensures var answers := Answers(env, exchanges, |SnapshotOf(t, now, released, true)|);
            Handle(t, env, exchanges, now, released, true).end
            == SequentialRuns.Perform(t, SequentialRuns.Infer(now, released, answers))
  {
    var keys := SnapshotOf(t, now, released, true);
    var answers := Answers(env, exchanges, |keys|);
    var e, op := SequentialRuns.ReleaseEntry(now, released), SequentialRuns.Infer(now, released, answers);
    var es := WalkEntries(keys, answers, 0);
    assert keys == SequentialRuns.SnapshotKeys(t, op);
    assert SequentialRuns.Entries(t, op) == [e] + es && ([e] + es)[1..] == es;
    if keys == [] {
      assert es == [] && [e] + es == [e] && [e][1..] == [];
      assert ApplyEntries(t, [e]) == ApplyEntries(ApplyEntry(t, e), []);
    }
  }

  // ---------- Where the client's bytes come from ----------

  /** The bytes are the start of what one attempt returned: its body, or the data of its
      first event. */
  predicate FromAttempt(env: Env, e: Exchange, i: nat, b: seq<byte>) {
    e.Reply? && (b <= e.body || (Streams(env, e) && b <= ForwardOf(env, e, i).result.firstData))
  }

  predicate OwnBytes(env: Env, b: seq<byte>) {
    b <= env.texts.network || b <= env.texts.read || b <= env.texts.exhausted
  }

  ghost predicate MemoSourced(env: Env, exchanges: seq<Exchange>, count: nat, m: Memo) {
    m.body != [] ==> exists r :: 0 <= r < count && FromAttempt(env, Nth(exchanges, r), r, m.body)
  }

  lemma CutPrefix(s: seq<byte>, room: nat)
    ensures Cut(s, room) <= s
  {
  }

  lemma PrefixTrans(a: seq<byte>, b: seq<byte>, c: seq<byte>)
    requires a <= b && b <= c
    ensures a <= c
  {
  }

  lemma TurnSourced(env: Env, e: Exchange, i: nat)
    requires !AnswerOf(env, e, i).MovesOn()
    ensures var b := TurnView(env, e, i).body;
            OwnBytes(env, b) || FromAttempt(env, e, i, b)
  {
    match AnswerOf(env, e, i)
    case NetworkDown => CutPrefix(env.texts.network, env.room);
    case BodyLost => CutPrefix(env.texts.read, env.room);
    case Plain(_, _, _, _) =>
      var body := LimitedBody(env, e).value;
      CutPrefix(body, env.room);
      PrefixTrans(Cut(body, env.room), body, e.body);
    case _ =>
  }

  lemma MemoSourcedStep(env: Env, keys: seq<Key>, exchanges: seq<Exchange>, i: nat, m: Memo)
    requires i < |keys| && MemoSourced(env, exchanges, i, m)
    ensures MemoSourced(env, exchanges, i + 1, TurnMemo(env, keys[i], Nth(exchanges, i), i, m))
  {
    var e := Nth(exchanges, i);
    var m' := TurnMemo(env, keys[i], e, i, m);
    if AnswerOf(env, e, i).Refused? {
      assert FromAttempt(env, e, i, m'.body);
    }
  }

  /** All body bytes the client gets come from a single attempt, or are the proxy's own
      error message. */
  lemma {:induction false} OneSource(env: Env, keys: seq<Key>, exchanges: seq<Exchange>, i: nat, m: Memo,
                                     attempts: seq<Attempt>)
    requires i <= |keys| && MemoSourced(env, exchanges, i, m)
    ensures var b := Serve(env, keys, exchanges, i, m, attempts).view.body;
            OwnBytes(env, b) || exists r :: 0 <= r < |keys| && FromAttempt(env, Nth(exchanges, r), r, b)
    decreases |keys| - i
  {
    if i == |keys| {
      if m.body != [] {
        var r :| 0 <= r < |keys| && FromAttempt(env, Nth(exchanges, r), r, m.body);
        CutFromAttempt(env, Nth(exchanges, r), r, m.body);
      } else {
        CutPrefix(env.texts.exhausted, env.room);
      }
    } else {
      var e := Nth(exchanges, i);
      if AnswerOf(env, e, i).MovesOn() {
        MemoSourcedStep(env, keys, exchanges, i, m);
        OneSource(env, keys, exchanges, i + 1, TurnMemo(env, keys[i], e, i, m),
                  attempts + TurnAttempts(env, keys[i], e, i));
      } else {
        TurnSourced(env, e, i);
      }
    }
  }

  lemma CutFromAttempt(env: Env, e: Exchange, i: nat, b: seq<byte>)
    requires FromAttempt(env, e, i, b)
    ensures FromAttempt(env, e, i, Cut(b, env.room))
  {
    CutPrefix(b, env.room);
    if b <= e.body {
      PrefixTrans(Cut(b, env.room), b, e.body);
    } else {
      PrefixTrans(Cut(b, env.room), b, ForwardOf(env, e, i).result.firstData);
    }
  }

  // ---------- What is relayed once every key is used up ----------

  predicate RefusedAt(env: Env, exchanges: seq<Exchange>, i: nat) {
    AnswerOf(env, Nth(exchanges, i), i).Refused?
  }

  predicate StreamedAt(env: Env, exchanges: seq<Exchange>, i: nat) {
    Streams(env, Nth(exchanges, i))
  }

  /** The last number below n with the property. */
  function LastWhere(f: nat -> bool, n: nat): (r: Option<nat>)
    ensures r.Some? ==> r.value < n && f(r.value)
    ensures forall j: nat :: j < n && f(j) ==> r.Some? && j <= r.value
  {
    if n == 0 then None else if f(n - 1) then Some(n - 1) else LastWhere(f, n - 1)
  }

  function RefusedTurns(env: Env, exchanges: seq<Exchange>): nat -> bool {
    (i: nat) => RefusedAt(env, exchanges, i)
  }

  function StreamedTurns(env: Env, exchanges: seq<Exchange>): nat -> bool {
    (i: nat) => StreamedAt(env, exchanges, i)
  }

  function ButNot(f: nat -> bool, g: nat -> bool): nat -> bool {
    (i: nat) => f(i) && !g(i)
  }

  /** The last of the first n turns that was refused. */
  function LastRefusal(env: Env, exchanges: seq<Exchange>, n: nat): (r: Option<nat>)
    ensures r.Some? ==> r.value < n && RefusedAt(env, exchanges, r.value)
  {
    LastWhere(RefusedTurns(env, exchanges), n)
  }

  /** The last of them that was refused other than inside a stream. */
  function LastPlainRefusal(env: Env, exchanges: seq<Exchange>, n: nat): (r: Option<nat>)
    ensures r.Some? ==> r.value < n && RefusedAt(env, exchanges, r.value) && !StreamedAt(env, exchanges, r.value)
  {
    LastWhere(ButNot(RefusedTurns(env, exchanges), StreamedTurns(env, exchanges)), n)
  }

  /** What the refusal of turn i said: its body, or the data of its first event. */
  function RefusalBody(env: Env, exchanges: seq<Exchange>, i: nat): seq<byte>
    requires RefusedAt(env, exchanges, i)
  {
    var e := Nth(exchanges, i);
    if Streams(env, e) then ForwardOf(env, e, i).result.firstData else LimitedBody(env, e).value
  }

  function RefusalStatus(env: Env, exchanges: seq<Exchange>, i: nat): nat
    requires RefusedAt(env, exchanges, i)
  {
    if StreamedAt(env, exchanges, i) then 429 else Nth(exchanges, i).status
  }

  function RefusalKind(env: Env, exchanges: seq<Exchange>, i: nat): Kind
    requires RefusedAt(env, exchanges, i)
  {
    AnswerOf(env, Nth(exchanges, i), i).why.kind
  }

  predicate AllMoveOn(env: Env, exchanges: seq<Exchange>, count: nat) {
    forall j :: 0 <= j < count ==> AnswerOf(env, Nth(exchanges, j), j).MovesOn()
  }

  /** What the memory holds after the first n turns. */
  ghost predicate Remembers(m: Memo, env: Env, keys: seq<Key>, exchanges: seq<Exchange>, n: nat)
    requires n <= |keys|
  {
    var b, h := LastRefusal(env, exchanges, n), LastPlainRefusal(env, exchanges, n);
    && m.header == (if h.None? then None else Some(Nth(exchanges, h.value).header))
    && m.body == (if b.None? then [] else RefusalBody(env, exchanges, b.value))
    && m.status == (if b.None? then 0 else RefusalStatus(env, exchanges, b.value))
    && m.kind == (if b.None? then NoError else RefusalKind(env, exchanges, b.value))
    && m.finalKey == (if b.None? then None else Some(keys[b.value].id))
  }

  lemma RemembersOneMore(m: Memo, env: Env, keys: seq<Key>, exchanges: seq<Exchange>, n: nat)
    requires n < |keys| && Remembers(m, env, keys, exchanges, n) && AnswerOf(env, Nth(exchanges, n), n).MovesOn()
    ensures Remembers(TurnMemo(env, keys[n], Nth(exchanges, n), n, m), env, keys, exchanges, n + 1)
  {
  }

  lemma {:induction false} ServeExhausts(env: Env, keys: seq<Key>, exchanges: seq<Exchange>, i: nat, m: Memo,
                                         attempts: seq<Attempt>)
    returns (last: Memo, all: seq<Attempt>)
    requires i <= |keys| && AllMoveOn(env, exchanges, |keys|) && Remembers(m, env, keys, exchanges, i)
    ensures Serve(env, keys, exchanges, i, m, attempts) == Exhausted(env, |keys|, last, all)
    ensures Remembers(last, env, keys, exchanges, |keys|)
    decreases |keys| - i
  {
    last, all := m, attempts;
    if i < |keys| {
      var e := Nth(exchanges, i);
      RemembersOneMore(m, env, keys, exchanges, i);
      ServeTurn(env, keys, exchanges, i, m, attempts);
      last, all := ServeExhausts(env, keys, exchanges, i + 1, TurnMemo(env, keys[i], e, i, m),
                                 attempts + TurnAttempts(env, keys[i], e, i));
    }
  }

  /** When every turn moves on, the client gets the headers of the last refusal outside a
      stream, the status and the words of the last refusal of any kind, or, with no
      refusal or no words, a 503 or the proxy's own; and the request is recorded with the
      key and the verdict of the last refusal. */
  lemma RelayedExactly(env: Env, keys: seq<Key>, exchanges: seq<Exchange>)
    requires AllMoveOn(env, exchanges, |keys|) && StatusesReal(exchanges)
    ensures var Served(v, _, finish) := Serve(env, keys, exchanges, 0, NO_MEMO, []);
            var b, h := LastRefusal(env, exchanges, |keys|), LastPlainRefusal(env, exchanges, |keys|);
            var words := if b.None? then [] else RefusalBody(env, exchanges, b.value);
            && v.headers == (if h.None? then [] else [Nth(exchanges, h.value).header])
            && v.status == (if b.None? then 503 else RefusalStatus(env, exchanges, b.value))
            && v.body == Cut(if words != [] then words else env.texts.exhausted, env.room)
            && finish == Some(Finish(if b.None? then None else Some(keys[b.value].id), |keys|, v.status, Error,
                                     Class(if b.None? then NoError else RefusalKind(env, exchanges, b.value))))
  {
    var m, all := ServeExhausts(env, keys, exchanges, 0, NO_MEMO, []);
    if LastRefusal(env, exchanges, |keys|).Some? {
      StatusReal(exchanges, LastRefusal(env, exchanges, |keys|).value);
    }
  }

  /** With the proxy's own wording, a client still connected never gets an empty reply once
      every key is used up. */
  lemma ExhaustedSaysSomething(env: Env, keys: seq<Key>, exchanges: seq<Exchange>)
    requires env.texts == OWN_TEXTS && env.room > 0
    requires AllMoveOn(env, exchanges, |keys|) && StatusesReal(exchanges)
    ensures Serve(env, keys, exchanges, 0, NO_MEMO, []).view.body != []
  {
    RelayedExactly(env, keys, exchanges);
    assert env.texts.exhausted != [];
  }

  /** The last refusal, of turn b, came inside a stream, and an earlier one, h, did not. */
  ghost predicate StreamAfterPlain(refused: nat -> bool, streamed: nat -> bool, n: nat, h: nat, b: nat) {
    && h < b < n && refused(h) && !streamed(h) && refused(b) && streamed(b)
    && forall j: nat :: b < j < n ==> !refused(j)
  }

  lemma LastsDiffer(refused: nat -> bool, streamed: nat -> bool, n: nat)
    ensures var b, h := LastWhere(refused, n), LastWhere(ButNot(refused, streamed), n);
            h.Some? && h != b <==> exists h, b :: StreamAfterPlain(refused, streamed, n, h, b)
  {
    var last, plain := LastWhere(refused, n), LastWhere(ButNot(refused, streamed), n);
    if h: nat, b: nat :| StreamAfterPlain(refused, streamed, n, h, b) {
      assert last == Some(b);
      assert ButNot(refused, streamed)(h) && !ButNot(refused, streamed)(b);
    }
    if plain.Some? && plain != last {
      assert ButNot(refused, streamed)(plain.value);
      assert last.Some? && plain.value < last.value;
      assert !ButNot(refused, streamed)(last.value);
      assert StreamAfterPlain(refused, streamed, n, plain.value, last.value);
    }
  }

  /** The reply carries the headers of refusal h, the last outside a stream, and the words
      of refusal b, the last of all, and these are different attempts. */
  ghost predicate Mixed(v: View, env: Env, exchanges: seq<Exchange>, n: nat, h: nat, b: nat) {
    && LastPlainRefusal(env, exchanges, n) == Some(h) && LastRefusal(env, exchanges, n) == Some(b) && h != b
    && v.headers == [Nth(exchanges, h).header]
    && var words := RefusalBody(env, exchanges, b);
       v.body == Cut(if words != [] then words else env.texts.exhausted, env.room)
  }

  /** When every turn moves on, the headers the client gets are one attempt's and the words
      another's exactly when the last refusal came inside a stream and an earlier one did
      not. */
  lemma MixedRelayExactly(env: Env, keys: seq<Key>, exchanges: seq<Exchange>)
    requires AllMoveOn(env, exchanges, |keys|) && StatusesReal(exchanges)
    ensures var v := Serve(env, keys, exchanges, 0, NO_MEMO, []).view;
            (exists h, b :: Mixed(v, env, exchanges, |keys|, h, b))
            <==> exists h, b ::
                   StreamAfterPlain(RefusedTurns(env, exchanges), StreamedTurns(env, exchanges), |keys|, h, b)
  {
    var v := Serve(env, keys, exchanges, 0, NO_MEMO, []).view;
    RelayedExactly(env, keys, exchanges);
    LastsDiffer(RefusedTurns(env, exchanges), StreamedTurns(env, exchanges), |keys|);
    var b, h := LastRefusal(env, exchanges, |keys|), LastPlainRefusal(env, exchanges, |keys|);
    if h.Some? && h != b {
      assert Mixed(v, env, exchanges, |keys|, h.value, b.value);
    }
  }

  ghost predicate AlwaysSays(env: Env, why: Classification) {
    forall status, header, data, i, n :: env.classify(status, header, data, i, n) == why
  }

  /** A stream whose first event carries a refusal. */
  lemma StreamRefused(env: Env, header: Header, v: seq<byte>, i: nat, why: Classification)
    requires env.stream && AlwaysSays(env, why) && why.FailsOver() && PlainValue(v) && 7 + |v| <= env.maxEvent
    ensures var e := Reply(200, header, true, RenderData([v]), Eof);
            AnswerOf(env, e, i).Refused? && Streams(env, e) && ForwardOf(env, e, i).result.firstData == v
  {
    OneValueEvent(v, Eof, env.maxEvent);
  }

  lemma PlainThenStream(env: Env, exchanges: seq<Exchange>)
    requires RefusedAt(env, exchanges, 0) && !StreamedAt(env, exchanges, 0)
    requires RefusedAt(env, exchanges, 1) && StreamedAt(env, exchanges, 1)
    ensures AllMoveOn(env, exchanges, 2)
    ensures LastRefusal(env, exchanges, 2) == Some(1) && LastPlainRefusal(env, exchanges, 2) == Some(0)
  {
    assert LastWhere(RefusedTurns(env, exchanges), 2) == Some(1);
    var plain := ButNot(RefusedTurns(env, exchanges), StreamedTurns(env, exchanges));
    assert plain(0) && !plain(1);
    assert LastWhere(plain, 2) == Some(0);
  }

  /** A plain refusal, then a refusal inside a stream: the client gets the headers of the
      first and the words of the second. */
  lemma MixedRelayHappens(env: Env, k: Key, l: Key, body: seq<byte>, v: seq<byte>, why: Classification)
    requires env.stream && AlwaysSays(env, why) && why.FailsOver() && PlainValue(v) && 7 + |v| <= env.maxEvent
    ensures var exchanges := [Reply(429, "plain", false, body, Eof), Reply(200, "stream", true, RenderData([v]), Eof)];
            var view := Serve(env, [k, l], exchanges, 0, NO_MEMO, []).view;
            && AllMoveOn(env, exchanges, 2)
            && view.headers == ["plain"] && view.status == 429 && view.body == Cut(v, env.room)
  {
    var d, e := Reply(429, "plain", false, body, Eof), Reply(200, "stream", true, RenderData([v]), Eof);
    var exchanges := [d, e];
    assert Nth(exchanges, 0) == d && Nth(exchanges, 1) == e;
    StreamRefused(env, "stream", v, 1, why);
    assert AnswerOf(env, d, 0).Refused?;
    PlainThenStream(env, exchanges);
    RelayedExactly(env, [k, l], exchanges);
  }

  // ---------- Telemetry ----------

  function AttemptIds(attempts: seq<Attempt>): (ids: seq<nat>)
    ensures |ids| == |attempts|
    ensures forall n :: 0 <= n < |ids| ==> ids[n] == attempts[n].keyId
  {
    seq(|attempts|, n requires 0 <= n < |attempts| => attempts[n].keyId)
  }

  predicate BodyLostAt(env: Env, keys: seq<Key>, exchanges: seq<Exchange>, r: nat) {
    r < |keys| && AnswerOf(env, Nth(exchanges, r), r).BodyLost?
  }

  predicate NothingSentAt(env: Env, keys: seq<Key>, exchanges: seq<Exchange>, r: nat) {
    && r < |keys| && AnswerOf(env, Nth(exchanges, r), r).Streamed?
    && !ForwardOf(env, Nth(exchanges, r), r).committed
  }

  lemma TurnIds(env: Env, key: Key, e: Exchange, i: nat)
    ensures AttemptIds(TurnAttempts(env, key, e, i)) + (if AnswerOf(env, e, i).BodyLost? then [key.id] else [])
            == if e.SecretLost? then [] else [key.id]
  {
  }

  lemma AttemptIdsAppend(xs: seq<Attempt>, ys: seq<Attempt>)
    ensures AttemptIds(xs + ys) == AttemptIds(xs) + AttemptIds(ys)
  {
  }

  /** One attempt is recorded per upstream call, in order, except for a body that could
      not be read; and that request alone is never finished. */
  lemma {:induction false} AttemptsMatchCalls(env: Env, keys: seq<Key>, exchanges: seq<Exchange>, i: nat, m: Memo,
                                              attempts: seq<Attempt>)
    requires i <= |keys|
    ensures var answers := Answers(env, exchanges, |keys|);
            var s := Serve(env, keys, exchanges, i, m, attempts);
            var r := LastTurn(keys, answers, i);
            && AttemptIds(s.attempts) + (if BodyLostAt(env, keys, exchanges, r) then [keys[r].id] else [])
               == AttemptIds(attempts) + WalkCalls(keys, answers, i)
            && (s.finish.None? <==> BodyLostAt(env, keys, exchanges, r))
    decreases |keys| - i
  {
    var answers := Answers(env, exchanges, |keys|);
    if i < |keys| {
      var e := Nth(exchanges, i);
      var more := TurnAttempts(env, keys[i], e, i);
      assert Verdict.Nth(answers, i) == AnswerOf(env, e, i);
      AttemptIdsAppend(attempts, more);
      TurnIds(env, keys[i], e, i);
      WalkTurn(KeyStore.EMPTY_TABLE, env, keys, exchanges, i);
      var turn := if e.SecretLost? then [] else [keys[i].id];
      if AnswerOf(env, e, i).MovesOn() {
        AttemptsMatchCalls(env, keys, exchanges, i + 1, TurnMemo(env, keys[i], e, i, m), attempts + more);
        assert AttemptIds(more) == turn by {
          assert AttemptIds(more) + [] == AttemptIds(more);
        }
        IdsJoin(AttemptIds(attempts), turn, WalkCalls(keys, answers, i + 1));
      } else {
        var lost := if AnswerOf(env, e, i).BodyLost? then [keys[i].id] else [];
        assert LastTurn(keys, answers, i) == i;
        assert WalkCalls(keys, answers, i) == turn by {
          assert turn + [] == turn;
        }
        IdsJoin(AttemptIds(attempts), AttemptIds(more), lost);
      }
    }
  }

  /** A body that breaks off: the key was called, yet no attempt is recorded and the
      request is never finished. */
  lemma BodyLostLeavesNoTrace(env: Env, key: Key, status: nat)
    requires env.maxBody > 0
    ensures var exchanges := [Reply(status, "", false, [], Broken)];
            var s := Serve(env, [key], exchanges, 0, NO_MEMO, []);
            && WalkCalls([key], Answers(env, exchanges, 1), 0) == [key.id]
            && s.attempts == [] && s.finish == None
  {
    var e := Reply(status, "", false, [], Broken);
    assert Nth([e], 0) == e && AnswerOf(env, e, 0) == BodyLost;
    ServeTurn(env, [key], [e], 0, NO_MEMO, []);
    WalkTurn(KeyStore.EMPTY_TABLE, env, [key], [e], 0);
  }

  /** The status on record is the one the client got, unless a stream failed on its first
      read and the upstream's status was another than the 200 the client then gets. */
  lemma {:induction false} RecordedStatusExactly(env: Env, keys: seq<Key>, exchanges: seq<Exchange>, i: nat, m: Memo,
                                                 attempts: seq<Attempt>)
    requires i <= |keys| && StatusesReal(exchanges)
    ensures var s := Serve(env, keys, exchanges, i, m, attempts);
            var r := LastTurn(keys, Answers(env, exchanges, |keys|), i);
            s.finish.Some? ==>
              (s.finish.value.status == Received(s.view).status
               <==> !(NothingSentAt(env, keys, exchanges, r) && Nth(exchanges, r).status != 200))
    decreases |keys| - i
  {
    if i < |keys| {
      var e := Nth(exchanges, i);
      assert Verdict.Nth(Answers(env, exchanges, |keys|), i) == AnswerOf(env, e, i);
      if AnswerOf(env, e, i).MovesOn() {
        RecordedStatusExactly(env, keys, exchanges, i + 1, TurnMemo(env, keys[i], e, i, m),
                              attempts + TurnAttempts(env, keys[i], e, i));
      }
    }
  }

  /** A stream whose first read fails, other than by ending, still counts as served: the
      key is marked used and promoted, and the client gets an empty 200. */
  lemma FirstReadFailureServes(env: Env, e: Exchange, i: nat)
    requires Streams(env, e)
    requires Scan(e.body, 0, 0, e.ending, env.maxEvent).err == Failed
             || Scan(e.body, 0, 0, e.ending, env.maxEvent).err == TooLarge
    ensures AnswerOf(env, e, i).Served()
    ensures Received(TurnView(env, e, i)) == View([], 200, [])
    ensures StreamOutcome(ForwardOf(env, e, i).result) == (Error, NetworkError)
  {
  }

  /** A stream that breaks before its first byte, under status 201: recorded as 201, while
      the client gets 200. Under status 200 the two agree. */
  lemma StatusCanDiffer(env: Env, key: Key, status: nat)
    requires env.stream && (status == 200 || status == 201)
    ensures var e := Reply(status, "", true, [], Broken);
            var s := Serve(env, [key], [e], 0, NO_MEMO, []);
            && s.finish.Some? && s.finish.value.status == status
            && Received(s.view).status == 200
  {
    var e := Reply(status, "", true, [], Broken);
    assert Nth([e], 0) == e && Streams(env, e);
    FirstReadFailureServes(env, e, 0);
    ServeTurn(env, [key], [e], 0, NO_MEMO, []);
  }
}
