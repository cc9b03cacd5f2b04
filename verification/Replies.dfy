/** What comes of a whole inference request, told from the keys and the exchanges with the
    upstream alone: what the client gets, what is recorded, and what the tables learn. */
module Replies {
  import opened Wrappers
  import opened TextClock
  import opened KeyStore
  import opened Verdict
  import opened Sse
  import opened Forwarding
  import opened Inference

  // ---------- How an exchange is judged ----------

  /** The answer is passed on as an event stream. */
  predicate IsStream(env: Env, e: Exchange) {
    env.stream && e.Reply? && 200 <= e.status <= 299 && e.eventStream
  }

  /** The answer is read whole, up to the limit; what the limit cuts off is never missed. */
  predicate IsRead(env: Env, e: Exchange) {
    e.Reply? && !IsStream(env, e) && (e.ending == Eof || |e.body| >= env.maxBody)
  }

  function Shorter(a: nat, b: nat): nat {
    if a < b then a else b
  }

  /** The part of the body that is read. */
  function ReadPart(env: Env, e: Exchange): seq<byte>
    requires e.Reply?
  {
    e.body[..Shorter(|e.body|, env.maxBody)]
  }

  predicate Refusal(c: Classification) {
    c.kind == QuotaError || c.kind == AuthError
  }

  function VerdictOn(env: Env, e: Exchange, i: nat, data: seq<byte>, n: nat): Classification
    requires e.Reply?
  {
    env.classify(e.status, e.header, data, i, n)
  }

  /** The first event of a stream could be read and carries a refusal. */
  predicate RefusedInStream(env: Env, e: Exchange, i: nat) {
    && IsStream(env, e)
    && var r := Scan(e.body, 0, 0, e.ending, env.maxEvent);
       var data := EventData(Event(e.body, 0, r));
       (r.err == Fine || r.err == AtEof) && data != [] && Refusal(VerdictOn(env, e, i, data, 0))
  }

  predicate RefusedWhole(env: Env, e: Exchange, i: nat) {
    IsRead(env, e) && Refusal(VerdictOn(env, e, i, ReadPart(env, e), 0))
  }

  /** The request goes on to the next key exactly when the secret of this one is lost or the
      upstream refused it for its quota or its credential. */
  lemma GoesOnExactly(env: Env, e: Exchange, i: nat)
    ensures AnswerOf(env, e, i).MovesOn() <==> e.SecretLost? || RefusedInStream(env, e, i) || RefusedWhole(env, e, i)
    ensures AnswerOf(env, e, i).Refused? <==> RefusedInStream(env, e, i) || RefusedWhole(env, e, i)
  {
    if IsRead(env, e) {
      ReadIsLimited(env, e);
    }
  }

  lemma ReadIsLimited(env: Env, e: Exchange)
    requires e.Reply? && !IsStream(env, e)
    ensures LimitedBody(env, e) == if IsRead(env, e) then Some(ReadPart(env, e)) else None
  {
    assert e.body[..|e.body|] == e.body;
  }

  /** A key is marked as serving exactly after a stream that was forwarded without a refusal
      in any of its events noted, or after an answer below 400 that is no refusal. */
  lemma ServesExactly(env: Env, e: Exchange, i: nat)
    ensures AnswerOf(env, e, i).Served() <==>
            || (IsStream(env, e) && !RefusedInStream(env, e, i) && ForwardOf(env, e, i).result.lateError == None)
            || (IsRead(env, e) && !RefusedWhole(env, e, i) && e.status < 400)
  {
    GoesOnExactly(env, e, i);
    if e.Reply? && !IsStream(env, e) {
      ReadIsLimited(env, e);
    }
  }

  /** A refusal is recorded with its own verdict, at the time of the attempt. */
  lemma RefusalIsTheVerdict(env: Env, e: Exchange, i: nat)
    ensures RefusedWhole(env, e, i) ==>
              AnswerOf(env, e, i) == Refused(VerdictOn(env, e, i, ReadPart(env, e), 0), env.probeIntervalSec,
                                             env.at(i), env.stored(i))
    ensures RefusedInStream(env, e, i) ==>
              var data := EventData(Event(e.body, 0, Scan(e.body, 0, 0, e.ending, env.maxEvent)));
              AnswerOf(env, e, i) == Refused(VerdictOn(env, e, i, data, 0), env.probeIntervalSec,
                                             env.at(i), env.stored(i))
  {
    if RefusedWhole(env, e, i) {
      ReadIsLimited(env, e);
    }
  }

  // ---------- The turn that ends a request ----------

  /** All turns from i up to r go on to the next key. */
  ghost predicate GoneOn(env: Env, exchanges: seq<Exchange>, i: nat, r: nat) {
    forall j :: i <= j < r ==>
      var e := Inference.Nth(exchanges, j);
      e.SecretLost? || RefusedInStream(env, e, j) || RefusedWhole(env, e, j)
  }

  lemma {:induction false} EndsAt(env: Env, keys: seq<Key>, exchanges: seq<Exchange>, i: nat, r: nat, m: Memo,
                                  attempts: seq<Attempt>)
    requires i <= r < |keys| && GoneOn(env, exchanges, i, r) && !AnswerOf(env, Inference.Nth(exchanges, r), r).MovesOn()
    ensures var s := Serve(env, keys, exchanges, i, m, attempts);
            && s.view == TurnView(env, Inference.Nth(exchanges, r), r)
            && s.finish == TurnFinish(env, keys[r], Inference.Nth(exchanges, r), r)
    decreases r - i
  {
    ServeTurn(env, keys, exchanges, i, m, attempts);
    if i < r {
      var e := Inference.Nth(exchanges, i);
      GoesOnExactly(env, e, i);
      EndsAt(env, keys, exchanges, i + 1, r, TurnMemo(env, keys[i], e, i, m),
             attempts + TurnAttempts(env, keys[i], e, i));
    }
  }

  /** What a request comes to, on the keys of its snapshot. */
  ghost function Result(t: Table, env: Env, exchanges: seq<Exchange>, now: Instant, released: bool): Handling
    requires WellKeyed(t)
  {
    Handle(t, env, exchanges, now, released, true)
  }

  lemma ResultOf(t: Table, env: Env, exchanges: seq<Exchange>, now: Instant, released: bool, r: nat)
    requires WellKeyed(t) && r < |SnapshotOf(t, now, released, true)| && GoneOn(env, exchanges, 0, r)
    requires !AnswerOf(env, Inference.Nth(exchanges, r), r).MovesOn()
    ensures var h, key := Result(t, env, exchanges, now, released), SnapshotOf(t, now, released, true)[r];
            && h.view == Received(TurnView(env, Inference.Nth(exchanges, r), r))
            && h.finish == TurnFinish(env, key, Inference.Nth(exchanges, r), r)
  {
    EndsAt(env, SnapshotOf(t, now, released, true), exchanges, 0, r, NO_MEMO, []);
  }

  lemma OrdinaryTurn(env: Env, key: Key, e: Exchange, r: nat)
    requires IsRead(env, e) && !RefusedWhole(env, e, r)
    ensures !AnswerOf(env, e, r).MovesOn()
    ensures TurnView(env, e, r)
            == View([e.header], e.status, e.body[..Shorter(Shorter(|e.body|, env.maxBody), env.room)])
    ensures TurnFinish(env, key, e, r)
            == Some(Finish(Some(key.id), r + 1, e.status, if e.status >= 400 then Error else Success,
                           Class(VerdictOn(env, e, r, ReadPart(env, e), 0).kind)))
  {
    GoesOnExactly(env, e, r);
    ReadIsLimited(env, e);
    var part := ReadPart(env, e);
    assert part[..Shorter(|part|, env.room)] == e.body[..Shorter(|part|, env.room)];
  }

  /** An ordinary answer, after any number of keys that were refused: the client gets its
      header, its status and its body, as far as it was read and the connection lasts; and
      the request is recorded with the key that gave it. */
  lemma AnswerReachesClient(t: Table, env: Env, exchanges: seq<Exchange>, now: Instant, released: bool, r: nat)
    requires WellKeyed(t) && r < |SnapshotOf(t, now, released, true)| && GoneOn(env, exchanges, 0, r)
    requires var e := Inference.Nth(exchanges, r);
             IsRead(env, e) && !RefusedWhole(env, e, r) && e.status != 0
    ensures var h, e := Result(t, env, exchanges, now, released), Inference.Nth(exchanges, r);
            && h.view == View([e.header], e.status, e.body[..Shorter(Shorter(|e.body|, env.maxBody), env.room)])
            && h.finish == Some(Finish(Some(SnapshotOf(t, now, released, true)[r].id), r + 1, e.status,
                                       if e.status >= 400 then Error else Success,
                                       Class(VerdictOn(env, e, r, ReadPart(env, e), 0).kind)))
  {
    OrdinaryTurn(env, SnapshotOf(t, now, released, true)[r], Inference.Nth(exchanges, r), r);
    ResultOf(t, env, exchanges, now, released, r);
  }

  lemma StreamingTurn(env: Env, key: Key, e: Exchange, r: nat)
    requires IsStream(env, e) && !RefusedInStream(env, e, r)
    ensures !AnswerOf(env, e, r).MovesOn()
    ensures var first := Scan(e.body, 0, 0, e.ending, env.maxEvent);
            Received(TurnView(env, e, r))
            == if first.err == Failed || first.err == TooLarge then View([], 200, [])
               else View([e.header], e.status,
                         e.body[..Shorter(env.room, DeliverEnd(e.body, 0, e.ending, env.maxEvent))])
    ensures var finish := TurnFinish(env, key, e, r);
            && finish.Some? && finish.value.finalKey == Some(key.id)
            && finish.value.attemptCount == r + 1 && finish.value.status == e.status
  {
    GoesOnExactly(env, e, r);
    ForwardLossless(e.body, e.ending, env.maxEvent, JudgeOf(env, e, r), env.room);
  }

  /** A stream that is not refused: the client gets header and status as soon as the first
      event is read, and then the bytes of the stream, as far as whole events could be read
      and the connection lasts; a stream that fails before its first event gives an empty
      200. Either way the request is recorded with the upstream's status. */
  lemma StreamReachesClient(t: Table, env: Env, exchanges: seq<Exchange>, now: Instant, released: bool, r: nat)
    requires WellKeyed(t) && r < |SnapshotOf(t, now, released, true)| && GoneOn(env, exchanges, 0, r)
    requires IsStream(env, Inference.Nth(exchanges, r)) && !RefusedInStream(env, Inference.Nth(exchanges, r), r)
    ensures var h, e := Result(t, env, exchanges, now, released), Inference.Nth(exchanges, r);
            var first := Scan(e.body, 0, 0, e.ending, env.maxEvent);
            && h.view == (if first.err == Failed || first.err == TooLarge then View([], 200, [])
                          else View([e.header], e.status,
                                    e.body[..Shorter(env.room, DeliverEnd(e.body, 0, e.ending, env.maxEvent))]))
            && h.finish.Some? && h.finish.value.finalKey == Some(SnapshotOf(t, now, released, true)[r].id)
            && h.finish.value.attemptCount == r + 1 && h.finish.value.status == e.status
  {
    StreamingTurn(env, SnapshotOf(t, now, released, true)[r], Inference.Nth(exchanges, r), r);
    ResultOf(t, env, exchanges, now, released, r);
  }

  /** Why a request that ended in a stream is recorded as it is: the refusal found late, or
      else whatever stopped the copying, or else nothing. */
  lemma StreamOutcomeExactly(t: Table, env: Env, exchanges: seq<Exchange>, now: Instant, released: bool, r: nat)
    requires WellKeyed(t) && r < |SnapshotOf(t, now, released, true)| && GoneOn(env, exchanges, 0, r)
    requires IsStream(env, Inference.Nth(exchanges, r)) && !RefusedInStream(env, Inference.Nth(exchanges, r), r)
    ensures var h, e := Result(t, env, exchanges, now, released), Inference.Nth(exchanges, r);
            var result := ForwardOf(env, e, r).result;
            && h.finish.Some?
            && (h.finish.value.outcome == Success <==> result.lateError == None && result.copyErr == CopyFine)
            && h.finish.value.outcome != Failover
            && h.finish.value.errorClass == Class(if result.lateError.Some? then result.lateError.value.kind
                                                  else if result.copyErr == CopyFine then NoError else NetworkError)
  {
    var e := Inference.Nth(exchanges, r);
    GoesOnExactly(env, e, r);
    ResultOf(t, env, exchanges, now, released, r);
  }

  /** A connection that cannot be made: a 502 of the proxy's own, and no further key. */
  lemma LostConnectionReply(t: Table, env: Env, exchanges: seq<Exchange>, now: Instant, released: bool, r: nat)
    requires WellKeyed(t) && r < |SnapshotOf(t, now, released, true)| && GoneOn(env, exchanges, 0, r)
    requires Inference.Nth(exchanges, r) == NoConnection
    ensures var h := Result(t, env, exchanges, now, released);
            && h.view == View([env.texts.json], 502, env.texts.network[..Shorter(|env.texts.network|, env.room)])
            && h.finish == Some(Finish(Some(SnapshotOf(t, now, released, true)[r].id), r + 1, 502, Error,
                                       Class(NetworkError)))
  {
    ResultOf(t, env, exchanges, now, released, r);
    assert env.texts.network[..|env.texts.network|] == env.texts.network;
  }

  /** An answer that breaks off while it is read: another 502, and the request is never
      recorded as finished. */
  lemma UnreadableReply(t: Table, env: Env, exchanges: seq<Exchange>, now: Instant, released: bool, r: nat)
    requires WellKeyed(t) && r < |SnapshotOf(t, now, released, true)| && GoneOn(env, exchanges, 0, r)
    requires var e := Inference.Nth(exchanges, r);
             e.Reply? && !IsStream(env, e) && e.ending == Broken && |e.body| < env.maxBody
    ensures var h := Result(t, env, exchanges, now, released);
            && h.view == View([env.texts.json], 502, env.texts.read[..Shorter(|env.texts.read|, env.room)])
            && h.finish == None
  {
    ReadIsLimited(env, Inference.Nth(exchanges, r));
    ResultOf(t, env, exchanges, now, released, r);
    assert env.texts.read[..|env.texts.read|] == env.texts.read;
  }

  /** With no eligible key, or none that could be read: a 503 of the proxy's own, and the
      upstream is not called. */
  lemma NoKeyReply(t: Table, env: Env, exchanges: seq<Exchange>, now: Instant, released: bool, listed: bool)
    requires WellKeyed(t) && SnapshotOf(t, now, released, listed) == []
    ensures var h := Handle(t, env, exchanges, now, released, listed);
            && h.view == View([env.texts.json], 503, env.texts.noKey[..Shorter(|env.texts.noKey|, env.room)])
            && h.finish == Some(Finish(None, 0, 503, Error, NoAvailableKey)) && h.ids == [] && h.attempts == []
  {
    assert env.texts.noKey[..|env.texts.noKey|] == env.texts.noKey;
  }

  // ---------- What is recorded of each attempt ----------

  /** The attempt of turn j, told from the exchange: a connection that failed has no status;
      a refusal inside a stream counts as 429; and the outcome is a failover exactly after a
      refusal, else a success below 400 and for a stream that nothing disturbed. */
  predicate Truthful(env: Env, keys: seq<Key>, exchanges: seq<Exchange>, a: Attempt, j: nat) {
    && j < |keys| && a.keyId == keys[j].id && a.attemptNo == j + 1
    && var e := Inference.Nth(exchanges, j);
       match e
       case SecretLost => false
       case NoConnection => a.status == 0 && a.outcome == Error && a.kind == NetworkError
       case Reply(status, _, _, _, _) =>
         if RefusedInStream(env, e, j) then
           var data := EventData(Event(e.body, 0, Scan(e.body, 0, 0, e.ending, env.maxEvent)));
           a.status == 429 && a.outcome == Failover && a.kind == VerdictOn(env, e, j, data, 0).kind
         else if IsStream(env, e) then
           var result := ForwardOf(env, e, j).result;
           && a.status == status && a.outcome != Failover
           && (a.outcome == Success <==> result.lateError == None && result.copyErr == CopyFine)
           && a.kind == (if result.lateError.Some? then result.lateError.value.kind
                         else if result.copyErr == CopyFine then NoError else NetworkError)
         else
           && IsRead(env, e) && a.status == status
           && a.kind == VerdictOn(env, e, j, ReadPart(env, e), 0).kind
           && a.outcome == (if RefusedWhole(env, e, j) then Failover else if status >= 400 then Error else Success)
  }

  ghost predicate AllTruthful(env: Env, keys: seq<Key>, exchanges: seq<Exchange>, attempts: seq<Attempt>) {
    forall a :: a in attempts ==> exists j :: Truthful(env, keys, exchanges, a, j)
  }

  lemma TurnTruthful(env: Env, keys: seq<Key>, exchanges: seq<Exchange>, j: nat)
    requires j < |keys|
    ensures forall a :: a in TurnAttempts(env, keys[j], Inference.Nth(exchanges, j), j) ==>
              Truthful(env, keys, exchanges, a, j)
  {
    var e := Inference.Nth(exchanges, j);
    GoesOnExactly(env, e, j);
    RefusalIsTheVerdict(env, e, j);
    if e.Reply? && !IsStream(env, e) {
      ReadIsLimited(env, e);
    }
  }

  /** Every recorded attempt tells the truth about one exchange. */
  lemma {:induction false} AttemptsTellTruth(env: Env, keys: seq<Key>, exchanges: seq<Exchange>, i: nat, m: Memo,
                                             attempts: seq<Attempt>)
    requires i <= |keys| && AllTruthful(env, keys, exchanges, attempts)
    ensures AllTruthful(env, keys, exchanges, Serve(env, keys, exchanges, i, m, attempts).attempts)
    decreases |keys| - i
  {
    if i < |keys| {
      var e := Inference.Nth(exchanges, i);
      TurnTruthful(env, keys, exchanges, i);
      var attempts' := attempts + TurnAttempts(env, keys[i], e, i);
      assert AllTruthful(env, keys, exchanges, attempts');
      ServeTurn(env, keys, exchanges, i, m, attempts);
      if AnswerOf(env, e, i).MovesOn() {
        AttemptsTellTruth(env, keys, exchanges, i + 1, TurnMemo(env, keys[i], e, i, m), attempts');
      }
    }
  }
}
