/** Error verdicts on upstream answers, and what one key's answer makes the proxy write. */
module Verdict {
  import opened Wrappers
  import opened TextClock
  import opened KeyStore

  datatype Kind = NoError | QuotaError | AuthError | RateLimitError | UpstreamError | RequestError | NetworkError

  datatype Classification = Classification(kind: Kind, window: string, resetAt: Option<Instant>, message: string) {
    /** Only a spent quota or a dead credential moves a request to the next key. */
    predicate FailsOver() {
      kind == QuotaError || kind == AuthError
    }
  }

  const DEFAULT_PROBE_SEC: int := 900

  /** Cooling time when the upstream names no reset: the probe interval when it can be
      read and is at least a minute, else a quarter of an hour. */
  function FallbackSeconds(probeIntervalSec: Option<int>): (s: nat)
    ensures s >= 60
  {
    if probeIntervalSec.Some? && probeIntervalSec.value >= 60 then probeIntervalSec.value else DEFAULT_PROBE_SEC
  }

  /** The statement `recordKeyFailure` issues. */
  function FailureCall(id: nat, c: Classification, probeIntervalSec: Option<int>, now: Instant): Call
    requires c.FailsOver()
  {
    if c.kind == AuthError then MarkInvalid(id, c.message, now)
    else
      var reset := if c.resetAt.Some? then c.resetAt.value
                   else now + FallbackSeconds(probeIntervalSec) * NANOS_PER_SECOND;
      MarkQuota(id, c.window, Some(reset), c.message, now)
  }

  /** Everything about one key's turn in a request that the key table can notice.
      `stored` and `promoted` say whether the two writes that may follow went through. */
  datatype Answer =
    | Undecryptable
    | NetworkDown
    | BodyLost
    | Refused(why: Classification, probeIntervalSec: Option<int>, at: Instant, stored: bool)
    | Streamed(late: Option<Classification>, probeIntervalSec: Option<int>, at: Instant, stored: bool, promoted: bool)
    | Plain(status: nat, at: Instant, stored: bool, promoted: bool)
  {
    predicate Proper() {
      match this
      case Refused(why, _, _, _) => why.FailsOver()
      case Streamed(late, _, _, _, _) => late.Some? ==> late.value.FailsOver()
      case _ => true
    }

    /** The request goes on to the next key. */
    predicate MovesOn() {
      Undecryptable? || Refused?
    }

    /** The key is marked used and, when it was a standby, promoted. */
    predicate Served() {
      (Streamed? && late.None?) || (Plain? && status < 400)
    }
  }

  /** The answer given at turn i; only the turns a request reaches are ever read. */
  function Nth(answers: seq<Answer>, i: nat): Answer {
    if i < |answers| then answers[i] else BodyLost
  }

  predicate AllProper(answers: seq<Answer>) {
    forall a :: a in answers ==> a.Proper()
  }

  /** A statement together with what the run theorems need to know about it. */
  datatype Entry = Entry(call: Call, failover: bool, stored: bool)

  function ApplyEntry(t: Table, e: Entry): Table {
    if e.stored then Apply(t, e.call) else t
  }

  function ApplyEntries(t: Table, es: seq<Entry>): Table
    decreases |es|
  {
    if es == [] then t else ApplyEntries(ApplyEntry(t, es[0]), es[1..])
  }

  lemma {:induction false} ApplyEntriesAppend(t: Table, xs: seq<Entry>, ys: seq<Entry>)
    ensures ApplyEntries(t, xs + ys) == ApplyEntries(ApplyEntries(t, xs), ys)
    decreases |xs|
  {
    if xs == [] {
      assert xs + ys == ys;
    } else {
      assert (xs + ys)[1..] == xs[1..] + ys;
      ApplyEntriesAppend(ApplyEntry(t, xs[0]), xs[1..], ys);
    }
  }

  /** The statements issued for one key, in order. */
  function AnswerEntries(key: Key, a: Answer): seq<Entry>
    requires a.Proper()
  {
    match a
    case Refused(why, interval, at, stored) => [Entry(FailureCall(key.id, why, interval, at), true, stored)]
    case Streamed(Some(late), interval, at, stored, _) =>
      [Entry(FailureCall(key.id, late, interval, at), false, stored)]
    case _ =>
      if a.Served() then
        [Entry(MarkUsed(key.id, a.at), false, a.stored)]
        + (if key.role != Active then [Entry(SetActive(key.id, a.at), false, a.promoted)] else [])
      else []
  }

  /** Every statement a request issues after its snapshot, key by key. */
  function WalkEntries(keys: seq<Key>, answers: seq<Answer>, i: nat): seq<Entry>
    requires i <= |keys| && AllProper(answers)
    decreases |keys| - i
  {
    if i == |keys| then []
    else
      AnswerEntries(keys[i], Nth(answers, i))
      + (if Nth(answers, i).MovesOn() then WalkEntries(keys, answers, i + 1) else [])
  }

  /** The keys the upstream is called with, in order. */
  function WalkCalls(keys: seq<Key>, answers: seq<Answer>, i: nat): seq<nat>
    requires i <= |keys|
    decreases |keys| - i
  {
    if i == |keys| then []
    else (if Nth(answers, i).Undecryptable? then [] else [keys[i].id])
         + (if Nth(answers, i).MovesOn() then WalkCalls(keys, answers, i + 1) else [])
  }

  /** The turn that ends the request, or |keys| when every key was used up. */
  function LastTurn(keys: seq<Key>, answers: seq<Answer>, i: nat): (r: nat)
    requires i <= |keys|
    ensures i <= r <= |keys|
    ensures r < |keys| ==> !Nth(answers, r).MovesOn()
    ensures forall n :: i <= n < r ==> Nth(answers, n).MovesOn()
    decreases |keys| - i
  {
    if i == |keys| || !Nth(answers, i).MovesOn() then i else LastTurn(keys, answers, i + 1)
  }

  ghost predicate IdsDistinct(keys: seq<Key>) {
    forall i, j :: 0 <= i < j < |keys| ==> keys[i].id != keys[j].id
  }

  /** The turns of a request in which the upstream is called. */
  function CallTurns(keys: seq<Key>, answers: seq<Answer>, i: nat): seq<nat>
    requires i <= |keys|
    decreases |keys| - i
  {
    if i == |keys| then []
    else (if Nth(answers, i).Undecryptable? then [] else [i])
         + (if Nth(answers, i).MovesOn() then CallTurns(keys, answers, i + 1) else [])
  }

  lemma {:induction false} TurnsAreCalls(keys: seq<Key>, answers: seq<Answer>, i: nat)
    requires i <= |keys|
    ensures |CallTurns(keys, answers, i)| == |WalkCalls(keys, answers, i)|
    ensures forall n :: 0 <= n < |CallTurns(keys, answers, i)| ==>
              && i <= CallTurns(keys, answers, i)[n] < |keys|
              && WalkCalls(keys, answers, i)[n] == keys[CallTurns(keys, answers, i)[n]].id
    decreases |keys| - i
  {
    if i < |keys| && Nth(answers, i).MovesOn() {
      TurnsAreCalls(keys, answers, i + 1);
    }
  }

  lemma {:induction false} TurnsAscend(keys: seq<Key>, answers: seq<Answer>, i: nat)
    requires i <= |keys|
    ensures forall n :: 0 <= n < |CallTurns(keys, answers, i)| ==> i <= CallTurns(keys, answers, i)[n]
    ensures forall m, n :: 0 <= m < n < |CallTurns(keys, answers, i)| ==>
              CallTurns(keys, answers, i)[m] < CallTurns(keys, answers, i)[n]
    decreases |keys| - i
  {
    if i < |keys| && Nth(answers, i).MovesOn() {
      TurnsAscend(keys, answers, i + 1);
    }
  }

  lemma {:induction false} TurnsExactly(keys: seq<Key>, answers: seq<Answer>, i: nat, j: nat)
    requires i <= |keys|
    ensures j in CallTurns(keys, answers, i) <==>
            i <= j < |keys| && j <= LastTurn(keys, answers, i) && !Nth(answers, j).Undecryptable?
    decreases |keys| - i
  {
    if i < |keys| {
      var head := if Nth(answers, i).Undecryptable? then [] else [i];
      var rest := if Nth(answers, i).MovesOn() then CallTurns(keys, answers, i + 1) else [];
      assert j in head + rest <==> j in head || j in rest;
      if Nth(answers, i).MovesOn() {
        TurnsExactly(keys, answers, i + 1, j);
      }
    }
  }

  /** A request calls each key of its snapshot at most once, in the snapshot's order: exactly
      the keys up to the one whose answer ends it, but for those it cannot decrypt. */
  lemma CallsFollowSnapshot(keys: seq<Key>, answers: seq<Answer>, i: nat) returns (turns: seq<nat>)
    requires i <= |keys| && IdsDistinct(keys)
    ensures |turns| == |WalkCalls(keys, answers, i)|
    ensures forall n :: 0 <= n < |turns| ==> turns[n] < |keys|
    ensures forall n :: 0 <= n < |turns| ==> WalkCalls(keys, answers, i)[n] == keys[turns[n]].id
    ensures forall m, n :: 0 <= m < n < |turns| ==> turns[m] < turns[n]
    ensures forall m, n :: 0 <= m < n < |turns| ==> WalkCalls(keys, answers, i)[m] != WalkCalls(keys, answers, i)[n]
    ensures forall j :: j in turns <==>
              i <= j < |keys| && j <= LastTurn(keys, answers, i) && !Nth(answers, j).Undecryptable?
  {
    turns := CallTurns(keys, answers, i);
    TurnsAreCalls(keys, answers, i);
    TurnsAscend(keys, answers, i);
    forall j: nat
      ensures j in turns <==>
              i <= j < |keys| && j <= LastTurn(keys, answers, i) && !Nth(answers, j).Undecryptable?
    {
      TurnsExactly(keys, answers, i, j);
    }
  }
}
