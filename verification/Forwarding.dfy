/** Forwarding an upstream event stream to the client. Nothing is written before the
    first event has been read and judged; from then on every event is passed on. */
module Forwarding {
  import opened Wrappers
  import opened Verdict
  import opened Sse

  /** Verdict on the data of the n-th event of a stream. */
  type Judge = (seq<byte>, nat) -> Classification

  /** A block of response headers. */
  type Header = string

  /** The client's side of a response. `room` is how many more bytes the connection
      takes before it breaks; status 0 means that no header was sent yet. */
  class ResponseWriter {
    var headers: seq<Header>
    var status: nat
    var body: seq<byte>
    var room: nat

    constructor (room: nat)
      ensures headers == [] && status == 0 && body == [] && this.room == room
    {
      headers, status, body, this.room := [], 0, [], room;
    }

    /** copyResponseHeaders: adds a block of headers, which counts until the status is sent. */
    method CopyHeaders(h: Header)
      modifies this`headers
      ensures headers == if status == 0 then old(headers) + [h] else old(headers)
    {
      if status == 0 {
        headers := headers + [h];
      }
    }

    method WriteHeader(code: nat)
      modifies this`status
      ensures status == if old(status) == 0 then code else old(status)
    {
      if status == 0 {
        status := code;
      }
    }

    method Write(data: seq<byte>) returns (ok: bool)
      modifies this`status, this`body, this`room
      ensures status == if old(status) == 0 then 200 else old(status)
      ensures ok == (|data| <= old(room))
      ensures body == old(body) + data[..(if ok then |data| else old(room))]
      ensures room == if ok then old(room) - |data| else 0
    {
      if status == 0 {
        status := 200;
      }
      ok := |data| <= room;
      if ok {
        body, room := body + data, room - |data|;
      } else {
        body, room := body + data[..room], 0;
      }
    }

    /** What net/http does once the handler has returned: a response that was never started
        goes out as an empty 200. */
    method EndResponse()
      modifies this`status
      ensures status == if old(status) == 0 then 200 else old(status)
    {
      if status == 0 {
        status := 200;
      }
    }
  }

  datatype CopyError = CopyFine | CopyRead(err: ReadError) | CopyWrite

  datatype StreamResult = StreamResult(
    firstError: Option<Classification>,
    lateError: Option<Classification>,
    firstData: seq<byte>,
    firstByteSent: bool,
    observed: seq<seq<byte>>,
    copyErr: CopyError)

  // ---------- Specification ----------

  predicate Serious(v: Option<Classification>) {
    v.Some? ==> v.value.FailsOver()
  }

  /** The quota or auth verdict on an event, if it has one. */
  function Failure(event: seq<byte>, judge: Judge, n: nat): (v: Option<Classification>)
    ensures Serious(v)
  {
    var data := EventData(event);
    if data != [] && judge(data, n).FailsOver() then Some(judge(data, n)) else None
  }

  /** The data the usage accumulator is shown. */
  function Seen(event: seq<byte>): seq<seq<byte>> {
    if EventData(event) == [] then [] else [EventData(event)]
  }

  /** What is noted of one event: the verdict that charges the key, and the usage data. */
  datatype Note = Note(verdict: Option<Classification>, data: seq<seq<byte>>)

  type Weigh = (seq<byte>, nat) -> Note

  function Weighed(judge: Judge): Weigh {
    (event: seq<byte>, n: nat) => Note(Failure(event, judge, n), Seen(event))
  }

  /** What the loop brings about from some position on: how far the client's bytes reach
      and what was noted on the way. */
  datatype Tail = Tail(upTo: nat, late: Option<Classification>, observed: seq<seq<byte>>, copyErr: CopyError)

  function Noted(v: Option<Classification>, late: Option<Classification>): Option<Classification> {
    if v.Some? then v else late
  }

  /** The position where a read's bytes end. */
  function EventEnd(start: nat, r: Stop): nat {
    if r.err == TooLarge then start else r.pos
  }

  /** The loop after the commit point, from position i with the notes taken so far. */
  function ForwardRest(s: seq<byte>, i: nat, ending: Ending, max: nat, weigh: Weigh, n: nat, room: nat,
                       late: Option<Classification>, observed: seq<seq<byte>>): (t: Tail)
    requires i <= |s|
    ensures i <= t.upTo <= |s|
    decreases |s| - i
  {
    var r := Scan(s, i, i, ending, max);
    var event := Event(s, i, r);
    var note := weigh(event, n);
    var late' := Noted(note.verdict, late);
    var observed' := observed + note.data;
    if |event| > room then Tail(i + room, late', observed', CopyWrite)
    else if r.err != Fine then
      Tail(EventEnd(i, r), late', observed', if r.err == AtEof then CopyFine else CopyRead(r.err))
    else ForwardRest(s, r.pos, ending, max, weigh, n + 1, room - |event|, late', observed')
  }

  lemma {:induction false} RestSerious(s: seq<byte>, i: nat, ending: Ending, max: nat, weigh: Weigh, n: nat, room: nat,
                                       late: Option<Classification>, observed: seq<seq<byte>>)
    requires i <= |s| && Serious(late) && forall e, k :: Serious(weigh(e, k).verdict)
    ensures Serious(ForwardRest(s, i, ending, max, weigh, n, room, late, observed).late)
    decreases |s| - i
  {
    var r := Scan(s, i, i, ending, max);
    var event := Event(s, i, r);
    if |event| <= room && r.err == Fine {
      RestSerious(s, r.pos, ending, max, weigh, n + 1, room - |event|,
                  Noted(weigh(event, n).verdict, late), observed + weigh(event, n).data);
    }
  }

  datatype Forwarded = Forwarded(result: StreamResult, committed: bool, upTo: nat)

  /** The whole of `forwardStream`: what it reports, whether it sent a header, and how
      far into the stream the bytes it sent reach. */
  function Forward(s: seq<byte>, ending: Ending, max: nat, judge: Judge, room: nat): (f: Forwarded)
    ensures f.upTo <= |s|
    ensures Serious(f.result.firstError) && Serious(f.result.lateError)
    ensures f.result.firstError.Some? ==> !f.committed
  {
    var r := Scan(s, 0, 0, ending, max);
    var event := Event(s, 0, r);
    if r.err == Failed || r.err == TooLarge then
      Forwarded(StreamResult(None, None, [], false, [], CopyRead(r.err)), false, 0)
    else if Failure(event, judge, 0).Some? then
      Forwarded(StreamResult(Failure(event, judge, 0), None, EventData(event), false, [], CopyFine), false, 0)
    else if |event| > room then
      Forwarded(StreamResult(None, None, [], true, Seen(event), CopyWrite), true, room)
    else
      var t := ForwardRest(s, r.pos, ending, max, Weighed(judge), 1, room - |event|, None, Seen(event));
      RestSerious(s, r.pos, ending, max, Weighed(judge), 1, room - |event|, None, Seen(event));
      Forwarded(StreamResult(None, t.late, [], event != [], t.observed, t.copyErr), true, t.upTo)
  }

  // ---------- The method ----------

  method ForwardStream(w: ResponseWriter, reader: Reader, header: Header, status: nat, max: nat, judge: Judge)
    returns (result: StreamResult)
    requires reader.Valid() && reader.pos == 0 && w.status == 0 && status != 0
    modifies w, reader
    ensures var f := Forward(reader.data, reader.ending, max, judge, old(w.room));
            && result == f.result
            && w.status == (if f.committed then status else 0)
            && w.headers == old(w.headers) + (if f.committed then [header] else [])
            && w.body == old(w.body) + reader.data[..f.upTo]
            && (!f.committed ==> w.room == old(w.room))
  {
    ghost var before := w.body;
    var firstEvent, err := reader.ReadEvent(max);
    if err != Fine && err != AtEof {
      assert before + reader.data[..0] == before;
      return StreamResult(None, None, [], false, [], CopyRead(err));
    }
    var data := ReadData(firstEvent);
    if |data| > 0 {
      var verdict := judge(data, 0);
      if verdict.kind == QuotaError || verdict.kind == AuthError {
        assert before + reader.data[..0] == before;
        return StreamResult(Some(verdict), None, data, false, [], CopyFine);
      }
    }
    w.CopyHeaders(header);
    w.WriteHeader(status);
    var observed: seq<seq<byte>> := if |data| > 0 then [data] else [];
    var late: Option<Classification> := None;
    var firstByteSent := false;
    if |firstEvent| > 0 {
      firstByteSent := true;
      var ok := w.Write(firstEvent);
      if !ok {
        assert firstEvent[..old(w.room)] == reader.data[..old(w.room)];
        return StreamResult(None, late, [], firstByteSent, observed, CopyWrite);
      }
    }
    assert w.body == before + reader.data[..reader.pos];
    var copyErr;
    late, observed, copyErr := ForwardLoop(w, reader, before, max, judge, late, observed);
    result := StreamResult(None, late, [], firstByteSent, observed, copyErr);
  }

  /** An event's data is observed, and a quota or auth verdict on it remembered. */
  method NoteEvent(event: seq<byte>, judge: Judge, n: nat, late0: Option<Classification>, observed0: seq<seq<byte>>,
                   ghost weigh: Weigh)
    returns (late: Option<Classification>, observed: seq<seq<byte>>)
    requires weigh == Weighed(judge)
    ensures late == Noted(weigh(event, n).verdict, late0)
    ensures observed == observed0 + weigh(event, n).data
  {
    late, observed := late0, observed0;
    var data := ReadData(event);
    if |data| > 0 {
      observed := observed + [data];
      var verdict := judge(data, n);
      if verdict.kind == QuotaError || verdict.kind == AuthError {
        late := Some(verdict);
      }
    }
  }

  /** A non-empty event is written; what went before stays. */
  method SendEvent(w: ResponseWriter, event: seq<byte>, ghost before: seq<byte>, ghost s: seq<byte>, ghost i: nat)
    returns (ok: bool)
    requires w.status != 0 && i + |event| <= |s| && event == s[i..i + |event|] && w.body == before + s[..i]
    modifies w`status, w`body, w`room
    ensures ok == (|event| <= old(w.room)) && w.status == old(w.status)
    ensures if ok then w.room == old(w.room) - |event| && w.body == before + s[..i + |event|]
            else w.body == before + s[..i + old(w.room)]
  {
    ok := true;
    if |event| > 0 {
      ok := w.Write(event);
      SentBytes(before, s, i, event, if ok then |event| else old(w.room));
    }
  }

  /** One round of the loop: read an event, note it, pass it on. */
  method ForwardOne(w: ResponseWriter, reader: Reader, ghost before: seq<byte>, max: nat, judge: Judge, n: nat,
                    late0: Option<Classification>, observed0: seq<seq<byte>>, ghost weigh: Weigh)
    returns (readErr: ReadError, ok: bool, late: Option<Classification>, observed: seq<seq<byte>>)
    requires reader.Valid() && w.status != 0 && w.body == before + reader.data[..reader.pos]
    requires weigh == Weighed(judge)
    modifies w`status, w`body, w`room, reader
    ensures reader.Valid() && w.status == old(w.status)
    ensures var i := old(reader.pos);
            var r := Scan(reader.data, i, i, reader.ending, max);
            var event := Event(reader.data, i, r);
            && reader.pos == r.pos && readErr == r.err
            && late == Noted(weigh(event, n).verdict, late0) && observed == observed0 + weigh(event, n).data
            && ok == (|event| <= old(w.room))
            && (if ok then w.room == old(w.room) - |event| && w.body == before + reader.data[..EventEnd(i, r)]
                else w.body == before + reader.data[..i + old(w.room)])
  {
    ghost var i := reader.pos;
    var event, err := reader.ReadEvent(max);
    readErr := err;
    late, observed := NoteEvent(event, judge, n, late0, observed0, weigh);
    EventSlice(reader.data, i, Scan(reader.data, i, i, reader.ending, max));
    ok := SendEvent(w, event, before, reader.data, i);
  }

  lemma EventSlice(s: seq<byte>, i: nat, r: Stop)
    requires i <= r.pos <= |s|
    ensures var event := Event(s, i, r);
            i + |event| == EventEnd(i, r) && event == s[i..i + |event|]
  {
  }

  /** The loop after the commit point: every event read is judged and passed on. */
  method ForwardLoop(w: ResponseWriter, reader: Reader, ghost before: seq<byte>, max: nat, judge: Judge,
                     late0: Option<Classification>, observed0: seq<seq<byte>>)
    returns (late: Option<Classification>, observed: seq<seq<byte>>, copyErr: CopyError)
    requires reader.Valid() && w.status != 0 && w.body == before + reader.data[..reader.pos]
    modifies w`status, w`body, w`room, reader
    ensures var t := ForwardRest(reader.data, old(reader.pos), reader.ending, max, Weighed(judge), 1, old(w.room),
                                 late0, observed0);
            && late == t.late && observed == t.observed && copyErr == t.copyErr
            && w.body == before + reader.data[..t.upTo]
    ensures w.status == old(w.status)
  {
    ghost var weigh := Weighed(judge);
    ghost var goal := ForwardRest(reader.data, reader.pos, reader.ending, max, weigh, 1, w.room, late0, observed0);
    var n := 1;
    late, observed, copyErr := late0, observed0, CopyFine;
    while true
      invariant reader.Valid() && w.status == old(w.status)
      invariant w.body == before + reader.data[..reader.pos]
      invariant ForwardRest(reader.data, reader.pos, reader.ending, max, weigh, n, w.room, late, observed) == goal
      decreases |reader.data| - reader.pos
    {
      var readErr, ok;
      readErr, ok, late, observed := ForwardOne(w, reader, before, max, judge, n, late, observed, weigh);
      if !ok {
        copyErr := CopyWrite;
        break;
      }
      if readErr != Fine {
        copyErr := if readErr == AtEof then CopyFine else CopyRead(readErr);
        break;
      }
      n := n + 1;
    }
  }

  lemma SentBytes(before: seq<byte>, s: seq<byte>, i: nat, event: seq<byte>, k: nat)
    requires i + |event| <= |s| && event == s[i..i + |event|] && k <= |event|
    ensures before + s[..i] + event[..k] == before + s[..i + k]
  {
  }

  // ---------- What the client receives ----------

  /** Where the bytes that reads return end: at the end of the stream, or before an
      oversized event. */
  function DeliverEnd(s: seq<byte>, i: nat, ending: Ending, max: nat): (e: nat)
    requires i <= |s|
    ensures i <= e <= |s|
  {
    SplitShape(s, i, ending, max);
    BlocksAscend(s, i, ReadAll(s, i, ending, max).cuts);
    var p := ReadAll(s, i, ending, max);
    if p.last.err == TooLarge then LastCut(i, p.cuts) else |s|
  }

  function Min(a: nat, b: nat): nat {
    if a < b then a else b
  }

  lemma DeliverStep(s: seq<byte>, i: nat, ending: Ending, max: nat)
    requires i <= |s|
    ensures var r := Scan(s, i, i, ending, max);
            DeliverEnd(s, i, ending, max) == if r.err == Fine then DeliverEnd(s, r.pos, ending, max) else EventEnd(i, r)
  {
    var r := Scan(s, i, i, ending, max);
    if r.err == Fine {
      var t := ReadAll(s, r.pos, ending, max);
      assert LastCut(i, [r.pos] + t.cuts) == LastCut(r.pos, t.cuts);
    }
  }

  lemma {:induction false} RestReaches(s: seq<byte>, i: nat, ending: Ending, max: nat, weigh: Weigh, n: nat, room: nat,
                                       late: Option<Classification>, observed: seq<seq<byte>>)
    requires i <= |s|
    ensures ForwardRest(s, i, ending, max, weigh, n, room, late, observed).upTo
            == Min(i + room, DeliverEnd(s, i, ending, max))
    decreases |s| - i
  {
    DeliverStep(s, i, ending, max);
    var r := Scan(s, i, i, ending, max);
    var event := Event(s, i, r);
    if |event| <= room && r.err == Fine {
      RestReaches(s, r.pos, ending, max, weigh, n + 1, room - |event|,
                  Noted(weigh(event, n).verdict, late), observed + weigh(event, n).data);
    }
  }

  /** The first read succeeds or meets the end of the stream, and its event carries no
      quota or auth verdict. */
  predicate Commits(s: seq<byte>, ending: Ending, max: nat, judge: Judge) {
    var r := Scan(s, 0, 0, ending, max);
    (r.err == Fine || r.err == AtEof) && Failure(Event(s, 0, r), judge, 0).None?
  }

  /** Lossless forwarding: an uncommitted stream sends nothing; a committed one sends the
      bytes of the stream in order, up to where the client's connection breaks, or else
      to the end of the stream, or to the last whole event before an oversized one. */
  lemma ForwardLossless(s: seq<byte>, ending: Ending, max: nat, judge: Judge, room: nat)
    ensures var f := Forward(s, ending, max, judge, room);
            && (f.committed <==> Commits(s, ending, max, judge))
            && (!f.committed ==> f.upTo == 0)
            && (f.committed ==> f.upTo == Min(room, DeliverEnd(s, 0, ending, max)))
            && (f.committed && room >= |s| && ReadAll(s, 0, ending, max).last.err != TooLarge ==> s[..f.upTo] == s)
  {
    ForwardUnfolds(s, ending, max, judge, room);
    if Commits(s, ending, max, judge) {
      CommittedReaches(s, ending, max, Weighed(judge), room, Seen(Event(s, 0, Scan(s, 0, 0, ending, max))));
    }
  }

  lemma ForwardUnfolds(s: seq<byte>, ending: Ending, max: nat, judge: Judge, room: nat)
    ensures var f, r := Forward(s, ending, max, judge, room), Scan(s, 0, 0, ending, max);
            && (f.committed <==> Commits(s, ending, max, judge))
            && f.upTo == if !f.committed then 0
                         else CommittedEnd(s, ending, max, Weighed(judge), room, Seen(Event(s, 0, r)))
  {
  }

  /** How far the bytes reach once the stream is committed. */
  function CommittedEnd(s: seq<byte>, ending: Ending, max: nat, weigh: Weigh, room: nat, observed: seq<seq<byte>>)
    : nat
  {
    var r := Scan(s, 0, 0, ending, max);
    var event := Event(s, 0, r);
    if |event| > room then room else ForwardRest(s, r.pos, ending, max, weigh, 1, room - |event|, None, observed).upTo
  }

  lemma CommittedReaches(s: seq<byte>, ending: Ending, max: nat, weigh: Weigh, room: nat, observed: seq<seq<byte>>)
    requires var r := Scan(s, 0, 0, ending, max); r.err == Fine || r.err == AtEof
    ensures CommittedEnd(s, ending, max, weigh, room, observed) == Min(room, DeliverEnd(s, 0, ending, max))
    ensures ReadAll(s, 0, ending, max).last.err != TooLarge ==> DeliverEnd(s, 0, ending, max) == |s|
  {
    var r := Scan(s, 0, 0, ending, max);
    DeliverStep(s, 0, ending, max);
    if |Event(s, 0, r)| <= room {
      RestReaches(s, r.pos, ending, max, weigh, 1, room - r.pos, None, observed);
      if r.err == AtEof {
        AtTheEnd(s, ending, max);
      }
    }
  }

  lemma AtTheEnd(s: seq<byte>, ending: Ending, max: nat)
    ensures Scan(s, |s|, |s|, ending, max) == Stop(|s|, EndError(ending))
    ensures DeliverEnd(s, |s|, ending, max) == |s|
  {
  }

  // ---------- What is noted on the way ----------

  /** What successive reads return; after the last one the loop ends. */
  datatype Reads = Last(event: seq<byte>) | Next(event: seq<byte>, more: Reads)

  /** The reads of the loop, with so much room on the client's side: they go on as long as
      whole events are read and the client takes them. */
  function ReadsFor(s: seq<byte>, i: nat, ending: Ending, max: nat, room: nat): Reads
    requires i <= |s|
    decreases |s| - i
  {
    var r := Scan(s, i, i, ending, max);
    var event := Event(s, i, r);
    if r.err == Fine && |event| <= room then Next(event, ReadsFor(s, r.pos, ending, max, room - |event|))
    else Last(event)
  }

  function Count(r: Reads): nat {
    if r.Last? then 1 else 1 + Count(r.more)
  }

  function ReadAt(r: Reads, k: nat): seq<byte>
    requires k < Count(r)
  {
    if k == 0 then r.event else ReadAt(r.more, k - 1)
  }

  /** The verdict charged: the first read has number n. */
  function Charged(r: Reads, weigh: Weigh, n: nat): Option<Classification> {
    if r.Last? then weigh(r.event, n).verdict else Noted(Charged(r.more, weigh, n + 1), weigh(r.event, n).verdict)
  }

  function DataOf(r: Reads, weigh: Weigh, n: nat): seq<seq<byte>> {
    if r.Last? then weigh(r.event, n).data else weigh(r.event, n).data + DataOf(r.more, weigh, n + 1)
  }

  ghost predicate Uncharged(r: Reads, weigh: Weigh, n: nat, k: nat) {
    forall j :: k <= j < Count(r) ==> weigh(ReadAt(r, j), n + j).verdict.None?
  }

  /** What is charged is the last quota or auth verdict among the reads; nothing is charged
      only when there is none. */
  lemma {:induction false} ChargedIsLast(r: Reads, weigh: Weigh, n: nat) returns (k: nat)
    ensures Charged(r, weigh, n).None? ==> Uncharged(r, weigh, n, 0)
    ensures Charged(r, weigh, n).Some? ==>
              k < Count(r) && weigh(ReadAt(r, k), n + k).verdict == Charged(r, weigh, n)
                  && Uncharged(r, weigh, n, k + 1)
  {
    k := 0;
    if r.Next? {
      var m := ChargedIsLast(r.more, weigh, n + 1);
      k := if Charged(r.more, weigh, n + 1).Some? then m + 1 else 0;
      forall j | k + 1 <= j < Count(r)
        ensures weigh(ReadAt(r, j), n + j).verdict.None?
      {
        assert ReadAt(r, j) == ReadAt(r.more, j - 1);
      }
    }
  }

  lemma NotesJoin(event: seq<byte>, more: Reads, weigh: Weigh, n: nat, late: Option<Classification>,
                  observed: seq<seq<byte>>)
    ensures var note := weigh(event, n);
            && Noted(Charged(more, weigh, n + 1), Noted(note.verdict, late))
               == Noted(Charged(Next(event, more), weigh, n), late)
            && observed + note.data + DataOf(more, weigh, n + 1)
               == observed + DataOf(Next(event, more), weigh, n)
  {
  }

  /** The key is charged with the last quota or auth verdict among the reads, and the
      accumulator sees the data of all of them. */
  lemma {:induction false} RestNotes(s: seq<byte>, i: nat, ending: Ending, max: nat, weigh: Weigh, n: nat, room: nat,
                                     late: Option<Classification>, observed: seq<seq<byte>>)
    requires i <= |s|
    ensures var t := ForwardRest(s, i, ending, max, weigh, n, room, late, observed);
            var all := ReadsFor(s, i, ending, max, room);
            && t.late == Noted(Charged(all, weigh, n), late)
            && t.observed == observed + DataOf(all, weigh, n)
    decreases |s| - i
  {
    var r := Scan(s, i, i, ending, max);
    var event := Event(s, i, r);
    if r.err == Fine && |event| <= room {
      var note := weigh(event, n);
      RestNotes(s, r.pos, ending, max, weigh, n + 1, room - |event|, Noted(note.verdict, late), observed + note.data);
      NotesJoin(event, ReadsFor(s, r.pos, ending, max, room - |event|), weigh, n, late, observed);
    }
  }

  /** The loop ends with a write error exactly when there is more to deliver than the client
      has room for, and otherwise with the error of the last read, the end being none. */
  lemma {:induction false} RestEnds(s: seq<byte>, i: nat, ending: Ending, max: nat, weigh: Weigh, n: nat, room: nat,
                                    late: Option<Classification>, observed: seq<seq<byte>>)
    requires i <= |s|
    ensures var last := ReadAll(s, i, ending, max).last;
            ForwardRest(s, i, ending, max, weigh, n, room, late, observed).copyErr
            == if DeliverEnd(s, i, ending, max) > i + room then CopyWrite
               else if last.err == AtEof then CopyFine else CopyRead(last.err)
    decreases |s| - i
  {
    DeliverStep(s, i, ending, max);
    var r := Scan(s, i, i, ending, max);
    var event := Event(s, i, r);
    if |event| <= room && r.err == Fine {
      RestEnds(s, r.pos, ending, max, weigh, n + 1, room - |event|,
               Noted(weigh(event, n).verdict, late), observed + weigh(event, n).data);
    }
  }

  // ---------- The report, told from the events ----------

  type Charging = (seq<byte>, nat) -> bool

  /** Event n of the stream has data that is judged a spent quota or a dead credential. */
  predicate Charges(judge: Judge, event: seq<byte>, n: nat) {
    var data := EventData(event);
    data != [] && (judge(data, n).kind == QuotaError || judge(data, n).kind == AuthError)
  }

  function ChargesOf(judge: Judge): Charging {
    (event: seq<byte>, n: nat) => Charges(judge, event, n)
  }

  ghost predicate NoneFrom(r: Reads, charges: Charging, k: nat) {
    forall j :: k <= j < Count(r) ==> !charges(ReadAt(r, j), j)
  }

  /** The data of an event, if it has any. */
  function DataList(event: seq<byte>): seq<seq<byte>> {
    var data := EventData(event);
    if |data| > 0 then [data] else []
  }

  function AllData(r: Reads, data: seq<byte> -> seq<seq<byte>>): seq<seq<byte>> {
    if r.Last? then data(r.event) else data(r.event) + AllData(r.more, data)
  }

  lemma {:induction false} DataOfAll(r: Reads, weigh: Weigh, n: nat, data: seq<byte> -> seq<seq<byte>>)
    requires forall event, k :: weigh(event, k).data == data(event)
    ensures DataOf(r, weigh, n) == AllData(r, data)
    decreases r
  {
    if r.Next? {
      DataOfAll(r.more, weigh, n + 1, data);
    }
  }

  lemma WeighedExactly(judge: Judge, event: seq<byte>, n: nat)
    ensures Weighed(judge)(event, n).verdict
            == if Charges(judge, event, n) then Some(judge(EventData(event), n)) else None
    ensures Weighed(judge)(event, n).data == DataList(event)
  {
  }

  /** The last verdict among the reads after the first, counted from the first. */
  lemma LaterVerdict(event: seq<byte>, more: Reads, weigh: Weigh, charges: Charging) returns (k: nat)
    requires forall e, n :: weigh(e, n).verdict.Some? <==> charges(e, n)
    ensures var all, late := Next(event, more), Charged(more, weigh, 1);
            && (late == None ==> NoneFrom(all, charges, 1))
            && (late.Some? ==>
                  && 1 <= k < Count(all) && late == weigh(ReadAt(all, k), k).verdict
                  && NoneFrom(all, charges, k + 1))
  {
    var all := Next(event, more);
    var m := ChargedIsLast(more, weigh, 1);
    k := m + 1;
    forall j | 1 <= j < Count(all)
      ensures ReadAt(all, j) == ReadAt(more, j - 1)
      ensures charges(ReadAt(all, j), j) <==> weigh(ReadAt(more, j - 1), 1 + (j - 1)).verdict.Some?
    {
    }
  }

  /** What the loop reports after a first event, told from the events. */
  ghost predicate Reported(t: Tail, all: Reads, judge: Judge, k: nat) {
    && t.observed == AllData(all, DataList)
    && (t.late == None ==> NoneFrom(all, ChargesOf(judge), 1))
    && (t.late.Some? ==>
          && 1 <= k < Count(all) && Charges(judge, ReadAt(all, k), k)
          && t.late.value == judge(EventData(ReadAt(all, k)), k)
          && NoneFrom(all, ChargesOf(judge), k + 1))
  }

  lemma RestReported(s: seq<byte>, i: nat, ending: Ending, max: nat, judge: Judge, room: nat, event: seq<byte>)
    returns (k: nat)
    requires i <= |s|
    ensures Reported(ForwardRest(s, i, ending, max, Weighed(judge), 1, room, None, Seen(event)),
                     Next(event, ReadsFor(s, i, ending, max, room)), judge, k)
  {
    var more, weigh := ReadsFor(s, i, ending, max, room), Weighed(judge);
    forall e, n
      ensures weigh(e, n).verdict.Some? <==> ChargesOf(judge)(e, n)
      ensures weigh(e, n).data == DataList(e)
    {
      WeighedExactly(judge, e, n);
    }
    RestNotes(s, i, ending, max, weigh, 1, room, None, Seen(event));
    DataOfAll(more, weigh, 1, DataList);
    assert Seen(event) == DataList(event);
    k := LaterVerdict(event, more, weigh, ChargesOf(judge));
    if Charged(more, weigh, 1).Some? {
      WeighedExactly(judge, ReadAt(Next(event, more), k), k);
    }
  }

  lemma NothingAfterEnd(s: seq<byte>, ending: Ending, max: nat, judge: Judge, room: nat, event: seq<byte>)
    requires EndError(ending) == AtEof
    ensures var t := ForwardRest(s, |s|, ending, max, Weighed(judge), 1, room, None, Seen(event));
            t.late == None && t.observed == DataList(event)
  {
    AtTheEnd(s, ending, max);
    assert Event(s, |s|, Stop(|s|, AtEof)) == [];
    assert EventData([]) == [];
    WeighedExactly(judge, [], 1);
    assert Seen(event) + [] == DataList(event);
  }

  /** What `forwardStream` reports, told from the events it reads. A first read that fails is
      all there is; a first event that charges the key is reported with its data and nothing
      else; and otherwise the verdict of the last later event that charges it, if there is
      one, and the data of all events, are reported. */
  lemma ReportExactly(s: seq<byte>, ending: Ending, max: nat, judge: Judge, room: nat) returns (k: nat)
    ensures var result := Forward(s, ending, max, judge, room).result;
            var r, all := Scan(s, 0, 0, ending, max), ReadsFor(s, 0, ending, max, room);
            var first := ReadAt(all, 0);
            if r.err == Failed || r.err == TooLarge then
              result == StreamResult(None, None, [], false, [], CopyRead(r.err))
            else if Charges(judge, first, 0) then
              result == StreamResult(Some(judge(EventData(first), 0)), None, EventData(first), false, [], CopyFine)
            else
              && result.firstError == None && result.firstByteSent == (first != [])
              && Reported(Tail(0, result.lateError, result.observed, CopyFine), all, judge, k)
  {
    k := 0;
    var r := Scan(s, 0, 0, ending, max);
    var event := Event(s, 0, r);
    WeighedExactly(judge, event, 0);
    assert Failure(event, judge, 0) == Weighed(judge)(event, 0).verdict && Seen(event) == DataList(event);
    if (r.err == Fine || r.err == AtEof) && !Charges(judge, event, 0) && |event| <= room {
      if r.err == AtEof {
        NothingAfterEnd(s, ending, max, judge, room - |event|, event);
      } else {
        k := RestReported(s, r.pos, ending, max, judge, room - |event|, event);
      }
    }
  }
}
