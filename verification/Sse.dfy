/** Server-sent events: splitting a byte stream into events and reading an event's data.
    Positions index the stream; an event is the slice between two of them. */
module Sse {
  import opened Wrappers

  type byte = b: int | 0 <= b < 256

  const LF: byte := 10
  const CR: byte := 13

  // ---------- Lines ----------

  /** The position just past the line feed that ends the line at i, or the end of s. */
  function LineEnd(s: seq<byte>, i: nat): (e: nat)
    requires i <= |s|
    ensures i <= e <= |s|
    ensures i < |s| ==> i < e
    ensures e < |s| ==> s[e - 1] == LF
    decreases |s| - i
  {
    if i == |s| then i else if s[i] == LF then i + 1 else LineEnd(s, i + 1)
  }

  predicate Terminated(s: seq<byte>, i: nat, e: nat)
    requires i <= e <= |s|
  {
    i < e && s[e - 1] == LF
  }

  predicate Blank(s: seq<byte>, i: nat, e: nat)
    requires i <= e <= |s|
  {
    (e == i + 1 && s[i] == LF) || (e == i + 2 && s[i] == CR && s[i + 1] == LF)
  }

  /** The bytes from i to j are whole lines, the last perhaps cut short, none blank. */
  predicate NoBlankLine(s: seq<byte>, i: nat, j: nat)
    requires i <= |s| && j <= |s|
    decreases |s| - i
  {
    i == j || (i < j && LineEnd(s, i) <= j && !Blank(s, i, LineEnd(s, i)) && NoBlankLine(s, LineEnd(s, i), j))
  }

  /** The bytes from i to j are whole lines, exactly the last one blank. */
  predicate OneBlankAtEnd(s: seq<byte>, i: nat, j: nat)
    requires i <= |s| && j <= |s|
    decreases |s| - i
  {
    && i < j && LineEnd(s, i) <= j
    && (if Blank(s, i, LineEnd(s, i)) then LineEnd(s, i) == j else OneBlankAtEnd(s, LineEnd(s, i), j))
  }

  // ---------- Reading one event ----------

  datatype Ending = Eof | Broken

  datatype ReadError = Fine | AtEof | Failed | TooLarge

  function EndError(e: Ending): ReadError {
    if e == Eof then AtEof else Failed
  }

  /** Where a read stops, and why. */
  datatype Stop = Stop(pos: nat, err: ReadError)

  /** One call of `readSSEEvent` begun at `start` and arrived at i. */
  function Scan(s: seq<byte>, start: nat, i: nat, ending: Ending, max: nat): (r: Stop)
    requires start <= i <= |s|
    ensures i <= r.pos <= |s|
    ensures r.err == Fine ==> i < r.pos
    ensures r.err == AtEof || r.err == Failed ==> r.pos == |s| && r.err == EndError(ending)
    decreases |s| - i
  {
    if i - start > max then Stop(i, TooLarge)
    else
      var e := LineEnd(s, i);
      if Blank(s, i, e) then Stop(e, Fine)
      else if !Terminated(s, i, e) then Stop(e, EndError(ending))
      else Scan(s, start, e, ending, max)
  }

  /** The bytes a read returns: nothing when the event is oversized. */
  function Event(s: seq<byte>, start: nat, r: Stop): seq<byte>
    requires start <= r.pos <= |s|
  {
    if r.err == TooLarge then [] else s[start..r.pos]
  }

  /** A successful read has one blank line, at its end, and exceeds the limit by that
      line at most; a failed one has none; an oversized one is whole lines beyond the limit. */
  lemma {:induction false} ScanShape(s: seq<byte>, start: nat, i: nat, ending: Ending, max: nat)
    requires start <= i <= |s|
    ensures var r := Scan(s, start, i, ending, max);
            match r.err
            case Fine => OneBlankAtEnd(s, i, r.pos) && r.pos - start <= max + 2
            case TooLarge => NoBlankLine(s, i, r.pos) && r.pos - start > max
            case _ => NoBlankLine(s, i, |s|)
    decreases |s| - i
  {
    if i - start <= max {
      var e := LineEnd(s, i);
      if !Blank(s, i, e) {
        if Terminated(s, i, e) {
          ScanShape(s, start, e, ending, max);
        } else {
          assert e == |s|;
        }
      }
    }
  }

  /** Where the blank line that ends a block begins. */
  function BlankStart(s: seq<byte>, i: nat, j: nat): (k: nat)
    requires i <= |s| && j <= |s| && OneBlankAtEnd(s, i, j)
    ensures i <= k < j <= k + 2 && Blank(s, k, j)
    decreases |s| - i
  {
    if Blank(s, i, LineEnd(s, i)) then i else BlankStart(s, LineEnd(s, i), j)
  }

  /** A block is read whole exactly when the bytes before its blank line fit the limit. */
  lemma {:induction false} AcceptedExactly(s: seq<byte>, start: nat, i: nat, j: nat, ending: Ending, max: nat)
    requires start <= i <= |s| && j <= |s| && OneBlankAtEnd(s, i, j)
    ensures var r := Scan(s, start, i, ending, max);
            if BlankStart(s, i, j) - start <= max then r == Stop(j, Fine) else r.err == TooLarge
    decreases |s| - i
  {
    var e := LineEnd(s, i);
    if !Blank(s, i, e) {
      assert Terminated(s, i, e);
      AcceptedExactly(s, start, e, j, ending, max);
    }
  }

  /** A connection body: its bytes and how it ends. */
  class Reader {
    const data: seq<byte>
    const ending: Ending
    var pos: nat

    ghost predicate Valid()
      reads this
    {
      pos <= |data|
    }

    constructor (data: seq<byte>, ending: Ending)
      ensures Valid() && pos == 0 && this.data == data && this.ending == ending
    {
      this.data, this.ending, pos := data, ending, 0;
    }

    /** ReadBytes: through the next line feed, or whatever is left and an error. */
    method ReadLine() returns (line: seq<byte>, err: ReadError)
      requires Valid()
      modifies this
      ensures Valid() && pos == LineEnd(data, old(pos)) && line == data[old(pos)..pos]
      ensures err == if Terminated(data, old(pos), pos) then Fine else EndError(ending)
    {
      var e := pos;
      while e < |data| && data[e] != LF
        invariant pos <= e <= |data|
        invariant pos == old(pos) && LineEnd(data, pos) == LineEnd(data, e)
        invariant e > pos ==> data[e - 1] != LF
      {
        e := e + 1;
      }
      err := EndError(ending);
      if e < |data| {
        e := e + 1;
        err := Fine;
      }
      line := data[pos..e];
      pos := e;
    }

    method ReadEvent(max: nat) returns (event: seq<byte>, err: ReadError)
      requires Valid()
      modifies this
      ensures Valid()
      ensures var r := Scan(data, old(pos), old(pos), ending, max);
              pos == r.pos && err == r.err && event == Event(data, old(pos), r)
    {
      var buf: seq<byte> := [];
      while |buf| <= max
        invariant Valid() && old(pos) <= pos && buf == data[old(pos)..pos]
        invariant Scan(data, old(pos), pos, ending, max) == Scan(data, old(pos), old(pos), ending, max)
        decreases |data| - pos
      {
        ghost var i := pos;
        var line, readErr := ReadLine();
        buf := buf + line;
        assert line == data[i..pos];
        if line == [LF] || line == [CR, LF] {
          assert Blank(data, i, pos);
          return buf, readErr;
        }
        assert !Blank(data, i, pos);
        if readErr != Fine {
          return buf, readErr;
        }
      }
      return [], TooLarge;
    }
  }

  // ---------- Splitting a whole stream ----------

  /** Repeated reads until one fails: where the complete events end, and how it stops. */
  datatype Split = Split(cuts: seq<nat>, last: Stop)

  function ReadAll(s: seq<byte>, i: nat, ending: Ending, max: nat): Split
    requires i <= |s|
    decreases |s| - i
  {
    var r := Scan(s, i, i, ending, max);
    if r.err != Fine then Split([], r)
    else
      var t := ReadAll(s, r.pos, ending, max);
      t.(cuts := [r.pos] + t.cuts)
  }

  function LastCut(i: nat, cuts: seq<nat>): nat {
    if cuts == [] then i else cuts[|cuts| - 1]
  }

  /** The pieces of s between i and the cuts. */
  function PiecesAt(s: seq<byte>, i: nat, cuts: seq<nat>): seq<seq<byte>>
    requires i <= |s| && Ascending(s, i, cuts)
    decreases |cuts|
  {
    if cuts == [] then [] else [s[i..cuts[0]]] + PiecesAt(s, cuts[0], cuts[1..])
  }

  predicate Ascending(s: seq<byte>, i: nat, cuts: seq<nat>)
    decreases |cuts|
  {
    cuts == [] || (i <= cuts[0] <= |s| && Ascending(s, cuts[0], cuts[1..]))
  }

  function Concat(es: seq<seq<byte>>): seq<byte> {
    if es == [] then [] else es[0] + Concat(es[1..])
  }

  /** The cuts divide the stream from i on into blocks of one blank line each. */
  predicate Blocks(s: seq<byte>, i: nat, cuts: seq<nat>)
    requires i <= |s|
    decreases |cuts|
  {
    cuts == [] || (cuts[0] <= |s| && OneBlankAtEnd(s, i, cuts[0]) && Blocks(s, cuts[0], cuts[1..]))
  }

  lemma {:induction false} BlocksAscend(s: seq<byte>, i: nat, cuts: seq<nat>)
    requires i <= |s| && Blocks(s, i, cuts)
    ensures Ascending(s, i, cuts) && i <= LastCut(i, cuts) <= |s|
    decreases |cuts|
  {
    if cuts != [] {
      BlocksAscend(s, cuts[0], cuts[1..]);
      assert LastCut(i, cuts) == LastCut(cuts[0], cuts[1..]);
    }
  }

  lemma {:induction false} ConcatPieces(s: seq<byte>, i: nat, cuts: seq<nat>)
    requires i <= |s| && Ascending(s, i, cuts)
    ensures i <= LastCut(i, cuts) <= |s|
    ensures Concat(PiecesAt(s, i, cuts)) == s[i..LastCut(i, cuts)]
    decreases |cuts|
  {
    if cuts != [] {
      var c, rest := cuts[0], cuts[1..];
      ConcatPieces(s, c, rest);
      assert LastCut(i, cuts) == LastCut(c, rest);
      assert PiecesAt(s, i, cuts)[1..] == PiecesAt(s, c, rest);
      assert s[i..c] + s[c..LastCut(c, rest)] == s[i..LastCut(c, rest)];
    }
  }

  lemma {:induction false} SplitShape(s: seq<byte>, i: nat, ending: Ending, max: nat)
    requires i <= |s|
    ensures var p := ReadAll(s, i, ending, max);
            var c := LastCut(i, p.cuts);
            && Blocks(s, i, p.cuts) && Ascending(s, i, p.cuts)
            && c <= p.last.pos <= |s| && NoBlankLine(s, c, p.last.pos)
            && p.last == Scan(s, c, c, ending, max) && p.last.err != Fine
            && (p.last.err == TooLarge ==> p.last.pos - c > max)
            && (forall e :: e in PiecesAt(s, i, p.cuts) ==> |e| <= max + 2)
    decreases |s| - i
  {
    ScanShape(s, i, i, ending, max);
    var r := Scan(s, i, i, ending, max);
    if r.err == Fine {
      SplitShape(s, r.pos, ending, max);
      var t := ReadAll(s, r.pos, ending, max);
      var p := ReadAll(s, i, ending, max);
      assert p.cuts[1..] == t.cuts;
      assert LastCut(i, p.cuts) == LastCut(r.pos, t.cuts);
    }
  }

  /** Splitting is lossless: the complete events are blocks with one blank line each, at
      the end, none longer than the limit and a blank line. Unless the next event is
      oversized, they and what the last read returns join to the whole stream. */
  lemma SplitLossless(s: seq<byte>, i: nat, ending: Ending, max: nat)
    requires i <= |s|
    ensures var p := ReadAll(s, i, ending, max);
            var c := LastCut(i, p.cuts);
            && Blocks(s, i, p.cuts) && Ascending(s, i, p.cuts) && i <= c <= p.last.pos <= |s|
            && (forall e :: e in PiecesAt(s, i, p.cuts) ==> |e| <= max + 2)
            && NoBlankLine(s, c, p.last.pos)
            && Concat(PiecesAt(s, i, p.cuts)) == s[i..c]
            && (if p.last.err == TooLarge then p.last.pos - c > max
                else Concat(PiecesAt(s, i, p.cuts)) + Event(s, c, p.last) == s[i..])
  {
    SplitShape(s, i, ending, max);
    var p := ReadAll(s, i, ending, max);
    BlocksAscend(s, i, p.cuts);
    ConcatPieces(s, i, p.cuts);
    SlicesJoin(s, i, LastCut(i, p.cuts));
  }

  lemma SlicesJoin(s: seq<byte>, i: nat, c: nat)
    requires i <= c <= |s|
    ensures s[i..c] + s[c..|s|] == s[i..]
  {
  }

  lemma {:induction false} BlockHasBlank(s: seq<byte>, i: nat, j: nat)
    requires i <= |s| && j <= |s| && OneBlankAtEnd(s, i, j)
    ensures !NoBlankLine(s, i, |s|)
    decreases |s| - i
  {
    if !Blank(s, i, LineEnd(s, i)) {
      BlockHasBlank(s, LineEnd(s, i), j);
    }
  }

  /** The split is the only way to cut the stream at its blank lines. */
  lemma {:induction false} SplitUnique(s: seq<byte>, i: nat, ending: Ending, max: nat, cuts: seq<nat>)
    requires i <= |s| && ReadAll(s, i, ending, max).last.err != TooLarge
    requires Blocks(s, i, cuts) && LastCut(i, cuts) <= |s| && NoBlankLine(s, LastCut(i, cuts), |s|)
    ensures ReadAll(s, i, ending, max) == Split(cuts, Stop(|s|, EndError(ending)))
    decreases |cuts|
  {
    if cuts == [] {
      ScanShape(s, i, i, ending, max);
      if Scan(s, i, i, ending, max).err == Fine {
        BlockHasBlank(s, i, Scan(s, i, i, ending, max).pos);
      }
    } else {
      AcceptedExactly(s, i, i, cuts[0], ending, max);
      assert LastCut(i, cuts) == LastCut(cuts[0], cuts[1..]);
      SplitUnique(s, cuts[0], ending, max, cuts[1..]);
      assert [cuts[0]] + cuts[1..] == cuts;
    }
  }

  // ---------- Event data ----------

  const DATA_PREFIX: seq<byte> := [100, 97, 116, 97, 58]
  const DONE_MARK: seq<byte> := [91, 68, 79, 78, 69, 93]

  /** How many bytes the white-space character at the front of s takes, in UTF-8. */
  function LeadingSpace(s: seq<byte>): (n: nat)
    ensures n <= |s|
  {
    if s == [] then 0
    else if s[0] in {9, 10, 11, 12, 13, 32} then 1
    else if |s| >= 2 && TwoByteSpace(s[0], s[1]) then 2
    else if |s| >= 3 && ThreeByteSpace(s[0], s[1], s[2]) then 3
    else 0
  }

  predicate TwoByteSpace(a: byte, b: byte) {
    a == 0xC2 && (b == 0x85 || b == 0xA0)
  }

  predicate ThreeByteSpace(a: byte, b: byte, c: byte) {
    || (a == 0xE1 && b == 0x9A && c == 0x80)
    || (a == 0xE2 && b == 0x80 && (0x80 <= c <= 0x8A || c == 0xA8 || c == 0xA9 || c == 0xAF))
    || (a == 0xE2 && b == 0x81 && c == 0x9F)
    || (a == 0xE3 && b == 0x80 && c == 0x80)
  }

  function TrailingSpace(s: seq<byte>): (n: nat)
    ensures n <= |s|
  {
    var k := |s|;
    if k == 0 then 0
    else if s[k - 1] in {9, 10, 11, 12, 13, 32} then 1
    else if k >= 2 && TwoByteSpace(s[k - 2], s[k - 1]) then 2
    else if k >= 3 && ThreeByteSpace(s[k - 3], s[k - 2], s[k - 1]) then 3
    else 0
  }

  function TrimLeft(s: seq<byte>): (r: seq<byte>)
    ensures LeadingSpace(r) == 0
    decreases |s|
  {
    if LeadingSpace(s) == 0 then s else TrimLeft(s[LeadingSpace(s)..])
  }

  function TrimRight(s: seq<byte>): (r: seq<byte>)
    ensures TrailingSpace(r) == 0 && r <= s
    decreases |s|
  {
    if TrailingSpace(s) == 0 then s else TrimRight(s[..|s| - TrailingSpace(s)])
  }

  predicate Trimmed(s: seq<byte>) {
    LeadingSpace(s) == 0 && TrailingSpace(s) == 0
  }

  /** strings.Split at line feeds: the pieces between them, one more than there are. */
  function Pieces(s: seq<byte>): (r: seq<seq<byte>>)
    ensures r != []
  {
    if s == [] then [[]]
    else if s[0] == LF then [[]] + Pieces(s[1..])
    else var p := Pieces(s[1..]); [[s[0]] + p[0]] + p[1..]
  }

  function WithoutCR(line: seq<byte>): seq<byte> {
    if line != [] && line[|line| - 1] == CR then line[..|line| - 1] else line
  }

  /** The value a line contributes: that of a `data:` field, trimmed, unless it is empty
      or the end marker. */
  function DataValue(piece: seq<byte>): Option<seq<byte>> {
    var line := WithoutCR(piece);
    if DATA_PREFIX <= line then
      var value := TrimRight(TrimLeft(line[|DATA_PREFIX|..]));
      if value != [] && value != DONE_MARK then Some(value) else None
    else None
  }

  function DataParts(pieces: seq<seq<byte>>): seq<seq<byte>> {
    if pieces == [] then []
    else (if DataValue(pieces[0]).Some? then [DataValue(pieces[0]).value] else []) + DataParts(pieces[1..])
  }

  function Join(parts: seq<seq<byte>>): seq<byte> {
    if parts == [] then [] else if |parts| == 1 then parts[0] else parts[0] + [LF] + Join(parts[1..])
  }

  function EventData(event: seq<byte>): seq<byte> {
    Join(DataParts(Pieces(event)))
  }

  method LineData(piece: seq<byte>) returns (value: Option<seq<byte>>)
    ensures value == DataValue(piece)
  {
    var line := piece;
    if line != [] && line[|line| - 1] == CR {
      line := line[..|line| - 1];
    }
    if DATA_PREFIX <= line {
      var v := TrimRight(TrimLeft(line[|DATA_PREFIX|..]));
      if v != [] && v != DONE_MARK {
        return Some(v);
      }
    }
    value := None;
  }

  lemma DataPartsAt(lines: seq<seq<byte>>, i: nat, parts: seq<seq<byte>>)
    requires i < |lines|
    ensures parts + DataParts(lines[i..]) ==
            (if DataValue(lines[i]).Some? then parts + [DataValue(lines[i]).value] else parts)
                + DataParts(lines[i + 1..])
  {
    assert lines[i..][1..] == lines[i + 1..];
  }

  method ReadData(event: seq<byte>) returns (data: seq<byte>)
    ensures data == EventData(event)
  {
    var parts: seq<seq<byte>> := [];
    var lines := Pieces(event);
    for i := 0 to |lines|
      invariant parts + DataParts(lines[i..]) == DataParts(lines)
    {
      var value := LineData(lines[i]);
      DataPartsAt(lines, i, parts);
      if value.Some? {
        parts := parts + [value.value];
      }
    }
    assert parts + [] == parts;
    data := Join(parts);
  }

  lemma {:induction false} PiecesAppend(a: seq<byte>, b: seq<byte>)
    requires LF !in a
    ensures Pieces(a + [LF] + b) == [a] + Pieces(b)
    decreases |a|
  {
    if a == [] {
      assert a + [LF] + b == [LF] + b;
    } else {
      assert LF !in a[1..];
      PiecesAppend(a[1..], b);
      assert (a + [LF] + b)[1..] == a[1..] + [LF] + b;
      assert [a[0]] + a[1..] == a;
    }
  }

  /** An event carrying the given values, one data line each. */
  function RenderData(values: seq<seq<byte>>): seq<byte> {
    if values == [] then [LF] else DATA_PREFIX + [32] + values[0] + [LF] + RenderData(values[1..])
  }

  predicate PlainValue(v: seq<byte>) {
    v != [] && v != DONE_MARK && Trimmed(v) && LF !in v
  }

  lemma ValueRead(v: seq<byte>)
    requires PlainValue(v)
    ensures DataValue(DATA_PREFIX + [32] + v) == Some(v)
  {
    var line := DATA_PREFIX + [32] + v;
    assert line[|line| - 1] == v[|v| - 1];
    assert WithoutCR(line) == line;
    assert line[|DATA_PREFIX|..] == [32] + v;
    assert ([32] + v)[1..] == v;
    assert TrimLeft([32] + v) == TrimLeft(v) == v;
  }

  lemma {:induction false} DataPartsRoundTrip(values: seq<seq<byte>>)
    requires forall v :: v in values ==> PlainValue(v)
    ensures DataParts(Pieces(RenderData(values))) == values
    decreases |values|
  {
    if values == [] {
      assert Pieces([LF]) == [[], []];
      assert DataParts([[], []]) == DataParts([[]]);
    } else {
      var line := DATA_PREFIX + [32] + values[0];
      assert values[0] in values;
      PiecesAppend(line, RenderData(values[1..]));
      ValueRead(values[0]);
      DataPartsRoundTrip(values[1..]);
      assert ([line] + Pieces(RenderData(values[1..])))[1..] == Pieces(RenderData(values[1..]));
    }
  }

  /** Data read back from an event is the values that were written, joined by line feeds. */
  lemma DataRoundTrip(values: seq<seq<byte>>)
    requires forall v :: v in values ==> PlainValue(v)
    ensures EventData(RenderData(values)) == Join(values)
  {
    DataPartsRoundTrip(values);
  }

  lemma {:induction false} LineEndIs(s: seq<byte>, i: nat, e: nat)
    requires i < e <= |s| && s[e - 1] == LF && forall k :: i <= k < e - 1 ==> s[k] != LF
    ensures LineEnd(s, i) == e
    decreases e - i
  {
    if i < e - 1 {
      LineEndIs(s, i + 1, e);
    }
  }

  /** An event of one data line is read whole, and its data is the value. */
  lemma OneValueEvent(v: seq<byte>, ending: Ending, max: nat)
    requires PlainValue(v) && 7 + |v| <= max
    ensures var s := RenderData([v]);
            && Scan(s, 0, 0, ending, max) == Stop(|s|, Fine)
            && Event(s, 0, Stop(|s|, Fine)) == s
            && EventData(s) == v
  {
    var s := RenderData([v]);
    var line := DATA_PREFIX + [32] + v;
    assert RenderData([v][1..]) == [LF] by {
      assert [v][1..] == [];
    }
    assert s == line + [LF] + [LF];
    LineEndIs(s, 0, |line| + 1);
    LineEndIs(s, |line| + 1, |s|);
    assert s[|line|] == LF && s[|line| + 1] == LF;
    assert !Blank(s, 0, |line| + 1) && Blank(s, |line| + 1, |s|);
    assert OneBlankAtEnd(s, |line| + 1, |s|);
    assert OneBlankAtEnd(s, 0, |s|);
    assert BlankStart(s, |line| + 1, |s|) == |line| + 1;
    AcceptedExactly(s, 0, 0, |s|, ending, max);
    DataRoundTrip([v]);
  }
}
