/** What one read of an event stream returns and what data an event carries, said of the
    bytes alone. */
module EventBytes {
  import opened Wrappers
  import opened Sse

  // ---------- Where an event ends ----------

  /** The bytes from start to p end with a blank line: `\n` or `\r\n`, at the very start
      or right after a line feed. */
  predicate Closed(s: seq<byte>, start: nat, p: nat) {
    && start < p <= |s| && s[p - 1] == LF
    && (|| p - 1 == start
        || s[p - 2] == LF
        || (s[p - 2] == CR && (p - 2 == start || s[p - 3] == LF)))
  }

  predicate Open(s: seq<byte>, start: nat, i: nat) {
    forall q :: start < q <= i ==> !Closed(s, start, q)
  }

  /** A place where the limit is looked at: just past a line feed. */
  predicate AfterLine(s: seq<byte>, start: nat, k: nat) {
    start < k <= |s| && s[k - 1] == LF
  }

  predicate Within(s: seq<byte>, start: nat, i: nat, max: nat) {
    forall k: nat :: AfterLine(s, start, k) && k < i ==> k - start <= max
  }

  lemma {:induction false} LineBytes(s: seq<byte>, i: nat)
    requires i < |s|
    ensures forall k :: i <= k < LineEnd(s, i) - 1 ==> s[k] != LF
    ensures LineEnd(s, i) == |s| || s[LineEnd(s, i) - 1] == LF
    decreases |s| - i
  {
    if s[i] != LF && i + 1 < |s| {
      LineBytes(s, i + 1);
    }
  }

  /** One more line closes the event exactly when it is blank. */
  lemma LineCloses(s: seq<byte>, start: nat, i: nat)
    requires start <= i < |s| && (i == start || s[i - 1] == LF) && Open(s, start, i)
    ensures var e := LineEnd(s, i);
            && (Closed(s, start, e) <==> Blank(s, i, e))
            && (!Blank(s, i, e) ==> Open(s, start, e))
            && (Blank(s, i, e) ==> Open(s, start, e - 1))
  {
    LineBytes(s, i);
    var e := LineEnd(s, i);
    forall q | i < q < e ensures !Closed(s, start, q) {
      assert s[q - 1] != LF;
    }
  }

  lemma {:induction false} ScanFrom(s: seq<byte>, start: nat, i: nat, ending: Ending, max: nat)
    requires start <= i <= |s| && (i == start || s[i - 1] == LF)
    requires Open(s, start, i) && Within(s, start, i, max)
    ensures Stopped(s, start, ending, max, Scan(s, start, i, ending, max))
    decreases |s| - i
  {
    if i - start <= max && i < |s| {
      LineCloses(s, start, i);
      LineBytes(s, i);
      var e := LineEnd(s, i);
      if !Blank(s, i, e) && Terminated(s, i, e) {
        ScanFrom(s, start, e, ending, max);
      }
    }
  }

  /** A read stops just past the first blank line, unless the lines before it go beyond
      the limit; failing both it takes everything. */
  predicate Stopped(s: seq<byte>, start: nat, ending: Ending, max: nat, r: Stop) {
    && start <= r.pos <= |s|
    && match r.err
       case Fine =>
         Closed(s, start, r.pos) && Open(s, start, r.pos - 1) && Within(s, start, r.pos, max)
       case TooLarge =>
         && AfterLine(s, start, r.pos) && r.pos - start > max
         && Open(s, start, r.pos) && Within(s, start, r.pos, max)
       case _ =>
         && r.pos == |s| && Open(s, start, |s|) && Within(s, start, |s| + 1, max)
         && (r.err == AtEof <==> ending == Eof)
  }

  lemma ScanExactly(s: seq<byte>, start: nat, ending: Ending, max: nat, r: Stop)
    requires start <= |s|
    ensures Stopped(s, start, ending, max, r) <==> r == Scan(s, start, start, ending, max)
  {
    ScanFrom(s, start, start, ending, max);
  }

  // ---------- The value of one line ----------

  predicate BlankChar(c: seq<byte>) {
    || (|c| == 1 && c[0] in {9, 10, 11, 12, 13, 32})
    || (|c| == 2 && TwoByteSpace(c[0], c[1]))
    || (|c| == 3 && ThreeByteSpace(c[0], c[1], c[2]))
  }

  /** White-space characters in UTF-8, one after the other. */
  predicate Blanks(chars: seq<seq<byte>>) {
    forall i :: 0 <= i < |chars| ==> BlankChar(chars[i])
  }

  lemma LeadingBlank(c: seq<byte>, rest: seq<byte>)
    requires BlankChar(c)
    ensures LeadingSpace(c + rest) == |c| && (c + rest)[|c|..] == rest
  {
  }

  lemma TrailingBlank(c: seq<byte>, rest: seq<byte>)
    requires BlankChar(c)
    ensures TrailingSpace(rest + c) == |c| && (rest + c)[..|rest|] == rest
  {
    assert (rest + c)[|rest|..] == c;
    assert (rest + c)[|rest + c| - 1] == c[|c| - 1];
    if |c| >= 2 {
      assert (rest + c)[|rest + c| - 2] == c[|c| - 2];
    }
    if |c| == 3 {
      assert (rest + c)[|rest + c| - 3] == c[0];
    }
  }

  lemma {:induction false} TrimLeftBlanks(left: seq<seq<byte>>, rest: seq<byte>)
    requires Blanks(left)
    ensures TrimLeft(Concat(left) + rest) == TrimLeft(rest)
    decreases |left|
  {
    if left == [] {
      assert Concat(left) + rest == rest;
    } else {
      LeadingBlank(left[0], Concat(left[1..]) + rest);
      assert Concat(left) + rest == left[0] + (Concat(left[1..]) + rest);
      TrimLeftBlanks(left[1..], rest);
    }
  }

  lemma {:induction false} ConcatLast(es: seq<seq<byte>>, e: seq<byte>)
    ensures Concat(es + [e]) == Concat(es) + e
    decreases |es|
  {
    if es == [] {
      assert es + [e] == [e] && [e][1..] == [];
    } else {
      assert (es + [e])[1..] == es[1..] + [e];
      ConcatLast(es[1..], e);
    }
  }

  lemma {:induction false} TrimRightBlanks(rest: seq<byte>, right: seq<seq<byte>>)
    requires Blanks(right)
    ensures TrimRight(rest + Concat(right)) == TrimRight(rest)
    decreases |right|
  {
    if right == [] {
      assert rest + Concat(right) == rest;
    } else {
      var most, c := right[..|right| - 1], right[|right| - 1];
      assert most + [c] == right;
      ConcatLast(most, c);
      assert rest + Concat(right) == rest + Concat(most) + c;
      TrailingBlank(c, rest + Concat(most));
      TrimRightBlanks(rest, most);
    }
  }

  lemma ConcatFirst(e: seq<byte>, es: seq<seq<byte>>)
    ensures Concat([e] + es) == e + Concat(es)
  {
    assert ([e] + es)[1..] == es;
  }

  lemma FrontChar(s: seq<byte>)
    requires LeadingSpace(s) > 0
    ensures BlankChar(s[..LeadingSpace(s)])
  {
  }

  lemma BackChar(s: seq<byte>)
    requires TrailingSpace(s) > 0
    ensures BlankChar(s[|s| - TrailingSpace(s)..])
  {
  }

  lemma BlanksJoined(left: seq<seq<byte>>, right: seq<seq<byte>>)
    requires Blanks(left) && Blanks(right)
    ensures Blanks(left + right)
  {
  }

  lemma OneBlank(c: seq<byte>)
    requires BlankChar(c)
    ensures Blanks([c])
  {
  }

  lemma Prepended(c: seq<byte>, more: seq<seq<byte>>, rest: seq<byte>)
    ensures Concat([c] + more) + rest == c + (Concat(more) + rest)
  {
    ConcatFirst(c, more);
    assert (c + Concat(more)) + rest == c + (Concat(more) + rest);
  }

  lemma Appended(rest: seq<byte>, most: seq<seq<byte>>, c: seq<byte>)
    ensures rest + Concat(most + [c]) == (rest + Concat(most)) + c
  {
    ConcatLast(most, c);
    assert rest + (Concat(most) + c) == (rest + Concat(most)) + c;
  }

  lemma {:induction false} LeftBlanks(s: seq<byte>) returns (left: seq<seq<byte>>)
    ensures Blanks(left) && Concat(left) + TrimLeft(s) == s
    decreases |s|
  {
    var n := LeadingSpace(s);
    if n == 0 {
      left := [];
    } else {
      var c, rest := s[..n], s[n..];
      assert s == c + rest && BlankChar(c) by {
        FrontChar(s);
      }
      var more := LeftBlanks(rest);
      left := [c] + more;
      OneBlank(c);
      BlanksJoined([c], more);
      Prepended(c, more, TrimLeft(rest));
    }
  }

  lemma {:induction false} RightBlanks(s: seq<byte>) returns (right: seq<seq<byte>>)
    ensures Blanks(right) && TrimRight(s) + Concat(right) == s
    decreases |s|
  {
    var k := |s| - TrailingSpace(s);
    if k == |s| {
      right := [];
    } else {
      var rest, c := s[..k], s[k..];
      assert s == rest + c && BlankChar(c) by {
        BackChar(s);
      }
      var most := RightBlanks(rest);
      right := most + [c];
      OneBlank(c);
      BlanksJoined(most, [c]);
      Appended(TrimRight(rest), most, c);
    }
  }

  /** No value that starts with a character of its own starts with white space when white
      space follows it. */
  lemma FirstStays(v: seq<byte>, right: seq<seq<byte>>)
    requires v != [] && LeadingSpace(v) == 0 && Blanks(right)
    ensures LeadingSpace(v + Concat(right)) == 0
  {
    if right != [] {
      assert Concat(right)[0] == right[0][0];
      assert (v + Concat(right))[|v|] == right[0][0];
      assert right[0][0] in {9, 10, 11, 12, 13, 32, 0xC2, 0xE1, 0xE2, 0xE3};
    }
  }

  /** The line reads `data:`, white space, the value, white space. */
  ghost predicate Carries(line: seq<byte>, v: seq<byte>) {
    && v != [] && Trimmed(v) && v != DONE_MARK
    && exists left, right :: Blanks(left) && Blanks(right) && Around(line, left, v, right)
  }

  predicate Around(line: seq<byte>, left: seq<seq<byte>>, v: seq<byte>, right: seq<seq<byte>>) {
    line == DATA_PREFIX + Concat(left) + v + Concat(right)
  }

  lemma FrontKept(s: seq<byte>)
    requires LeadingSpace(s) == 0
    ensures TrimLeft(s) == s
  {
  }

  lemma BackKept(s: seq<byte>)
    requires TrailingSpace(s) == 0
    ensures TrimRight(s) == s
  {
  }

  lemma TrimAround(left: seq<seq<byte>>, v: seq<byte>, right: seq<seq<byte>>)
    requires Blanks(left) && Blanks(right) && v != [] && Trimmed(v)
    ensures TrimRight(TrimLeft(Concat(left) + v + Concat(right))) == v
  {
    var kept := v + Concat(right);
    assert Concat(left) + v + Concat(right) == Concat(left) + kept;
    assert TrimLeft(Concat(left) + kept) == kept by {
      TrimLeftBlanks(left, kept);
      FirstStays(v, right);
      FrontKept(kept);
    }
    assert TrimRight(kept) == v by {
      TrimRightBlanks(v, right);
      BackKept(v);
    }
  }

  lemma LastByte(line: seq<byte>, left: seq<seq<byte>>, v: seq<byte>, right: seq<seq<byte>>)
    requires Blanks(right) && v != [] && Around(line, left, v, right)
    ensures line[|line| - 1]
            == if right == [] then v[|v| - 1] else right[|right| - 1][|right[|right| - 1]| - 1]
  {
    if right != [] {
      var c := right[|right| - 1];
      assert right[..|right| - 1] + [c] == right;
      ConcatLast(right[..|right| - 1], c);
    }
  }

  lemma CarriedRead(line: seq<byte>, left: seq<seq<byte>>, v: seq<byte>, right: seq<seq<byte>>)
    requires Blanks(left) && Blanks(right) && v != [] && Trimmed(v) && v != DONE_MARK
    requires Around(line, left, v, right)
    ensures DataValue(line) == Some(v)
  {
    var most := right;
    if line[|line| - 1] == CR {
      LastByte(line, left, v, right);
      var c := right[|right| - 1];
      most := right[..|right| - 1];
      assert most + [c] == right;
      ConcatLast(most, c);
      assert c == [CR];
    }
    var kept := WithoutCR(line);
    assert kept == DATA_PREFIX + (Concat(left) + v + Concat(most));
    assert kept[|DATA_PREFIX|..] == Concat(left) + v + Concat(most);
    TrimAround(left, v, most);
  }

  lemma ReadCarried(line: seq<byte>, v: seq<byte>)
    requires DataValue(line) == Some(v)
    ensures Carries(line, v)
  {
    var kept := WithoutCR(line);
    var left, right := Surroundings(kept, v);
    if kept != line {
      OneMoreBlank(kept, left, v, right, [CR]);
      assert line == kept + [CR];
      assert Blanks(right + [[CR]]) && Around(line, left, v, right + [[CR]]);
    }
  }

  lemma Surroundings(line: seq<byte>, v: seq<byte>) returns (left: seq<seq<byte>>, right: seq<seq<byte>>)
    requires DATA_PREFIX <= line && v == TrimRight(TrimLeft(line[|DATA_PREFIX|..]))
    ensures Trimmed(v) && Blanks(left) && Blanks(right) && Around(line, left, v, right)
  {
    var rest := line[|DATA_PREFIX|..];
    left := LeftBlanks(rest);
    right := RightBlanks(TrimLeft(rest));
    assert DATA_PREFIX + rest == line;
    Rejoined(DATA_PREFIX, Concat(left), v, Concat(right));
  }

  lemma OneMoreBlank(line: seq<byte>, left: seq<seq<byte>>, v: seq<byte>, right: seq<seq<byte>>, c: seq<byte>)
    requires Around(line, left, v, right)
    ensures Around(line + c, left, v, right + [c])
  {
    ConcatLast(right, c);
    assert DATA_PREFIX + Concat(left) + v + Concat(right) + c == DATA_PREFIX + Concat(left) + v + (Concat(right) + c);
  }

  /** A line has a value exactly when it carries one: any but the empty one and `[DONE]`. */
  lemma ValueExactly(line: seq<byte>, v: seq<byte>)
    ensures DataValue(line) == Some(v) <==> Carries(line, v)
  {
    if DataValue(line) == Some(v) {
      ReadCarried(line, v);
    }
    if Carries(line, v) {
      var left, right :| Blanks(left) && Blanks(right) && Around(line, left, v, right);
      CarriedRead(line, left, v, right);
    }
  }

  // ---------- The data of a whole event ----------

  lemma JoinFirst(a: seq<byte>, ps: seq<seq<byte>>)
    requires ps != []
    ensures Join([a] + ps) == a + [LF] + Join(ps)
  {
    assert ([a] + ps)[1..] == ps;
  }

  lemma JoinGrown(c: byte, ps: seq<seq<byte>>)
    requires ps != []
    ensures Join([[c] + ps[0]] + ps[1..]) == [c] + Join(ps)
  {
    if |ps| == 1 {
      assert [[c] + ps[0]] + ps[1..] == [[c] + ps[0]];
    } else {
      JoinFirst([c] + ps[0], ps[1..]);
      Rejoined([c], ps[0], [LF], Join(ps[1..]));
    }
  }

  lemma {:induction false} PiecesJoin(s: seq<byte>)
    ensures Join(Pieces(s)) == s && forall l :: l in Pieces(s) ==> LF !in l
    decreases |s|
  {
    if s != [] {
      PiecesJoin(s[1..]);
      var p := Pieces(s[1..]);
      assert [s[0]] + s[1..] == s;
      if s[0] == LF {
        JoinFirst([], p);
        assert [] + [LF] + s[1..] == s;
      } else {
        JoinGrown(s[0], p);
        assert p[0] in p;
      }
    }
  }

  lemma {:induction false} JoinPieces(lines: seq<seq<byte>>)
    requires lines != [] && forall l :: l in lines ==> LF !in l
    ensures Pieces(Join(lines)) == lines
    decreases |lines|
  {
    var l := lines[0];
    assert l in lines;
    if |lines| == 1 {
      OnePiece(l);
    } else {
      JoinPieces(lines[1..]);
      PiecesAppend(l, Join(lines[1..]));
    }
  }

  lemma {:induction false} OnePiece(l: seq<byte>)
    requires LF !in l
    ensures Pieces(l) == [l]
    decreases |l|
  {
    if l != [] {
      OnePiece(l[1..]);
      assert [l[0]] + l[1..] == l;
    }
  }

  /** Dividing at line feeds is the one way to write a text as lines joined by them. */
  lemma LinesExactly(s: seq<byte>, lines: seq<seq<byte>>)
    ensures Pieces(s) == lines
            <==> lines != [] && Join(lines) == s && forall l :: l in lines ==> LF !in l
  {
    PiecesJoin(s);
    if lines != [] && Join(lines) == s && forall l :: l in lines ==> LF !in l {
      JoinPieces(lines);
    }
  }

  /** The values stand in the lines at the given places, in order, and no other line
      carries one. */
  ghost predicate Picks(lines: seq<seq<byte>>, at: seq<nat>, values: seq<seq<byte>>) {
    && |at| == |values|
    && (forall j, k :: 0 <= j < k < |at| ==> at[j] < at[k])
    && (forall k :: 0 <= k < |at| ==> at[k] < |lines| && Carries(lines[at[k]], values[k]))
    && (forall i: nat, v :: i < |lines| && i !in at ==> !Carries(lines[i], v))
  }

  function ValuesRead(lines: seq<seq<byte>>): (vs: seq<Option<seq<byte>>>)
    ensures |vs| == |lines| && forall i :: 0 <= i < |lines| ==> vs[i] == DataValue(lines[i])
  {
    seq(|lines|, i requires 0 <= i < |lines| => DataValue(lines[i]))
  }

  lemma {:induction false} PartsAreValues(lines: seq<seq<byte>>)
    ensures DataParts(lines) == Somes(ValuesRead(lines))
    decreases |lines|
  {
    if lines != [] {
      PartsAreValues(lines[1..]);
      assert ValuesRead(lines)[1..] == ValuesRead(lines[1..]);
    }
  }

  lemma NoneExactly(line: seq<byte>)
    ensures forall v :: DataValue(line) == Some(v) <==> Carries(line, v)
    ensures DataValue(line) == None <==> forall v :: !Carries(line, v)
  {
    forall v ensures DataValue(line) == Some(v) <==> Carries(line, v) {
      ValueExactly(line, v);
    }
    if DataValue(line).Some? {
      assert Carries(line, DataValue(line).value);
    }
  }

  lemma PicksAreChosen(lines: seq<seq<byte>>, at: seq<nat>, values: seq<seq<byte>>)
    ensures Picks(lines, at, values) <==> Chosen(ValuesRead(lines), at, values)
  {
    forall i: nat | i < |lines|
      ensures forall v :: ValuesRead(lines)[i] == Some(v) <==> Carries(lines[i], v)
      ensures ValuesRead(lines)[i] == None <==> forall v :: !Carries(lines[i], v)
    {
      NoneExactly(lines[i]);
    }
  }

  /** The data of an event: the values its lines carry, in order, joined by line feeds. */
  lemma DataExactly(event: seq<byte>, data: seq<byte>)
    ensures data == EventData(event)
            <==> exists lines, at, values :: IsData(event, data, lines, at, values)
  {
    if data == EventData(event) {
      var lines := Pieces(event);
      LinesExactly(event, lines);
      var values := Somes(ValuesRead(lines));
      var at := SomesChosen(ValuesRead(lines));
      PartsAreValues(lines);
      PicksAreChosen(lines, at, values);
      assert IsData(event, data, lines, at, values);
    }
    if exists lines, at, values :: IsData(event, data, lines, at, values) {
      var lines, at, values :| IsData(event, data, lines, at, values);
      LinesExactly(event, lines);
      PicksAreChosen(lines, at, values);
      ChosenAreSomes(ValuesRead(lines), at, values);
      PartsAreValues(lines);
    }
  }

  /** The event is the lines, none holding a line feed, and the data what they carry. */
  ghost predicate IsData(event: seq<byte>, data: seq<byte>, lines: seq<seq<byte>>, at: seq<nat>,
                         values: seq<seq<byte>>) {
    && lines != [] && Join(lines) == event && (forall l :: l in lines ==> LF !in l)
    && Picks(lines, at, values) && data == Join(values)
  }
}
