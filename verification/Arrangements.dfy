/** In which orders a walk over some elements can set off: an element that arms, then, with
    nothing in between to disarm, an element that fires. */
module Arrangements {

  /** What an element does to the walk: it opens, it closes what was opened, and it is clear
      when an opening carries across it. */
  datatype Flag = Flag(open: bool, closed: bool, clear: bool)

  datatype State = Quiet | Armed | Fired

  function Step(st: State, f: Flag): State {
    if st.Fired? || (st.Armed? && f.closed) then Fired
    else if f.open || (st.Armed? && f.clear) then Armed
    else Quiet
  }

  function Walk<T>(flag: T -> Flag, xs: seq<T>, st: State): State {
    if xs == [] then st else Step(Walk(flag, xs[..|xs| - 1], st), flag(xs[|xs| - 1]))
  }

  lemma {:induction false} WalkAppend<T>(flag: T -> Flag, xs: seq<T>, ys: seq<T>, st: State)
    ensures Walk(flag, xs + ys, st) == Walk(flag, ys, Walk(flag, xs, st))
    decreases |ys|
  {
    if ys == [] {
      assert xs + ys == xs;
    } else {
      var rest, y := ys[..|ys| - 1], ys[|ys| - 1];
      assert (xs + ys)[..|xs + ys| - 1] == xs + rest && (xs + ys)[|xs + ys| - 1] == y;
      WalkAppend(flag, xs, rest, st);
    }
  }

  lemma WalkOne<T>(flag: T -> Flag, x: T, st: State)
    ensures Walk(flag, [x], st) == Step(st, flag(x))
  {
    assert [x][..0] == [];
  }

  lemma {:induction false} FiredStays<T>(flag: T -> Flag, xs: seq<T>)
    ensures Walk(flag, xs, Fired) == Fired
    decreases |xs|
  {
    if xs != [] {
      FiredStays(flag, xs[..|xs| - 1]);
    }
  }

  // ---------- Taking an element out ----------

  function Remove<T(==)>(xs: seq<T>, x: T): (r: seq<T>)
    requires x in xs
    ensures multiset(r) == multiset(xs) - multiset{x}
    ensures |r| == |xs| - 1
  {
    if xs[0] == x then
      assert xs == [x] + xs[1..];
      xs[1..]
    else
      assert xs == [xs[0]] + xs[1..];
      [xs[0]] + Remove(xs[1..], x)
  }

  lemma LastOut<T>(xs: seq<T>)
    requires xs != []
    ensures multiset(xs) == multiset(xs[..|xs| - 1]) + multiset{xs[|xs| - 1]}
  {
    assert xs == xs[..|xs| - 1] + [xs[|xs| - 1]];
  }

  // ---------- Some order fires ----------

  /** Two different elements, one that opens and one that closes. */
  ghost predicate HasPair<T(!new)>(flag: T -> Flag, m: multiset<T>) {
    exists s, t :: s in m && t in m - multiset{s} && flag(s).open && flag(t).closed
  }

  lemma {:induction false} ArmedHasOpen<T>(flag: T -> Flag, xs: seq<T>) returns (s: T)
    requires Walk(flag, xs, Quiet) == Armed
    ensures s in xs && flag(s).open
    decreases |xs|
  {
    s := xs[|xs| - 1];
    if !flag(s).open {
      s := ArmedHasOpen(flag, xs[..|xs| - 1]);
    }
  }

  lemma PairMade<T(!new)>(flag: T -> Flag, m: multiset<T>, s: T, t: T)
    requires s in m && flag(s).open && flag(t).closed
    ensures HasPair(flag, m + multiset{t})
  {
    assert t in m + multiset{t} - multiset{s};
  }

  lemma PairStays<T(!new)>(flag: T -> Flag, m: multiset<T>, x: T)
    requires HasPair(flag, m)
    ensures HasPair(flag, m + multiset{x})
  {
    var s, t :| s in m && t in m - multiset{s} && flag(s).open && flag(t).closed;
    assert t in m + multiset{x} - multiset{s};
  }

  lemma {:induction false} FiredHasPair<T(!new)>(flag: T -> Flag, xs: seq<T>)
    requires Walk(flag, xs, Quiet) == Fired
    ensures HasPair(flag, multiset(xs))
    decreases |xs|
  {
    var rest, t := xs[..|xs| - 1], xs[|xs| - 1];
    LastOut(xs);
    if Walk(flag, rest, Quiet) == Fired {
      FiredHasPair(flag, rest);
      PairStays(flag, multiset(rest), t);
    } else {
      var s := ArmedHasOpen(flag, rest);
      PairMade(flag, multiset(rest), s, t);
    }
  }

  lemma FiresAtOnce<T>(flag: T -> Flag, s: T, t: T, more: seq<T>)
    requires flag(s).open && flag(t).closed
    ensures Walk(flag, [s] + ([t] + more), Quiet) == Fired
  {
    WalkOne(flag, s, Quiet);
    WalkOne(flag, t, Armed);
    WalkAppend(flag, [s], [t] + more, Quiet);
    WalkAppend(flag, [t], more, Armed);
    FiredStays(flag, more);
  }

  lemma PairFires<T(!new)>(flag: T -> Flag, xs: seq<T>) returns (ys: seq<T>)
    requires HasPair(flag, multiset(xs))
    ensures multiset(ys) == multiset(xs) && Walk(flag, ys, Quiet) == Fired
  {
    var s, t :| s in multiset(xs) && t in multiset(xs) - multiset{s} && flag(s).open && flag(t).closed;
    var rest := Remove(xs, s);
    assert t in multiset(rest);
    var more := Remove(rest, t);
    ys := [s] + ([t] + more);
    FiresAtOnce(flag, s, t, more);
    assert multiset(ys) == multiset{s} + (multiset{t} + multiset(more));
  }

  // ---------- Some order stays quiet ----------

  function Filter<T>(f: T -> bool, xs: seq<T>): (r: seq<T>)
    ensures forall x :: x in r ==> f(x)
    ensures forall x :: x in r ==> x in xs
  {
    if xs == [] then []
    else Filter(f, xs[..|xs| - 1]) + if f(xs[|xs| - 1]) then [xs[|xs| - 1]] else []
  }

  function Not<T>(f: T -> bool): T -> bool {
    (x: T) => !f(x)
  }

  lemma {:induction false} FilterSplits<T>(f: T -> bool, xs: seq<T>)
    ensures multiset(xs) == multiset(Filter(f, xs)) + multiset(Filter(Not(f), xs))
    decreases |xs|
  {
    if xs != [] {
      LastOut(xs);
      FilterSplits(f, xs[..|xs| - 1]);
    }
  }

  lemma {:induction false} FilterRemove<T>(f: T -> bool, xs: seq<T>, x: T)
    requires x in xs
    ensures |Filter(f, xs)| == |Filter(f, Remove(xs, x))| + if f(x) then 1 else 0
    decreases |xs|
  {
    FilterFront(f, xs);
    if xs[0] != x {
      FilterRemove(f, xs[1..], x);
      var r := Remove(xs, x);
      assert r == [xs[0]] + Remove(xs[1..], x) && r[1..] == Remove(xs[1..], x);
      FilterFront(f, r);
    }
  }

  lemma {:induction false} FilterFront<T>(f: T -> bool, xs: seq<T>)
    requires xs != []
    ensures |Filter(f, xs)| == |Filter(f, xs[1..])| + if f(xs[0]) then 1 else 0
    decreases |xs|
  {
    var rest := xs[..|xs| - 1];
    if rest == [] {
      assert xs[1..] == [];
      assert Filter(f, rest) == [];
    } else {
      FilterFront(f, rest);
      assert xs[1..][..|xs[1..]| - 1] == rest[1..];
    }
  }

  lemma {:induction false} FilterCounts<T>(f: T -> bool, xs: seq<T>, ys: seq<T>)
    requires multiset(xs) == multiset(ys)
    ensures |Filter(f, xs)| == |Filter(f, ys)|
    decreases |xs|
  {
    if xs == [] {
      assert |multiset(ys)| == 0;
      assert ys == [];
    } else {
      assert xs[0] in multiset(xs) && xs[0] in ys;
      FilterRemove(f, xs, xs[0]);
      FilterRemove(f, ys, xs[0]);
      FilterCounts(f, Remove(xs, xs[0]), Remove(ys, xs[0]));
    }
  }

  /** Elements that both open and close. */
  function IsBoth<T>(flag: T -> Flag): T -> bool {
    (x: T) => flag(x).open && flag(x).closed
  }

  /** Elements that do neither and carry nothing across. */
  function IsWall<T>(flag: T -> Flag): T -> bool {
    (x: T) => !flag(x).open && !flag(x).closed && !flag(x).clear
  }

  function Boths<T>(flag: T -> Flag, xs: seq<T>): nat { |Filter(IsBoth(flag), xs)| }

  function Walls<T>(flag: T -> Flag, xs: seq<T>): nat { |Filter(IsWall(flag), xs)| }

  lemma {:induction false} QuietNeedsWalls<T>(flag: T -> Flag, xs: seq<T>)
    requires Walk(flag, xs, Quiet) != Fired
    ensures Boths(flag, xs) <= Walls(flag, xs) + if Walk(flag, xs, Quiet) == Armed then 1 else 0
    decreases |xs|
  {
    if xs != [] {
      QuietNeedsWalls(flag, xs[..|xs| - 1]);
    }
  }

  function Weave<T>(bs: seq<T>, ws: seq<T>): (r: seq<T>)
    requires |bs| <= |ws| + 1
    ensures multiset(r) == multiset(bs) + multiset(ws)
  {
    if bs == [] then ws
    else if ws == [] then bs
    else
      assert bs == [bs[0]] + bs[1..] && ws == [ws[0]] + ws[1..];
      [bs[0]] + ([ws[0]] + Weave(bs[1..], ws[1..]))
  }

  lemma {:induction false} WallsStayQuiet<T>(flag: T -> Flag, xs: seq<T>)
    requires forall x :: x in xs ==> !flag(x).open
    ensures Walk(flag, xs, Quiet) == Quiet
    decreases |xs|
  {
    if xs != [] {
      assert forall x :: x in xs[..|xs| - 1] ==> x in xs;
      assert xs[|xs| - 1] in xs;
      WallsStayQuiet(flag, xs[..|xs| - 1]);
    }
  }

  lemma {:induction false} NothingCloses<T>(flag: T -> Flag, xs: seq<T>, st: State)
    requires st != Fired && forall x :: x in xs ==> !flag(x).closed
    ensures Walk(flag, xs, st) != Fired
    decreases |xs|
  {
    if xs != [] {
      assert forall x :: x in xs[..|xs| - 1] ==> x in xs;
      assert xs[|xs| - 1] in xs;
      NothingCloses(flag, xs[..|xs| - 1], st);
    }
  }

  lemma {:induction false} WeaveIsQuiet<T>(flag: T -> Flag, bs: seq<T>, ws: seq<T>)
    requires |bs| <= |ws| + 1
    requires (forall b :: b in bs ==> IsBoth(flag)(b)) && (forall w :: w in ws ==> IsWall(flag)(w))
    ensures Walk(flag, Weave(bs, ws), Quiet) != Fired
    decreases |bs|
  {
    if bs == [] {
      WallsStayQuiet(flag, ws);
    } else if ws == [] {
      WalkOne(flag, bs[0], Quiet);
      assert bs == [bs[0]];
    } else {
      var b, w, rest := bs[0], ws[0], Weave(bs[1..], ws[1..]);
      assert IsBoth(flag)(b) && IsWall(flag)(w);
      WalkAppend(flag, [b], [w] + rest, Quiet);
      WalkAppend(flag, [w], rest, Armed);
      WalkOne(flag, b, Quiet);
      WalkOne(flag, w, Armed);
      WeaveIsQuiet(flag, bs[1..], ws[1..]);
    }
  }

  function OnlyCloses<T>(flag: T -> Flag): T -> bool {
    (x: T) => flag(x).closed && !flag(x).open
  }

  lemma FilterLast<T>(f: T -> bool, xs: seq<T>, x: T)
    ensures Filter(f, xs + [x]) == Filter(f, xs) + if f(x) then [x] else []
  {
    assert (xs + [x])[..|xs + [x]| - 1] == xs;
  }

  /** Leaving out elements that fail the test anyway leaves the number that pass. */
  lemma {:induction false} FilterTwice<T>(f: T -> bool, g: T -> bool, xs: seq<T>)
    requires forall x :: x in xs && f(x) ==> !g(x)
    ensures Filter(f, Filter(Not(g), xs)) == Filter(f, xs)
    decreases |xs|
  {
    if xs != [] {
      var rest, x := xs[..|xs| - 1], xs[|xs| - 1];
      assert xs == rest + [x] && x in xs && forall y :: y in rest ==> y in xs;
      FilterTwice(f, g, rest);
      FilterLast(f, rest, x);
      FilterLast(Not(g), rest, x);
      var kept := Filter(Not(g), rest);
      if g(x) {
        assert Filter(Not(g), rest + [x]) == kept + [] == kept;
        assert Filter(f, rest + [x]) == Filter(f, rest) + [] == Filter(f, rest);
      } else {
        assert Filter(Not(g), rest + [x]) == kept + [x];
        FilterLast(f, kept, x);
      }
    }
  }

  /** Those that only close come first, then those that do both with a wall after each, then
      the rest, none of which closes. */
  lemma QuietLine<T>(flag: T -> Flag, closers: seq<T>, boths: seq<T>, walls: seq<T>, end: seq<T>)
    requires |boths| <= |walls| + 1
    requires forall x :: x in closers ==> OnlyCloses(flag)(x)
    requires (forall b :: b in boths ==> IsBoth(flag)(b)) && (forall w :: w in walls ==> IsWall(flag)(w))
    requires forall x :: x in end ==> !flag(x).closed
    ensures Walk(flag, closers + (Weave(boths, walls) + end), Quiet) != Fired
  {
    var middle := Weave(boths, walls);
    WalkAppend(flag, closers, middle + end, Quiet);
    WalkAppend(flag, middle, end, Quiet);
    WallsStayQuiet(flag, closers);
    WeaveIsQuiet(flag, boths, walls);
    NothingCloses(flag, end, Walk(flag, middle, Quiet));
  }

  /** The elements in four groups. */
  lemma Grouped<T>(flag: T -> Flag, xs: seq<T>) returns (closers: seq<T>, boths: seq<T>, walls: seq<T>, end: seq<T>)
    ensures multiset(xs) == multiset(closers) + (multiset(boths) + (multiset(walls) + multiset(end)))
    ensures closers == Filter(OnlyCloses(flag), xs) && boths == Filter(IsBoth(flag), xs)
            && walls == Filter(IsWall(flag), xs)
    ensures forall x :: x in end ==> !flag(x).closed
  {
    closers := Filter(OnlyCloses(flag), xs);
    var others := Filter(Not(OnlyCloses(flag)), xs);
    boths := Filter(IsBoth(flag), others);
    var rest := Filter(Not(IsBoth(flag)), others);
    walls, end := Filter(IsWall(flag), rest), Filter(Not(IsWall(flag)), rest);
    FilterSplits(OnlyCloses(flag), xs);
    FilterSplits(IsBoth(flag), others);
    FilterSplits(IsWall(flag), rest);
    FilterTwice(IsBoth(flag), OnlyCloses(flag), xs);
    FilterTwice(IsWall(flag), OnlyCloses(flag), xs);
    FilterTwice(IsWall(flag), IsBoth(flag), others);
    forall x | x in end
      ensures !flag(x).closed
    {
      assert x in rest && x in others;
      assert Not(IsBoth(flag))(x) && Not(OnlyCloses(flag))(x);
    }
  }

  lemma EnoughWallsQuiet<T>(flag: T -> Flag, xs: seq<T>) returns (ys: seq<T>)
    requires Boths(flag, xs) <= Walls(flag, xs) + 1
    ensures multiset(ys) == multiset(xs) && Walk(flag, ys, Quiet) != Fired
  {
    var closers, boths, walls, end := Grouped(flag, xs);
    ys := closers + (Weave(boths, walls) + end);
    QuietLine(flag, closers, boths, walls, end);
  }

  // ---------- When the order matters ----------

  /** Some order fires and some other does not. */
  ghost predicate OrderMatters<T(!new)>(flag: T -> Flag, xs: seq<T>) {
    exists ys, zs :: multiset(ys) == multiset(xs) && multiset(zs) == multiset(xs)
                     && Walk(flag, ys, Quiet) == Fired && Walk(flag, zs, Quiet) != Fired
  }

  /** The order matters exactly when there is an opening element and a different closing
      one, and there are walls enough to keep those that do both apart. */
  lemma OrderMattersExactly<T(!new)>(flag: T -> Flag, xs: seq<T>)
    ensures OrderMatters(flag, xs) <==> HasPair(flag, multiset(xs)) && Boths(flag, xs) <= Walls(flag, xs) + 1
  {
    if HasPair(flag, multiset(xs)) && Boths(flag, xs) <= Walls(flag, xs) + 1 {
      var ys := PairFires(flag, xs);
      var zs := EnoughWallsQuiet(flag, xs);
    }
    if ys, zs :| multiset(ys) == multiset(xs) && multiset(zs) == multiset(xs)
                 && Walk(flag, ys, Quiet) == Fired && Walk(flag, zs, Quiet) != Fired {
      FiredHasPair(flag, ys);
      QuietNeedsWalls(flag, zs);
      FilterCounts(IsBoth(flag), xs, zs);
      FilterCounts(IsWall(flag), xs, zs);
    }
  }

  /** Otherwise every order fires when there is such a pair, and none when there is not. */
  lemma FiresWhenSettled<T(!new)>(flag: T -> Flag, xs: seq<T>)
    requires !OrderMatters(flag, xs)
    ensures Walk(flag, xs, Quiet) == Fired <==> HasPair(flag, multiset(xs))
  {
    if Walk(flag, xs, Quiet) == Fired {
      FiredHasPair(flag, xs);
    } else if HasPair(flag, multiset(xs)) {
      var ys := PairFires(flag, xs);
    }
  }
}
