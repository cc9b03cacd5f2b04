/** What the order of the strings has to do with an error's verdict: nothing, but for the
    balance pattern that starts with a credit error and can run from one string into
    another. The exact condition is given, for a list of strings and for a whole body. */
module VerdictOrder {
  import opened Wrappers
  import opened Json
  import opened Classifier
  import opened Arrangements
  import Verdict

  /** All alternatives keep to one string, but for those that start with a credit error. */
  ghost predicate Orderly(rules: Rules) {
    && AllTame(rules.quota) && AllTame(rules.auth) && AllTame(rules.rate) && AllTame(rules.balance)
    && AllTame(rules.hour5) && AllTame(rules.week) && AllTame(rules.month)
    && Tame(CREDIT_ERROR)
    && forall n :: 0 <= n < |rules.endings| ==> Solid(rules.endings[n])
  }

  lemma UpstreamOrderly()
    ensures Orderly(UPSTREAM)
  {
    QuotaTame();
    AuthTame();
    RateTame();
    BalanceTame();
    WindowsTame();
  }

  // ---------- A credit error that runs on ----------

  predicate NoFeed(s: string, i: nat, j: nat)
    requires i <= j <= |s|
  {
    forall x :: i <= x < j ==> s[x] != '\n'
  }

  /** A credit error after which the string goes on without a line feed. */
  predicate OpenCredit(s: string) {
    exists i, m :: 0 <= i <= m <= |s| && Spans(CREDIT_ERROR, 0, s, i, m) && NoFeed(s, m, |s|)
  }

  /** The word, with no line feed before it. */
  predicate ClosedWord(w: string, s: string) {
    exists l, j :: 0 <= l <= j <= |s| && Spans(Word(w), 0, s, l, j) && NoFeed(s, 0, l)
  }

  predicate ClosesCredit(rules: Rules, s: string) {
    exists n :: 0 <= n < |rules.endings| && ClosedWord(rules.endings[n], s)
  }

  lemma {:induction false} StarSpans(s: string, i: nat, j: nat)
    requires i <= j <= |s|
    ensures Spans([Star(NoLineFeed)], 0, s, i, j) <==> NoFeed(s, i, j)
    decreases j - i
  {
    if i < j {
      StarSpans(s, i + 1, j);
    }
  }

  predicate CreditAt(w: string, s: string, i: nat, m: nat, l: nat, j: nat) {
    && i <= m <= l <= j <= |s|
    && Spans(CREDIT_ERROR, 0, s, i, m) && NoFeed(s, m, l) && Spans(Word(w), 0, s, l, j)
  }

  lemma CreditFrom(w: string, s: string) returns (i: nat, m: nat, l: nat, j: nat)
    requires Found(CreditPattern(w), s)
    ensures CreditAt(w, s, i, m, l, j)
  {
    var star: Pattern := [Star(NoLineFeed)];
    i, j :| 0 <= i <= j <= |s| && Spans(CreditPattern(w), 0, s, i, j);
    m := SpansSplit(CREDIT_ERROR, star + Word(w), 0, s, i, j);
    l := SpansSplit(star, Word(w), 0, s, m, j);
    StarSpans(s, m, l);
  }

  lemma CreditTo(w: string, s: string, i: nat, m: nat, l: nat, j: nat)
    requires CreditAt(w, s, i, m, l, j)
    ensures Found(CreditPattern(w), s)
  {
    var star: Pattern := [Star(NoLineFeed)];
    StarSpans(s, m, l);
    SpansJoin(star, Word(w), 0, s, m, l, j);
    SpansJoin(CREDIT_ERROR, star + Word(w), 0, s, i, m, j);
  }

  lemma FeedInJoin(a: string, b: string, i: nat, j: nat)
    ensures i <= j <= |a| ==> NoFeed(a + SEPARATOR + b, i, j) == NoFeed(a, i, j)
    ensures i <= j <= |b| ==> NoFeed(a + SEPARATOR + b, |a| + 3 + i, |a| + 3 + j) == NoFeed(b, i, j)
    ensures i <= |a| && j <= |b| ==>
              NoFeed(a + SEPARATOR + b, i, |a| + 3 + j) == (NoFeed(a, i, |a|) && NoFeed(b, 0, j))
  {
    var t := a + SEPARATOR + b;
    assert t[|a|] == ' ' && t[|a| + 1] == '|' && t[|a| + 2] == ' ';
    assert forall x :: 0 <= x < |a| ==> t[x] == a[x];
    assert forall x :: 0 <= x < |b| ==> b[x] == t[|a| + 3 + x];
    assert forall x :: |a| + 3 <= x < |t| ==> t[x] == b[x - |a| - 3];
  }

  lemma OpenInTwo(a: string, b: string)
    requires Tame(CREDIT_ERROR)
    ensures OpenCredit(a + SEPARATOR + b) <==> OpenCredit(b) || (OpenCredit(a) && NoFeed(b, 0, |b|))
  {
    var t := a + SEPARATOR + b;
    if i, m :| 0 <= i <= m <= |t| && Spans(CREDIT_ERROR, 0, t, i, m) && NoFeed(t, m, |t|) {
      SpanInside(CREDIT_ERROR, a, b, i, m);
      if m <= |a| {
        FeedInJoin(a, b, m, |b|);
      } else {
        FeedInJoin(a, b, m - |a| - 3, |b|);
      }
    }
    if i, m :| 0 <= i <= m <= |b| && Spans(CREDIT_ERROR, 0, b, i, m) && NoFeed(b, m, |b|) {
      SpanInJoin(CREDIT_ERROR, a, b, i, m);
      FeedInJoin(a, b, m, |b|);
    }
    if OpenCredit(a) && NoFeed(b, 0, |b|) {
      var i, m :| 0 <= i <= m <= |a| && Spans(CREDIT_ERROR, 0, a, i, m) && NoFeed(a, m, |a|);
      SpanInJoin(CREDIT_ERROR, a, b, i, m);
      FeedInJoin(a, b, m, |b|);
    }
  }

  lemma CreditCrosses(w: string, a: string, b: string)
    requires OpenCredit(a) && ClosedWord(w, b)
    ensures Found(CreditPattern(w), a + SEPARATOR + b)
  {
    var i, m :| 0 <= i <= m <= |a| && Spans(CREDIT_ERROR, 0, a, i, m) && NoFeed(a, m, |a|);
    var l, j :| 0 <= l <= j <= |b| && Spans(Word(w), 0, b, l, j) && NoFeed(b, 0, l);
    SpanInJoin(CREDIT_ERROR, a, b, i, m);
    SpanInJoin(Word(w), a, b, l, j);
    FeedInJoin(a, b, m, l);
    CreditTo(w, a + SEPARATOR + b, i, m, |a| + 3 + l, |a| + 3 + j);
  }

  lemma CreditWithin(w: string, a: string, b: string)
    requires Found(CreditPattern(w), a) || Found(CreditPattern(w), b)
    ensures Found(CreditPattern(w), a + SEPARATOR + b)
  {
    var t := a + SEPARATOR + b;
    if Found(CreditPattern(w), a) {
      assert t[0..0 + |a|] == a;
      FoundInside(CreditPattern(w), a, t, 0);
    } else {
      assert t[|a| + 3..|a| + 3 + |b|] == b;
      FoundInside(CreditPattern(w), b, t, |a| + 3);
    }
  }

  /** The credit pattern is found in two joined strings exactly when it is found in one, or
      the first leaves a credit error open and the second closes it. */
  lemma CreditInTwo(w: string, a: string, b: string)
    requires Tame(CREDIT_ERROR) && Solid(w)
    ensures Found(CreditPattern(w), a + SEPARATOR + b)
            <==> Found(CreditPattern(w), a) || Found(CreditPattern(w), b) || (OpenCredit(a) && ClosedWord(w, b))
  {
    if Found(CreditPattern(w), a) || Found(CreditPattern(w), b) {
      CreditWithin(w, a, b);
    } else if OpenCredit(a) && ClosedWord(w, b) {
      CreditCrosses(w, a, b);
    } else if Found(CreditPattern(w), a + SEPARATOR + b) {
      CreditSplits(w, a, b);
    }
  }

  lemma CreditSplits(w: string, a: string, b: string)
    requires Tame(CREDIT_ERROR) && Solid(w) && Found(CreditPattern(w), a + SEPARATOR + b)
    ensures Found(CreditPattern(w), a) || Found(CreditPattern(w), b) || (OpenCredit(a) && ClosedWord(w, b))
  {
    var d := |a| + 3;
    var i, m, l, j := CreditFrom(w, a + SEPARATOR + b);
    WordTame(w);
    SpanInside(CREDIT_ERROR, a, b, i, m);
    SpanInside(Word(w), a, b, l, j);
    if j <= |a| {
      FeedInJoin(a, b, m, l);
      CreditTo(w, a, i, m, l, j);
    } else if m > |a| {
      FeedInJoin(a, b, m - d, l - d);
      CreditTo(w, b, i - d, m - d, l - d, j - d);
    } else {
      FeedInJoin(a, b, m, l - d);
    }
  }

  lemma CreditFoundInTwo(rules: Rules, a: string, b: string)
    requires Orderly(rules)
    ensures CreditFound(rules, a + SEPARATOR + b)
            <==> CreditFound(rules, a) || CreditFound(rules, b) || (OpenCredit(a) && ClosesCredit(rules, b))
  {
    forall n | 0 <= n < |rules.endings|
      ensures Found(CreditPattern(rules.endings[n]), a + SEPARATOR + b)
              <==> Found(CreditPattern(rules.endings[n]), a) || Found(CreditPattern(rules.endings[n]), b)
                   || (OpenCredit(a) && ClosedWord(rules.endings[n], b))
    {
      CreditInTwo(rules.endings[n], a, b);
    }
  }

  // ---------- The balance verdict of a list, exactly ----------

  /** What a string does to a credit error that may run on across strings. */
  function FlagOf(rules: Rules): string -> Flag {
    (s: string) => Flag(OpenCredit(s), ClosesCredit(rules, s), NoFeed(s, 0, |s|))
  }

  lemma WalkTo(rules: Rules, parts: seq<string>, n: nat)
    requires 0 < n <= |parts|
    ensures Walk(FlagOf(rules), parts[..n], Quiet)
            == Step(Walk(FlagOf(rules), parts[..n - 1], Quiet), FlagOf(rules)(parts[n - 1]))
  {
    assert parts[..n][..|parts[..n]| - 1] == parts[..n - 1];
  }

  lemma {:induction false} JoinWalks(rules: Rules, parts: seq<string>, n: nat)
    requires Orderly(rules) && 1 <= n <= |parts|
    requires forall k :: 0 <= k < n ==> !CreditFound(rules, parts[k])
    ensures var st := Walk(FlagOf(rules), parts[..n], Quiet);
            && (CreditFound(rules, Join(parts, n)) <==> st == Fired)
            && (st != Fired ==> (OpenCredit(Join(parts, n)) <==> st == Armed))
    decreases n
  {
    WalkTo(rules, parts, n);
    if n == 1 {
      assert parts[..0] == [];
    } else {
      JoinWalks(rules, parts, n - 1);
      CreditFoundInTwo(rules, Join(parts, n - 1), parts[n - 1]);
      OpenInTwo(Join(parts, n - 1), parts[n - 1]);
    }
  }

  ghost predicate SomeAlone(rules: Rules, parts: seq<string>) {
    exists s :: s in parts && Balance(rules, s)
  }

  lemma AloneKept(rules: Rules, parts: seq<string>, s: string)
    requires s in parts && Balance(rules, s)
    ensures Balance(rules, Join(parts, |parts|))
  {
    if FoundAny(rules.balance, s) {
      AnyKept(rules.balance, parts);
    } else {
      var n :| 0 <= n < |rules.endings| && Found(CreditPattern(rules.endings[n]), s);
      var k :| 0 <= k < |parts| && parts[k] == s;
      JoinKeeps(CreditPattern(rules.endings[n]), parts, |parts|, k);
    }
  }

  /** The joined message tells of a balance exactly when a string alone does, or when one
      leaves a credit error open and a later one closes it, with no line feed in between. */
  lemma BalanceExactly(rules: Rules, parts: seq<string>)
    requires Orderly(rules) && |parts| > 0
    ensures Balance(rules, Join(parts, |parts|))
            <==> SomeAlone(rules, parts) || Walk(FlagOf(rules), parts, Quiet) == Fired
  {
    if s :| s in parts && Balance(rules, s) {
      AloneKept(rules, parts, s);
    } else {
      forall k | 0 <= k < |parts|
        ensures !CreditFound(rules, parts[k])
      {
        assert parts[k] in parts && !Balance(rules, parts[k]);
      }
      JoinWalks(rules, parts, |parts|);
      assert parts[..|parts|] == parts;
      AnyInJoin(rules.balance, parts);
      assert !AnyMatches(rules.balance, parts);
    }
  }

  // ---------- When the order matters ----------

  /** A string alone tells of a balance; or no string's open credit error can be closed by
      another; or the strings that both open and close one outnumber by two or more those
      with a line feed that do neither, so that no order keeps them apart. */
  ghost predicate Settled(rules: Rules, parts: seq<string>) {
    || SomeAlone(rules, parts)
    || !HasPair(FlagOf(rules), multiset(parts))
    || Boths(FlagOf(rules), parts) > Walls(FlagOf(rules), parts) + 1
  }

  /** What the rules find in the strings with no order among them. */
  ghost function HitsAmong(rules: Rules, parts: seq<string>): Hits {
    Hits(AnyMatches(rules.quota, parts), SomeAlone(rules, parts) || HasPair(FlagOf(rules), multiset(parts)),
         AnyMatches(rules.auth, parts), AnyMatches(rules.rate, parts),
         AnyMatches(rules.hour5, parts), AnyMatches(rules.week, parts), AnyMatches(rules.month, parts))
  }

  lemma SettledBalance(rules: Rules, parts: seq<string>)
    requires Orderly(rules) && |parts| > 0 && Settled(rules, parts)
    ensures Balance(rules, Join(parts, |parts|)) <==> HitsAmong(rules, parts).balance
  {
    BalanceExactly(rules, parts);
    OrderMattersExactly(FlagOf(rules), parts);
    if !SomeAlone(rules, parts) {
      FiresWhenSettled(FlagOf(rules), parts);
    }
  }

  lemma SameFields(g: Hits, h: Hits)
    requires g.quota == h.quota && g.balance == h.balance && g.auth == h.auth && g.rate == h.rate
    requires g.hour5 == h.hour5 && g.week == h.week && g.month == h.month
    ensures g == h
  {
  }

  /** The joined message of settled strings is judged by the strings alone. */
  lemma HitsOfJoin(rules: Rules, parts: seq<string>)
    requires Orderly(rules) && |parts| > 0 && Settled(rules, parts)
    ensures HitsIn(rules, Join(parts, |parts|)) == HitsAmong(rules, parts)
  {
    var g, h := HitsIn(rules, Join(parts, |parts|)), HitsAmong(rules, parts);
    assert g.balance == h.balance by { SettledBalance(rules, parts); }
    assert g.quota == h.quota by { AnyInJoin(rules.quota, parts); }
    assert g.auth == h.auth by { AnyInJoin(rules.auth, parts); }
    assert g.rate == h.rate by { AnyInJoin(rules.rate, parts); }
    assert g.hour5 == h.hour5 by { AnyInJoin(rules.hour5, parts); }
    assert g.week == h.week by { AnyInJoin(rules.week, parts); }
    assert g.month == h.month by { AnyInJoin(rules.month, parts); }
    SameFields(g, h);
  }

  lemma SameStrings(xs: seq<string>, ys: seq<string>)
    requires multiset(xs) == multiset(ys)
    ensures |xs| == |ys| && forall s :: s in xs <==> s in ys
  {
    assert |multiset(xs)| == |xs| && |multiset(ys)| == |ys|;
    forall s
      ensures s in xs <==> s in ys
    {
      assert s in xs <==> s in multiset(xs);
      assert s in ys <==> s in multiset(ys);
    }
  }

  lemma SameMatches(ps: seq<Pattern>, xs: seq<string>, ys: seq<string>)
    requires forall s :: s in xs <==> s in ys
    ensures AnyMatches(ps, xs) == AnyMatches(ps, ys)
  {
  }

  lemma SameAmong(rules: Rules, xs: seq<string>, ys: seq<string>)
    requires multiset(xs) == multiset(ys)
    ensures HitsAmong(rules, xs) == HitsAmong(rules, ys) && Settled(rules, xs) == Settled(rules, ys)
  {
    SameStrings(xs, ys);
    SameMatches(rules.quota, xs, ys);
    SameMatches(rules.auth, xs, ys);
    SameMatches(rules.rate, xs, ys);
    SameMatches(rules.hour5, xs, ys);
    SameMatches(rules.week, xs, ys);
    SameMatches(rules.month, xs, ys);
    FilterCounts(IsBoth(FlagOf(rules)), xs, ys);
    FilterCounts(IsWall(FlagOf(rules)), xs, ys);
    assert SomeAlone(rules, xs) == SomeAlone(rules, ys);
  }

  /** The verdict on a list of strings: the kind and the window. */
  function VerdictOf(rules: Rules, status: int, parts: seq<string>): (Verdict.Kind, string) {
    var h := HitsIn(rules, Join(parts, |parts|));
    (KindOf(status, h), WindowOf(h))
  }

  lemma SettledOrder(rules: Rules, status: int, xs: seq<string>, ys: seq<string>)
    requires Orderly(rules) && |xs| > 0 && Settled(rules, xs) && multiset(xs) == multiset(ys)
    ensures VerdictOf(rules, status, xs) == VerdictOf(rules, status, ys)
  {
    SameStrings(xs, ys);
    SameAmong(rules, xs, ys);
    HitsOfJoin(rules, xs);
    HitsOfJoin(rules, ys);
  }

  /** Strings that are not settled have two orders with different verdicts: one has the
      window "balance" and the other has not. */
  lemma UnsettledOrders(rules: Rules, status: int, xs: seq<string>) returns (ys: seq<string>, zs: seq<string>)
    requires Orderly(rules) && |xs| > 0 && !Settled(rules, xs)
    ensures multiset(ys) == multiset(xs) && multiset(zs) == multiset(xs)
    ensures VerdictOf(rules, status, ys).1 == "balance" && VerdictOf(rules, status, zs).1 != "balance"
  {
    OrderMattersExactly(FlagOf(rules), xs);
    ys, zs :| multiset(ys) == multiset(xs) && multiset(zs) == multiset(xs)
              && Walk(FlagOf(rules), ys, Quiet) == Fired && Walk(FlagOf(rules), zs, Quiet) != Fired;
    SameStrings(xs, ys);
    SameStrings(xs, zs);
    assert !SomeAlone(rules, zs);
    BalanceExactly(rules, ys);
    BalanceExactly(rules, zs);
    WindowTells(HitsIn(rules, Join(ys, |ys|)));
    WindowTells(HitsIn(rules, Join(zs, |zs|)));
  }

  lemma WindowTells(h: Hits)
    ensures WindowOf(h) == "balance" <==> h.balance
    ensures WindowOf(h) == "" <==> !h.quota && !h.balance
  {
  }

  /** Every order of the strings draws the same verdict and window exactly when the strings
      are settled. */
  lemma OrderDoesNotMatterExactly(rules: Rules, status: int, xs: seq<string>)
    requires Orderly(rules) && |xs| > 0
    ensures Settled(rules, xs)
            <==> forall ys :: multiset(ys) == multiset(xs) ==>
                                VerdictOf(rules, status, ys) == VerdictOf(rules, status, xs)
  {
    if Settled(rules, xs) {
      forall ys | multiset(ys) == multiset(xs)
        ensures VerdictOf(rules, status, ys) == VerdictOf(rules, status, xs)
      {
        SettledOrder(rules, status, xs, ys);
      }
    } else {
      var ys, zs := UnsettledOrders(rules, status, xs);
      assert VerdictOf(rules, status, ys) != VerdictOf(rules, status, zs);
    }
  }

  /** Some order of the strings tells of a balance exactly when one does alone, or one
      leaves a credit error open that another closes. */
  lemma BalanceInSomeOrder(rules: Rules, xs: seq<string>)
    requires Orderly(rules) && |xs| > 0
    ensures (exists ys :: multiset(ys) == multiset(xs) && Balance(rules, Join(ys, |ys|)))
            <==> SomeAlone(rules, xs) || HasPair(FlagOf(rules), multiset(xs))
  {
    if SomeAlone(rules, xs) {
      BalanceExactly(rules, xs);
    } else if HasPair(FlagOf(rules), multiset(xs)) {
      var ys := PairFires(FlagOf(rules), xs);
      SameStrings(xs, ys);
      BalanceExactly(rules, ys);
    }
    if ys :| multiset(ys) == multiset(xs) && Balance(rules, Join(ys, |ys|)) {
      SameStrings(xs, ys);
      BalanceExactly(rules, ys);
      if Walk(FlagOf(rules), ys, Quiet) == Fired {
        FiredHasPair(FlagOf(rules), ys);
      }
    }
  }

  /** A single string is always settled. */
  lemma OneStringSettled(rules: Rules, s: string)
    ensures Settled(rules, [s])
  {
    assert multiset([s]) - multiset{s} == multiset{};
  }

  // ---------- Whole bodies ----------

  /** extractMessage: the body's strings joined in some order, or the trimmed body when it
      is no JSON or holds no string. */
  method ExtractMessage(body: Option<Json>, trimmed: string) returns (message: string)
    ensures body.None? || Strings(body.value) == multiset{} ==> message == trimmed
    ensures body.Some? && Strings(body.value) != multiset{} ==>
              exists parts :: |parts| > 0 && multiset(parts) == Strings(body.value) && message == Join(parts, |parts|)
  {
    message := trimmed;
    if body.Some? {
      var c := new Collector();
      c.Collect(body.value);
      assert multiset(c.found) == Strings(body.value);
      if |c.found| > 0 {
        message := JoinParts(c.found);
        assert c.found[0] in multiset(c.found);
      } else {
        assert c.found == [];
      }
    }
  }

  /** The first group of patterns that is found decides, and the status among those that find
      nothing; only a spent quota has a window. */
  ghost predicate Judged(rules: Rules, status: int, message: string, kind: Verdict.Kind, window: string) {
    var spent := FoundAny(rules.quota, message) || Balance(rules, message);
    var dead := (status == 401 || status == 403) && FoundAny(rules.auth, message);
    var busy := status == 429 || FoundAny(rules.rate, message);
    && (kind == Verdict.QuotaError <==> spent)
    && (kind == Verdict.AuthError <==> !spent && dead)
    && (kind == Verdict.RateLimitError <==> !spent && !dead && busy)
    && (kind == Verdict.UpstreamError <==> !spent && !dead && !busy && status >= 500)
    && (kind == Verdict.RequestError <==> !spent && !dead && !busy && 400 <= status < 500)
    && (kind == Verdict.NoError <==> !spent && !dead && !busy && status < 400)
    && (window == "" <==> !spent)
    && (window == "balance" <==> Balance(rules, message))
    && (spent && !Balance(rules, message) ==>
          var five, week, month :=
            FoundAny(rules.hour5, message), FoundAny(rules.week, message), FoundAny(rules.month, message);
          && (window == "5h" <==> five)
          && (window == "weekly_or_monthly" <==> !five && week && month)
          && (window == "weekly" <==> !five && week && !month)
          && (window == "monthly" <==> !five && !week && month)
          && (window == "unknown" <==> !five && !week && !month))
  }

  lemma VerdictIsJudged(rules: Rules, status: int, message: string)
    ensures var h := HitsIn(rules, message);
            Judged(rules, status, message, KindOf(status, h), WindowOf(h))
  {
    WindowTells(HitsIn(rules, message));
  }

  /** Classify, up to the reset time. Verdict and window are those of the message; and they
      are those of the body's strings in any other order too, if the strings are settled. */
  method Classify(status: int, body: Option<Json>, trimmed: string)
    returns (kind: Verdict.Kind, window: string, message: string)
    ensures body.None? || Strings(body.value) == multiset{} ==> message == trimmed
    ensures body.Some? && Strings(body.value) != multiset{} ==>
              exists parts :: |parts| > 0 && multiset(parts) == Strings(body.value) && message == Join(parts, |parts|)
    ensures Judged(UPSTREAM, status, message, kind, window)
    ensures kind == KindOf(status, HitsIn(UPSTREAM, message))
    ensures window == if kind == Verdict.QuotaError then WindowOf(HitsIn(UPSTREAM, message)) else ""
    ensures body.Some? && Strings(body.value) != multiset{} ==>
              forall parts :: multiset(parts) == Strings(body.value) && Settled(UPSTREAM, parts) ==>
                (kind, window) == VerdictOf(UPSTREAM, status, parts)
  {
    message := ExtractMessage(body, trimmed);
    kind, window := Judge(status, HitsIn(UPSTREAM, message));
    VerdictIsJudged(UPSTREAM, status, message);
    if body.Some? && Strings(body.value) != multiset{} {
      ghost var found :| |found| > 0 && multiset(found) == Strings(body.value) && message == Join(found, |found|);
      UpstreamOrderly();
      forall parts | multiset(parts) == Strings(body.value) && Settled(UPSTREAM, parts)
        ensures (kind, window) == VerdictOf(UPSTREAM, status, parts)
      {
        SameStrings(parts, found);
        SettledOrder(UPSTREAM, status, parts, found);
      }
    }
  }

  /** The rules in their order. */
  method Judge(status: int, h: Hits) returns (kind: Verdict.Kind, window: string)
    ensures kind == KindOf(status, h) && window == WindowOf(h)
  {
    window := "";
    if h.quota || h.balance {
      kind := Verdict.QuotaError;
      if h.balance {
        window := "balance";
      } else if h.hour5 {
        window := "5h";
      } else if h.week && h.month {
        window := "weekly_or_monthly";
      } else if h.week {
        window := "weekly";
      } else if h.month {
        window := "monthly";
      } else {
        window := "unknown";
      }
      return;
    }
    if (status == 401 || status == 403) && h.auth {
      kind := Verdict.AuthError;
      return;
    }
    if status == 429 || h.rate {
      kind := Verdict.RateLimitError;
      return;
    }
    if status >= 500 {
      kind := Verdict.UpstreamError;
      return;
    }
    kind := if status >= 400 then Verdict.RequestError else Verdict.NoError;
  }

  // ---------- A body whose verdict depends on the order ----------

  predicate Lacks(s: string, c: char) {
    forall x :: 0 <= x < |s| ==> !Admits(Fold(c), s[x])
  }

  lemma {:induction false} SpanNeeds(p: Pattern, k: nat, n: nat, c: char, s: string, i: nat, j: nat)
    requires k <= n < |p| && p[n] == One(Fold(c)) && i <= j <= |s| && Spans(p, k, s, i, j)
    ensures !Lacks(s, c)
    decreases |p| - k, j - i
  {
    if k == n {
      assert Admits(Fold(c), s[i]);
    } else if (p[k].Opt? || p[k].Star?) && Spans(p, k + 1, s, i, j) {
      SpanNeeds(p, k + 1, n, c, s, i, j);
    } else if (p[k].Plus? || p[k].Star?) && Spans(p, k, s, i + 1, j) {
      SpanNeeds(p, k, n, c, s, i + 1, j);
    } else {
      SpanNeeds(p, k + 1, n, c, s, i + 1, j);
    }
  }

  /** A text that lacks a letter the pattern cannot do without does not match. */
  lemma NotFound(p: Pattern, n: nat, c: char, s: string)
    requires n < |p| && p[n] == One(Fold(c)) && Lacks(s, c)
    ensures !Found(p, s)
  {
    if Found(p, s) {
      var i, j :| 0 <= i <= j <= |s| && Spans(p, 0, s, i, j);
      SpanNeeds(p, 0, n, c, s, i, j);
    }
  }

  lemma {:induction false} WordSpans(w: string, k: nat, s: string, i: nat)
    requires k <= |w| && i + |w| <= |s| && s[i..i + |w|] == w
    ensures Spans(Word(w), k, s, i + k, i + |w|)
    decreases |w| - k
  {
    if k < |w| {
      assert s[i + k] == s[i..i + |w|][k];
      WordSpans(w, k + 1, s, i);
    }
  }

  const SPANNING := "crediterror | billing"
  const REVERSED := "billing | crediterror"

  lemma SpanningFound()
    ensures Found(CreditPattern("billing"), SPANNING)
  {
    var s := SPANNING;
    assert s[0..6] == "credit" && s[6..11] == "error" && s[14..21] == "billing";
    WordSpans("credit", 0, s, 0);
    WordSpans("error", 0, s, 6);
    WordSpans("billing", 0, s, 14);
    var plural := [Opt(Fold('s'))];
    assert Spans(plural, 1, s, 6, 6);
    SpansJoin(Word("credit"), plural, 0, s, 0, 6, 6);
    SpansJoin(Word("credit") + plural, Word("error"), 0, s, 0, 6, 11);
    CreditTo("billing", s, 0, 11, 14, 21);
  }

  const REVERSED_LETTERS: set<char> := {'b', 'i', 'l', 'n', 'g', ' ', '|', 'c', 'r', 'e', 'd', 't', 'o'}

  lemma ReversedSpelled(x: nat)
    requires x < |REVERSED|
    ensures REVERSED[x] in REVERSED_LETTERS
  {
  }

  lemma ReversedLacks(c: char)
    requires c in {'u', 'm', 'q', 'w', '5', 'f', 'a', 'v'}
    ensures Lacks(REVERSED, c)
  {
    forall x | 0 <= x < |REVERSED|
      ensures !Admits(Fold(c), REVERSED[x])
    {
      ReversedSpelled(x);
    }
  }

  /** None of the rules but the authentication ones finds anything in the reversed text. */
  lemma ReversedQuota()
    ensures !FoundAny(UPSTREAM.quota, REVERSED)
  {
    ReversedLacks('u');
    ReversedLacks('m');
    ReversedLacks('q');
    ReversedLacks('w');
    var q := UPSTREAM.quota;
    NotFound(q[0], 0, 'u', REVERSED);
    NotFound(q[1], 2, 'm', REVERSED);
    NotFound(q[2], 0, 'q', REVERSED);
    NotFound(q[3], 13, 'q', REVERSED);
    NotFound(q[4], 0, 'w', REVERSED);
    NotFound(q[5], 0, 'w', REVERSED);
    NotFound(q[6], 0, 'm', REVERSED);
    NotFound(q[7], 4, 'u', REVERSED);
  }

  lemma ReversedRate()
    ensures !FoundAny(UPSTREAM.rate, REVERSED)
  {
    ReversedLacks('u');
    ReversedLacks('m');
    ReversedLacks('a');
    ReversedLacks('v');
    var r := UPSTREAM.rate;
    NotFound(r[0], 1, 'a', REVERSED);
    NotFound(r[1], 4, 'm', REVERSED);
    NotFound(r[2], 4, 'u', REVERSED);
    NotFound(r[3], 4, 'u', REVERSED);
    NotFound(r[4], 1, 'v', REVERSED);
    NotFound(r[5], 2, 'm', REVERSED);
  }

  lemma ReversedPlainBalance()
    ensures !FoundAny(UPSTREAM.balance, REVERSED)
  {
    ReversedLacks('f');
    ReversedLacks('u');
    ReversedLacks('m');
    var b := UPSTREAM.balance;
    NotFound(b[0], 5, 'f', REVERSED);
    NotFound(b[1], 5, 'f', REVERSED);
    NotFound(b[2], 5, 'f', REVERSED);
    NotFound(b[3], 7, 'u', REVERSED);
    NotFound(b[4], 0, 'm', REVERSED);
  }

  lemma WordHead(w: string, s: string, i: nat, j: nat)
    requires |w| > 0 && i <= j <= |s| && Spans(Word(w), 0, s, i, j)
    ensures i < j && Admits(Fold(w[0]), s[i])
  {
  }

  /** After a credit error the reversed text has no b left. */
  lemma ReversedCredit(w: string)
    requires |w| > 0 && w[0] == 'b'
    ensures !Found(CreditPattern(w), REVERSED)
  {
    if Found(CreditPattern(w), REVERSED) {
      var i, m, l, j := CreditFrom(w, REVERSED);
      BalanceTame();
      SpanChars(CREDIT_ERROR, 0, REVERSED, i, m);
      WordHead(w, REVERSED, l, j);
    }
  }

  lemma SpanningBalance()
    ensures Balance(UPSTREAM, SPANNING)
  {
    SpanningFound();
    assert UPSTREAM.endings[1] == "billing";
  }

  lemma ReversedBalance()
    ensures !Balance(UPSTREAM, REVERSED)
  {
    ReversedPlainBalance();
    forall n | 0 <= n < |UPSTREAM.endings|
      ensures !Found(CreditPattern(UPSTREAM.endings[n]), REVERSED)
    {
      ReversedCredit(UPSTREAM.endings[n]);
    }
  }

  lemma SpanningKind()
    ensures KindOf(400, HitsIn(UPSTREAM, SPANNING)) == Verdict.QuotaError
  {
    SpanningBalance();
    KindFromHits(HitsIn(UPSTREAM, SPANNING));
  }

  lemma ReversedKind()
    ensures KindOf(400, HitsIn(UPSTREAM, REVERSED)) == Verdict.RequestError
  {
    ReversedBalance();
    ReversedQuota();
    ReversedRate();
    KindFromHits(HitsIn(UPSTREAM, REVERSED));
  }

  lemma KindFromHits(h: Hits)
    ensures h.balance ==> KindOf(400, h) == Verdict.QuotaError
    ensures !h.balance && !h.quota && !h.rate ==> KindOf(400, h) == Verdict.RequestError
  {
  }

  lemma OrdersSpelled()
    ensures Join(["crediterror", "billing"], 2) == SPANNING && Join(["billing", "crediterror"], 2) == REVERSED
  {
  }

  /** One order of the strings "crediterror" and "billing" makes a status 400 a spent
      balance, which moves the request to the next key; the other order makes it the
      client's own error. */
  lemma OrderCanMatter()
    ensures VerdictOf(UPSTREAM, 400, ["crediterror", "billing"]).0 == Verdict.QuotaError
    ensures VerdictOf(UPSTREAM, 400, ["billing", "crediterror"]).0 == Verdict.RequestError
  {
    OrdersSpelled();
    SpanningKind();
    ReversedKind();
  }
}
