/** What the classifier's patterns find, in plain words: which phrases make an error a spent
    quota or balance, a dead credential or a busy upstream, and which verdict comes out. */
module Phrases {
  import opened Wrappers
  import opened Classifier
  import opened VerdictOrder
  import Verdict

  // ---------- Phrases ----------

  /** The same letter whatever its case, counting the Kelvin sign as a k and the long s as an
      s; any other character only as itself. */
  predicate SameLetter(x: char, c: char) {
    || x == c
    || ('A' <= x <= 'Z' && c as int == x as int + 32)
    || (x == '\U{212A}' && c == 'k') || (x == '\U{17F}' && c == 's')
  }

  /** Letter k of the phrase stands where it should if the phrase begins at position i. */
  predicate Fits(s: string, i: nat, w: string, k: nat) {
    k < |w| && i + k < |s| && SameLetter(s[i + k], w[k])
  }

  predicate At(s: string, i: nat, w: string) {
    i + |w| <= |s| && forall k :: 0 <= k < |w| ==> Fits(s, i, w, k)
  }

  /** The phrase, written in small letters, stands somewhere in the text. */
  predicate Contains(s: string, w: string) {
    exists i :: 0 <= i <= |s| && At(s, i, w)
  }

  predicate Blank(x: char) {
    x == ' ' || x == '\t' || x == '\n' || x == '\r' || x == '\U{0C}'
  }

  predicate Blanks(s: string, i: nat, j: nat) {
    i <= j <= |s| && forall x :: i <= x < j ==> Blank(s[x])
  }

  /** The words from position i on, at least one blank between each and the next. */
  predicate SpacedAt(s: string, i: nat, words: seq<string>)
    requires |words| > 0
    decreases |words|
  {
    && At(s, i, words[0])
    && (|words| == 1
        || exists j :: 0 <= j <= |s| && i + |words[0]| < j
                       && Blanks(s, i + |words[0]|, j) && SpacedAt(s, j, words[1..]))
  }

  predicate Spaced(s: string, words: seq<string>)
    requires |words| > 0
  {
    exists i :: 0 <= i <= |s| && SpacedAt(s, i, words)
  }

  /** A five, any number of blanks, and the rest. */
  predicate HourLimit(s: string) {
    exists i, j :: 0 <= i < j <= |s| && At(s, i, "5") && Blanks(s, i + 1, j) && At(s, j, "hour usage limit")
  }

  /** A credit error, and later on the same line a word about money. */
  predicate CreditTold(s: string) {
    exists i, m, l :: 0 <= i <= m <= l <= |s|
                      && ((At(s, i, "crediterror") && m == i + 11) || (At(s, i, "creditserror") && m == i + 12))
                      && NoFeed(s, m, l) && (At(s, l, "balance") || At(s, l, "billing"))
  }

  // ---------- Each group of patterns ----------

  predicate TellsQuota(s: string) {
    || Contains(s, "usage limit reached") || Contains(s, "limit exhausted") || Contains(s, "quota exceeded")
    || Contains(s, "subscription quota") || Contains(s, "weekly/monthly limit exhausted")
    || Contains(s, "weekly usage limit") || Contains(s, "monthly usage limit") || HourLimit(s)
  }

  predicate TellsBalance(s: string) {
    || Spaced(s, ["insufficient", "account", "balance"]) || Spaced(s, ["insufficient", "balance"])
    || Spaced(s, ["insufficient", "credit"]) || Spaced(s, ["not", "enough", "credit"])
    || Spaced(s, ["manage", "your", "billing"]) || CreditTold(s)
  }

  predicate TellsCredential(s: string) {
    || Contains(s, "invalid") || Contains(s, "expired") || Contains(s, "revoked") || Contains(s, "unauthorized")
    || Contains(s, "authentication") || Contains(s, "credential")
    || Contains(s, "apikey") || Contains(s, "api key") || Contains(s, "api_key") || Contains(s, "api-key")
  }

  predicate TellsRate(s: string) {
    || Contains(s, "ratelimit") || Contains(s, "rate limit") || Contains(s, "rate_limit") || Contains(s, "rate-limit")
    || Contains(s, "too many requests") || Contains(s, "concurrency") || Contains(s, "concurrencies")
    || Contains(s, "overloaded") || Contains(s, "temporarily unavailable")
  }

  // ---------- Patterns and phrases ----------

  predicate Begins(p: Pattern, s: string, i: nat) {
    exists j :: i <= j <= |s| && Spans(p, 0, s, i, j)
  }

  lemma FoundBegins(p: Pattern, s: string)
    ensures Found(p, s) <==> exists i :: 0 <= i <= |s| && Begins(p, s, i)
  {
    if Found(p, s) {
      var i, j :| 0 <= i <= j <= |s| && Spans(p, 0, s, i, j);
      assert Begins(p, s, i);
    }
    if i :| 0 <= i <= |s| && Begins(p, s, i) {
      var j :| i <= j <= |s| && Spans(p, 0, s, i, j);
    }
  }

  lemma SameLetterExactly(x: char, c: char)
    ensures SameLetter(x, c) <==> Admits(Fold(c), x)
  {
  }

  lemma {:induction false} WordSpansFrom(w: string, k: nat, s: string, i: nat, j: nat)
    requires k <= |w| && i + k <= j <= |s|
    ensures Spans(Word(w), k, s, i + k, j) <==> j == i + |w| && forall n :: k <= n < |w| ==> Fits(s, i, w, n)
    decreases |w| - k
  {
    if k < |w| {
      if i + k < j {
        SameLetterExactly(s[i + k], w[k]);
        WordSpansFrom(w, k + 1, s, i, j);
        assert Fits(s, i, w, k) <==> Admits(Fold(w[k]), s[i + k]);
      }
    }
  }

  lemma WordExactly(w: string, s: string, i: nat, j: nat)
    requires i <= j <= |s|
    ensures Spans(Word(w), 0, s, i, j) <==> At(s, i, w) && j == i + |w|
  {
    WordSpansFrom(w, 0, s, i, j);
  }

  lemma FoundWord(w: string, s: string)
    ensures Found(Word(w), s) <==> Contains(s, w)
  {
    if Found(Word(w), s) {
      var i, j :| 0 <= i <= j <= |s| && Spans(Word(w), 0, s, i, j);
      WordExactly(w, s, i, j);
    }
    if i :| 0 <= i <= |s| && At(s, i, w) {
      WordExactly(w, s, i, i + |w|);
    }
  }

  lemma {:induction false} BlankRun(s: string, i: nat, j: nat)
    requires i <= j <= |s|
    ensures Spans([Star(White)], 0, s, i, j) <==> Blanks(s, i, j)
    ensures Spans([Plus(White)], 0, s, i, j) <==> i < j && Blanks(s, i, j)
    decreases j - i
  {
    if i < j {
      BlankRun(s, i + 1, j);
      assert Spans([Star(White)], 0, s, i, j) <==>
             Admits(White, s[i]) && Spans([Star(White)], 0, s, i + 1, j);
      assert Spans([Plus(White)], 0, s, i, j) <==>
             Admits(White, s[i]) && (i + 1 == j || Spans([Plus(White)], 0, s, i + 1, j));
      assert Blanks(s, i, j) <==> Blank(s[i]) && Blanks(s, i + 1, j);
    }
  }

  /** A word, a run of blanks, and more. */
  lemma LinkExactly(w: string, p: Pattern, s: string, i: nat)
    requires i <= |s|
    ensures Begins(Word(w) + [Plus(White)] + p, s, i) <==>
            At(s, i, w) && exists j :: 0 <= j <= |s| && i + |w| < j && Blanks(s, i + |w|, j) && Begins(p, s, j)
  {
    var gap: Pattern := [Plus(White)];
    var q := Word(w) + gap;
    if Begins(q + p, s, i) {
      var e :| i <= e <= |s| && Spans(q + p, 0, s, i, e);
      var j := SpansSplit(q, p, 0, s, i, e);
      var m := SpansSplit(Word(w), gap, 0, s, i, j);
      WordExactly(w, s, i, m);
      BlankRun(s, m, j);
      assert Begins(p, s, j);
    }
    if At(s, i, w) && exists j :: 0 <= j <= |s| && i + |w| < j && Blanks(s, i + |w|, j) && Begins(p, s, j) {
      var j :| 0 <= j <= |s| && i + |w| < j && Blanks(s, i + |w|, j) && Begins(p, s, j);
      var e :| j <= e <= |s| && Spans(p, 0, s, j, e);
      WordExactly(w, s, i, i + |w|);
      BlankRun(s, i + |w|, j);
      SpansJoin(Word(w), gap, 0, s, i, i + |w|, j);
      SpansJoin(q, p, 0, s, i, j, e);
    }
  }

  /** A pattern of words with blanks between them. */
  function Chain(words: seq<string>): Pattern
    requires |words| > 0
  {
    if |words| == 1 then Word(words[0]) else Word(words[0]) + [Plus(White)] + Chain(words[1..])
  }

  lemma {:induction false} ChainExactly(words: seq<string>, s: string, i: nat)
    requires |words| > 0 && i <= |s|
    ensures Begins(Chain(words), s, i) <==> SpacedAt(s, i, words)
    decreases |words|
  {
    if |words| == 1 {
      if Begins(Word(words[0]), s, i) {
        var j :| i <= j <= |s| && Spans(Word(words[0]), 0, s, i, j);
        WordExactly(words[0], s, i, j);
      }
      if At(s, i, words[0]) {
        WordExactly(words[0], s, i, i + |words[0]|);
      }
    } else {
      LinkExactly(words[0], Chain(words[1..]), s, i);
      forall j | 0 <= j <= |s|
        ensures Begins(Chain(words[1..]), s, j) <==> SpacedAt(s, j, words[1..])
      {
        ChainExactly(words[1..], s, j);
      }
    }
  }

  lemma FoundChain(words: seq<string>, s: string)
    requires |words| > 0
    ensures Found(Chain(words), s) <==> Spaced(s, words)
  {
    FoundBegins(Chain(words), s);
    forall i | 0 <= i <= |s|
      ensures Begins(Chain(words), s, i) <==> SpacedAt(s, i, words)
    {
      ChainExactly(words, s, i);
    }
  }

  /** What may follow makes no difference. */
  lemma FoundOptional(p: Pattern, k: Class, s: string)
    ensures Found(p + [Opt(k)], s) <==> Found(p, s)
  {
    var tail: Pattern := [Opt(k)];
    if Found(p + tail, s) {
      var i, j :| 0 <= i <= j <= |s| && Spans(p + tail, 0, s, i, j);
      var m := SpansSplit(p, tail, 0, s, i, j);
    }
    if Found(p, s) {
      var i, j :| 0 <= i <= j <= |s| && Spans(p, 0, s, i, j);
      assert Spans(tail, 0, s, j, j);
      SpansJoin(p, tail, 0, s, i, j, j);
    }
  }

  lemma AtJoin(s: string, i: nat, a: string, b: string)
    ensures At(s, i, a + b) <==> At(s, i, a) && At(s, i + |a|, b)
  {
    var m := i + |a|;
    if At(s, i, a + b) {
      forall k | 0 <= k < |a|
        ensures Fits(s, i, a, k)
      {
        assert Fits(s, i, a + b, k);
      }
      forall k | 0 <= k < |b|
        ensures Fits(s, m, b, k)
      {
        assert Fits(s, i, a + b, |a| + k);
      }
    }
    if At(s, i, a) && At(s, i + |a|, b) {
      forall k | 0 <= k < |a + b|
        ensures Fits(s, i, a + b, k)
      {
        if k < |a| {
          assert Fits(s, i, a, k);
        } else {
          assert Fits(s, m, b, k - |a|);
        }
      }
    }
  }

  /** Two words with at most one optional character between them. */
  predicate LinkedAt(s: string, i: nat, a: string, k: Class, b: string) {
    && At(s, i, a)
    && (At(s, i + |a|, b) || (i + |a| < |s| && Admits(k, s[i + |a|]) && At(s, i + |a| + 1, b)))
  }

  lemma LinkedExactly(a: string, k: Class, b: string, s: string, i: nat)
    requires i <= |s|
    ensures Begins(Word(a) + [Opt(k)] + Word(b), s, i) <==> LinkedAt(s, i, a, k, b)
  {
    var link: Pattern := [Opt(k)];
    var q := Word(a) + link;
    if Begins(q + Word(b), s, i) {
      var e :| i <= e <= |s| && Spans(q + Word(b), 0, s, i, e);
      var j := SpansSplit(q, Word(b), 0, s, i, e);
      var m := SpansSplit(Word(a), link, 0, s, i, j);
      WordExactly(a, s, i, m);
      WordExactly(b, s, j, e);
      OneOrNone(k, s, m, j);
    }
    if LinkedAt(s, i, a, k, b) {
      var m := i + |a|;
      var j := if At(s, m, b) then m else m + 1;
      WordExactly(a, s, i, m);
      WordExactly(b, s, j, j + |b|);
      OneOrNone(k, s, m, j);
      SpansJoin(Word(a), link, 0, s, i, m, j);
      SpansJoin(q, Word(b), 0, s, i, j, j + |b|);
    }
  }

  lemma OneOrNone(k: Class, s: string, m: nat, j: nat)
    requires m <= j <= |s|
    ensures Spans([Opt(k)], 0, s, m, j) <==> m == j || (j == m + 1 && Admits(k, s[m]))
  {
  }

  /** Two words together, or with a blank, an underline or a dash between them. */
  lemma FoundLinked(a: string, b: string, s: string)
    ensures Found(Word(a) + [Opt(Among(" _-"))] + Word(b), s) <==>
            Contains(s, a + b) || Contains(s, a + " " + b) || Contains(s, a + "_" + b) || Contains(s, a + "-" + b)
  {
    var p := Word(a) + [Opt(Among(" _-"))] + Word(b);
    FoundBegins(p, s);
    forall i | 0 <= i <= |s|
      ensures Begins(p, s, i) <==>
              At(s, i, a + b) || At(s, i, a + " " + b) || At(s, i, a + "_" + b) || At(s, i, a + "-" + b)
    {
      LinkedExactly(a, Among(" _-"), b, s, i);
      LinkedPhrases(a, b, s, i);
    }
  }

  lemma LinkedPhrases(a: string, b: string, s: string, i: nat)
    ensures LinkedAt(s, i, a, Among(" _-"), b) <==>
            At(s, i, a + b) || At(s, i, a + " " + b) || At(s, i, a + "_" + b) || At(s, i, a + "-" + b)
  {
    AtJoin(s, i, a, b);
    ThreeJoin(s, i, a, ' ', b);
    ThreeJoin(s, i, a, '_', b);
    ThreeJoin(s, i, a, '-', b);
  }

  lemma AtOne(s: string, i: nat, c: char)
    ensures At(s, i, [c]) <==> i < |s| && SameLetter(s[i], c)
  {
    assert Fits(s, i, [c], 0) <==> i < |s| && SameLetter(s[i], c);
  }

  lemma ThreeJoin(s: string, i: nat, a: string, c: char, b: string)
    requires c == ' ' || c == '_' || c == '-'
    ensures At(s, i, a + [c] + b) <==>
            At(s, i, a) && i + |a| < |s| && s[i + |a|] == c && At(s, i + |a| + 1, b)
  {
    AtJoin(s, i, a + [c], b);
    AtJoin(s, i, a, [c]);
    AtOne(s, i + |a|, c);
  }

  // ---------- The groups, exactly ----------

  lemma HourLimitExactly(s: string)
    ensures Found(Word("5") + [Star(White)] + Word("hour usage limit"), s) <==> HourLimit(s)
  {
    var gap: Pattern := [Star(White)];
    var q, w := Word("5") + gap, "hour usage limit";
    if Found(q + Word(w), s) {
      var i, e :| 0 <= i <= e <= |s| && Spans(q + Word(w), 0, s, i, e);
      var j := SpansSplit(q, Word(w), 0, s, i, e);
      var m := SpansSplit(Word("5"), gap, 0, s, i, j);
      WordExactly("5", s, i, m);
      BlankRun(s, m, j);
      WordExactly(w, s, j, e);
    }
    if i, j :| 0 <= i < j <= |s| && At(s, i, "5") && Blanks(s, i + 1, j) && At(s, j, w) {
      WordExactly("5", s, i, i + 1);
      BlankRun(s, i + 1, j);
      WordExactly(w, s, j, j + |w|);
      SpansJoin(Word("5"), gap, 0, s, i, i + 1, j);
      SpansJoin(q, Word(w), 0, s, i, j, j + |w|);
    }
  }

  lemma QuotaExactly(s: string)
    ensures FoundAny(UPSTREAM.quota, s) <==> TellsQuota(s)
  {
    FoundWord("usage limit reached", s);
    FoundWord("limit exhausted", s);
    FoundWord("quota exceeded", s);
    FoundWord("subscription quota", s);
    FoundWord("weekly/monthly limit exhausted", s);
    FoundWord("weekly usage limit", s);
    FoundWord("monthly usage limit", s);
    HourLimitExactly(s);
    EightOf(UPSTREAM.quota, s);
  }

  lemma EightOf(ps: seq<Pattern>, s: string)
    requires |ps| == 8
    ensures FoundAny(ps, s) <==>
            || Found(ps[0], s) || Found(ps[1], s) || Found(ps[2], s) || Found(ps[3], s)
            || Found(ps[4], s) || Found(ps[5], s) || Found(ps[6], s) || Found(ps[7], s)
  {
  }

  lemma SevenOf(ps: seq<Pattern>, s: string)
    requires |ps| == 7
    ensures FoundAny(ps, s) <==>
            || Found(ps[0], s) || Found(ps[1], s) || Found(ps[2], s) || Found(ps[3], s)
            || Found(ps[4], s) || Found(ps[5], s) || Found(ps[6], s)
  {
  }

  lemma SixOf(ps: seq<Pattern>, s: string)
    requires |ps| == 6
    ensures FoundAny(ps, s) <==>
            || Found(ps[0], s) || Found(ps[1], s) || Found(ps[2], s)
            || Found(ps[3], s) || Found(ps[4], s) || Found(ps[5], s)
  {
  }

  lemma FiveOf(ps: seq<Pattern>, s: string)
    requires |ps| == 5
    ensures FoundAny(ps, s) <==>
            Found(ps[0], s) || Found(ps[1], s) || Found(ps[2], s) || Found(ps[3], s) || Found(ps[4], s)
  {
  }

  lemma CredentialExactly(s: string)
    ensures FoundAny(UPSTREAM.auth, s) <==> TellsCredential(s)
  {
    FoundWord("invalid", s);
    FoundWord("expired", s);
    FoundWord("revoked", s);
    FoundWord("unauthorized", s);
    FoundWord("authentication", s);
    FoundWord("credential", s);
    FoundLinked("api", "key", s);
    assert "api" + "key" == "apikey" && "api" + " " + "key" == "api key";
    assert "api" + "_" + "key" == "api_key" && "api" + "-" + "key" == "api-key";
    SevenOf(UPSTREAM.auth, s);
  }

  lemma RateExactly(s: string)
    ensures FoundAny(UPSTREAM.rate, s) <==> TellsRate(s)
  {
    FoundLinked("rate", "limit", s);
    assert "rate" + "limit" == "ratelimit" && "rate" + " " + "limit" == "rate limit";
    assert "rate" + "_" + "limit" == "rate_limit" && "rate" + "-" + "limit" == "rate-limit";
    FoundWord("too many requests", s);
    FoundWord("concurrency", s);
    FoundWord("concurrencies", s);
    FoundWord("overloaded", s);
    FoundWord("temporarily unavailable", s);
    SixOf(UPSTREAM.rate, s);
  }

  /** The balance patterns that keep to one string, as chains of words. */
  lemma BalanceChains()
    ensures UPSTREAM.balance[0] == Chain(["insufficient", "account", "balance"])
    ensures UPSTREAM.balance[1] == Chain(["insufficient", "balance"])
    ensures UPSTREAM.balance[2] == Chain(["insufficient", "credit"]) + [Opt(Fold('s'))]
    ensures UPSTREAM.balance[3] == Chain(["not", "enough", "credit"]) + [Opt(Fold('s'))]
    ensures UPSTREAM.balance[4] == Chain(["manage", "your", "billing"])
  {
    ThreeChain("insufficient", "account", "balance");
    TwoChain("insufficient", "balance");
    TwoChain("insufficient", "credit");
    ThreeChain("not", "enough", "credit");
    ThreeChain("manage", "your", "billing");
  }

  lemma TwoChain(a: string, b: string)
    ensures Chain([a, b]) == Word(a) + [Plus(White)] + Word(b)
  {
    assert [a, b][1..] == [b];
  }

  lemma ThreeChain(a: string, b: string, c: string)
    ensures Chain([a, b, c]) == Word(a) + [Plus(White)] + (Word(b) + [Plus(White)] + Word(c))
  {
    assert [a, b, c][1..] == [b, c];
    TwoChain(b, c);
  }

  lemma PlainBalanceExactly(s: string)
    ensures FoundAny(UPSTREAM.balance, s) <==>
            || Spaced(s, ["insufficient", "account", "balance"]) || Spaced(s, ["insufficient", "balance"])
            || Spaced(s, ["insufficient", "credit"]) || Spaced(s, ["not", "enough", "credit"])
            || Spaced(s, ["manage", "your", "billing"])
  {
    BalanceChains();
    FoundChain(["insufficient", "account", "balance"], s);
    FoundChain(["insufficient", "balance"], s);
    FoundChain(["insufficient", "credit"], s);
    FoundOptional(Chain(["insufficient", "credit"]), Fold('s'), s);
    FoundChain(["not", "enough", "credit"], s);
    FoundOptional(Chain(["not", "enough", "credit"]), Fold('s'), s);
    FoundChain(["manage", "your", "billing"], s);
    FiveOf(UPSTREAM.balance, s);
  }

  lemma CreditSpan(s: string, i: nat, m: nat)
    requires i <= m <= |s|
    ensures Spans(CREDIT_ERROR, 0, s, i, m) <==>
            (At(s, i, "crediterror") && m == i + 11) || (At(s, i, "creditserror") && m == i + 12)
  {
    var a, b := "credit", "error";
    assert "crediterror" == a + b && "creditserror" == a + "s" + b;
    var plural: Pattern := [Opt(Fold('s'))];
    AtJoin(s, i, a, b);
    AtJoin(s, i, a + "s", b);
    AtJoin(s, i, a, "s");
    var q := Word(a) + plural;
    if Spans(q + Word(b), 0, s, i, m) {
      var j := SpansSplit(q, Word(b), 0, s, i, m);
      var n := SpansSplit(Word(a), plural, 0, s, i, j);
      WordExactly(a, s, i, n);
      WordExactly(b, s, j, m);
      OneOrNone(Fold('s'), s, n, j);
      if n < j {
        SameLetterExactly(s[n], 's');
      }
    }
    if At(s, i, a + b) && m == i + 11 {
      CreditJoins(s, i, i + 6, m);
    }
    if At(s, i, a + "s" + b) && m == i + 12 {
      AtOne(s, i + 6, 's');
      SameLetterExactly(s[i + 6], 's');
      CreditJoins(s, i, i + 7, m);
    }
  }

  lemma CreditJoins(s: string, i: nat, j: nat, m: nat)
    requires i + 6 <= j <= m <= |s| && At(s, i, "credit") && At(s, j, "error") && m == j + 5
    requires j == i + 6 || (j == i + 7 && Admits(Fold('s'), s[i + 6]))
    ensures Spans(CREDIT_ERROR, 0, s, i, m)
  {
    var plural: Pattern := [Opt(Fold('s'))];
    WordExactly("credit", s, i, i + 6);
    WordExactly("error", s, j, m);
    OneOrNone(Fold('s'), s, i + 6, j);
    SpansJoin(Word("credit"), plural, 0, s, i, i + 6, j);
    SpansJoin(Word("credit") + plural, Word("error"), 0, s, i, j, m);
  }

  lemma CreditExactly(s: string)
    ensures CreditFound(UPSTREAM, s) <==> CreditTold(s)
  {
    if CreditFound(UPSTREAM, s) {
      var n :| 0 <= n < |UPSTREAM.endings| && Found(CreditPattern(UPSTREAM.endings[n]), s);
      var i, m, l, j := CreditFrom(UPSTREAM.endings[n], s);
      CreditSpan(s, i, m);
      WordExactly(UPSTREAM.endings[n], s, l, j);
      assert At(s, l, "balance") || At(s, l, "billing");
    }
    if CreditTold(s) {
      var i, m, l :| 0 <= i <= m <= l <= |s|
                     && ((At(s, i, "crediterror") && m == i + 11) || (At(s, i, "creditserror") && m == i + 12))
                     && NoFeed(s, m, l) && (At(s, l, "balance") || At(s, l, "billing"));
      CreditSpan(s, i, m);
      var n: nat := if At(s, l, "balance") then 0 else 1;
      assert UPSTREAM.endings[n] == if n == 0 then "balance" else "billing";
      WordExactly(UPSTREAM.endings[n], s, l, l + 7);
      CreditTo(UPSTREAM.endings[n], s, i, m, l, l + 7);
    }
  }

  /** What the rules find in a message, in plain words. */
  lemma HitsExactly(s: string)
    ensures HitsIn(UPSTREAM, s) == Hits(TellsQuota(s), TellsBalance(s), TellsCredential(s), TellsRate(s),
                                        Contains(s, "5 hour") || Contains(s, "5-hour"),
                                        Contains(s, "week"), Contains(s, "month"))
  {
    QuotaExactly(s);
    PlainBalanceExactly(s);
    CreditExactly(s);
    CredentialExactly(s);
    RateExactly(s);
    WindowsExactly(s);
  }

  lemma WindowsExactly(s: string)
    ensures FoundAny(UPSTREAM.hour5, s) <==> Contains(s, "5 hour") || Contains(s, "5-hour")
    ensures FoundAny(UPSTREAM.week, s) <==> Contains(s, "week")
    ensures FoundAny(UPSTREAM.month, s) <==> Contains(s, "month")
  {
    FoundWord("5 hour", s);
    FoundWord("5-hour", s);
    FoundWord("week", s);
    FoundWord("month", s);
    assert UPSTREAM.hour5 == [Word("5 hour"), Word("5-hour")];
    assert UPSTREAM.week == [Word("week")] && UPSTREAM.month == [Word("month")];
    assert FoundAny(UPSTREAM.hour5, s) <==> Found(UPSTREAM.hour5[0], s) || Found(UPSTREAM.hour5[1], s);
    assert FoundAny(UPSTREAM.week, s) <==> Found(UPSTREAM.week[0], s);
    assert FoundAny(UPSTREAM.month, s) <==> Found(UPSTREAM.month[0], s);
  }

  // ---------- The verdict, in plain words ----------

  /** Which verdict a message draws. */
  lemma VerdictExactly(status: int, s: string)
    ensures var kind := KindOf(status, HitsIn(UPSTREAM, s));
            && (kind == Verdict.QuotaError <==> TellsQuota(s) || TellsBalance(s))
            && (kind == Verdict.AuthError <==>
                  !TellsQuota(s) && !TellsBalance(s) && (status == 401 || status == 403) && TellsCredential(s))
            && (kind == Verdict.RateLimitError <==>
                  && !TellsQuota(s) && !TellsBalance(s) && !((status == 401 || status == 403) && TellsCredential(s))
                  && (status == 429 || TellsRate(s)))
            && (kind == Verdict.UpstreamError <==>
                  !TellsQuota(s) && !TellsBalance(s) && status >= 500 && !TellsRate(s))
            && (kind == Verdict.RequestError <==>
                  && !TellsQuota(s) && !TellsBalance(s) && !((status == 401 || status == 403) && TellsCredential(s))
                  && 400 <= status < 500 && status != 429 && !TellsRate(s))
            && (kind == Verdict.NoError <==>
                  !TellsQuota(s) && !TellsBalance(s) && status < 400 && !TellsRate(s))
            && kind != Verdict.NetworkError
  {
    HitsExactly(s);
  }

  /** Which window a spent quota is said to have. */
  lemma WindowExactly(s: string)
    requires TellsQuota(s) || TellsBalance(s)
    ensures var w := WindowOf(HitsIn(UPSTREAM, s));
            var five, week, month :=
              Contains(s, "5 hour") || Contains(s, "5-hour"), Contains(s, "week"), Contains(s, "month");
            && (w == "balance" <==> TellsBalance(s))
            && (w == "5h" <==> !TellsBalance(s) && five)
            && (w == "weekly_or_monthly" <==> !TellsBalance(s) && !five && week && month)
            && (w == "weekly" <==> !TellsBalance(s) && !five && week && !month)
            && (w == "monthly" <==> !TellsBalance(s) && !five && !week && month)
            && (w == "unknown" <==> !TellsBalance(s) && !five && !week && !month)
  {
    HitsExactly(s);
    WindowNames(HitsIn(UPSTREAM, s));
  }

  lemma WindowNames(h: Hits)
    requires h.quota || h.balance
    ensures WindowOf(h) == "balance" <==> h.balance
    ensures WindowOf(h) == "5h" <==> !h.balance && h.hour5
    ensures WindowOf(h) == "weekly_or_monthly" <==> !h.balance && !h.hour5 && h.week && h.month
    ensures WindowOf(h) == "weekly" <==> !h.balance && !h.hour5 && h.week && !h.month
    ensures WindowOf(h) == "monthly" <==> !h.balance && !h.hour5 && !h.week && h.month
    ensures WindowOf(h) == "unknown" <==> !h.balance && !h.hour5 && !h.week && !h.month
  {
  }

  // ---------- One body of each kind ----------

  lemma Itself(w: string)
    ensures Contains(w, w)
  {
    assert forall k :: 0 <= k < |w| ==> Fits(w, 0, w, k);
    assert At(w, 0, w);
  }

  lemma {:induction false} SpacedLength(s: string, i: nat, words: seq<string>)
    requires |words| > 0 && SpacedAt(s, i, words)
    ensures i + Letters(words) <= |s|
    decreases |words|
  {
    if |words| > 1 {
      var j :| 0 <= j <= |s| && i + |words[0]| < j && Blanks(s, i + |words[0]|, j) && SpacedAt(s, j, words[1..]);
      SpacedLength(s, j, words[1..]);
    }
  }

  /** The least room the words take. */
  function Letters(words: seq<string>): nat
    requires |words| > 0
  {
    if |words| == 1 then |words[0]| else |words[0]| + 1 + Letters(words[1..])
  }

  lemma TooShort(s: string, words: seq<string>)
    requires |words| > 0 && |s| < Letters(words)
    ensures !Spaced(s, words)
  {
    if Spaced(s, words) {
      var i :| 0 <= i <= |s| && SpacedAt(s, i, words);
      SpacedLength(s, i, words);
    }
  }

  lemma LettersOf(a: string, b: string, c: string)
    ensures Letters([a, b]) == |a| + 1 + |b| && Letters([a, b, c]) == |a| + 1 + |b| + 1 + |c|
  {
    assert [a, b][1..] == [b] && [a, b, c][1..] == [b, c] && [b, c][1..] == [c];
    assert Letters([b, c]) == |b| + 1 + Letters([c]);
  }

  lemma CreditTakesRoom(s: string)
    ensures CreditTold(s) ==> |s| >= 18
  {
    if CreditTold(s) {
      var i, m, l :| 0 <= i <= m <= l <= |s|
                     && ((At(s, i, "crediterror") && m == i + 11) || (At(s, i, "creditserror") && m == i + 12))
                     && NoFeed(s, m, l) && (At(s, l, "balance") || At(s, l, "billing"));
      assert |"balance"| == 7 && |"billing"| == 7;
    }
  }

  lemma ShortNoBalance(s: string)
    requires |s| < 17
    ensures !TellsBalance(s)
  {
    LettersOf("insufficient", "account", "balance");
    LettersOf("insufficient", "balance", "");
    LettersOf("insufficient", "credit", "");
    LettersOf("not", "enough", "credit");
    LettersOf("manage", "your", "billing");
    TooShort(s, ["insufficient", "account", "balance"]);
    TooShort(s, ["insufficient", "balance"]);
    TooShort(s, ["insufficient", "credit"]);
    TooShort(s, ["not", "enough", "credit"]);
    TooShort(s, ["manage", "your", "billing"]);
    CreditTakesRoom(s);
  }

  /** A short text tells of nothing that takes more letters. */
  lemma ShortTellsLittle(s: string)
    ensures |s| < 14 ==> !TellsQuota(s)
    ensures |s| < 17 ==> !TellsBalance(s)
    ensures |s| < 6 ==> !TellsCredential(s)
    ensures |s| < 9 ==> !TellsRate(s)
  {
    if |s| < 17 {
      ShortNoBalance(s);
    }
  }

  lemma VerdictOfText(status: int, s: string)
    ensures VerdictOf(UPSTREAM, status, [s]) == (KindOf(status, HitsIn(UPSTREAM, s)), WindowOf(HitsIn(UPSTREAM, s)))
  {
    assert Join([s], 1) == s;
  }

  /** One body of each kind. */
  lemma EveryKindHappens()
    ensures VerdictOf(UPSTREAM, 400, ["quota exceeded"]) == (Verdict.QuotaError, "unknown")
    ensures VerdictOf(UPSTREAM, 401, ["expired"]).0 == Verdict.AuthError
    ensures VerdictOf(UPSTREAM, 400, ["expired"]).0 == Verdict.RequestError
    ensures VerdictOf(UPSTREAM, 401, ["no"]).0 == Verdict.RequestError
    ensures VerdictOf(UPSTREAM, 429, ["no"]).0 == Verdict.RateLimitError
    ensures VerdictOf(UPSTREAM, 200, ["overloaded"]).0 == Verdict.RateLimitError
    ensures VerdictOf(UPSTREAM, 500, ["no"]).0 == Verdict.UpstreamError
    ensures VerdictOf(UPSTREAM, 200, ["no"]).0 == Verdict.NoError
  {
    QuotaHappens();
    ExpiredHappens();
    OverloadHappens();
    ShortTellsLittle("no");
    ShortHappens(401);
    ShortHappens(429);
    ShortHappens(500);
    ShortHappens(200);
  }

  lemma NoWindowNamed(s: string)
    requires s == "quota exceeded"
    ensures !Contains(s, "5 hour") && !Contains(s, "5-hour") && !Contains(s, "week") && !Contains(s, "month")
  {
    Without(s, "5 hour", '5');
    Without(s, "5-hour", '5');
    Without(s, "week", 'w');
    Without(s, "month", 'm');
  }

  lemma QuotaHappens()
    ensures VerdictOf(UPSTREAM, 400, ["quota exceeded"]) == (Verdict.QuotaError, "unknown")
  {
    var s := "quota exceeded";
    Itself(s);
    ShortTellsLittle(s);
    VerdictOfText(400, s);
    VerdictExactly(400, s);
    NoWindowNamed(s);
    WindowExactly(s);
  }

  lemma HeadFits(s: string, i: nat, w: string)
    requires |w| > 0
    ensures At(s, i, w) ==> i < |s| && SameLetter(s[i], w[0])
  {
    assert At(s, i, w) ==> Fits(s, i, w, 0);
  }

  /** A text without some letter does not contain a phrase that begins with it. */
  lemma Without(s: string, w: string, c: char)
    requires |w| > 0 && w[0] == c && forall i :: 0 <= i < |s| ==> !SameLetter(s[i], c)
    ensures !Contains(s, w)
  {
    forall i | 0 <= i <= |s|
      ensures !At(s, i, w)
    {
      HeadFits(s, i, w);
    }
  }

  lemma ExpiredHappens()
    ensures VerdictOf(UPSTREAM, 401, ["expired"]).0 == Verdict.AuthError
    ensures VerdictOf(UPSTREAM, 400, ["expired"]).0 == Verdict.RequestError
  {
    var s := "expired";
    Itself(s);
    ShortTellsLittle(s);
    VerdictOfText(401, s);
    VerdictOfText(400, s);
    VerdictExactly(401, s);
    VerdictExactly(400, s);
  }

  lemma OverloadHappens()
    ensures VerdictOf(UPSTREAM, 200, ["overloaded"]).0 == Verdict.RateLimitError
  {
    var s := "overloaded";
    Itself(s);
    ShortTellsLittle(s);
    VerdictOfText(200, s);
    VerdictExactly(200, s);
  }

  lemma ShortHappens(status: int)
    ensures VerdictOf(UPSTREAM, status, ["no"]).0
            == if status == 429 then Verdict.RateLimitError
               else if status >= 500 then Verdict.UpstreamError
               else if status >= 400 then Verdict.RequestError
               else Verdict.NoError
  {
    ShortTellsLittle("no");
    VerdictOfText(status, "no");
    VerdictExactly(status, "no");
  }
}
