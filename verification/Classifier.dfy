/** The error classifier: strings are collected from an error body in no fixed order,
    joined, and searched with four patterns. */
module Classifier {
  import opened Wrappers
  import Verdict
  import opened Json

  // ---------- Patterns ----------

  datatype Class = Fold(c: char) | Among(chars: string) | White | NoLineFeed

  datatype Item = One(class_: Class) | Opt(class_: Class) | Star(class_: Class) | Plus(class_: Class)

  type Pattern = seq<Item>

  /** Matching ignores case; besides A to Z, the Kelvin sign folds to k and the long s to s. */
  predicate Admits(k: Class, x: char) {
    match k
    case Fold(c) =>
      || x == c
      || ('a' <= c <= 'z' && x as int == c as int - 32)
      || (c == 'k' && x == '\U{212A}')
      || (c == 's' && x == '\U{17F}')
    case Among(chars) => x in chars
    case White => x in "\t\n\r " || x == '\U{0C}'
    case NoLineFeed => x != '\n'
  }

  /** Items k and on of the pattern match s from i to j. */
  predicate Spans(p: Pattern, k: nat, s: string, i: nat, j: nat)
    requires k <= |p| && i <= j <= |s|
    decreases |p| - k, j - i
  {
    if k == |p| then i == j
    else
      var one := i < j && Admits(p[k].class_, s[i]);
      match p[k]
      case One(_) => one && Spans(p, k + 1, s, i + 1, j)
      case Opt(_) => Spans(p, k + 1, s, i, j) || (one && Spans(p, k + 1, s, i + 1, j))
      case Star(_) => Spans(p, k + 1, s, i, j) || (one && Spans(p, k, s, i + 1, j))
      case Plus(_) => one && (Spans(p, k + 1, s, i + 1, j) || Spans(p, k, s, i + 1, j))
  }

  predicate Found(p: Pattern, s: string) {
    exists i, j :: 0 <= i <= j <= |s| && Spans(p, 0, s, i, j)
  }

  predicate FoundAny(ps: seq<Pattern>, s: string) {
    exists n :: 0 <= n < |ps| && Found(ps[n], s)
  }

  function Word(w: string): Pattern {
    seq(|w|, i requires 0 <= i < |w| => One(Fold(w[i])))
  }

  const CREDIT_ERROR: Pattern := Word("credit") + [Opt(Fold('s'))] + Word("error")

  /** Alternatives, group by group. The balance pattern has some that keep to one string
      and some that run over anything but a line feed after a credit error. The last three
      groups are the words looked for in the lower-cased message. */
  datatype Rules = Rules(quota: seq<Pattern>, auth: seq<Pattern>, rate: seq<Pattern>,
                         balance: seq<Pattern>, endings: seq<string>,
                         hour5: seq<Pattern>, week: seq<Pattern>, month: seq<Pattern>)

  const UPSTREAM := Rules(
    [Word("usage limit reached"), Word("limit exhausted"), Word("quota exceeded"), Word("subscription quota"),
     Word("weekly/monthly limit exhausted"), Word("weekly usage limit"), Word("monthly usage limit"),
     Word("5") + [Star(White)] + Word("hour usage limit")],
    [Word("invalid"), Word("expired"), Word("revoked"), Word("unauthorized"), Word("authentication"),
     Word("api") + [Opt(Among(" _-"))] + Word("key"), Word("credential")],
    [Word("rate") + [Opt(Among(" _-"))] + Word("limit"), Word("too many requests"),
     Word("concurrency"), Word("concurrencies"), Word("overloaded"), Word("temporarily unavailable")],
    [Word("insufficient") + [Plus(White)] + (Word("account") + [Plus(White)] + Word("balance")),
     Word("insufficient") + [Plus(White)] + Word("balance"),
     Word("insufficient") + [Plus(White)] + (Word("credit") + [Opt(Fold('s'))]),
     Word("not") + [Plus(White)] + (Word("enough") + [Plus(White)] + (Word("credit") + [Opt(Fold('s'))])),
     Word("manage") + [Plus(White)] + (Word("your") + [Plus(White)] + Word("billing"))],
    ["balance", "billing"],
    [Word("5 hour"), Word("5-hour")], [Word("week")], [Word("month")])

  // ---------- The classification ----------

  /** What the rules find in a message. */
  datatype Hits = Hits(quota: bool, balance: bool, auth: bool, rate: bool, hour5: bool, week: bool, month: bool)

  /** A credit error, then anything but a line feed, then the word. */
  function CreditPattern(w: string): Pattern {
    CREDIT_ERROR + ([Star(NoLineFeed)] + Word(w))
  }

  predicate CreditFound(rules: Rules, s: string) {
    exists n :: 0 <= n < |rules.endings| && Found(CreditPattern(rules.endings[n]), s)
  }

  predicate Balance(rules: Rules, s: string) {
    FoundAny(rules.balance, s) || CreditFound(rules, s)
  }

  function HitsIn(rules: Rules, message: string): Hits {
    Hits(FoundAny(rules.quota, message), Balance(rules, message), FoundAny(rules.auth, message),
         FoundAny(rules.rate, message), FoundAny(rules.hour5, message), FoundAny(rules.week, message),
         FoundAny(rules.month, message))
  }

  function KindOf(status: int, h: Hits): Verdict.Kind {
    if h.quota || h.balance then Verdict.QuotaError
    else if (status == 401 || status == 403) && h.auth then Verdict.AuthError
    else if status == 429 || h.rate then Verdict.RateLimitError
    else if status >= 500 then Verdict.UpstreamError
    else if status >= 400 then Verdict.RequestError
    else Verdict.NoError
  }

  function WindowOf(h: Hits): string {
    if !h.quota && !h.balance then ""
    else if h.balance then "balance"
    else if h.hour5 then "5h"
    else if h.week && h.month then "weekly_or_monthly"
    else if h.week then "weekly"
    else if h.month then "monthly"
    else "unknown"
  }

  // ---------- Collecting the strings of a body ----------

  /** How many of the entries are still to be added up. */
  function Width(v: Json): nat {
    match v
    case List(items) => |items| + 1
    case Object(fields) => |fields| + 1
    case _ => 0
  }

  /** The strings in a tree, with repetition and without order. */
  ghost function Strings(v: Json): multiset<string>
    decreases v, Width(v)
  {
    match v
    case Str(t) => multiset{t}
    case List(items) => ItemStrings(v, |items|)
    case Object(fields) => FieldStrings(v, fields.Keys)
    case _ => multiset{}
  }

  ghost function ItemStrings(v: Json, n: nat): multiset<string>
    requires v.List? && n <= |v.items|
    decreases v, n
  {
    if n == 0 then multiset{} else ItemStrings(v, n - 1) + Strings(v.items[n - 1])
  }

  ghost function FieldStrings(v: Json, keys: set<string>): multiset<string>
    requires v.Object? && keys <= v.fields.Keys
    decreases v, |keys|
  {
    if keys == {} then multiset{}
    else
      var k :| k in keys;
      Strings(v.fields[k]) + FieldStrings(v, keys - {k})
  }

  /** Whichever key is taken first, the sum is the same. */
  lemma {:induction false} FieldStringsTake(v: Json, keys: set<string>, k: string)
    requires v.Object? && keys <= v.fields.Keys && k in keys
    ensures FieldStrings(v, keys) == Strings(v.fields[k]) + FieldStrings(v, keys - {k})
    decreases |keys|
  {
    var j :| j in keys && FieldStrings(v, keys) == Strings(v.fields[j]) + FieldStrings(v, keys - {j});
    if j != k {
      FieldStringsTake(v, keys - {j}, k);
      FieldStringsTake(v, keys - {k}, j);
      assert keys - {j} - {k} == keys - {k} - {j};
    }
  }

  class Collector {
    var found: seq<string>

    constructor ()
      ensures found == []
    {
      found := [];
    }

    method Collect(v: Json)
      modifies this
      ensures multiset(found) == old(multiset(found)) + Strings(v)
      decreases v, 1
    {
      match v
      case Str(t) => found := found + [t];
      case List(_) => CollectItems(v);
      case Object(_) => CollectFields(v);
      case _ =>
    }

    method CollectItems(v: Json)
      requires v.List?
      modifies this
      ensures multiset(found) == old(multiset(found)) + ItemStrings(v, |v.items|)
      decreases v, 0
    {
      for i := 0 to |v.items|
        invariant multiset(found) == old(multiset(found)) + ItemStrings(v, i)
      {
        Collect(v.items[i]);
      }
    }

    /** Walks a map in whatever order its keys come. */
    method CollectFields(v: Json)
      requires v.Object?
      modifies this
      ensures multiset(found) == old(multiset(found)) + FieldStrings(v, v.fields.Keys)
      decreases v, 0
    {
      var waiting := v.fields.Keys;
      while waiting != {}
        invariant waiting <= v.fields.Keys
        invariant multiset(found) + FieldStrings(v, waiting) == old(multiset(found)) + FieldStrings(v, v.fields.Keys)
        decreases |waiting|
      {
        var key :| key in waiting;
        FieldStringsTake(v, waiting, key);
        Collect(v.fields[key]);
        waiting := waiting - {key};
      }
    }
  }

  const SEPARATOR := " | "

  function Join(parts: seq<string>, n: nat): string
    requires n <= |parts|
  {
    if n == 0 then "" else if n == 1 then parts[0] else Join(parts, n - 1) + SEPARATOR + parts[n - 1]
  }

  method JoinParts(parts: seq<string>) returns (message: string)
    ensures message == Join(parts, |parts|)
  {
    message := "";
    for i := 0 to |parts|
      invariant message == Join(parts, i)
    {
      message := if i == 0 then parts[0] else message + SEPARATOR + parts[i];
    }
  }

  // ---------- A pattern that keeps to one string ----------

  /** The pattern admits no bar, and neither begins nor ends with a space. */
  predicate Tame(p: Pattern) {
    && |p| >= 2
    && (forall k :: 0 <= k < |p| ==> !Admits(p[k].class_, '|'))
    && p[0].One? && !Admits(p[0].class_, ' ')
    && p[|p| - 2].One? && !Admits(p[|p| - 2].class_, ' ')
    && (p[|p| - 1].One? || p[|p| - 1].Opt?) && !Admits(p[|p| - 1].class_, ' ')
  }

  lemma {:induction false} SpanChars(p: Pattern, k: nat, s: string, i: nat, j: nat)
    requires Tame(p) && k <= |p| && i <= j <= |s| && Spans(p, k, s, i, j)
    ensures forall x :: i <= x < j ==> s[x] != '|'
    ensures k < |p| && i < j ==> k <= |p| - 2 ==> s[j - 1] != ' '
    ensures k == |p| - 1 && i < j ==> s[j - 1] != ' '
    ensures k <= |p| - 2 ==> i < j
    decreases |p| - k, j - i
  {
    if k < |p| {
      if (p[k].Opt? || p[k].Star?) && Spans(p, k + 1, s, i, j) {
        SpanChars(p, k + 1, s, i, j);
      } else if (p[k].Plus? || p[k].Star?) && Spans(p, k, s, i + 1, j) {
        SpanChars(p, k, s, i + 1, j);
      } else {
        SpanChars(p, k + 1, s, i + 1, j);
      }
    }
  }

  /** A match depends on the characters it covers and on nothing else. */
  lemma {:induction false} SpanMoves(p: Pattern, k: nat, s: string, i: nat, j: nat, t: string, i': nat, j': nat)
    requires k <= |p| && i <= j <= |s| && i' <= j' <= |t| && s[i..j] == t[i'..j']
    ensures Spans(p, k, s, i, j) == Spans(p, k, t, i', j')
    decreases |p| - k, j - i
  {
    assert |s[i..j]| == j - i && |t[i'..j']| == j' - i';
    if k < |p| {
      SpanMoves(p, k + 1, s, i, j, t, i', j');
      if i < j {
        assert s[i] == s[i..j][0] == t[i'..j'][0] == t[i'];
        assert s[i + 1..j] == s[i..j][1..] && t[i' + 1..j'] == t[i'..j'][1..];
        SpanMoves(p, k + 1, s, i + 1, j, t, i' + 1, j');
        SpanMoves(p, k, s, i + 1, j, t, i' + 1, j');
      }
    }
  }

  lemma FoundInside(p: Pattern, s: string, t: string, d: nat)
    requires Found(p, s) && d + |s| <= |t| && t[d..d + |s|] == s
    ensures Found(p, t)
  {
    var i, j :| 0 <= i <= j <= |s| && Spans(p, 0, s, i, j);
    forall x | 0 <= x < j - i
      ensures t[d + i..d + j][x] == s[i..j][x]
    {
      assert t[d + (i + x)] == t[d..d + |s|][i + x];
    }
    assert t[d + i..d + j] == s[i..j];
    SpanMoves(p, 0, s, i, j, t, d + i, d + j);
  }

  lemma SliceOfJoin(a: string, b: string, i: nat, j: nat)
    requires i <= j <= |a| + 3 + |b|
    ensures j <= |a| ==> (a + SEPARATOR + b)[i..j] == a[i..j]
    ensures i >= |a| + 3 ==> (a + SEPARATOR + b)[i..j] == b[i - |a| - 3..j - |a| - 3]
  {
  }

  /** A match of a tame pattern in two joined strings lies in one of them. */
  lemma SpanInside(p: Pattern, a: string, b: string, i: nat, j: nat)
    requires Tame(p) && i <= j <= |a| + 3 + |b| && Spans(p, 0, a + SEPARATOR + b, i, j)
    ensures if j <= |a| then Spans(p, 0, a, i, j)
            else i >= |a| + 3 && Spans(p, 0, b, i - |a| - 3, j - |a| - 3)
  {
    var t := a + SEPARATOR + b;
    assert t[|a|] == ' ' && t[|a| + 1] == '|' && t[|a| + 2] == ' ';
    SpanChars(p, 0, t, i, j);
    assert t[i] != ' ' && t[j - 1] != ' ';
    SliceOfJoin(a, b, i, j);
    if j <= |a| {
      SpanMoves(p, 0, t, i, j, a, i, j);
    } else {
      assert i >= |a| + 3;
      SpanMoves(p, 0, t, i, j, b, i - |a| - 3, j - |a| - 3);
    }
  }

  lemma SpanInJoin(p: Pattern, a: string, b: string, i: nat, j: nat)
    requires i <= j
    ensures j <= |a| && Spans(p, 0, a, i, j) ==> Spans(p, 0, a + SEPARATOR + b, i, j)
    ensures j <= |b| && Spans(p, 0, b, i, j) ==> Spans(p, 0, a + SEPARATOR + b, |a| + 3 + i, |a| + 3 + j)
  {
    var t := a + SEPARATOR + b;
    if j <= |a| {
      SliceOfJoin(a, b, i, j);
      SpanMoves(p, 0, a, i, j, t, i, j);
    }
    if j <= |b| {
      SliceOfJoin(a, b, |a| + 3 + i, |a| + 3 + j);
      SpanMoves(p, 0, b, i, j, t, |a| + 3 + i, |a| + 3 + j);
    }
  }

  /** A tame pattern is found in two joined strings exactly when it is found in one. */
  lemma FoundInTwo(p: Pattern, a: string, b: string)
    requires Tame(p)
    ensures Found(p, a + SEPARATOR + b) <==> Found(p, a) || Found(p, b)
  {
    var t := a + SEPARATOR + b;
    if i, j :| 0 <= i <= j <= |a| && Spans(p, 0, a, i, j) {
      SpanInJoin(p, a, b, i, j);
    }
    if i, j :| 0 <= i <= j <= |b| && Spans(p, 0, b, i, j) {
      SpanInJoin(p, a, b, i, j);
    }
    if i, j :| 0 <= i <= j <= |t| && Spans(p, 0, t, i, j) {
      SpanInside(p, a, b, i, j);
    }
  }

  ghost predicate Somewhere(p: Pattern, parts: seq<string>, n: nat)
    requires n <= |parts|
  {
    exists k :: 0 <= k < n && Found(p, parts[k])
  }

  lemma {:induction false} FoundInJoin(p: Pattern, parts: seq<string>, n: nat)
    requires Tame(p) && 1 <= n <= |parts|
    ensures Found(p, Join(parts, n)) <==> Somewhere(p, parts, n)
  {
    if n > 1 {
      FoundInJoin(p, parts, n - 1);
      FoundInTwo(p, Join(parts, n - 1), parts[n - 1]);
    }
  }

  /** A match in one of the strings is a match in the message, for any pattern. */
  lemma {:induction false} JoinKeeps(p: Pattern, parts: seq<string>, n: nat, k: nat)
    requires k < n <= |parts| && Found(p, parts[k])
    ensures Found(p, Join(parts, n))
  {
    if n > 1 {
      var t := Join(parts, n);
      if k == n - 1 {
        var d := |Join(parts, n - 1)| + 3;
        assert t[d..d + |parts[k]|] == parts[k];
        FoundInside(p, parts[k], t, d);
      } else {
        JoinKeeps(p, parts, n - 1, k);
        var head := Join(parts, n - 1);
        assert t[0..0 + |head|] == head;
        FoundInside(p, head, t, 0);
      }
    }
  }

  // ---------- The patterns at hand ----------

  predicate AllTame(ps: seq<Pattern>) {
    forall n :: 0 <= n < |ps| ==> Tame(ps[n])
  }

  /** A word fit to begin and end a pattern. */
  predicate Solid(w: string) {
    |w| >= 2 && '|' !in w && w[0] != ' ' && w[|w| - 2] != ' ' && w[|w| - 1] != ' '
  }

  lemma WordTame(w: string)
    requires Solid(w)
    ensures Tame(Word(w))
  {
  }

  /** A word, one item, and more that is tame. */
  lemma LinkedTame(w: string, item: Item, p: Pattern)
    requires |w| >= 1 && '|' !in w && w[0] != ' ' && !Admits(item.class_, '|')
    requires Tame(p)
    ensures Tame(Word(w) + [item] + p)
  {
  }

  lemma PluralTame(w: string)
    requires Solid(w)
    ensures Tame(Word(w) + [Opt(Fold('s'))])
  {
  }

  lemma QuotaTame()
    ensures AllTame(UPSTREAM.quota)
  {
    WordTame("usage limit reached");
    WordTame("limit exhausted");
    WordTame("quota exceeded");
    WordTame("subscription quota");
    WordTame("weekly/monthly limit exhausted");
    WordTame("weekly usage limit");
    WordTame("monthly usage limit");
    WordTame("hour usage limit");
    LinkedTame("5", Star(White), Word("hour usage limit"));
  }

  lemma AuthTame()
    ensures AllTame(UPSTREAM.auth)
  {
    WordTame("invalid");
    WordTame("expired");
    WordTame("revoked");
    WordTame("unauthorized");
    WordTame("authentication");
    WordTame("key");
    LinkedTame("api", Opt(Among(" _-")), Word("key"));
    WordTame("credential");
  }

  lemma RateTame()
    ensures AllTame(UPSTREAM.rate)
  {
    WordTame("limit");
    LinkedTame("rate", Opt(Among(" _-")), Word("limit"));
    WordTame("too many requests");
    WordTame("concurrency");
    WordTame("concurrencies");
    WordTame("overloaded");
    WordTame("temporarily unavailable");
  }

  lemma BalanceTame()
    ensures AllTame(UPSTREAM.balance) && Tame(CREDIT_ERROR)
  {
    WordTame("balance");
    LinkedTame("account", Plus(White), Word("balance"));
    LinkedTame("insufficient", Plus(White), Word("account") + [Plus(White)] + Word("balance"));
    LinkedTame("insufficient", Plus(White), Word("balance"));
    PluralTame("credit");
    LinkedTame("insufficient", Plus(White), Word("credit") + [Opt(Fold('s'))]);
    LinkedTame("enough", Plus(White), Word("credit") + [Opt(Fold('s'))]);
    LinkedTame("not", Plus(White), Word("enough") + [Plus(White)] + (Word("credit") + [Opt(Fold('s'))]));
    WordTame("billing");
    LinkedTame("your", Plus(White), Word("billing"));
    LinkedTame("manage", Plus(White), Word("your") + [Plus(White)] + Word("billing"));
    WordTame("error");
    LinkedTame("credit", Opt(Fold('s')), Word("error"));
  }

  lemma WindowsTame()
    ensures AllTame(UPSTREAM.hour5) && AllTame(UPSTREAM.week) && AllTame(UPSTREAM.month)
  {
    WordTame("5 hour");
    WordTame("5-hour");
    WordTame("week");
    WordTame("month");
  }

  /** One of the strings matches one of the patterns. */
  ghost predicate AnyMatches(ps: seq<Pattern>, parts: seq<string>) {
    exists s :: s in parts && FoundAny(ps, s)
  }

  lemma AnyInJoin(ps: seq<Pattern>, parts: seq<string>)
    requires AllTame(ps) && |parts| > 0
    ensures FoundAny(ps, Join(parts, |parts|)) <==> AnyMatches(ps, parts)
  {
    if FoundAny(ps, Join(parts, |parts|)) {
      var n :| 0 <= n < |ps| && Found(ps[n], Join(parts, |parts|));
      FoundInJoin(ps[n], parts, |parts|);
      var k :| 0 <= k < |parts| && Found(ps[n], parts[k]);
      assert FoundAny(ps, parts[k]);
    }
    if AnyMatches(ps, parts) {
      AnyKept(ps, parts);
    }
  }

  lemma AnyKept(ps: seq<Pattern>, parts: seq<string>)
    requires AnyMatches(ps, parts)
    ensures FoundAny(ps, Join(parts, |parts|))
  {
    var s :| s in parts && FoundAny(ps, s);
    var n :| 0 <= n < |ps| && Found(ps[n], s);
    var k :| 0 <= k < |parts| && parts[k] == s;
    JoinKeeps(ps[n], parts, |parts|, k);
  }

  lemma {:induction false} SpansSuffix(p: Pattern, q: Pattern, k: nat, s: string, i: nat, j: nat)
    requires k <= |q| && i <= j <= |s|
    ensures Spans(p + q, |p| + k, s, i, j) == Spans(q, k, s, i, j)
    decreases |q| - k, j - i
  {
    if k < |q| {
      SpansSuffix(p, q, k + 1, s, i, j);
      if i < j {
        SpansSuffix(p, q, k + 1, s, i + 1, j);
        SpansSuffix(p, q, k, s, i + 1, j);
      }
    }
  }

  /** A match of a concatenation splits. */
  lemma {:induction false} SpansSplit(p: Pattern, q: Pattern, k: nat, s: string, i: nat, j: nat) returns (m: nat)
    requires k <= |p| && i <= j <= |s| && Spans(p + q, k, s, i, j)
    ensures i <= m <= j && Spans(p, k, s, i, m) && Spans(q, 0, s, m, j)
    decreases |p| - k, j - i
  {
    var pq := p + q;
    if k == |p| {
      m := i;
      SpansSuffix(p, q, 0, s, i, j);
    } else if (p[k].Opt? || p[k].Star?) && Spans(pq, k + 1, s, i, j) {
      m := SpansSplit(p, q, k + 1, s, i, j);
    } else if (p[k].Plus? || p[k].Star?) && Spans(pq, k, s, i + 1, j) {
      m := SpansSplit(p, q, k, s, i + 1, j);
    } else {
      m := SpansSplit(p, q, k + 1, s, i + 1, j);
    }
  }

  lemma {:induction false} SpansJoin(p: Pattern, q: Pattern, k: nat, s: string, i: nat, m: nat, j: nat)
    requires k <= |p| && i <= m <= j <= |s| && Spans(p, k, s, i, m) && Spans(q, 0, s, m, j)
    ensures Spans(p + q, k, s, i, j)
    decreases |p| - k, m - i
  {
    if k == |p| {
      SpansSuffix(p, q, 0, s, i, j);
    } else if (p[k].Opt? || p[k].Star?) && Spans(p, k + 1, s, i, m) {
      SpansJoin(p, q, k + 1, s, i, m, j);
    } else if (p[k].Plus? || p[k].Star?) && Spans(p, k, s, i + 1, m) {
      SpansJoin(p, q, k, s, i + 1, m, j);
    } else {
      SpansJoin(p, q, k + 1, s, i + 1, m, j);
    }
  }
}
