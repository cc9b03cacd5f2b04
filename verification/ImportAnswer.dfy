/** What the answer to an import says of each line, in terms of the line, the lines before
    it and the keys stored at the start. */
module ImportAnswer {
  import opened Wrappers
  import opened KeyStore
  import opened KeyImport
  import Identity

  // ---------- How long a secret is ----------

  /** How many characters of s from i on are at or beyond a code point. */
  function Beyond(s: string, i: nat, point: int): nat
    requires i <= |s|
  {
    |set j | i <= j < |s| && s[j] as int >= point|
  }

  lemma BeyondOneMore(s: string, i: nat, point: int)
    requires i < |s|
    ensures Beyond(s, i, point) == Beyond(s, i + 1, point) + if s[i] as int >= point then 1 else 0
  {
    var these, those := set j | i <= j < |s| && s[j] as int >= point, set j | i + 1 <= j < |s| && s[j] as int >= point;
    assert these == those + if s[i] as int >= point then {i} else {};
  }

  /** A character takes one byte in UTF-8, and one more each from U+0080, U+0800 and
      U+10000 on. */
  lemma {:induction false} BytesExactly(s: string, i: nat)
    requires i <= |s|
    ensures ByteLength(s, i) == |s| - i + Beyond(s, i, 0x80) + Beyond(s, i, 0x800) + Beyond(s, i, 0x1_0000)
    decreases |s| - i
  {
    if i < |s| {
      BytesExactly(s, i + 1);
      BeyondOneMore(s, i, 0x80);
      BeyondOneMore(s, i, 0x800);
      BeyondOneMore(s, i, 0x1_0000);
    }
  }

  // ---------- What becomes of a line ----------

  function SecretOf(m: Import, i: nat): string
    requires i < |m.lines|
  {
    Identity.Trim(m.lines[i])
  }

  /** The line holds a key: something but white space, of at most 4096 bytes. */
  predicate HoldsKey(m: Import, i: nat)
    requires i < |m.lines|
  {
    var s := SecretOf(m, i);
    s != "" && |s| + Beyond(s, 0, 0x80) + Beyond(s, 0, 0x800) + Beyond(s, 0, 0x1_0000) <= 4096
  }

  /** No earlier line holding a key has its fingerprint. */
  predicate FirstOfKind(m: Import, i: nat)
    requires i < |m.lines|
  {
    forall j :: 0 <= j < i && HoldsKey(m, j) ==> m.fingerprint(SecretOf(m, j)) != m.fingerprint(SecretOf(m, i))
  }

  predicate StoredBefore(m: Import, t: Table, i: nat)
    requires i < |m.lines|
  {
    exists id :: id in t.rows && t.rows[id].fingerprint == m.fingerprint(SecretOf(m, i))
  }

  /** The line of the answer, field by field. A line is a duplicate for an earlier line of
      the list even when that line could not be saved. */
  ghost predicate Told(m: Import, t: Table, i: nat, line: Line)
    requires i < |m.lines|
  {
    && line.number == i + 1
    && (line.status == Rejected <==> !HoldsKey(m, i) || (FirstOfKind(m, i) && m.saving(i) != Written))
    && (line.status == Duplicate <==>
        HoldsKey(m, i) && (!FirstOfKind(m, i) || (m.saving(i) == Written && StoredBefore(m, t, i))))
    && (line.status == Imported <==>
        HoldsKey(m, i) && FirstOfKind(m, i) && m.saving(i) == Written && !StoredBefore(m, t, i))
    && line.fingerprint == (if HoldsKey(m, i) then m.fingerprint(SecretOf(m, i)) else "")
    && (line.name != "" ==> HoldsKey(m, i) && FirstOfKind(m, i))
    && (line.report == if line.status == Imported && m.testing then Some(m.reports(i)) else None)
    && (line.row.Some? ==> line.status == Imported && m.readable(i) && ImportedAs(m, line.row.value, i))
    && (line.row.Some? && !m.testing ==> Untried(line.row.value))
    && (line.status == Imported && m.readable(i) ==> line.row.Some?)
  }

  lemma SameKeys(m: Import, i: nat)
    requires i < |m.lines|
    ensures HoldsKey(m, i) <==> Usable(m, i)
    ensures SecretOf(m, i) == Secret(m, i)
  {
    BytesExactly(Secret(m, i), 0);
  }

  lemma SameRepeats(m: Import, i: nat)
    requires i < |m.lines|
    ensures FirstOfKind(m, i) <==> !Repeats(m, i)
  {
    forall j | 0 <= j < i
      ensures HoldsKey(m, j) <==> Usable(m, j)
    {
      SameKeys(m, j);
    }
  }

  lemma RowTold(m: Import, t: Table, i: nat)
    requires WellKeyed(t) && i < |m.lines| && TestsAreTests(m) && StatusOf(m, Fingerprints(t), i) == Imported
    ensures var u := TablesAfter(m, t, i);
            && u.nextId in TablesAfter(m, t, i + 1).rows
            && ImportedAs(m, TablesAfter(m, t, i + 1).rows[u.nextId], i)
            && (!m.testing ==> Untried(TablesAfter(m, t, i + 1).rows[u.nextId]))
  {
    TablesGain(m, t, i);
    NotAddedYet(m, Fingerprints(t), i);
    CreateSucceeds(TablesAfter(m, t, i), CreateOf(m, i));
    NewRowAs(m, TablesAfter(m, t, i), i);
  }

  lemma LineTold(m: Import, t: Table, i: nat)
    requires WellKeyed(t) && i < |m.lines| && TestsAreTests(m)
    ensures Told(m, t, i, LineOf(m, t, i))
  {
    SameKeys(m, i);
    SameRepeats(m, i);
    if StatusOf(m, Fingerprints(t), i) == Imported {
      RowTold(m, t, i);
    }
  }

  /** How many of the first n values are x. */
  function Occurrences<T(==)>(xs: seq<T>, x: T, n: nat): nat
    requires n <= |xs|
  {
    multiset(xs[..n])[x]
  }

  lemma OneMore<T>(xs: seq<T>, x: T, n: nat)
    requires n < |xs|
    ensures Occurrences(xs, x, n + 1) == Occurrences(xs, x, n) + if xs[n] == x then 1 else 0
  {
    assert xs[..n + 1] == xs[..n] + [xs[n]];
  }

  lemma {:induction false} TallyIsOccurrences(m: Import, stored: set<string>, xs: seq<Status>, status: Status, n: nat)
    requires |xs| == |m.lines| && n <= |m.lines|
    requires forall i :: 0 <= i < |xs| ==> xs[i] == StatusOf(m, stored, i)
    ensures Tally(m, stored, status, n) == Occurrences(xs, status, n)
  {
    if n > 0 {
      TallyIsOccurrences(m, stored, xs, status, n - 1);
      OneMore(xs, status, n - 1);
    }
  }

  function Statuses(results: seq<Line>): (xs: seq<Status>)
    ensures |xs| == |results| && forall i :: 0 <= i < |xs| ==> xs[i] == results[i].status
  {
    seq(|results|, i requires 0 <= i < |results| => results[i].status)
  }

  lemma LineStatus(m: Import, t: Table, i: nat)
    requires i < |m.lines|
    ensures LineOf(m, t, i).status == StatusOf(m, Fingerprints(t), i)
  {
  }

  /** Whatever the import reports, each of its lines is told so, and the counters are how
      many lines have each status. */
  lemma AnswerTold(m: Import, t: Table, results: seq<Line>, imported: nat, duplicates: nat, failed: nat)
    requires WellKeyed(t) && TestsAreTests(m) && Counted(m, t, results, imported, duplicates, failed)
    ensures |results| == |m.lines| && forall i :: 0 <= i < |results| ==> Told(m, t, i, results[i])
    ensures var xs := Statuses(results);
            && imported == Occurrences(xs, Imported, |xs|)
            && duplicates == Occurrences(xs, Duplicate, |xs|)
            && failed == Occurrences(xs, Rejected, |xs|)
  {
    var stored := Fingerprints(t);
    forall i | 0 <= i < |results|
      ensures Told(m, t, i, results[i]) && results[i].status == StatusOf(m, stored, i)
    {
      LineTold(m, t, i);
      LineStatus(m, t, i);
    }
    var xs := Statuses(results);
    TallyIsOccurrences(m, stored, xs, Imported, |xs|);
    TallyIsOccurrences(m, stored, xs, Duplicate, |xs|);
    TallyIsOccurrences(m, stored, xs, Rejected, |xs|);
  }
}
