/** What more than one file needs: optional values and sequences of them, and induction over
    a stretch of numbers. */
module Wrappers {
  datatype Option<+T> = None | Some(value: T)

  /** What holds at i and never stops holding before n holds at n. */
  lemma {:induction false} Lasts(p: nat -> bool, i: nat, n: nat)
    requires i <= n && p(i) && forall l: nat :: i <= l < n && p(l) ==> p(l + 1)
    ensures p(n)
    decreases n
  {
    if i < n {
      Lasts(p, i, n - 1);
    }
  }

  lemma Rejoined<T>(a: seq<T>, b: seq<T>, c: seq<T>, d: seq<T>)
    ensures a + (b + (c + d)) == a + b + c + d
    ensures a + (b + c + d) == (a + b) + c + d
  {
  }

  // ---------- The values there are ----------

  function Maybe<T>(v: Option<T>): seq<T> {
    if v.Some? then [v.value] else []
  }

  function Somes<T>(vs: seq<Option<T>>): seq<T> {
    if vs == [] then [] else Maybe(vs[0]) + Somes(vs[1..])
  }

  lemma {:induction false} SomesLast<T>(vs: seq<Option<T>>, v: Option<T>)
    ensures Somes(vs + [v]) == Somes(vs) + Maybe(v)
    decreases |vs|
  {
    var longer := vs + [v];
    if vs == [] {
      assert longer[1..] == [];
    } else {
      var rest := vs[1..];
      SomesLast(rest, v);
      assert longer[1..] == rest + [v] && longer[0] == vs[0];
      assert Somes(longer) == Maybe(vs[0]) + (Somes(rest) + Maybe(v));
    }
  }

  /** The values stand at the given places, in order, and there is none at any other. */
  predicate Chosen<T(==)>(vs: seq<Option<T>>, at: seq<nat>, values: seq<T>) {
    && |at| == |values|
    && (forall j, k :: 0 <= j < k < |at| ==> at[j] < at[k])
    && (forall k :: 0 <= k < |at| ==> at[k] < |vs| && vs[at[k]] == Some(values[k]))
    && (forall i: nat :: i < |vs| && i !in at ==> vs[i] == None)
  }

  lemma ChosenBefore<T>(vs: seq<Option<T>>, at: seq<nat>, values: seq<T>)
    requires vs != [] && Chosen(vs, at, values)
    ensures var n, m := |vs| - 1, |at| - 1;
            if vs[n].Some? then
              && at != [] && at[m] == n && vs[n].value == values[m] && Chosen(vs[..n], at[..m], values[..m])
            else
              Chosen(vs[..n], at, values)
  {
    var n, m := |vs| - 1, |at| - 1;
    if vs[n].Some? {
      assert n in at;
      var k :| 0 <= k < |at| && at[k] == n;
      assert k == m by {
        assert at[m] < |vs|;
      }
      forall i: nat | i < n && i !in at[..m] ensures vs[i] == None {
        assert i !in at;
      }
    }
  }

  lemma {:induction false} ChosenAreSomes<T>(vs: seq<Option<T>>, at: seq<nat>, values: seq<T>)
    requires Chosen(vs, at, values)
    ensures Somes(vs) == values
    decreases |vs|
  {
    if vs == [] {
      assert at == [];
    } else {
      var n, m := |vs| - 1, |at| - 1;
      ChosenBefore(vs, at, values);
      SomesLast(vs[..n], vs[n]);
      assert vs[..n] + [vs[n]] == vs;
      if vs[n].Some? {
        ChosenAreSomes(vs[..n], at[..m], values[..m]);
        assert values[..m] + [values[m]] == values;
      } else {
        ChosenAreSomes(vs[..n], at, values);
      }
    }
  }

  lemma {:induction false} SomesChosen<T>(vs: seq<Option<T>>) returns (at: seq<nat>)
    ensures Chosen(vs, at, Somes(vs))
    decreases |vs|
  {
    if vs == [] {
      at := [];
    } else {
      var n := |vs| - 1;
      var before := SomesChosen(vs[..n]);
      SomesLast(vs[..n], vs[n]);
      assert vs[..n] + [vs[n]] == vs;
      at := before + if vs[n].Some? then [n] else [];
      forall i: nat | i < n && i !in at ensures vs[i] == None {
        assert i !in before by {
          assert forall k :: 0 <= k < |before| ==> at[k] == before[k];
        }
        assert vs[..n][i] == vs[i];
      }
    }
  }
}
