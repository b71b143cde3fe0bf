/**
 Ledgers that default to zero, and lists of signed postings against them.  The vault's USDC
 balances, the token's own balances and the outcome-share balances are all ledgers; a settlement
 batch, a token transfer and a share transfer are all lists of postings.
 */
module Ledgers {

  /** One signed change to one account. */
  datatype Entry<K> = Entry(account: K, amount: int)

  /** The balance of `k`: a key that was never written holds zero. */
  function Get<K(==)>(m: map<K, int>, k: K): int {
    if k in m then m[k] else 0
  }

  /** Everything `es` posts to `k`. */
  function SumOf<K(==)>(es: seq<Entry<K>>, k: K): int {
    if es == [] then 0
    else
      var last := es[|es| - 1];
      SumOf(es[..|es| - 1], k) + if last.account == k then last.amount else 0
  }

  /** Everything `es` posts, to whatever account. */
  function SumAll<K>(es: seq<Entry<K>>): int {
    if es == [] then 0 else SumAll(es[..|es| - 1]) + es[|es| - 1].amount
  }

  /** The sum of all balances. */
  ghost function Total<K>(m: map<K, int>): int {
    if m == map[] then 0 else var k :| k in m; m[k] + Total(m - {k})
  }

  ghost predicate NonNegative<K(!new)>(m: map<K, int>) {
    forall k :: Get(m, k) >= 0
  }

  /** No posting of `es`, taken in order, overdraws the account it posts to. */
  ghost predicate Payable<K>(m: map<K, int>, es: seq<Entry<K>>) {
    es == [] ||
    (var last := es[|es| - 1];
     Payable(m, es[..|es| - 1]) && Get(m, last.account) + SumOf(es, last.account) >= 0)
  }

  /** `m'` is `m` with every posting of `es` applied. */
  ghost predicate Posted<K(!new)>(m: map<K, int>, es: seq<Entry<K>>, m': map<K, int>) {
    forall k :: Get(m', k) == Get(m, k) + SumOf(es, k)
  }

  ghost predicate Distinct<K>(es: seq<Entry<K>>) {
    forall i, j | 0 <= i < j < |es| :: es[i].account != es[j].account
  }

  // ---- Postings ----

  lemma {:induction false} SumOfConcat<K>(a: seq<Entry<K>>, b: seq<Entry<K>>, k: K)
    ensures SumOf(a + b, k) == SumOf(a, k) + SumOf(b, k)
  {
    if b == [] {
      assert a + b == a;
    } else {
      assert (a + b)[..|a + b| - 1] == a + b[..|b| - 1];
      SumOfConcat(a, b[..|b| - 1], k);
    }
  }

  lemma {:induction false} SumOfOne<K>(e: Entry<K>, k: K)
    ensures SumOf([e], k) == if e.account == k then e.amount else 0
    ensures SumAll([e]) == e.amount
  {
    assert [e][..0] == [];
  }

  lemma {:induction false} SumOfSnoc<K>(es: seq<Entry<K>>, e: Entry<K>, k: K)
    ensures SumOf(es + [e], k) == SumOf(es, k) + if e.account == k then e.amount else 0
  {
    assert (es + [e])[..|es|] == es;
  }

  lemma {:induction false} SumAllSnoc<K>(es: seq<Entry<K>>, e: Entry<K>)
    ensures SumAll(es + [e]) == SumAll(es) + e.amount
  {
    assert (es + [e])[..|es|] == es;
  }

  lemma {:induction false} SumAllConcat<K>(a: seq<Entry<K>>, b: seq<Entry<K>>)
    ensures SumAll(a + b) == SumAll(a) + SumAll(b)
  {
    if b == [] {
      assert a + b == a;
    } else {
      assert (a + b)[..|a + b| - 1] == a + b[..|b| - 1];
      SumAllConcat(a, b[..|b| - 1]);
    }
  }

  lemma {:induction false} SumOfAbsent<K>(es: seq<Entry<K>>, k: K)
    requires forall i | 0 <= i < |es| :: es[i].account != k
    ensures SumOf(es, k) == 0
  {
    if es == [] {
    } else {
      SumOfAbsent(es[..|es| - 1], k);
    }
  }

  /** With distinct accounts, what a list posts to the account at `i` is the entry at `i`. */
  lemma {:induction false} SumOfDistinct<K>(es: seq<Entry<K>>, i: nat)
    requires Distinct(es) && i < |es|
    ensures SumOf(es, es[i].account) == es[i].amount
  {
    var n := |es| - 1;
    if i == n {
      SumOfAbsent(es[..n], es[n].account);
    } else {
      SumOfDistinct(es[..n], i);
    }
  }

  /** Changing one entry of a list changes only the sum of its own account. */
  lemma {:induction false} SumOfUpdate<K>(es: seq<Entry<K>>, i: nat, amount: int, k: K)
    requires i < |es|
    ensures SumOf(es[i := Entry(es[i].account, amount)], k)
         == SumOf(es, k) + if es[i].account == k then amount - es[i].amount else 0
    ensures SumAll(es[i := Entry(es[i].account, amount)]) == SumAll(es) + amount - es[i].amount
  {
    var n := |es| - 1;
    var us := es[i := Entry(es[i].account, amount)];
    if i == n {
      assert us[..n] == es[..n];
    } else {
      assert us[..n] == es[..n][i := Entry(es[i].account, amount)];
      SumOfUpdate(es[..n], i, amount, k);
    }
  }

  /** Applying the next posting of a list. */
  lemma {:induction false} PostNext<K(!new)>(m: map<K, int>, es: seq<Entry<K>>, i: nat,
                                             mid: map<K, int>, mid': map<K, int>)
    requires i < |es| && Posted(m, es[..i], mid)
    requires mid' == mid || mid' == mid[es[i].account := Get(mid', es[i].account)]
    requires Get(mid', es[i].account) == Get(mid, es[i].account) + es[i].amount
    ensures Posted(m, es[..i + 1], mid')
  {
    var done := es[..i + 1];
    assert done[..|done| - 1] == es[..i];
    forall k ensures Get(mid', k) == Get(m, k) + SumOf(done, k) {
      assert Get(mid, k) == Get(m, k) + SumOf(es[..i], k);
    }
  }

  lemma {:induction false} PayablePrefix<K>(m: map<K, int>, es: seq<Entry<K>>, n: nat)
    requires n <= |es|
    ensures Payable(m, es) ==> Payable(m, es[..n])
    decreases |es|
  {
    if n < |es| {
      PayablePrefix(m, es[..|es| - 1], n);
      assert es[..|es| - 1][..n] == es[..n];
    } else {
      assert es[..n] == es;
    }
  }

  // ---- Totals ----

  /** Any key may be taken out of a total first. */
  lemma {:induction false} TotalRemove<K>(m: map<K, int>, k: K)
    requires k in m
    ensures Total(m) == m[k] + Total(m - {k})
    decreases |m|
  {
    var c :| c in m && Total(m) == m[c] + Total(m - {c});
    if c != k {
      var mc, mk := m - {c}, m - {k};
      TotalRemove(mc, k);
      TotalRemove(mk, c);
      assert mc - {k} == mk - {c};
    }
  }

  lemma {:induction false} TotalUpdate<K>(m: map<K, int>, k: K, v: int)
    ensures Total(m[k := v]) == Total(m) + v - Get(m, k)
  {
    TotalRemove(m[k := v], k);
    assert m[k := v] - {k} == m - {k};
    if k in m {
      TotalRemove(m, k);
    } else {
      assert m - {k} == m;
    }
  }

  lemma {:induction false} TotalOfZeros<K(!new)>(m: map<K, int>)
    requires forall k :: Get(m, k) == 0
    ensures Total(m) == 0
    decreases |m|
  {
    if m == map[] {
    } else {
      var c :| c in m && Total(m) == m[c] + Total(m - {c});
      assert Get(m, c) == 0;
      forall k ensures Get(m - {c}, k) == 0 {
        assert Get(m, k) == 0;
      }
      TotalOfZeros(m - {c});
    }
  }

  /** The total depends on the balances only, not on which zero balances are written down. */
  lemma {:induction false} TotalOfSame<K(!new)>(m: map<K, int>, n: map<K, int>)
    requires forall k :: Get(m, k) == Get(n, k)
    ensures Total(m) == Total(n)
    decreases |m|
  {
    if m == map[] {
      forall k ensures Get(n, k) == 0 {
        assert Get(m, k) == 0;
      }
      TotalOfZeros(n);
    } else {
      var c :| c in m && Total(m) == m[c] + Total(m - {c});
      var rest, zeroed := m - {c}, n[c := 0];
      TotalUpdate(n, c, 0);
      assert Get(m, c) == Get(n, c);
      forall k ensures Get(rest, k) == Get(zeroed, k) {
        assert Get(m, k) == Get(n, k);
      }
      TotalOfSame(rest, zeroed);
    }
  }

  /** Posting changes the total by what was posted, whatever the accounts. */
  lemma {:induction false} PostedTotal<K(!new)>(m: map<K, int>, es: seq<Entry<K>>, m': map<K, int>)
    requires Posted(m, es, m')
    ensures Total(m') == Total(m) + SumAll(es)
    decreases |es|
  {
    if es == [] {
      forall k ensures Get(m', k) == Get(m, k) {
        assert SumOf(es, k) == 0;
      }
      TotalOfSame(m', m);
    } else {
      var n := |es| - 1;
      var e := es[n];
      var back := m'[e.account := Get(m', e.account) - e.amount];
      TotalUpdate(m', e.account, Get(m', e.account) - e.amount);
      forall k ensures Get(back, k) == Get(m, k) + SumOf(es[..n], k) {
        assert Get(m', k) == Get(m, k) + SumOf(es, k);
      }
      PostedTotal(m, es[..n], back);
    }
  }

  /** A balance never exceeds the total of a non-negative ledger. */
  lemma {:induction false} TotalBounds<K(!new)>(m: map<K, int>, k: K)
    requires NonNegative(m)
    ensures 0 <= Get(m, k) <= Total(m)
    decreases |m|
  {
    assert Get(m, k) >= 0;
    if m == map[] {
    } else {
      var c :| c in m && Total(m) == m[c] + Total(m - {c});
      var rest := m - {c};
      assert Get(m, c) >= 0;
      forall j ensures Get(rest, j) >= 0 {
        assert Get(m, j) >= 0;
      }
      TotalBounds(rest, k);
    }
  }

  // ---- Order independence ----

  /** With distinct accounts, "no posting overdraws on the way" is "no account ends overdrawn". */
  lemma {:induction false} PayableDistinct<K(!new)>(m: map<K, int>, es: seq<Entry<K>>)
    requires NonNegative(m) && Distinct(es)
    ensures Payable(m, es) <==> forall k :: Get(m, k) + SumOf(es, k) >= 0
  {
    if es == [] {
      forall k ensures Get(m, k) + SumOf(es, k) >= 0 {
        assert Get(m, k) >= 0;
      }
    } else {
      var n := |es| - 1;
      var last := es[n].account;
      PayableDistinct(m, es[..n]);
      SumOfAbsent(es[..n], last);
      assert Get(m, last) >= 0;
      if Payable(m, es) {
        forall k ensures Get(m, k) + SumOf(es, k) >= 0 {
          assert Get(m, k) + SumOf(es[..n], k) >= 0;
        }
      }
      if forall k :: Get(m, k) + SumOf(es, k) >= 0 {
        forall k ensures Get(m, k) + SumOf(es[..n], k) >= 0 {
          assert Get(m, k) + SumOf(es, k) >= 0;
        }
        assert Get(m, last) + SumOf(es, last) >= 0;
      }
    }
  }

  /** A payable list, applied in order, leaves no account overdrawn. */
  lemma {:induction false} PayableNonNegative<K(!new)>(m: map<K, int>, es: seq<Entry<K>>, k: K)
    requires NonNegative(m) && Payable(m, es)
    ensures Get(m, k) + SumOf(es, k) >= 0
  {
    if es == [] {
      assert Get(m, k) >= 0;
    } else if es[|es| - 1].account != k {
      PayableNonNegative(m, es[..|es| - 1], k);
    }
  }
}
