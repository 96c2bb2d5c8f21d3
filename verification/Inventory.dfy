/**
 The inventory's scoped paging: a page counts only the rows the caller may see.
 */
module Inventory {
  import opened Reconciler
  import opened ScopeGuard

  predicate InScope(scope: Scope, env: int) { scope.None? || env in scope.value }

  // The rows the caller may see, in order.
  function Visible(rows: seq<Row>, n: nat, scope: Scope): seq<Row>
    requires n <= |rows|
  {
    if n == 0 then []
    else Visible(rows, n - 1, scope) + (if InScope(scope, EnvOf(rows[n - 1].item)) then [rows[n - 1]] else [])
  }

  function Min(a: nat, b: nat): nat { if a < b then a else b }

  // Positions offset up to offset + limit, as far as the sequence goes.
  function Slice<T>(s: seq<T>, offset: nat, limit: nat): seq<T> { s[Min(offset, |s|)..Min(offset + limit, |s|)] }

  class Pager {
    const limit: nat
    const offset: nat
    var seen: nat
    var taken: nat

    constructor (limit: nat, offset: nat)
      ensures this.limit == limit && this.offset == offset && Counted(0)
    {
      this.limit, this.offset := limit, offset;
      seen, taken := 0, 0;
    }

    // The pager has been asked about n visible rows.
    ghost predicate Counted(n: nat) reads this {
      seen == Min(n, offset + limit) && taken == if seen < offset then 0 else seen - offset
    }

    // A fresh pager over the same page, one per collection.
    method Reset() returns (p: Pager)
      ensures fresh(p) && p.limit == limit && p.offset == offset && p.Counted(0)
    {
      p := new Pager(limit, offset);
    }

    // Whether the next visible row belongs on this page.
    method Take(ghost n: nat) returns (on: bool)
      requires Counted(n)
      modifies this`seen, this`taken
      ensures Counted(n + 1) && on == (offset <= n < offset + limit)
    {
      if seen < offset {
        seen := seen + 1;
        return false;
      }
      if taken >= limit {
        return false;
      }
      seen, taken := seen + 1, taken + 1;
      return true;
    }
  }

  lemma SliceGrows<T>(s: seq<T>, x: T, offset: nat, limit: nat)
    ensures Slice(s + [x], offset, limit) == Slice(s, offset, limit) + if offset <= |s| < offset + limit then [x] else []
  {
  }

  // A page holds no more than the limit, and its rows are those at the offset and on.
  lemma SliceExactly<T>(s: seq<T>, offset: nat, limit: nat)
    ensures |Slice(s, offset, limit)| == if offset >= |s| then 0 else if limit < |s| - offset then limit else |s| - offset
    ensures forall i | 0 <= i < |Slice(s, offset, limit)| :: Slice(s, offset, limit)[i] == s[offset + i]
  {
  }

  // One collection's page.
  method Collect(rows: seq<Row>, scope: Scope, pager: Pager) returns (page: seq<Row>)
    requires pager.Counted(0)
    modifies pager
    ensures page == Slice(Visible(rows, |rows|, scope), pager.offset, pager.limit)
  {
    page := [];
    for i := 0 to |rows|
      invariant pager.Counted(|Visible(rows, i, scope)|)
      invariant page == Slice(Visible(rows, i, scope), pager.offset, pager.limit)
    {
      ghost var visible := Visible(rows, i, scope);
      if InScope(scope, EnvOf(rows[i].item)) {
        SliceGrows(visible, rows[i], pager.offset, pager.limit);
        var on := pager.Take(|visible|);
        if on {
          page := page + [rows[i]];
        }
      }
    }
  }

  // The handler: the three collections, each paged on its own.
  method ServeInventory(flagRows: seq<Row>, settingsRows: seq<Row>, bundleRows: seq<Row>, scope: Scope, limit: nat, offset: nat)
    returns (flags: seq<Row>, settings: seq<Row>, bundles: seq<Row>)
    ensures flags == Slice(Visible(flagRows, |flagRows|, scope), offset, limit)
    ensures settings == Slice(Visible(settingsRows, |settingsRows|, scope), offset, limit)
    ensures bundles == Slice(Visible(bundleRows, |bundleRows|, scope), offset, limit)
  {
    var page := new Pager(limit, offset);
    var p := page.Reset();
    flags := Collect(flagRows, scope, p);
    p := page.Reset();
    settings := Collect(settingsRows, scope, p);
    p := page.Reset();
    bundles := Collect(bundleRows, scope, p);
  }

  // ---- Walking the pages ----

  // Pages 0 up to k, one after another.
  function Walk<T>(s: seq<T>, limit: nat, k: nat): seq<T> {
    if k == 0 then [] else Walk(s, limit, k - 1) + Slice(s, (k - 1) * limit, limit)
  }

  lemma {:induction false} WalkIsPrefix<T>(s: seq<T>, limit: nat, k: nat)
    ensures Walk(s, limit, k) == s[..Min(k * limit, |s|)]
  {
    if k > 0 {
      WalkIsPrefix(s, limit, k - 1);
      assert k * limit == (k - 1) * limit + limit;
    }
  }

  // A row is visible exactly when it is listed and in scope, and visible rows keep the listing's order.
  lemma {:induction false} VisibleExactly(rows: seq<Row>, n: nat, scope: Scope)
    requires n <= |rows| && forall i, j | 0 <= i < j < |rows| :: rows[i].id < rows[j].id
    ensures forall r :: r in Visible(rows, n, scope) <==> r in rows[..n] && (scope.Some? ==> EnvOf(r.item) in scope.value)
    ensures forall i, j | 0 <= i < j < |Visible(rows, n, scope)| :: Visible(rows, n, scope)[i].id < Visible(rows, n, scope)[j].id
  {
    hide EnvOf;
    if n > 0 {
      VisibleExactly(rows, n - 1, scope);
      assert rows[..n] == rows[..n - 1] + [rows[n - 1]];
      var before := Visible(rows, n - 1, scope);
      forall i | 0 <= i < |before| ensures before[i].id < rows[n - 1].id {
        assert before[i] in rows[..n - 1];
      }
    }
  }

  // Walking offsets 0, limit, 2 * limit and so on past the end yields every visible row once, by ascending id, and
  // nothing else; and a page short of the limit is the last one with anything on it.
  lemma PagesPartition(rows: seq<Row>, scope: Scope, limit: nat, k: nat)
    requires forall i, j | 0 <= i < j < |rows| :: rows[i].id < rows[j].id
    requires limit > 0 && k * limit >= |Visible(rows, |rows|, scope)|
    ensures var walked := Walk(Visible(rows, |rows|, scope), limit, k);
            && (forall i, j | 0 <= i < j < |walked| :: walked[i].id < walked[j].id)
            && (forall r :: r in walked <==> r in rows && (scope.Some? ==> EnvOf(r.item) in scope.value))
    ensures forall p: nat | |Slice(Visible(rows, |rows|, scope), p, limit)| < limit ::
              Slice(Visible(rows, |rows|, scope), p + limit, limit) == []
  {
    hide Visible, EnvOf;
    var all := Visible(rows, |rows|, scope);
    assert rows[..|rows|] == rows;
    VisibleExactly(rows, |rows|, scope);
    WalkIsPrefix(all, limit, k);
    assert all[..|all|] == all;
  }
}
