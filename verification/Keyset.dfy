/** Keyset pagination: pages of a table that may change between two fetches
    (crud_reviews.get_public_reviews_for_worker). */
module Keyset {
  import opened Prelude

  /** What the rows are ordered by: the sort column, then the id, both descending. */
  datatype Key = Key(value: int, id: nat)

  predicate Before(a: Key, b: Key) {
    a.value > b.value || (a.value == b.value && a.id > b.id)
  }

  predicate Descending(keys: seq<Key>) {
    forall i: nat, j: nat | i < j < |keys| :: Before(keys[i], keys[j])
  }

  predicate IsFirst(s: set<Key>, m: Key) {
    m in s && forall k: Key | k in s && k != m :: Before(m, k)
  }

  lemma FirstExists(s: set<Key>) returns (m: Key)
    requires s != {}
    ensures IsFirst(s, m)
  {
    m :| m in s;
    if s != {m} {
      var o := m;
      var n := FirstExists(s - {o});
      if Before(n, o) { m := n; }
      forall k: Key | k in s && k != m ensures Before(m, k) {
        assert k == o || k in s - {o};
        assert k == n || k == o || Before(n, k);
      }
    }
  }

  /** ORDER BY sort_column DESC, id DESC LIMIT n. */
  ghost function Top(s: set<Key>, n: nat): (r: seq<Key>)
    ensures Descending(r)
    ensures |r| == if n <= |s| then n else |s|
    ensures forall k: Key | k in r :: k in s
    ensures forall k: Key | k in s && k !in r :: |r| == n && forall i: nat | i < |r| :: Before(r[i], k)
  {
    if n == 0 || s == {} then []
    else
      assert exists m: Key :: IsFirst(s, m) by { var m := FirstExists(s); }
      var m: Key :| IsFirst(s, m);
      [m] + Top(s - {m}, n - 1)
  }

  predicate AfterCursor(cursor: Option<Key>, k: Key) {
    cursor.Some? ==> Before(cursor.value, k)
  }

  /** The rows the WHERE clauses leave. */
  function Rest(visible: set<Key>, cursor: Option<Key>): set<Key> {
    set k: Key | k in visible && AfterCursor(cursor, k)
  }

  ghost function Page(visible: set<Key>, cursor: Option<Key>, limit: nat): seq<Key> {
    Top(Rest(visible, cursor), limit)
  }

  /** A client that follows next_cursor. snaps[i] is what is visible at its i-th fetch; a page shorter
      than the limit carries no cursor and ends the walk. */
  ghost function Walk(snaps: seq<set<Key>>, cursor: Option<Key>, limit: nat): (pages: seq<seq<Key>>)
    requires limit > 0
    ensures |pages| <= |snaps|
    decreases |snaps|
  {
    if snaps == [] then []
    else
      var page := Page(snaps[0], cursor, limit);
      if |page| == limit then [page] + Walk(snaps[1..], Some(page[limit - 1]), limit) else [page]
  }

  function Flatten(pages: seq<seq<Key>>): seq<Key> {
    if pages == [] then [] else pages[0] + Flatten(pages[1..])
  }

  predicate IsFinished(pages: seq<seq<Key>>, limit: nat) {
    pages != [] && |pages[|pages| - 1]| < limit
  }

  /** Whatever happens to the table between the fetches, the walk yields strictly descending keys,
      so it never shows the same key twice; every one lies after the cursor it started from. */
  lemma {:induction false} WalkDescends(snaps: seq<set<Key>>, cursor: Option<Key>, limit: nat)
    requires limit > 0
    ensures Descending(Flatten(Walk(snaps, cursor, limit)))
    ensures forall k: Key | k in Flatten(Walk(snaps, cursor, limit)) :: AfterCursor(cursor, k)
    decreases |snaps|
  {
    if snaps != [] {
      var page := Page(snaps[0], cursor, limit);
      if |page| == limit {
        WalkDescends(snaps[1..], Some(page[limit - 1]), limit);
        Joined(page, Flatten(Walk(snaps[1..], Some(page[limit - 1]), limit)));
        assert Walk(snaps, cursor, limit)[1..] == Walk(snaps[1..], Some(page[limit - 1]), limit);
      } else {
        assert Flatten([page]) == page;
      }
    }
  }

  lemma Joined(a: seq<Key>, b: seq<Key>)
    requires Descending(a) && Descending(b) && a != []
    requires forall k: Key | k in b :: Before(a[|a| - 1], k)
    ensures Descending(a + b)
  {
    forall i: nat, j: nat | i < j < |a + b| ensures Before((a + b)[i], (a + b)[j]) {
      if i < |a| <= j { assert b[j - |a|] in b; }
    }
  }

  /** Every key shown was visible at the fetch that showed it. */
  lemma {:induction false} WalkShowsVisible(snaps: seq<set<Key>>, cursor: Option<Key>, limit: nat, k: Key)
                                            returns (i: nat)
    requires limit > 0 && k in Flatten(Walk(snaps, cursor, limit))
    ensures i < |Walk(snaps, cursor, limit)| && k in Walk(snaps, cursor, limit)[i] && k in snaps[i]
    decreases |snaps|
  {
    var page := Page(snaps[0], cursor, limit);
    if k in page {
      i := 0;
    } else {
      var rest := Walk(snaps[1..], Some(page[limit - 1]), limit);
      assert Walk(snaps, cursor, limit) == [page] + rest;
      var n := WalkShowsVisible(snaps[1..], Some(page[limit - 1]), limit, k);
      i := n + 1;
    }
  }

  /** A finished walk has shown every key that was visible at each of its fetches. */
  lemma {:induction false} WalkMissesNothing(snaps: seq<set<Key>>, cursor: Option<Key>, limit: nat, k: Key)
    requires limit > 0 && IsFinished(Walk(snaps, cursor, limit), limit)
    requires AfterCursor(cursor, k)
    requires forall i: nat | i < |Walk(snaps, cursor, limit)| :: k in snaps[i]
    ensures k in Flatten(Walk(snaps, cursor, limit))
    decreases |snaps|
  {
    var page := Page(snaps[0], cursor, limit);
    var pages := Walk(snaps, cursor, limit);
    assert k in snaps[0];
    if |page| == limit {
      var rest := Walk(snaps[1..], Some(page[limit - 1]), limit);
      assert pages == [page] + rest && pages[1..] == rest;
      if k !in page {
        forall i: nat | i < |rest| ensures k in snaps[1..][i] {
          assert k in snaps[i + 1];
        }
        assert rest != [];
        WalkMissesNothing(snaps[1..], Some(page[limit - 1]), limit, k);
      }
    }
  }

  /** The keys of a row never change from one snapshot to another. */
  ghost predicate KeysAreStable(snaps: seq<set<Key>>) {
    forall i: nat, j: nat, a: Key, b: Key | i < |snaps| && j < |snaps| && a in snaps[i] && b in snaps[j]
        && a.id == b.id :: a == b
  }

  /** With stable keys a walk never shows a row twice. */
  lemma WalkShowsOnce(snaps: seq<set<Key>>, limit: nat)
    requires limit > 0 && KeysAreStable(snaps)
    ensures var shown := Flatten(Walk(snaps, None, limit));
            forall x: nat, y: nat | x < y < |shown| :: shown[x].id != shown[y].id
  {
    var shown := Flatten(Walk(snaps, None, limit));
    WalkDescends(snaps, None, limit);
    forall x: nat, y: nat | x < y < |shown| ensures shown[x].id != shown[y].id {
      var i := WalkShowsVisible(snaps, None, limit, shown[x]);
      var j := WalkShowsVisible(snaps, None, limit, shown[y]);
      assert Before(shown[x], shown[y]);
    }
  }

  // ─── An unchanging table ────────────────────────────────────────────────────

  predicate AllAre(snaps: seq<set<Key>>, visible: set<Key>) {
    forall i: nat | i < |snaps| :: snaps[i] == visible
  }

  function NonEmpty(pages: seq<seq<Key>>): nat {
    if pages == [] then 0 else (if pages[0] == [] then 0 else 1) + NonEmpty(pages[1..])
  }

  /** math.ceil(n / limit). */
  function TotalPages(n: nat, limit: nat): nat
    requires limit > 0
  {
    (n + limit - 1) / limit
  }

  lemma Distinct(keys: seq<Key>)
    requires Descending(keys)
    ensures |set k: Key | k in keys| == |keys|
  {
    if keys != [] {
      var init, last := keys[..|keys| - 1], keys[|keys| - 1];
      Distinct(init);
      assert (set k: Key | k in keys) == (set k: Key | k in init) + {last};
      assert last !in init;
    }
  }

  /** Behind a full page remains what was there, less the page. */
  lemma RestShrinks(visible: set<Key>, cursor: Option<Key>, limit: nat)
    requires limit > 0 && |Page(visible, cursor, limit)| == limit
    ensures var page := Page(visible, cursor, limit);
            |Rest(visible, Some(page[limit - 1]))| == |Rest(visible, cursor)| - limit
  {
    var page := Page(visible, cursor, limit);
    var shown := set k: Key | k in page;
    var before, after := Rest(visible, cursor), Rest(visible, Some(page[limit - 1]));
    forall k: Key ensures k in after <==> k in before && k !in shown {
      if k in page {
        var i: nat :| i < |page| && page[i] == k;
        assert i < limit - 1 ==> Before(page[i], page[limit - 1]);
      }
      if k in after { assert page[limit - 1] in before; }
    }
    assert after == before - shown;
    Distinct(page);
    assert shown <= before;
  }

  /** A full first page is one fetch with rows in front of the rest of the walk. */
  lemma NextFetch(snaps: seq<set<Key>>, cursor: Option<Key>, limit: nat)
    requires limit > 0 && snaps != [] && |Page(snaps[0], cursor, limit)| == limit
    ensures var rest := Walk(snaps[1..], Some(Page(snaps[0], cursor, limit)[limit - 1]), limit);
            && |Walk(snaps, cursor, limit)| == |rest| + 1
            && NonEmpty(Walk(snaps, cursor, limit)) == NonEmpty(rest) + 1
            && (IsFinished(rest, limit) ==> IsFinished(Walk(snaps, cursor, limit), limit))
  {
  }

  /** q full pages and r further rows: q + 1 fetches, the last of which is short. */
  lemma {:induction false} StableWalk(snaps: seq<set<Key>>, visible: set<Key>, cursor: Option<Key>, limit: nat,
                                      q: nat, r: nat)
    requires r < limit && |Rest(visible, cursor)| == q * limit + r
    requires AllAre(snaps, visible) && |snaps| > q
    ensures var pages := Walk(snaps, cursor, limit);
            |pages| == q + 1 && IsFinished(pages, limit) && NonEmpty(pages) == q + if r > 0 then 1 else 0
    decreases q
  {
    if q > 0 {
      OneFewer(q, limit);
      var page := Page(snaps[0], cursor, limit);
      RestShrinks(snaps[0], cursor, limit);
      StableWalk(snaps[1..], visible, Some(page[limit - 1]), limit, q - 1, r);
      NextFetch(snaps, cursor, limit);
    } else {
      LastFetch(snaps, cursor, limit);
    }
  }

  lemma OneFewer(q: nat, limit: nat)
    requires q > 0
    ensures q * limit == (q - 1) * limit + limit && (q - 1) * limit >= 0
  {
  }

  lemma LastFetch(snaps: seq<set<Key>>, cursor: Option<Key>, limit: nat)
    requires snaps != [] && |Rest(snaps[0], cursor)| < limit
    ensures var pages := Walk(snaps, cursor, limit);
            |pages| == 1 && IsFinished(pages, limit) && NonEmpty(pages) == if |Rest(snaps[0], cursor)| > 0 then 1 else 0
  {
  }

  /** With n rows to show, a client that keeps going makes floor(n / limit) + 1 fetches, of which
      exactly total_pages come back with rows, and then it has finished. */
  lemma FetchesOfAStableWalk(snaps: seq<set<Key>>, visible: set<Key>, limit: nat)
    requires limit > 0 && AllAre(snaps, visible) && |snaps| > |visible| / limit
    ensures var pages, n := Walk(snaps, None, limit), |visible|;
            |pages| == n / limit + 1 && IsFinished(pages, limit) && NonEmpty(pages) == TotalPages(n, limit)
  {
    var n := |visible|;
    assert Rest(visible, None) == visible;
    EuclideanDivision(n, limit);
    StableWalk(snaps, visible, None, limit, n / limit, n % limit);
    TotalPagesRoundsUp(n, limit);
  }

  lemma TotalPagesRoundsUp(n: nat, limit: nat)
    requires limit > 0
    ensures TotalPages(n, limit) == n / limit + if n % limit > 0 then 1 else 0
  {
    EuclideanDivision(n, limit);
    var q, r := n / limit, n % limit;
    if r > 0 {
      QuotientIsUnique(n + limit - 1, limit, q + 1, r - 1);
    } else {
      QuotientIsUnique(n + limit - 1, limit, q, limit - 1);
    }
  }
}
