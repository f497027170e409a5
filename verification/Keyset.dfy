/** Keyset pagination, for any strict total order of the rows' sort keys. */
module Keyset {
  import opened Collections
  import opened Sql

  ghost predicate StrictTotal<K(!new)>(before: (K, K) -> bool) {
    && (forall a :: !before(a, a))
    && (forall a, b, c :: before(a, b) && before(b, c) ==> before(a, c))
    && (forall a, b :: before(a, b) || before(b, a) || a == b)
  }

  ghost predicate Ascending<K(!new)>(before: (K, K) -> bool, s: seq<K>) {
    forall i, j :: 0 <= i < j < |s| ==> before(s[i], s[j])
  }

  /** `order by`: the rows in ascending order, each once. */
  ghost predicate Lists<K(!new)>(before: (K, K) -> bool, s: seq<K>, rows: set<K>) {
    Ascending(before, s) && (forall k :: k in s <==> k in rows)
  }

  lemma {:induction false} LeastExists<K(!new)>(before: (K, K) -> bool, rows: set<K>) returns (m: K)
    requires StrictTotal(before) && rows != {}
    ensures m in rows && forall k :: k in rows && k != m ==> before(m, k)
    decreases |rows|
  {
    m :| m in rows;
    var rest := rows - {m};
    if rest != {} {
      var n := LeastExists(before, rest);
      var first := m;
      if before(n, first) {
        m := n;
        forall k | k in rows && k != m ensures before(m, k) {
          if k != first { assert k in rest; }
        }
      } else {
        assert before(first, n);
        forall k | k in rest ensures before(first, k) {
          if k != n { assert before(n, k); }
        }
      }
    }
  }

  lemma {:induction false} ListingExists<K(!new)>(before: (K, K) -> bool, rows: set<K>)
    requires StrictTotal(before)
    ensures exists s :: Lists(before, s, rows)
    decreases |rows|
  {
    if rows == {} {
      assert Lists(before, [], rows);
    } else {
      var m := LeastExists(before, rows);
      ListingExists(before, rows - {m});
      var s :| Lists(before, s, rows - {m});
      var all := [m] + s;
      assert forall k :: k in all <==> k == m || k in s;
      forall i, j | 0 <= i < j < |all| ensures before(all[i], all[j]) {
        assert all[j] in s;
      }
      assert Lists(before, all, rows);
    }
  }

  ghost function Listing<K(!new)>(before: (K, K) -> bool, rows: set<K>): (s: seq<K>)
    requires StrictTotal(before)
    ensures Lists(before, s, rows)
  {
    ListingExists(before, rows);
    var s :| Lists(before, s, rows);
    s
  }

  lemma {:induction false} ListingUnique<K(!new)>(before: (K, K) -> bool, s: seq<K>, r: seq<K>, rows: set<K>)
    requires StrictTotal(before) && Lists(before, s, rows) && Lists(before, r, rows)
    ensures s == r
    decreases |s|
  {
    if s == [] {
      assert forall k :: k !in s && k !in r;
      assert forall i :: 0 <= i < |r| ==> r[i] in r;
    } else {
      assert s[0] in s && s[0] in r;
      assert r[0] in r && r[0] in s;
      var i :| 0 <= i < |r| && r[i] == s[0];
      var j :| 0 <= j < |s| && s[j] == r[0];
      assert i == 0 && j == 0;
      TailLists(before, s, rows);
      TailLists(before, r, rows);
      ListingUnique(before, s[1..], r[1..], rows - {s[0]});
      assert s == [s[0]] + s[1..] && r == [r[0]] + r[1..];
    }
  }

  lemma TailLists<K(!new)>(before: (K, K) -> bool, s: seq<K>, rows: set<K>)
    requires StrictTotal(before) && Lists(before, s, rows) && s != []
    ensures Lists(before, s[1..], rows - {s[0]})
  {
    forall k ensures k in s[1..] <==> k in rows - {s[0]} {
      if k in s[1..] {
        var i :| 0 <= i < |s| - 1 && s[1..][i] == k;
        assert s[i + 1] == k && before(s[0], s[i + 1]);
      }
      if k in rows - {s[0]} {
        assert k in s;
        var i :| 0 <= i < |s| && s[i] == k;
        assert s[1..][i - 1] == k;
      }
    }
  }

  // ---- one page ----

  /** Rows the keyset predicate lets through: all of them on the first page, else those after the cursor. */
  ghost function Beyond<K(!new)>(before: (K, K) -> bool, rows: set<K>, cursor: Option<K>): set<K> {
    set k | k in rows && (cursor.None? || before(cursor.value, k))
  }

  datatype Page<K> = Page(items: seq<K>, next: Option<K>)

  /** The query fetches limit + 1 rows in order; the service trims the extra row
      and turns the last kept one into the next cursor. */
  ghost function FetchPage<K(!new)>(before: (K, K) -> bool, rows: set<K>, cursor: Option<K>, limit: nat): Page<K>
    requires StrictTotal(before) && limit >= 1
  {
    var all := Listing(before, Beyond(before, rows, cursor));
    var fetched := if |all| > limit + 1 then all[..limit + 1] else all;
    if |fetched| > limit then Page(fetched[..limit], Some(fetched[limit - 1])) else Page(fetched, None)
  }

  lemma PageIsPrefix<K(!new)>(before: (K, K) -> bool, rows: set<K>, cursor: Option<K>, limit: nat)
    requires StrictTotal(before) && limit >= 1
    ensures var all := Listing(before, Beyond(before, rows, cursor));
            var p := FetchPage(before, rows, cursor, limit);
            && |p.items| <= limit && |p.items| <= |all| && p.items == all[..|p.items|]
            && (p.next.None? ==> p.items == all)
            && (p.next.Some? ==> |p.items| == limit && p.next.value == p.items[limit - 1])
  {}

  /** After a page, exactly the rows not yet listed remain. */
  lemma RestBeyondNext<K(!new)>(before: (K, K) -> bool, rows: set<K>, cursor: Option<K>, limit: nat)
    requires StrictTotal(before) && limit >= 1
    requires FetchPage(before, rows, cursor, limit).next.Some?
    ensures var all := Listing(before, Beyond(before, rows, cursor));
            var p := FetchPage(before, rows, cursor, limit);
            Listing(before, Beyond(before, rows, p.next)) == all[|p.items|..]
    ensures var p := FetchPage(before, rows, cursor, limit);
            |Beyond(before, rows, p.next)| < |Beyond(before, rows, cursor)|
  {
    var all := Listing(before, Beyond(before, rows, cursor));
    var p := FetchPage(before, rows, cursor, limit);
    var rest := all[limit..];
    var here, there := Beyond(before, rows, cursor), Beyond(before, rows, p.next);
    assert p.next.value == all[limit - 1] && all[limit - 1] in all;
    forall k ensures k in rest <==> k in there {
      if k in rest {
        var i :| 0 <= i < |rest| && rest[i] == k;
        assert all[limit + i] == k && before(all[limit - 1], all[limit + i]) && k in all;
      }
      if k in there {
        assert cursor.Some? ==> before(cursor.value, p.next.value);
        assert k in here && k in all;
        var i :| 0 <= i < |all| && all[i] == k;
        assert i >= limit;
        assert rest[i - limit] == k;
      }
    }
    ListingUnique(before, Listing(before, there), rest, there);
    assert there <= here && p.next.value in here && p.next.value !in there;
    ProperSubsetSmaller(there, here, p.next.value);
  }

  lemma ProperSubsetSmaller<K>(a: set<K>, b: set<K>, x: K)
    requires a <= b && x in b && x !in a
    ensures |a| < |b|
  {
    SubsetSize(a, b - {x});
  }

  // ---- following the cursors of an unchanging table ----

  /** The concatenated pages a client gets by following next cursors to the end. */
  ghost function FollowCursors<K(!new)>(before: (K, K) -> bool, rows: set<K>, cursor: Option<K>, limit: nat): seq<K>
    requires StrictTotal(before) && limit >= 1
    decreases |Beyond(before, rows, cursor)|
  {
    var p := FetchPage(before, rows, cursor, limit);
    if p.next.None? then p.items
    else
      RestBeyondNext(before, rows, cursor, limit);
      p.items + FollowCursors(before, rows, p.next, limit)
  }

  lemma {:induction false} PagesFromCursor<K(!new)>(before: (K, K) -> bool, rows: set<K>, cursor: Option<K>, limit: nat)
    requires StrictTotal(before) && limit >= 1
    ensures FollowCursors(before, rows, cursor, limit) == Listing(before, Beyond(before, rows, cursor))
    decreases |Beyond(before, rows, cursor)|
  {
    var all := Listing(before, Beyond(before, rows, cursor));
    var p := FetchPage(before, rows, cursor, limit);
    PageIsPrefix(before, rows, cursor, limit);
    if p.next.Some? {
      RestBeyondNext(before, rows, cursor, limit);
      PagesFromCursor(before, rows, p.next, limit);
      calc {
        FollowCursors(before, rows, cursor, limit);
        p.items + FollowCursors(before, rows, p.next, limit);
        all[..|p.items|] + all[|p.items|..];
        all;
      }
    }
  }

  /** For every table and page size, the pages are the whole ordered list: nothing missing, nothing repeated. */
  lemma PagesAreWholeList<K(!new)>(before: (K, K) -> bool, rows: set<K>, limit: nat)
    requires StrictTotal(before) && limit >= 1
    ensures FollowCursors(before, rows, None, limit) == Listing(before, rows)
  {
    PagesFromCursor(before, rows, None, limit);
    assert Beyond(before, rows, None) == rows;
  }

  // ---- following cursors while the table changes ----

  /** The rows served when the i-th request finds the table holding states[i]. */
  ghost function Chain<K(!new)>(before: (K, K) -> bool, states: seq<set<K>>, cursor: Option<K>, limit: nat): seq<K>
    requires StrictTotal(before) && limit >= 1
  {
    if states == [] then []
    else
      var p := FetchPage(before, states[0], cursor, limit);
      if p.next.None? then p.items else p.items + Chain(before, states[1..], p.next, limit)
  }

  /** The chain reached a page without a next cursor. */
  ghost predicate Finished<K(!new)>(before: (K, K) -> bool, states: seq<set<K>>, cursor: Option<K>, limit: nat)
    requires StrictTotal(before) && limit >= 1
  {
    states != [] && var p := FetchPage(before, states[0], cursor, limit);
    p.next.None? || Finished(before, states[1..], p.next, limit)
  }

  /** Whatever happens between requests, the served rows are strictly ordered (so
      never repeated), each was in the table when its page was served, and all lie after the cursor. */
  lemma {:induction false} ChainAscends<K(!new)>(before: (K, K) -> bool, states: seq<set<K>>, cursor: Option<K>,
                                                 limit: nat)
    requires StrictTotal(before) && limit >= 1
    ensures var c := Chain(before, states, cursor, limit);
            && Ascending(before, c)
            && (forall k :: k in c ==>
                  (cursor.None? || before(cursor.value, k)) && exists i :: 0 <= i < |states| && k in states[i])
    decreases |states|
  {
    if states != [] {
      var p := FetchPage(before, states[0], cursor, limit);
      PageIsPrefix(before, states[0], cursor, limit);
      var all := Listing(before, Beyond(before, states[0], cursor));
      forall k | k in p.items ensures k in states[0] && (cursor.None? || before(cursor.value, k)) {
        assert k in all;
      }
      if p.next.Some? {
        var rest := Chain(before, states[1..], p.next, limit);
        ChainAscends(before, states[1..], p.next, limit);
        assert p.items[limit - 1] in p.items;
        forall i, j | 0 <= i < j < |p.items + rest| ensures before((p.items + rest)[i], (p.items + rest)[j]) {
          if j >= |p.items| {
            assert rest[j - |p.items|] in rest;
            assert before(p.next.value, rest[j - |p.items|]);
          }
        }
        forall k | k in p.items + rest
          ensures (cursor.None? || before(cursor.value, k)) && exists i :: 0 <= i < |states| && k in states[i]
        {
          if k in rest {
            var i :| 0 <= i < |states[1..]| && k in states[1..][i];
            assert k in states[i + 1];
          }
        }
      }
    }
  }

  /** A row that was in the table at every request is served by a finished chain. */
  lemma {:induction false} ChainServes<K(!new)>(before: (K, K) -> bool, states: seq<set<K>>, cursor: Option<K>,
                                                limit: nat, k: K)
    requires StrictTotal(before) && limit >= 1 && Finished(before, states, cursor, limit)
    requires forall i :: 0 <= i < |states| ==> k in states[i]
    requires cursor.None? || before(cursor.value, k)
    ensures k in Chain(before, states, cursor, limit)
    decreases |states|
  {
    var p := FetchPage(before, states[0], cursor, limit);
    var all := Listing(before, Beyond(before, states[0], cursor));
    PageIsPrefix(before, states[0], cursor, limit);
    assert k in all;
    var i :| 0 <= i < |all| && all[i] == k;
    if i < |p.items| {
      assert p.items[i] == k;
    } else {
      assert before(all[limit - 1], all[i]);
      ChainServes(before, states[1..], p.next, limit, k);
    }
  }
}
