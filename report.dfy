/**
 * The merge and ordering of `main` in main.py: the pull-request and commit
 * dictionaries are merged by union of keys, then the contributors are sorted
 * by (prs, commits, lines), descending.
 */
module Report {
  import opened Items
  import opened Aggregation

  function PrsIn(m: map<Key, Counters>, k: Key): nat {
    if k in m then m[k].prs else 0
  }

  function CommitsIn(m: map<Key, Counters>, k: Key): nat {
    if k in m then m[k].commits else 0
  }

  function LinesIn(m: map<Key, Counters>, k: Key): int {
    if k in m then m[k].lines else 0
  }

  /**
   * The merged dictionary: every key of either source; `prs` from the
   * pull-request stats, `commits` from the commit stats (0 where a source
   * lacks the key), `lines` the sum of both sources.
   */
  function Merge(pr: map<Key, Counters>, cm: map<Key, Counters>): map<Key, Counters> {
    map k | k in pr.Keys + cm.Keys :: Counters(PrsIn(pr, k), CommitsIn(cm, k), LinesIn(pr, k) + LinesIn(cm, k))
  }

  /**
   * The two loops of `main` that fill `user_stats`: the first assigns `prs`
   * and adds `lines` from the pull-request stats, the second assigns
   * `commits` and adds `lines` from the commit stats. Keys are visited in an
   * arbitrary order; the result does not depend on it.
   */
  method MergeStats(pr: map<Key, Counters>, cm: map<Key, Counters>) returns (stats: map<Key, Counters>)
    ensures stats == Merge(pr, cm)
  {
    stats := map[];
    var todo := pr.Keys;
    while todo != {}
      invariant todo <= pr.Keys
      invariant stats.Keys == pr.Keys - todo
      invariant forall k | k in stats :: stats[k] == Counters(pr[k].prs, 0, pr[k].lines)
      decreases todo
    {
      var user :| user in todo;
      todo := todo - {user};
      if user !in stats {
        stats := stats[user := Zero];
      }
      stats := stats[user := stats[user].(prs := pr[user].prs)];
      stats := stats[user := stats[user].(lines := stats[user].lines + pr[user].lines)];
    }
    todo := cm.Keys;
    while todo != {}
      invariant todo <= cm.Keys
      invariant stats.Keys == pr.Keys + (cm.Keys - todo)
      invariant forall k | k in stats ::
                  var seen := k in cm && k !in todo;
                  stats[k] == Counters(PrsIn(pr, k), if seen then cm[k].commits else 0,
                                       LinesIn(pr, k) + if seen then cm[k].lines else 0)
      decreases todo
    {
      var user :| user in todo;
      todo := todo - {user};
      if user !in stats {
        stats := stats[user := Zero];
      }
      stats := stats[user := stats[user].(commits := cm[user].commits)];
      stats := stats[user := stats[user].(lines := stats[user].lines + cm[user].lines)];
    }
  }

  /**
   * Merging the two folds: a key is in the report exactly when some pull
   * request or commit resolved to it; its `prs` and `commits` count those,
   * so at least one of them is positive, and its `lines` add up both kinds
   * of contribution.
   */
  lemma MergeOfTallies(prs: seq<Entry>, commits: seq<Entry>)
    ensures var m := Merge(Tally(Pulls, prs), Tally(Commits, commits));
      && (forall k :: k in m <==> Occurrences(prs, k) > 0 || Occurrences(commits, k) > 0)
      && (forall k | k in m ::
            && m[k].prs == Occurrences(prs, k)
            && m[k].commits == Occurrences(commits, k)
            && m[k].lines == LinesOf(prs, k) + LinesOf(commits, k)
            && (m[k].prs > 0 || m[k].commits > 0))
  {
    var pr, cm := Tally(Pulls, prs), Tally(Commits, commits);
    TallyCounts(Pulls, prs);
    TallyCounts(Commits, commits);
    forall k | k !in pr
      ensures Occurrences(prs, k) == 0 && LinesOf(prs, k) == 0
    {
      LinesOfAbsent(prs, k);
    }
    forall k | k !in cm
      ensures Occurrences(commits, k) == 0 && LinesOf(commits, k) == 0
    {
      LinesOfAbsent(commits, k);
    }
  }

  /** One line of the report: a contributor and their counters. */
  datatype Row = Row(user: Key, stats: Counters)

  /** `a` sorts no later than `b`: the tuple (prs, commits, lines) of `a` is at least that of `b`. */
  predicate AtLeast(a: Counters, b: Counters) {
    || a.prs > b.prs
    || (a.prs == b.prs && (a.commits > b.commits || (a.commits == b.commits && a.lines >= b.lines)))
  }

  /** The tuples never increase along the rows. */
  predicate Descending(rows: seq<Row>) {
    forall i, j | 0 <= i < j < |rows| :: AtLeast(rows[i].stats, rows[j].stats)
  }

  /** `x` placed before the first row it is at least. */
  function Insert(x: Row, rows: seq<Row>): (r: seq<Row>)
    ensures multiset(r) == multiset(rows) + multiset{x}
    ensures Descending(rows) ==> Descending(r)
  {
    if rows == [] || AtLeast(x.stats, rows[0].stats) then [x] + rows
    else
      var r := [rows[0]] + Insert(x, rows[1..]);
      assert rows == [rows[0]] + rows[1..];
      assert Descending(rows) ==> Descending(r) by {
        if Descending(rows) {
          forall j | 1 <= j < |r| ensures AtLeast(rows[0].stats, r[j].stats) {
            assert r[j] in multiset(rows[1..]) + multiset{x};
            if r[j] != x {
              assert r[j] in rows[1..];
            }
          }
        }
      }
      r
  }

  /**
   * `sorted(rows, key=(prs, commits, lines), reverse=True)`: a descending,
   * stable insertion sort.
   */
  function SortDescending(rows: seq<Row>): (r: seq<Row>)
    ensures multiset(r) == multiset(rows)
    ensures Descending(r)
  {
    if rows == [] then []
    else
      assert rows == [rows[0]] + rows[1..];
      Insert(rows[0], SortDescending(rows[1..]))
  }

  /** The rows whose counters are exactly `c`, in order. */
  function WithStats(rows: seq<Row>, c: Counters): seq<Row> {
    if rows == [] then []
    else (if rows[0].stats == c then [rows[0]] else []) + WithStats(rows[1..], c)
  }

  lemma {:induction false} InsertStable(x: Row, rows: seq<Row>, c: Counters)
    ensures WithStats(Insert(x, rows), c) == (if x.stats == c then [x] else []) + WithStats(rows, c)
  {
    if rows != [] && !AtLeast(x.stats, rows[0].stats) {
      InsertStable(x, rows[1..], c);
    }
  }

  /**
   * The sort is stable, as Python's is: rows with equal counters keep their
   * relative order. Together with Descending and the permutation this fixes
   * the output completely.
   */
  lemma {:induction false} SortStable(rows: seq<Row>, c: Counters)
    ensures WithStats(SortDescending(rows), c) == WithStats(rows, c)
  {
    if rows != [] {
      SortStable(rows[1..], c);
      InsertStable(rows[0], SortDescending(rows[1..]), c);
    }
  }

  /** `rows` lists the items of `m`, each once. */
  ghost predicate Lists(rows: seq<Row>, m: map<Key, Counters>) {
    && |rows| == |m|
    && forall r :: r in rows <==> r.user in m && m[r.user] == r.stats
  }

  /** Sorting a listing of the merged dictionary lists the same dictionary. */
  lemma SortedListing(rows: seq<Row>, m: map<Key, Counters>)
    requires Lists(rows, m)
    ensures Lists(SortDescending(rows), m)
  {
    var sorted := SortDescending(rows);
    assert |sorted| == |multiset(sorted)| == |multiset(rows)| == |rows|;
    forall r ensures r in sorted <==> r in rows {
      assert r in sorted <==> r in multiset(sorted);
      assert r in rows <==> r in multiset(rows);
    }
  }
}
