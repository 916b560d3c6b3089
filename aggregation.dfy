/**
 * The per-endpoint fold of main.py (`get_user_stats_per_endpoint`): each
 * listed item bumps one counter of its contributor and adds its line total.
 *
 * `Entries` is what each item contributes (or the first exception raised),
 * `Tally` the dictionary the fold builds from those contributions, and the
 * method `GetUserStatsPerEndpoint` the loop itself, proved to build it.
 */
module Aggregation {
  import opened Wrappers
  import opened Items
  import Pagination

  datatype Endpoint = Pulls | Commits

  /** The `{'prs', 'commits', 'lines'}` record of one contributor. */
  datatype Counters = Counters(prs: nat, commits: nat, lines: int)

  const Zero: Counters := Counters(0, 0, 0)

  /** One item's contribution: its resolved identity and its line total. */
  datatype Entry = Entry(key: Key, lines: int)

  /** The counter the endpoint increments. */
  function Count(c: Counters, ep: Endpoint): nat {
    if ep == Pulls then c.prs else c.commits
  }

  /** The counter the endpoint leaves alone. */
  function Other(c: Counters, ep: Endpoint): nat {
    if ep == Pulls then c.commits else c.prs
  }

  /** A pull request: its identity, then the file changes of `{url}/files`. */
  function PullEntry(item: Item, api: Api): Result<Entry, Error> {
    var key :- PullIdentity(item);
    if item.url.Present? then Ok(Entry(key, PullLines(api.pullFiles(item.url.value + "/files"))))
    else Err(NoPullUrl)
  }

  /** A commit: its identity, then additions + deletions of its detail. */
  function CommitEntry(item: Item, api: Api): Result<Entry, Error> {
    var key :- CommitIdentity(item);
    var delta :- CommitDetails(api.commitDetail(ShaText(item.sha)));
    Ok(Entry(key, delta.0 + delta.1))
  }

  function ItemEntry(ep: Endpoint, item: Item, api: Api): Result<Entry, Error> {
    if ep == Pulls then PullEntry(item, api) else CommitEntry(item, api)
  }

  /** The contributions of all items in order, or the first exception. */
  function Entries(ep: Endpoint, items: seq<Item>, api: Api): Result<seq<Entry>, Error> {
    if items == [] then Ok([])
    else
      var e :- ItemEntry(ep, items[0], api);
      var rest :- Entries(ep, items[1..], api);
      Ok([e] + rest)
  }

  /** One contribution added to a contributor's counters. */
  function Bump(c: Counters, ep: Endpoint, lines: int): Counters {
    if ep == Pulls then c.(prs := c.prs + 1, lines := c.lines + lines)
    else c.(commits := c.commits + 1, lines := c.lines + lines)
  }

  /** One contribution added to the dictionary, creating a zero record first. */
  function Add(m: map<Key, Counters>, ep: Endpoint, e: Entry): map<Key, Counters> {
    var c := if e.key in m then m[e.key] else Zero;
    m[e.key := Bump(c, ep, e.lines)]
  }

  /** The dictionary built from the contributions, left to right. */
  function Tally(ep: Endpoint, es: seq<Entry>): map<Key, Counters> {
    if es == [] then map[] else Add(Tally(ep, es[..|es| - 1]), ep, es[|es| - 1])
  }

  /** The whole fold: the dictionary, or the exception that aborts it. */
  function UserStats(ep: Endpoint, items: seq<Item>, api: Api): Result<map<Key, Counters>, Error> {
    var es :- Entries(ep, items, api);
    Ok(Tally(ep, es))
  }

  function Prepend(done: seq<Entry>, r: Result<seq<Entry>, Error>): Result<seq<Entry>, Error> {
    match r
    case Ok(rest) => Ok(done + rest)
    case Err(e) => Err(e)
  }

  /** Prepending in two steps is prepending once. */
  lemma PrependPrepend(done: seq<Entry>, e: Entry, r: Result<seq<Entry>, Error>)
    ensures Prepend(done, Prepend([e], r)) == Prepend(done + [e], r)
  {
    if r.Ok? {
      assert done + ([e] + r.value) == (done + [e]) + r.value;
    }
  }

  /**
   * The body of the `for item in items` loop of
   * `get_user_stats_per_endpoint` for one item, updating the `user_stats`
   * dictionary in the order the source does: resolve the identity, create
   * its zero record, bump the endpoint's counter, fetch and add the lines.
   */
  method CountItem(ep: Endpoint, stats: map<Key, Counters>, item: Item, api: Api)
    returns (r: Result<map<Key, Counters>, Error>)
    ensures ItemEntry(ep, item, api).Err? ==> r == Err(ItemEntry(ep, item, api).error)
    ensures ItemEntry(ep, item, api).Ok? ==> r == Ok(Add(stats, ep, ItemEntry(ep, item, api).value))
  {
    var id := if ep == Pulls then PullIdentity(item) else CommitIdentity(item);
    if id.Err? {
      assert ItemEntry(ep, item, api) == Err(id.error);
      return Err(id.error);
    }
    var key := id.value;
    var updated := stats;
    if key !in updated {
      updated := updated[key := Zero];
    }
    var lines := 0;
    if ep == Pulls {
      updated := updated[key := updated[key].(prs := updated[key].prs + 1)];
      if !item.url.Present? {
        assert ItemEntry(ep, item, api) == Err(NoPullUrl);
        return Err(NoPullUrl);
      }
      var response := api.pullFiles(item.url.value + "/files");
      if response.status == 200 {
        lines := SumChanges(response.files);
        updated := updated[key := updated[key].(lines := updated[key].lines + lines)];
      }
    } else {
      updated := updated[key := updated[key].(commits := updated[key].commits + 1)];
      var delta := CommitDetails(api.commitDetail(ShaText(item.sha)));
      if delta.Err? {
        assert ItemEntry(ep, item, api) == Err(delta.error);
        return Err(delta.error);
      }
      lines := delta.value.0 + delta.value.1;
      updated := updated[key := updated[key].(lines := updated[key].lines + lines)];
    }
    assert ItemEntry(ep, item, api) == Ok(Entry(key, lines));
    assert updated == Add(stats, ep, Entry(key, lines));
    r := Ok(updated);
  }

  /**
   * The `for item in items` loop of `get_user_stats_per_endpoint`: the first
   * exception aborts the whole fold.
   */
  method GetUserStatsPerEndpoint(ep: Endpoint, items: seq<Item>, api: Api)
    returns (r: Result<map<Key, Counters>, Error>)
    ensures r == UserStats(ep, items, api)
  {
    var stats: map<Key, Counters> := map[];
    ghost var done: seq<Entry> := [];
    assert items[0..] == items;
    assert forall rest: seq<Entry> :: [] + rest == rest;
    for i := 0 to |items|
      invariant Entries(ep, items, api) == Prepend(done, Entries(ep, items[i..], api))
      invariant stats == Tally(ep, done)
    {
      assert items[i..][0] == items[i] && items[i..][1..] == items[i + 1..];
      var next := CountItem(ep, stats, items[i], api);
      if next.Err? {
        return Err(next.error);
      }
      ghost var e := ItemEntry(ep, items[i], api).value;
      PrependPrepend(done, e, Entries(ep, items[i + 1..], api));
      assert (done + [e])[..|done|] == done;
      stats := next.value;
      done := done + [e];
    }
    assert items[|items|..] == [] && done + [] == done;
    r := Ok(stats);
  }

  /**
   * The whole of `get_user_stats_per_endpoint`: the listing is fetched page
   * by page first, and the fold runs over exactly the items collected.
   */
  method FetchAndCount(ep: Endpoint, rs: seq<Pagination.Response<Item>>, api: Api)
    returns (r: Result<map<Key, Counters>, Error>)
    ensures r == UserStats(ep, Pagination.Paginate(rs, 1).items, api)
  {
    var items, pages, stop := Pagination.GetGithubData(rs);
    r := GetUserStatsPerEndpoint(ep, items, api);
  }

  /** How many contributions carry key `k`. */
  function Occurrences(es: seq<Entry>, k: Key): nat {
    if es == [] then 0
    else Occurrences(es[..|es| - 1], k) + (if es[|es| - 1].key == k then 1 else 0)
  }

  /** The line totals of the contributions carrying key `k`, summed. */
  function LinesOf(es: seq<Entry>, k: Key): int {
    if es == [] then 0
    else LinesOf(es[..|es| - 1], k) + (if es[|es| - 1].key == k then es[|es| - 1].lines else 0)
  }

  /**
   * Entries succeeds exactly when every item's extraction does, giving one
   * contribution per item in order; otherwise it fails with the exception of
   * the first item that raises.
   */
  lemma {:induction false} EntriesPerItem(ep: Endpoint, items: seq<Item>, api: Api)
    ensures Entries(ep, items, api).Ok? <==>
              forall i | 0 <= i < |items| :: ItemEntry(ep, items[i], api).Ok?
    ensures Entries(ep, items, api).Ok? ==>
              var es := Entries(ep, items, api).value;
              |es| == |items| && forall i | 0 <= i < |items| :: es[i] == ItemEntry(ep, items[i], api).value
    ensures Entries(ep, items, api).Err? ==>
              exists i | 0 <= i < |items| ::
                && ItemEntry(ep, items[i], api) == Err(Entries(ep, items, api).error)
                && forall j | 0 <= j < i :: ItemEntry(ep, items[j], api).Ok?
  {
    if items != [] {
      EntriesPerItem(ep, items[1..], api);
      var first := ItemEntry(ep, items[0], api);
      if first.Ok? && Entries(ep, items[1..], api).Err? {
        var i :| 0 <= i < |items| - 1 &&
                 ItemEntry(ep, items[1..][i], api) == Err(Entries(ep, items[1..], api).error) &&
                 forall j | 0 <= j < i :: ItemEntry(ep, items[1..][j], api).Ok?;
        assert ItemEntry(ep, items[i + 1], api) == Err(Entries(ep, items, api).error);
        assert forall j | 0 <= j < i + 1 :: ItemEntry(ep, items[j], api).Ok? by {
          forall j | 0 <= j < i + 1 ensures ItemEntry(ep, items[j], api).Ok? {
            if j > 0 {
              assert items[j] == items[1..][j - 1];
            }
          }
        }
      } else if first.Ok? {
        assert forall i | 0 <= i < |items| :: ItemEntry(ep, items[i], api).Ok? by {
          forall i | 0 <= i < |items| ensures ItemEntry(ep, items[i], api).Ok? {
            if i > 0 {
              assert items[i] == items[1..][i - 1];
            }
          }
        }
      }
    }
  }

  /**
   * Each key of the dictionary is the identity of some contribution and each
   * contribution's identity is a key; a key's endpoint counter is its number
   * of contributions (so at least 1), its other counter stays 0, and its
   * lines are the sum of its contributions' line totals.
   */
  lemma {:induction false} TallyCounts(ep: Endpoint, es: seq<Entry>)
    ensures forall k :: k in Tally(ep, es) <==> Occurrences(es, k) > 0
    ensures forall k | k in Tally(ep, es) ::
              && Count(Tally(ep, es)[k], ep) == Occurrences(es, k)
              && Other(Tally(ep, es)[k], ep) == 0
              && Tally(ep, es)[k].lines == LinesOf(es, k)
  {
    if es != [] {
      var init, last := es[..|es| - 1], es[|es| - 1];
      TallyCounts(ep, init);
      forall k | k in Tally(ep, es)
        ensures && Count(Tally(ep, es)[k], ep) == Occurrences(es, k)
                && Other(Tally(ep, es)[k], ep) == 0
                && Tally(ep, es)[k].lines == LinesOf(es, k)
      {
        if k != last.key {
          assert Tally(ep, es)[k] == Tally(ep, init)[k];
        } else if k !in Tally(ep, init) {
          LinesOfAbsent(init, k);
        }
      }
    }
  }

  /** A key no contribution carries has no lines. */
  lemma {:induction false} LinesOfAbsent(es: seq<Entry>, k: Key)
    requires Occurrences(es, k) == 0
    ensures LinesOf(es, k) == 0
  {
    if es != [] {
      LinesOfAbsent(es[..|es| - 1], k);
    }
  }

  /** The sum of one counter over all keys of a dictionary. */
  ghost function Total(m: map<Key, Counters>, ep: Endpoint): int
    decreases m.Keys
  {
    if m.Keys == {} then 0
    else var k :| k in m.Keys; Count(m[k], ep) + Total(m - {k}, ep)
  }

  /** Total does not depend on which key it takes out first. */
  lemma {:induction false} TotalRemove(m: map<Key, Counters>, ep: Endpoint, k: Key)
    requires k in m
    ensures Total(m, ep) == Count(m[k], ep) + Total(m - {k}, ep)
    decreases m.Keys
  {
    var j :| j in m.Keys && Total(m, ep) == Count(m[j], ep) + Total(m - {j}, ep);
    if j != k {
      TotalRemove(m - {j}, ep, k);
      TotalRemove(m - {k}, ep, j);
      assert m - {j} - {k} == m - {k} - {j};
    }
  }

  /** Adding one contribution raises the endpoint's total by one. */
  lemma TotalAdd(m: map<Key, Counters>, ep: Endpoint, e: Entry)
    ensures Total(Add(m, ep, e), ep) == Total(m, ep) + 1
  {
    var m' := Add(m, ep, e);
    TotalRemove(m', ep, e.key);
    if e.key in m {
      TotalRemove(m, ep, e.key);
      assert m' - {e.key} == m - {e.key};
    } else {
      assert m' - {e.key} == m;
    }
  }

  /** Summed over all keys, the endpoint's counter equals the number of items. */
  lemma {:induction false} TallyTotal(ep: Endpoint, es: seq<Entry>)
    ensures Total(Tally(ep, es), ep) == |es|
  {
    if es != [] {
      TallyTotal(ep, es[..|es| - 1]);
      TotalAdd(Tally(ep, es[..|es| - 1]), ep, es[|es| - 1]);
    }
  }
}
