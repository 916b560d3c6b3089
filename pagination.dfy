/**
 * The paginated list fetch of main.py (`get_github_data`).
 *
 * Every HTTP response is an input value: the finite sequence `rs` holds the
 * responses the server gives, in the order the requests are made. The loop
 * consumes one response per request; when the sequence runs out before the
 * loop has ended, the fetch ends with `OutOfResponses` (the source would keep
 * requesting).
 */
module Pagination {

  /** The `per_page` query parameter. */
  const PerPage: nat := 100

  /** One list-endpoint response: its status code and its decoded JSON list. */
  datatype Response<T> = Response(status: int, data: seq<T>)

  /** Why the loop stopped. */
  datatype Stop =
    | LastPage              // a 200 page shorter than PerPage
    | Failed(status: int)   // a status other than 200 and 403
    | OutOfResponses        // the input ran out (a 403 streak, or more pages than given)

  /**
   * The result of a fetch: the accumulated items, the page number sent with
   * each request made (one per consumed response), and why it stopped.
   */
  datatype Fetched<T> = Fetched(items: seq<T>, pages: seq<nat>, stop: Stop)

  /** A response after which the loop makes no further request. */
  predicate Ends<T>(r: Response<T>) {
    r.status != 403 && (r.status != 200 || |r.data| < PerPage)
  }

  /** The data of the 200 responses in `rs`, concatenated in order. */
  function OkData<T>(rs: seq<Response<T>>): seq<T> {
    if rs == [] then []
    else (if rs[0].status == 200 then rs[0].data else []) + OkData(rs[1..])
  }

  /**
   * The fetch, from the request for `page` on, as a recursive function over
   * the remaining responses.
   */
  function Paginate<T>(rs: seq<Response<T>>, page: nat): (f: Fetched<T>)
    ensures |f.pages| <= |rs|
  {
    if rs == [] then Fetched([], [], OutOfResponses)
    else
      var r := rs[0];
      if r.status == 200 then
        if |r.data| < PerPage then Fetched(r.data, [page], LastPage)
        else
          var rest := Paginate(rs[1..], page + 1);
          Fetched(r.data + rest.items, [page] + rest.pages, rest.stop)
      else if r.status == 403 then
        var rest := Paginate(rs[1..], page);
        Fetched(rest.items, [page] + rest.pages, rest.stop)
      else
        Fetched([], [page], Failed(r.status))
  }

  /** `f` with `items` and `pages` already gathered in front of it. */
  function After<T>(items: seq<T>, pages: seq<nat>, f: Fetched<T>): Fetched<T> {
    Fetched(items + f.items, pages + f.pages, f.stop)
  }

  /** Gathering in two steps is gathering once. */
  lemma AfterAfter<T>(items: seq<T>, pages: seq<nat>, more: seq<T>, page: nat, f: Fetched<T>)
    ensures After(items, pages, After(more, [page], f)) == After(items + more, pages + [page], f)
  {
  }

  /**
   * The `while True` loop of `get_github_data`: request page 1, then keep
   * requesting, appending every 200 page, retrying the same page after a 403.
   */
  method GetGithubData<T>(rs: seq<Response<T>>) returns (items: seq<T>, pages: seq<nat>, stop: Stop)
    ensures Fetched(items, pages, stop) == Paginate(rs, 1)
  {
    items, pages := [], [];
    var page: nat := 1;
    var i := 0;
    assert rs[0..] == rs;
    while true
      invariant 0 <= i <= |rs|
      invariant Paginate(rs, 1) == After(items, pages, Paginate(rs[i..], page))
      decreases |rs| - i
    {
      if i == |rs| {
        stop := OutOfResponses;
        assert items + [] == items && pages + [] == pages;
        return;
      }
      var response := rs[i];
      assert rs[i..][0] == response && rs[i..][1..] == rs[i + 1..];
      ghost var rest := Paginate(rs[i + 1..], if response.status == 200 then page + 1 else page);
      AfterAfter(items, pages, if response.status == 200 then response.data else [], page, rest);
      i := i + 1;
      pages := pages + [page];
      if response.status == 200 {
        items := items + response.data;
        if |response.data| < PerPage {
          stop := LastPage;
          assert items + [] == items;
          return;
        }
        page := page + 1;
      } else if response.status == 403 {
        // rate limited: the same page is requested again
        assert items + [] == items;
        continue;
      } else {
        stop := Failed(response.status);
        assert items + [] == items;
        return;
      }
    }
  }

  /**
   * The items returned are the data of every consumed 200 response, in the
   * order they arrived.
   */
  lemma {:induction false} PaginateItems<T>(rs: seq<Response<T>>, page: nat)
    ensures Paginate(rs, page).items == OkData(rs[..|Paginate(rs, page).pages|])
  {
    var f := Paginate(rs, page);
    if rs != [] {
      var r := rs[0];
      if r.status == 200 && |r.data| < PerPage {
        assert rs[..1] == [r];
        assert OkData(rs[..1]) == r.data + OkData([]);
      } else if r.status == 200 || r.status == 403 {
        var rest := Paginate(rs[1..], if r.status == 200 then page + 1 else page);
        PaginateItems(rs[1..], if r.status == 200 then page + 1 else page);
        var n := |f.pages|;
        assert rs[..n][1..] == rs[1..][..|rest.pages|];
        assert rs[..n][0] == r;
      } else {
        assert rs[..1] == [r];
        assert OkData(rs[..1]) == [] + OkData([]);
      }
    }
  }

  /**
   * The loop stops right after the first response that ends it (a short 200
   * page or a status other than 200 and 403) and never before; it runs out of
   * input only when no given response ends it.
   */
  lemma {:induction false} PaginateStops<T>(rs: seq<Response<T>>, page: nat)
    ensures var f := Paginate(rs, page); var n := |f.pages|;
      && (forall j | 0 <= j < n - 1 :: !Ends(rs[j]))
      && (f.stop == OutOfResponses <==> (n == |rs| && forall j | 0 <= j < |rs| :: !Ends(rs[j])))
      && (f.stop != OutOfResponses ==> 0 < n && Ends(rs[n - 1]))
      && (f.stop == LastPage ==> rs[n - 1].status == 200 && |rs[n - 1].data| < PerPage)
      && (f.stop.Failed? ==> rs[n - 1].status == f.stop.status && f.stop.status != 200 && f.stop.status != 403)
  {
    if rs != [] {
      var r := rs[0];
      if r.status == 200 && |r.data| >= PerPage {
        PaginateStops(rs[1..], page + 1);
      } else if r.status == 403 {
        PaginateStops(rs[1..], page);
      }
    }
  }

  /**
   * The page number sent with each request: page 1 first; after a 403 the
   * same page again, after a full 200 page the next one.
   */
  lemma {:induction false} PaginatePages<T>(rs: seq<Response<T>>, page: nat)
    ensures var f := Paginate(rs, page); var n := |f.pages|;
      && (0 < n ==> f.pages[0] == page)
      && (forall j | 0 <= j < n - 1 ::
            f.pages[j + 1] == if rs[j].status == 403 then f.pages[j] else f.pages[j] + 1)
  {
    if rs != [] {
      var r := rs[0];
      if r.status == 200 && |r.data| >= PerPage {
        PaginatePages(rs[1..], page + 1);
      } else if r.status == 403 {
        PaginatePages(rs[1..], page);
      }
    }
  }

  /**
   * k full pages of exactly PerPage items followed by a page of m < PerPage
   * items: the fetch makes k + 1 requests and returns PerPage * k + m items,
   * whatever responses would have followed.
   */
  lemma {:induction false} FullPagesThenShortPage<T>(rs: seq<Response<T>>, k: nat, page: nat)
    requires k < |rs|
    requires forall j | 0 <= j < k :: rs[j].status == 200 && |rs[j].data| == PerPage
    requires rs[k].status == 200 && |rs[k].data| < PerPage
    ensures var f := Paginate(rs, page);
      |f.items| == PerPage * k + |rs[k].data| && |f.pages| == k + 1 && f.stop == LastPage
  {
    if k > 0 {
      FullPagesThenShortPage(rs[1..], k - 1, page + 1);
    }
  }
}
