/**
 * `ZoomAPI.list_users` (zoom_api_helper/v2.py): GET /users, and with
 * `all_pages` keep asking for the next page while the latest reply says more
 * pages remain, appending each page's users to the first reply.
 */
module ListUsers {
  import opened Wrappers
  import opened Values

  /** The query parameters of one GET; `status` is only sent when truthy. */
  datatype Params = Params(pageSize: int, pageNumber: int, status: Option<string>)

  /**
   * A parsed reply: a page of users, or any other JSON body (the code never
   * checks the HTTP status, so an error body arrives here too).
   */
  datatype Reply =
    | Page(users: seq<Value>, pageCount: int, pageNumber: int)
    | OtherBody(body: Value)

  /** `data['page_count']` or `data['users']` on a body without them: a `KeyError`. */
  datatype ListError = MissingPageField

  /** The remote GET https://api.zoom.us/v2/users. */
  type Fetch = Params -> Reply

  /** The parameters of the `k`-th request, counting from 0. */
  function ParamsAt(status: string, pageSize: int, page: int, k: nat): Params {
    Params(pageSize, page + k, if status != "" then Some(status) else None)
  }

  /** More pages remain after `reply`: the loop condition. */
  predicate MorePages(reply: Reply)
    requires reply.Page?
  {
    reply.pageCount > reply.pageNumber
  }

  /** The users of every reply, in request order. */
  function AllUsers(replies: seq<Reply>): (users: seq<Value>)
    requires forall i :: 0 <= i < |replies| ==> replies[i].Page?
  {
    if replies == [] then [] else AllUsers(replies[..|replies| - 1]) + replies[|replies| - 1].users
  }

  /** The k-th request is answered with a page that says more pages remain. */
  ghost predicate Continues(fetch: Fetch, status: string, pageSize: int, page: int, k: nat) {
    fetch(ParamsAt(status, pageSize, page, k)).Page? && MorePages(fetch(ParamsAt(status, pageSize, page, k)))
  }

  /**
   * Of the pages the loop reaches (every earlier reply said more pages
   * remain), none at or past page `limit` says more pages remain too.
   * Without such a bound the loop of the source need not terminate.
   */
  ghost predicate Paginates(fetch: Fetch, status: string, pageSize: int, page: int, limit: int) {
    forall k: nat ::
      (forall j :: 0 <= j < k ==> Continues(fetch, status, pageSize, page, j)) && Continues(fetch, status, pageSize, page, k)
      ==> page + k < limit
  }

  /**
   * A server whose first page says no more pages remain, while every later
   * page claims one more.
   */
  function OnePageServer(q: Params): (reply: Reply)
    ensures reply.Page? && (MorePages(reply) <==> q.pageNumber != 1)
  {
    if q.pageNumber == 1 then Page([], 1, 1) else Page([], q.pageNumber + 1, q.pageNumber)
  }

  /**
   * Such a server is admitted, whatever the bound, because its later pages
   * are never asked for.
   */
  lemma OnePageServerAdmitted(limit: int)
    ensures Paginates(OnePageServer, "active", 300, 1, limit)
  {
    assert !Continues(OnePageServer, "active", 300, 1, 0);
  }

  /**
   * Lines 335-349.  `requested` lists the parameters of every GET made, in
   * order: pages `page, page+1, ...`.  Every reply but the last asked for
   * another page; with `all_pages` the result is the first reply with the
   * users of all pages, or the `KeyError` of a reply that is not a page.
   */
  method ListUsers(status: string, pageSize: int, page: int, allPages: bool, fetch: Fetch, ghost limit: int)
    returns (r: Result<Reply, ListError>, requested: seq<Params>)
    requires Paginates(fetch, status, pageSize, page, limit)
    ensures |requested| >= 1
    ensures forall k :: 0 <= k < |requested| ==> requested[k] == ParamsAt(status, pageSize, page, k)
    ensures !allPages ==> |requested| == 1 && r == Ok(fetch(requested[0]))
    ensures allPages ==> forall k :: 0 <= k < |requested| - 1 ==> fetch(requested[k]).Page? && MorePages(fetch(requested[k]))
    ensures allPages ==> (r.Err? <==> fetch(requested[|requested| - 1]).OtherBody?)
    ensures allPages && r.Ok? ==>
              var replies := seq(|requested|, k requires 0 <= k < |requested| => fetch(requested[k]));
              && !MorePages(replies[|replies| - 1])
              && r.value == Page(AllUsers(replies), replies[0].pageCount, replies[0].pageNumber)
  {
    var params := ParamsAt(status, pageSize, page, 0);
    var data := fetch(params);
    requested := [params];
    if !allPages {
      return Ok(data), requested;
    }
    if data.OtherBody? {
      return Err(MissingPageField), requested;
    }
    var first := data;
    var users := data.users;
    ghost var replies := [data];
    while MorePages(data)
      invariant data.Page? && first.Page?
      invariant 1 <= |requested| == |replies|
      invariant params == requested[|requested| - 1] && params.pageNumber == page + |requested| - 1
      invariant forall k :: 0 <= k < |requested| ==> requested[k] == ParamsAt(status, pageSize, page, k)
      invariant forall k :: 0 <= k < |replies| ==> replies[k] == fetch(requested[k]) && replies[k].Page?
      invariant forall k :: 0 <= k < |replies| - 1 ==> MorePages(replies[k])
      invariant data == replies[|replies| - 1] && first == replies[0]
      invariant users == AllUsers(replies)
      invariant params == ParamsAt(status, pageSize, page, |requested| - 1)
      decreases limit - params.pageNumber
    {
      ghost var k: nat := |requested| - 1;
      assert forall j :: 0 <= j < k ==> Continues(fetch, status, pageSize, page, j);
      assert Continues(fetch, status, pageSize, page, k);
      assert params.pageNumber == page + k < limit;
      params := params.(pageNumber := params.pageNumber + 1);
      data := fetch(params);
      requested := requested + [params];
      if data.OtherBody? {
        return Err(MissingPageField), requested;
      }
      ghost var previous := replies;
      replies := replies + [data];
      assert replies[..|replies| - 1] == previous;
      users := users + data.users;
    }
    assert replies == seq(|requested|, k requires 0 <= k < |requested| => fetch(requested[k]));
    r := Ok(Page(users, first.pageCount, first.pageNumber));
  }
}
