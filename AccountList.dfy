/** The pagination controller of the bookkeeping list (`fetchAccounts`,
    `refreshAccounts`, `loadMore` and `deleteAccount` in
    screens/AccountListScreen.js). The network is outside the model: issuing a
    fetch appends it to a ghost log, and its completion is an input event. */
module AccountList {
  import opened Wrappers
  import opened Sections

  /** One `name=value` query parameter, in the order it is appended to the URL. */
  datatype Param = Param(name: string, value: string)

  /** A fetch of `/accounts/section`: whether its page is merged into the held
      list (`loadMore`) or replaces it, and its query parameters. */
  datatype Request = Request(loadMore: bool, params: seq<Param>)

  /** An optional argument of `refreshAccounts`: an omitted argument takes the
      current state's value; an explicit `null` keyword is a given value. */
  datatype Arg<T> = Omitted | Given(value: T)

  /** The value of the first parameter called `name`, if any. */
  function Lookup(params: seq<Param>, name: string): Option<string> {
    if params == [] then None
    else if params[0].name == name then Some(params[0].value)
    else Lookup(params[1..], name)
  }

  /** The query of a fetch, built from the state at the time it is issued: `type`
      always comes first; `keyword` and `anchor` follow only when truthy. */
  function QueryParams(sectionType: string, keyword: Option<string>, anchor: Option<string>): (q: seq<Param>)
    ensures |q| == 1 + (if Truthy(keyword) then 1 else 0) + (if Truthy(anchor) then 1 else 0)
    ensures q[0] == Param("type", sectionType)
    ensures Truthy(keyword) ==> q[1] == Param("keyword", keyword.value)
    ensures Truthy(anchor) ==> q[|q| - 1] == Param("anchor", anchor.value)
    ensures Lookup(q, "type") == Some(sectionType)
    ensures Lookup(q, "keyword") == (if Truthy(keyword) then keyword else None)
    ensures Lookup(q, "anchor") == (if Truthy(anchor) then anchor else None)
    ensures forall i :: 0 <= i < |q| ==> q[i].name in {"type", "keyword", "anchor"}
  {
    var k := if Truthy(keyword) then [Param("keyword", keyword.value)] else [];
    var a := if Truthy(anchor) then [Param("anchor", anchor.value)] else [];
    assert Lookup(a, "keyword") == None;
    assert Lookup(k + a, "keyword") == (if Truthy(keyword) then keyword else None) by {
      if !Truthy(keyword) { assert k + a == a; }
    }
    assert Lookup(k + a, "anchor") == (if Truthy(anchor) then anchor else None) by {
      if Truthy(keyword) { assert (k + a)[1..] == a; } else { assert k + a == a; }
    }
    assert ([Param("type", sectionType)] + k + a)[1..] == k + a;
    [Param("type", sectionType)] + k + a
  }

  /** The bucket granularities the switch button offers. */
  predicate IsSectionType(t: string) {
    t == "month" || t == "day"
  }

  /** The state of the list screen that the fetch lifecycle reads and writes. */
  class AccountListScreen {
    /** The held sections; `None` (null) until the first fetch succeeds. */
    var accounts: Option<seq<Section>>
    /** The server's resumption cursor for the next page. */
    var anchor: Option<string>
    var keyword: Option<string>
    /** Bucket granularity, "month" or "day". */
    var sectionType: string
    var endReached: bool
    /** A fetch is in flight. */
    var refreshing: bool
    /** A delete request is in flight. */
    var spinner: bool
    /** A load-more arrived while a fetch was in flight. */
    var loadMoreAfterFetch: bool
    /** Every fetch issued so far, oldest first. */
    ghost var requests: seq<Request>
    /** The ids of every record a delete was requested for, oldest first. */
    ghost var deletions: seq<int>

    /** The bucket type is one the switch offers, and so is the `type` of every
        fetch issued. */
    ghost predicate Valid()
      reads this
    {
      && IsSectionType(sectionType)
      && forall i :: 0 <= i < |requests| ==> IsSectionType(Lookup(requests[i].params, "type").GetOr(""))
    }

    constructor ()
      ensures Valid()
      ensures accounts == None && anchor == None && keyword == None && sectionType == "month"
      ensures !endReached && !refreshing && !spinner && !loadMoreAfterFetch
      ensures requests == [] && deletions == []
    {
      accounts, anchor, keyword, sectionType := None, None, None, "month";
      endReached, refreshing, spinner, loadMoreAfterFetch := false, false, false, false;
      requests, deletions := [], [];
    }

    /** `fetchAccounts(loadMore)` up to the network call: mark a fetch in flight and
        issue it with the query built from the current state. */
    method FetchStart(loadMore: bool)
      requires Valid()
      modifies this
      ensures Valid()
      ensures refreshing
      ensures requests == old(requests) + [Request(loadMore, QueryParams(sectionType, keyword, anchor))]
      ensures accounts == old(accounts) && anchor == old(anchor) && keyword == old(keyword)
      ensures sectionType == old(sectionType) && endReached == old(endReached)
      ensures spinner == old(spinner) && loadMoreAfterFetch == old(loadMoreAfterFetch)
      ensures deletions == old(deletions)
    {
      refreshing := true;
      requests := requests + [Request(loadMore, QueryParams(sectionType, keyword, anchor))];
    }

    /** `refreshAccounts(keyword, sectionType)`: forget the cursor and the end flag,
        take the given filters, and issue a replacing fetch of the first page. */
    method Refresh(newKeyword: Arg<Option<string>>, newSectionType: Arg<string>)
      requires Valid()
      requires newSectionType.Given? ==> IsSectionType(newSectionType.value)
      modifies this
      ensures Valid()
      ensures anchor == None && !endReached && refreshing
      ensures keyword == (if newKeyword.Given? then newKeyword.value else old(keyword))
      ensures sectionType == (if newSectionType.Given? then newSectionType.value else old(sectionType))
      ensures requests == old(requests) + [Request(false, QueryParams(sectionType, keyword, None))]
      ensures Lookup(requests[|requests| - 1].params, "anchor") == None
      ensures accounts == old(accounts) && spinner == old(spinner)
      ensures loadMoreAfterFetch == old(loadMoreAfterFetch) && deletions == old(deletions)
    {
      anchor, endReached := None, false;
      if newKeyword.Given? {
        keyword := newKeyword.value;
      }
      if newSectionType.Given? {
        sectionType := newSectionType.value;
      }
      FetchStart(false);
    }

    /** The debounced `loadMore`, at the moment it fires: nothing at the end of the
        data; while a fetch is in flight only the pending flag is set, however many
        times it fires; otherwise one merging fetch from the current cursor. */
    method LoadMore() returns (issued: bool)
      requires Valid()
      modifies this
      ensures Valid()
      ensures issued <==> !old(endReached) && !old(refreshing)
      ensures old(endReached) ==> unchanged(this)
      ensures !old(endReached) && old(refreshing) ==>
        loadMoreAfterFetch && requests == old(requests) && refreshing
      ensures issued ==> refreshing && loadMoreAfterFetch == old(loadMoreAfterFetch)
      ensures requests == old(requests) +
        (if issued then [Request(true, QueryParams(sectionType, keyword, anchor))] else [])
      ensures accounts == old(accounts) && anchor == old(anchor) && keyword == old(keyword)
      ensures sectionType == old(sectionType) && endReached == old(endReached)
      ensures spinner == old(spinner) && deletions == old(deletions)
    {
      issued := false;
      if endReached {
        return;
      }
      if refreshing {
        loadMoreAfterFetch := true;
        return;
      }
      FetchStart(true);
      issued := true;
    }

    /** A fetch completed with a page, the next cursor and the end flag. `loadMore`
        is the flag the fetch was issued with. The page is merged into or replaces
        the held list; a load-more that arrived meanwhile is then issued once,
        from the new cursor, without looking at the end flag. */
    method FetchSucceeded(loadMore: bool, page: seq<Section>, newAnchor: Option<string>, newEndReached: bool)
      returns (followUp: bool)
      requires Valid()
      modifies this
      ensures Valid()
      ensures accounts == Some(if loadMore then CombineSections(old(accounts), page) else page)
      ensures anchor == newAnchor && endReached == newEndReached
      ensures followUp == old(loadMoreAfterFetch) && !loadMoreAfterFetch
      ensures refreshing == followUp
      ensures requests == old(requests) +
        (if followUp then [Request(true, QueryParams(sectionType, keyword, newAnchor))] else [])
      ensures keyword == old(keyword) && sectionType == old(sectionType)
      ensures spinner == old(spinner) && deletions == old(deletions)
    {
      var sections := if loadMore then CombineSections(accounts, page) else page;
      accounts, anchor, endReached, refreshing := Some(sections), newAnchor, newEndReached, false;
      followUp := loadMoreAfterFetch;
      if loadMoreAfterFetch {
        loadMoreAfterFetch := false;
        FetchStart(true);
      }
    }

    /** A fetch failed: only the in-flight flag is cleared; the held list, the
        cursor, the end flag and a pending load-more are kept. */
    method FetchFailed()
      requires Valid()
      modifies this
      ensures Valid()
      ensures !refreshing
      ensures accounts == old(accounts) && anchor == old(anchor) && endReached == old(endReached)
      ensures loadMoreAfterFetch == old(loadMoreAfterFetch) && requests == old(requests)
      ensures keyword == old(keyword) && sectionType == old(sectionType)
      ensures spinner == old(spinner) && deletions == old(deletions)
    {
      refreshing := false;
    }

    /** `deleteAccount(id)` up to the network call: show the spinner and request the
        record's soft delete. */
    method DeleteStart(id: int)
      requires Valid()
      modifies this
      ensures Valid()
      ensures spinner && deletions == old(deletions) + [id]
      ensures accounts == old(accounts) && anchor == old(anchor) && endReached == old(endReached)
      ensures refreshing == old(refreshing) && loadMoreAfterFetch == old(loadMoreAfterFetch)
      ensures keyword == old(keyword) && sectionType == old(sectionType) && requests == old(requests)
    {
      spinner := true;
      deletions := deletions + [id];
    }

    /** The delete succeeded: hide the spinner and refetch the first page under the
        current filters; the record disappears only when the server's page omits it. */
    method DeleteSucceeded()
      requires Valid()
      modifies this
      ensures Valid()
      ensures !spinner && anchor == None && !endReached && refreshing
      ensures keyword == old(keyword) && sectionType == old(sectionType)
      ensures requests == old(requests) + [Request(false, QueryParams(sectionType, keyword, None))]
      ensures accounts == old(accounts) && loadMoreAfterFetch == old(loadMoreAfterFetch)
      ensures deletions == old(deletions)
    {
      spinner := false;
      Refresh(Omitted, Omitted);
    }

    /** The delete failed: hide the spinner, nothing else changes. */
    method DeleteFailed()
      requires Valid()
      modifies this
      ensures Valid()
      ensures !spinner
      ensures accounts == old(accounts) && anchor == old(anchor) && endReached == old(endReached)
      ensures refreshing == old(refreshing) && loadMoreAfterFetch == old(loadMoreAfterFetch)
      ensures keyword == old(keyword) && sectionType == old(sectionType)
      ensures requests == old(requests) && deletions == old(deletions)
    {
      spinner := false;
    }
  }

  /** Two load-mores firing while a replacing fetch is in flight, then its success:
      exactly one merging fetch follows, and it starts from the cursor the
      completed fetch returned. */
  method CoalescedLoadMore(screen: AccountListScreen, page: seq<Section>, newAnchor: Option<string>, newEndReached: bool)
    returns (first: bool, second: bool, followUp: bool)
    requires screen.Valid() && screen.refreshing && !screen.endReached
    modifies screen
    ensures screen.Valid()
    ensures !first && !second && followUp
    ensures screen.requests == old(screen.requests) +
      [Request(true, QueryParams(screen.sectionType, screen.keyword, newAnchor))]
    ensures screen.accounts == Some(page) && !screen.loadMoreAfterFetch && screen.refreshing
  {
    first := screen.LoadMore();
    second := screen.LoadMore();
    followUp := screen.FetchSucceeded(false, page, newAnchor, newEndReached);
  }
}
