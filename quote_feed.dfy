/** The paginated quote feed, `QuoteViewModel` (QuoteValut/ViewModels/QuoteViewModel.swift).
    The feed asks the `quotes` table for `PageSize` rows at a time, starting at the cursor `offset`,
    appends what arrives and treats a short page as the end of the data. The query is replaced by
    the `response` outcome the caller passes in; each `async` call is one atomic step. */
module QuoteFeed {
  import opened Outcomes
  import opened Quotes

  /** `pageSize`: rows asked for per request. */
  const PageSize: nat := 10

  /** The one query a fetch issues: the optional `category` equality filter and the inclusive row
      range `from ... to` handed to `.range(from:to:)`. */
  datatype PageRequest = PageRequest(category: Option<string>, from: int, to: int)

  /** The published state of the feed together with the private cursor `offset`. */
  datatype FeedState = FeedState(
    quotes: seq<Quote>,
    offset: int,
    hasMore: bool,
    isLoading: bool,
    errorMessage: Option<string>)

  /** The state of a freshly created view model. */
  const Initial := FeedState([], 0, true, false, None)

  /** The cursor counts exactly the quotes held. */
  predicate CursorMatches(s: FeedState) {
    s.offset == |s.quotes|
  }

  /** A response to a range request of `PageSize` rows holds at most `PageSize` quotes. */
  predicate ValidResponse(response: Outcome<seq<Quote>>) {
    response.Ok? ==> |response.payload| <= PageSize
  }

  /** The `if reset { ... }` prologue of `fetchQuotes`. */
  function AfterReset(s: FeedState, reset: bool): (r: FeedState)
    ensures reset ==> r.quotes == [] && r.offset == 0 && r.hasMore
    ensures !reset ==> r == s
    ensures r.isLoading == s.isLoading && r.errorMessage == s.errorMessage
  {
    if reset then s.(quotes := [], offset := 0, hasMore := true) else s
  }

  /** The query `fetchQuotes(reset:category:)` issues from state `s`, or `None` when the
      `hasMore` guard returns before any query. */
  function Request(s: FeedState, reset: bool, category: Option<string>): (r: Option<PageRequest>)
    ensures r.Some? <==> reset || s.hasMore
    ensures r.Some? ==> r.value.category == category
    ensures r.Some? ==> r.value.from == (if reset then 0 else s.offset)
    ensures r.Some? ==> r.value.to - r.value.from + 1 == PageSize
  {
    var b := AfterReset(s, reset);
    if b.hasMore then Some(PageRequest(category, b.offset, b.offset + PageSize - 1)) else None
  }

  /** The state after `fetchQuotes(reset:category:)` when the query produced `response`. */
  function Fetch(s: FeedState, reset: bool, response: Outcome<seq<Quote>>): (r: FeedState)
    requires ValidResponse(response)
    // guard: an exhausted feed that is not reset is left exactly as it was
    ensures !reset && !s.hasMore ==> r == s
    // a fetch that passed the guard always ends with the spinner off
    ensures reset || s.hasMore ==> !r.isLoading
    // success: the page is appended in received order and the cursor moves past it
    ensures (reset || s.hasMore) && response.Ok? ==>
      && r.quotes == AfterReset(s, reset).quotes + response.payload
      && r.offset == AfterReset(s, reset).offset + |response.payload|
      && (r.hasMore <==> |response.payload| == PageSize)
      && r.errorMessage == s.errorMessage
    // the cursor never moves past the requested range
    ensures (reset || s.hasMore) ==> r.offset <= Request(s, reset, None).value.to + 1
    // failure: quotes, cursor and hasMore as after the prologue, the error surfaced
    ensures (reset || s.hasMore) && response.Err? ==>
      && r.quotes == AfterReset(s, reset).quotes
      && r.offset == AfterReset(s, reset).offset
      && r.hasMore
      && r.errorMessage == Some(response.msg)
  {
    var b := AfterReset(s, reset);
    if !b.hasMore then b
    else
      match response
      case Ok(page) =>
        b.(quotes := b.quotes + page, offset := b.offset + |page|,
           hasMore := |page| == PageSize, isLoading := false)
      case Err(m) =>
        b.(errorMessage := Some(m), isLoading := false)
  }

  /** `offset == |quotes|` holds initially and every fetch keeps it. */
  lemma FetchKeepsCursor(s: FeedState, reset: bool, response: Outcome<seq<Quote>>)
    requires CursorMatches(s) && ValidResponse(response)
    ensures CursorMatches(Initial)
    ensures CursorMatches(Fetch(s, reset, response))
  {
  }

  /** A short page, even an empty one, ends the feed: further fetches without a reset do nothing. */
  lemma ShortPageEndsFeed(s: FeedState, page: seq<Quote>, next: Outcome<seq<Quote>>)
    requires s.hasMore && |page| < PageSize && ValidResponse(next)
    ensures !Fetch(s, false, Ok(page)).hasMore
    ensures Fetch(Fetch(s, false, Ok(page)), false, next) == Fetch(s, false, Ok(page))
  {
  }

  /** A reset discards everything fetched before, whatever filter it was fetched under: after a
      successful reset the feed holds exactly the new page. */
  lemma ResetDropsEarlierQuotes(s: FeedState, page: seq<Quote>)
    requires |page| <= PageSize
    ensures Fetch(s, true, Ok(page)).quotes == page
    ensures Fetch(s, true, Ok(page)).offset == |page|
  {
  }

  /** All the quotes of `pages`, in order. */
  function Concat(pages: seq<seq<Quote>>): (r: seq<Quote>)
  {
    if pages == [] then [] else pages[0] + Concat(pages[1..])
  }

  /** The state after successive non-resetting fetches that receive `pages` in turn. */
  function FetchPages(s: FeedState, pages: seq<seq<Quote>>): (r: FeedState)
    requires forall i :: 0 <= i < |pages| ==> |pages[i]| <= PageSize
    decreases |pages|
  {
    if pages == [] then s
    else FetchPages(Fetch(s, false, Ok(pages[0])), pages[1..])
  }

  /** Successive successful fetches while the feed has more: the feed holds the old quotes followed
      by every page in order, the cursor advanced by their total size, and `hasMore` is decided by
      the last page alone. */
  lemma {:induction false} FetchPagesConcatenates(s: FeedState, pages: seq<seq<Quote>>)
    requires s.hasMore
    requires forall i :: 0 <= i < |pages| ==> |pages[i]| <= PageSize
    requires forall i :: 0 <= i < |pages| - 1 ==> |pages[i]| == PageSize
    ensures FetchPages(s, pages).quotes == s.quotes + Concat(pages)
    ensures FetchPages(s, pages).offset == s.offset + |Concat(pages)|
    ensures FetchPages(s, pages).hasMore <==> pages == [] || |pages[|pages| - 1]| == PageSize
    decreases |pages|
  {
    if pages != [] {
      var next := Fetch(s, false, Ok(pages[0]));
      if |pages| == 1 {
        assert pages[1..] == [] && Concat(pages[1..]) == [];
      } else {
        assert |pages[0]| == PageSize;
        FetchPagesConcatenates(next, pages[1..]);
        assert pages[1..][|pages[1..]| - 1] == pages[|pages| - 1];
      }
    }
  }

  /** Once the feed is exhausted, no number of non-resetting fetches changes it. */
  lemma {:induction false} ExhaustedFeedIgnoresPages(s: FeedState, pages: seq<seq<Quote>>)
    requires !s.hasMore
    requires forall i :: 0 <= i < |pages| ==> |pages[i]| <= PageSize
    ensures FetchPages(s, pages) == s
    decreases |pages|
  {
    if pages != [] {
      ExhaustedFeedIgnoresPages(s, pages[1..]);
    }
  }

  /** The view model. Its published fields and the private cursor are updated in place. */
  class QuoteViewModel {
    var quotes: seq<Quote>
    var isLoading: bool
    var isRefreshing: bool
    var hasMore: bool
    var errorMessage: Option<string>
    var offset: int

    /** The feed state the fields hold. */
    function State(): FeedState
      reads this
    {
      FeedState(quotes, offset, hasMore, isLoading, errorMessage)
    }

    /** The object invariant: the cursor counts the quotes held. */
    predicate Valid()
      reads this
    {
      CursorMatches(State())
    }

    constructor ()
      ensures Valid() && State() == Initial && !isRefreshing
    {
      quotes := [];
      isLoading := false;
      isRefreshing := false;
      hasMore := true;
      errorMessage := None;
      offset := 0;
    }

    /** `fetchQuotes(reset:category:)`; returns the query it issued, if any. */
    method FetchQuotes(reset: bool, category: Option<string>, response: Outcome<seq<Quote>>)
      returns (request: Option<PageRequest>)
      requires Valid() && ValidResponse(response)
      modifies this
      ensures Valid()
      ensures State() == Fetch(old(State()), reset, response)
      ensures request == Request(old(State()), reset, category)
      ensures isRefreshing == old(isRefreshing)
    {
      if reset {
        offset := 0;
        quotes := [];
        hasMore := true;
      }
      if !hasMore {
        return None;
      }
      isLoading := true;
      request := Some(PageRequest(category, offset, offset + PageSize - 1));
      match response {
        case Ok(page) =>
          quotes := quotes + page;
          offset := offset + |page|;
          hasMore := |page| == PageSize;
        case Err(m) =>
          errorMessage := Some(m);
      }
      isLoading := false;
    }

    /** `refresh()`: a reset fetch with no category filter, flagged by `isRefreshing`. */
    method Refresh(response: Outcome<seq<Quote>>) returns (request: Option<PageRequest>)
      requires Valid() && ValidResponse(response)
      modifies this
      ensures Valid()
      ensures State() == Fetch(old(State()), true, response)
      ensures request == Some(PageRequest(None, 0, PageSize - 1))
      ensures !isRefreshing
    {
      isRefreshing := true;
      request := FetchQuotes(true, None, response);
      isRefreshing := false;
    }
  }
}
