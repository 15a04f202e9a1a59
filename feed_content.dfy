/** The answer feed (components/feed-content.tsx): an ordered list of answers
    shown one at a time, a current index moved by the arrow keys and by
    vertical swipes, and cursor-paginated loading of older answers when the
    reader approaches the end.

    `loadMoreItems` awaits one query; it is modelled as its two halves, the
    part before the await (`BeginLoad`: the guard, the loading flag and the
    query sent) and the part after it (`EndLoad`: append on data, then clear
    the flag), so that other events can arrive while a page is in flight.
    Every other handler is one atomic step. */
module FeedNavigation {
  import opened Common
  import opened Storage

  /** `.limit(10)`: the most answers one page asks for. */
  const PageSize: nat := 10
  /** A swipe counts only when it moves strictly more than 50 px. */
  const SwipeThreshold: int := 50
  /** `currentIndex >= feedItems.length - 3` asks for more. */
  const PrefetchWindow: int := 3

  /** An answer joined with its question and author. */
  datatype FeedItem = FeedItem(id: string, authorId: string, questionContent: string,
                               content: Option<string>, mediaUrl: Option<string>,
                               mediaType: Option<MediaType>, createdAt: int)

  /** `.lt("created_at", before).order("created_at", desc).limit(limit)`. */
  datatype PageQuery = PageQuery(before: int, limit: nat)

  datatype Key = ArrowUp | ArrowDown | OtherKey

  /** The component's state: `feedItems`, `currentIndex`, `isLoading`,
      `touchStart` and `touchEnd` (client Y coordinates, in pixels). */
  datatype FeedState = FeedState(items: seq<FeedItem>, index: int, isLoading: bool,
                                 touchStart: Option<int>, touchEnd: Option<int>)

  /** What a handler leaves behind: the new state, whether it called
      `loadMoreItems`, and the page query that call sent, if any. */
  datatype Reaction = Reaction(state: FeedState, loadCalled: bool, request: Option<PageQuery>)

  /** The index points at a card, or is 0 on an empty feed. */
  predicate InBounds(s: FeedState) {
    0 <= s.index && (s.index < |s.items| || (s.items == [] && s.index == 0))
  }

  /** The state on mount: the server-rendered page, the first card, no touch. */
  function Initial(items: seq<FeedItem>): (s: FeedState)
    ensures InBounds(s) && s.items == items && s.index == 0 && !s.isLoading
    ensures s.touchStart == None && s.touchEnd == None
  {
    FeedState(items, 0, false, None, None)
  }

  /** `!touchStart` and `!touchEnd` treat both `null` and `0` as absent. */
  predicate Present(coordinate: Option<int>) {
    coordinate.Some? && coordinate.value != 0
  }

  /** The page after the loaded ones: older than the last item, at most 10. */
  function NextPage(items: seq<FeedItem>): PageQuery
    requires items != []
  {
    PageQuery(items[|items| - 1].createdAt, PageSize)
  }

  /** `loadMoreItems` up to its await: nothing happens while a page is in
      flight or when the feed is empty; otherwise the flag is set and the
      page after the last item is asked for. */
  function BeginLoad(s: FeedState): (r: Reaction)
    ensures r.loadCalled
    ensures s.isLoading || s.items == [] ==> r.state == s && r.request == None
    ensures !s.isLoading && s.items != [] ==>
              r.state == s.(isLoading := true)
              && r.request == Some(PageQuery(s.items[|s.items| - 1].createdAt, 10))
  {
    if s.isLoading || s.items == [] then Reaction(s, true, None)
    else Reaction(s.(isLoading := true), true, Some(NextPage(s.items)))
  }

  /** `loadMoreItems` after its await: a non-empty page is appended, an empty
      page or an error leaves the list alone, and the flag is cleared. */
  function EndLoad(s: FeedState, response: Result<seq<FeedItem>>): (t: FeedState)
    ensures |s.items| <= |t.items| && t.items[..|s.items|] == s.items
    ensures response.Err? || response.value == [] ==> t.items == s.items
    ensures response.Ok? ==> t.items == s.items + response.value
    ensures !t.isLoading
    ensures t.index == s.index && t.touchStart == s.touchStart && t.touchEnd == s.touchEnd
  {
    var items := if response.Ok? && |response.value| > 0 then s.items + response.value else s.items;
    s.(items := items, isLoading := false)
  }

  /** Moving to the next card; the prefetch test looks at the index before the move. */
  function Advance(s: FeedState): Reaction {
    var moved := s.(index := s.index + 1);
    if s.index >= |s.items| - PrefetchWindow then BeginLoad(moved) else Reaction(moved, false, None)
  }

  /** Moving to the previous card never loads. */
  function Retreat(s: FeedState): Reaction {
    Reaction(s.(index := s.index - 1), false, None)
  }

  /** The keydown handler. */
  function OnKeyDown(s: FeedState, key: Key): (r: Reaction)
    ensures r.state.items == s.items
    ensures r.state.touchStart == s.touchStart && r.state.touchEnd == s.touchEnd
    ensures key == ArrowDown ==> r.state.index == if s.index < |s.items| - 1 then s.index + 1 else s.index
    ensures key == ArrowUp ==> r.state.index == if s.index > 0 then s.index - 1 else s.index
    ensures key == OtherKey ==> r == Reaction(s, false, None)
    ensures r.loadCalled <==> key == ArrowDown && s.index < |s.items| - 1 && s.index >= |s.items| - 3
    ensures r.request.Some? <==> r.loadCalled && !s.isLoading && s.items != []
    ensures r.request.Some? ==> r.request.value == NextPage(s.items) && r.state.isLoading
    ensures r.request.None? ==> r.state.isLoading == s.isLoading
  {
    if key == ArrowUp && s.index > 0 then Retreat(s)
    else if key == ArrowDown && s.index < |s.items| - 1 then Advance(s)
    else Reaction(s, false, None)
  }

  /** `handleTouchStart`. */
  function OnTouchStart(s: FeedState, y: int): FeedState {
    s.(touchStart := Some(y))
  }

  /** `handleTouchMove`. */
  function OnTouchMove(s: FeedState, y: int): FeedState {
    s.(touchEnd := Some(y))
  }

  function Abs(x: int): int {
    if x < 0 then -x else x
  }

  /** `handleTouchEnd`: a swipe up of more than 50 px advances, a swipe down of
      more than 50 px retreats, anything shorter is ignored; both coordinates
      are cleared, except when one of them is absent (or 0), in which case the
      handler returns at once. */
  function OnTouchEnd(s: FeedState): (r: Reaction)
    ensures r.state.items == s.items
    ensures !Present(s.touchStart) || !Present(s.touchEnd) ==> r == Reaction(s, false, None)
    ensures Present(s.touchStart) && Present(s.touchEnd) ==>
              r.state.touchStart == None && r.state.touchEnd == None
    ensures Present(s.touchStart) && Present(s.touchEnd) &&
            Abs(s.touchStart.value - s.touchEnd.value) <= 50 ==>
              r.state.index == s.index && !r.loadCalled && r.state.isLoading == s.isLoading
    ensures r.loadCalled <==> Present(s.touchStart) && Present(s.touchEnd)
                              && s.touchStart.value - s.touchEnd.value > 50
                              && s.index < |s.items| - 1 && s.index >= |s.items| - 3
  {
    if !Present(s.touchStart) || !Present(s.touchEnd) then Reaction(s, false, None)
    else
      var distance := s.touchStart.value - s.touchEnd.value;
      var cleared := s.(touchStart := None, touchEnd := None);
      if Abs(distance) > SwipeThreshold then
        if distance > 0 && s.index < |s.items| - 1 then Advance(cleared)
        else if distance < 0 && s.index > 0 then Retreat(cleared)
        else Reaction(cleared, false, None)
      else Reaction(cleared, false, None)
  }

  /** A long swipe up acts as ArrowDown, and a long swipe down as ArrowUp,
      on the state with both coordinates cleared. */
  lemma SwipeActsAsKey(s: FeedState)
    requires Present(s.touchStart) && Present(s.touchEnd)
    ensures var d := s.touchStart.value - s.touchEnd.value;
            var cleared := s.(touchStart := None, touchEnd := None);
            (d > 50 ==> OnTouchEnd(s) == OnKeyDown(cleared, ArrowDown)) &&
            (d < -50 ==> OnTouchEnd(s) == OnKeyDown(cleared, ArrowUp))
  {
  }

  /** While a page is in flight, no key or swipe sends another query. */
  lemma NoSecondRequestWhileLoading(s: FeedState, key: Key)
    requires s.isLoading
    ensures OnKeyDown(s, key).request == None && OnTouchEnd(s).request == None
    ensures BeginLoad(s).request == None
  {
  }

  /** What the feed can observe. A completion only exists for a page in flight. */
  datatype Event = KeyDown(key: Key) | TouchStart(y: int) | TouchMove(y: int) | TouchEnd
                 | LoadCompleted(response: Result<seq<FeedItem>>)

  function Step(s: FeedState, e: Event): FeedState {
    match e
    case KeyDown(key) => OnKeyDown(s, key).state
    case TouchStart(y) => OnTouchStart(s, y)
    case TouchMove(y) => OnTouchMove(s, y)
    case TouchEnd => OnTouchEnd(s).state
    case LoadCompleted(response) => if s.isLoading then EndLoad(s, response) else s
  }

  function Run(s: FeedState, events: seq<Event>): FeedState
    decreases |events|
  {
    if events == [] then s else Run(Step(s, events[0]), events[1..])
  }

  /** One event keeps the index on a card and only ever appends to the list. */
  lemma StepKeepsInBounds(s: FeedState, e: Event)
    requires InBounds(s)
    ensures InBounds(Step(s, e))
    ensures s.items <= Step(s, e).items
  {
  }

  /** Any sequence of events keeps the index on a card, and the list loaded
      before them stays an unchanged prefix of the list after them. */
  lemma {:induction false} RunKeepsInBounds(s: FeedState, events: seq<Event>)
    requires InBounds(s)
    ensures InBounds(Run(s, events))
    ensures s.items <= Run(s, events).items
    decreases |events|
  {
    if events != [] {
      StepKeepsInBounds(s, events[0]);
      RunKeepsInBounds(Step(s, events[0]), events[1..]);
    }
  }

  /** From the first card of a non-empty initial page, every reachable index
      lies inside the list. */
  lemma FromFirstCard(items: seq<FeedItem>, events: seq<Event>)
    requires items != []
    ensures var t := Run(Initial(items), events);
            0 <= t.index < |t.items| && items <= t.items
  {
    RunKeepsInBounds(Initial(items), events);
  }

  /** Newest first, as the server orders the feed. */
  predicate NewestFirst(items: seq<FeedItem>) {
    forall i, j :: 0 <= i < j < |items| ==> items[i].createdAt >= items[j].createdAt
  }

  /** What an honest store answers to a page query: at most `limit` answers,
      newest first, all strictly older than the cursor. */
  predicate AnswersPage(q: PageQuery, page: seq<FeedItem>) {
    |page| <= q.limit && NewestFirst(page)
    && forall i :: 0 <= i < |page| ==> page[i].createdAt < q.before
  }

  /** Appending a page the store gave for the feed's cursor keeps the feed
      newest first, every appended answer being older than every loaded one. */
  lemma AppendKeepsNewestFirst(items: seq<FeedItem>, page: seq<FeedItem>)
    requires items != [] && NewestFirst(items) && AnswersPage(NextPage(items), page)
    ensures NewestFirst(items + page)
    ensures forall i, j :: 0 <= i < |items| && 0 <= j < |page| ==> items[i].createdAt > page[j].createdAt
  {
    var all := items + page;
    forall i, j | 0 <= i < j < |all| ensures all[i].createdAt >= all[j].createdAt {
      if j >= |items| && i < |items| {
        assert items[i].createdAt >= items[|items| - 1].createdAt;
      }
    }
    forall i, j | 0 <= i < |items| && 0 <= j < |page| ensures items[i].createdAt > page[j].createdAt {
      assert items[i].createdAt >= items[|items| - 1].createdAt;
    }
  }

  /** While a page is in flight, no event but its completion changes the
      list or clears the flag, so the query in flight is still `NextPage` of
      the list when the page arrives. */
  lemma LoadingKeepsList(s: FeedState, e: Event)
    requires s.isLoading && !e.LoadCompleted?
    ensures Step(s, e).items == s.items && Step(s, e).isLoading
  {
  }

  /** Every completed page in `events` is what an honest store answers to the
      query in flight, which is `NextPage` of the list (LoadingKeepsList). */
  predicate HonestStore(s: FeedState, events: seq<Event>)
    decreases |events|
  {
    events != [] ==>
      (events[0].LoadCompleted? && events[0].response.Ok? && s.isLoading ==>
         s.items != [] && AnswersPage(NextPage(s.items), events[0].response.value))
      && HonestStore(Step(s, events[0]), events[1..])
  }

  /** With an honest store the feed stays newest first, however the reader
      navigates: the cursor never moves forward in time. */
  lemma {:induction false} RunKeepsNewestFirst(s: FeedState, events: seq<Event>)
    requires NewestFirst(s.items) && HonestStore(s, events)
    ensures NewestFirst(Run(s, events).items)
    decreases |events|
  {
    if events != [] {
      var e := events[0];
      if e.LoadCompleted? && e.response.Ok? && s.isLoading {
        AppendKeepsNewestFirst(s.items, e.response.value);
      }
      assert NewestFirst(Step(s, e).items);
      RunKeepsNewestFirst(Step(s, e), events[1..]);
    }
  }

  /** The component, its state updated in place by its handlers. */
  class FeedContent {
    var feedItems: seq<FeedItem>
    var currentIndex: int
    var isLoading: bool
    var touchStart: Option<int>
    var touchEnd: Option<int>

    function State(): FeedState
      reads this
    {
      FeedState(feedItems, currentIndex, isLoading, touchStart, touchEnd)
    }

    ghost predicate Valid()
      reads this
    {
      InBounds(State())
    }

    constructor (initialFeedItems: seq<FeedItem>)
      ensures Valid() && State() == Initial(initialFeedItems)
    {
      feedItems := initialFeedItems;
      currentIndex := 0;
      isLoading := false;
      touchStart := None;
      touchEnd := None;
    }

    /** `loadMoreItems` up to its await; answers the query sent, if any. */
    method LoadMoreItems() returns (request: Option<PageQuery>)
      requires Valid()
      modifies this`isLoading
      ensures Valid()
      ensures Reaction(State(), true, request) == BeginLoad(old(State()))
    {
      if isLoading || |feedItems| == 0 {
        return None;
      }
      isLoading := true;
      var lastItem := feedItems[|feedItems| - 1];
      request := Some(PageQuery(lastItem.createdAt, PageSize));
    }

    /** `loadMoreItems` after its await, with the store's answer. */
    method LoadMoreFinished(response: Result<seq<FeedItem>>) returns (toast: Option<string>)
      requires Valid() && isLoading
      modifies this`feedItems, this`isLoading
      ensures Valid()
      ensures State() == EndLoad(old(State()), response)
      ensures toast == if response.Err? then Some(response.error) else None
    {
      toast := if response.Err? then Some(response.error) else None;
      if response.Ok? && |response.value| > 0 {
        feedItems := feedItems + response.value;
      }
      isLoading := false;
    }

    /** The keydown listener. */
    method HandleKeyDown(key: Key) returns (loadCalled: bool, request: Option<PageQuery>)
      requires Valid()
      modifies this`currentIndex, this`isLoading
      ensures Valid()
      ensures Reaction(State(), loadCalled, request) == OnKeyDown(old(State()), key)
    {
      loadCalled, request := false, None;
      if key == ArrowUp && currentIndex > 0 {
        currentIndex := currentIndex - 1;
      } else if key == ArrowDown && currentIndex < |feedItems| - 1 {
        var before := currentIndex;
        currentIndex := currentIndex + 1;
        if before >= |feedItems| - PrefetchWindow {
          loadCalled := true;
          request := LoadMoreItems();
        }
      }
    }

    method HandleTouchStart(y: int)
      modifies this`touchStart
      ensures State() == OnTouchStart(old(State()), y)
    {
      touchStart := Some(y);
    }

    method HandleTouchMove(y: int)
      modifies this`touchEnd
      ensures State() == OnTouchMove(old(State()), y)
    {
      touchEnd := Some(y);
    }

    /** `handleTouchEnd`. */
    method HandleTouchEnd() returns (loadCalled: bool, request: Option<PageQuery>)
      requires Valid()
      modifies this`currentIndex, this`isLoading, this`touchStart, this`touchEnd
      ensures Valid()
      ensures Reaction(State(), loadCalled, request) == OnTouchEnd(old(State()))
    {
      loadCalled, request := false, None;
      if !Present(touchStart) || !Present(touchEnd) {
        return;
      }
      var distance := touchStart.value - touchEnd.value;
      if Abs(distance) > SwipeThreshold {
        if distance > 0 && currentIndex < |feedItems| - 1 {
          var before := currentIndex;
          currentIndex := currentIndex + 1;
          if before >= |feedItems| - PrefetchWindow {
            loadCalled := true;
            request := LoadMoreItems();
          }
        } else if distance < 0 && currentIndex > 0 {
          currentIndex := currentIndex - 1;
        }
      }
      touchStart := None;
      touchEnd := None;
    }
  }
}
