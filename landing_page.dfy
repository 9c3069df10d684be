/**
 * The state the landing page keeps between renders: the grid's sort settings and search
 * term, the carousel's rotation index, and the live-price cache. Timers and the network are
 * not modelled as concurrency: each timer firing, each settled fetch and each change of the
 * inputs an effect depends on is an explicit method call on `LandingState`.
 */
module LandingPage {
  import opened Types
  import opened Text
  import opened Sorting
  import opened Standings

  // ---------------------------------------------------------------------------------------
  // Sort toggle

  datatype SortState = SortState(key: SortKey, order: SortOrder)

  const InitialSort := SortState(Bottles, Desc)

  function Flip(o: SortOrder): (r: SortOrder)
    ensures r != o
  {
    if o == Asc then Desc else Asc
  }

  /** `handleSort(criteria)`: the active key flips its direction; a new key gets its default. */
  function NextSort(s: SortState, criteria: SortKey): (r: SortState)
    ensures r.key == criteria
    ensures s.key == criteria ==> r.order != s.order
    ensures s.key != criteria ==> r.order == (if criteria == Name then Asc else Desc)
  {
    if s.key == criteria then SortState(s.key, Flip(s.order))
    else SortState(criteria, if criteria == Name then Asc else Desc)
  }

  /** Choosing the active key twice restores the sort state. */
  lemma ToggleTwiceRestores(s: SortState)
    ensures NextSort(NextSort(s, s.key), s.key) == s
  {
  }

  /** The state after a sequence of sort-button presses. */
  function AfterPresses(s: SortState, presses: seq<SortKey>): SortState
  {
    if presses == [] then s else NextSort(AfterPresses(s, presses[..|presses| - 1]), presses[|presses| - 1])
  }

  /**
   * Whatever was pressed before, a run of n + 1 presses of a key that was not active ends in
   * that key's default direction when n is even and in the opposite one when n is odd.
   */
  lemma {:induction false} LastRunDecides(s: SortState, presses: seq<SortKey>, k: SortKey, n: nat)
    requires AfterPresses(s, presses).key != k
    ensures AfterPresses(s, presses + seq(n + 1, _ => k))
         == SortState(k, if n % 2 == 0 then (if k == Name then Asc else Desc)
                         else Flip(if k == Name then Asc else Desc))
  {
    var run := presses + seq(n + 1, _ => k);
    assert run[..|run| - 1] == presses + seq(n, _ => k);
    if n > 0 {
      LastRunDecides(s, presses, k, n - 1);
    } else {
      assert presses + seq(0, _ => k) == presses;
    }
  }

  // ---------------------------------------------------------------------------------------
  // Carousel rotation

  /** One firing of the 4-second interval: the next index, wrapping to 0 past the last card. */
  function NextCarouselIndex(prev: nat, len: nat): (r: nat)
    requires len > 0
    ensures r < len
    ensures prev + 1 < len ==> r == prev + 1
    ensures prev + 1 == len ==> r == 0
    ensures len <= prev + 1 < 2 * len ==> r == prev + 1 - len
  {
    (prev + 1) % len
  }

  /** The index after k firings with the length fixed. */
  function CarouselAfter(start: nat, len: nat, k: nat): nat
    requires len > 0
  {
    if k == 0 then start else NextCarouselIndex(CarouselAfter(start, len, k - 1), len)
  }

  /** Firings compose: a + b firings are a firings followed by b firings. */
  lemma {:induction false} CarouselAfterCompose(start: nat, len: nat, a: nat, b: nat)
    requires len > 0
    ensures CarouselAfter(start, len, a + b) == CarouselAfter(CarouselAfter(start, len, a), len, b)
  {
    if b > 0 {
      CarouselAfterCompose(start, len, a, b - 1);
    }
  }

  /** Below the wrap-around point each firing moves the index up by one. */
  lemma {:induction false} CarouselAfterClimbs(start: nat, len: nat, k: nat)
    requires start + k < len
    ensures CarouselAfter(start, len, k) == start + k
  {
    if k > 0 {
      CarouselAfterClimbs(start, len, k - 1);
    }
  }

  /** With the length fixed, the rotation returns to where it started after len firings. */
  lemma CarouselReturns(start: nat, len: nat)
    requires start < len
    ensures CarouselAfter(start, len, len) == start
  {
    var toWrap := len - start;
    CarouselAfterClimbs(start, len, toWrap - 1);
    assert CarouselAfter(start, len, toWrap) == 0;
    CarouselAfterCompose(start, len, toWrap, start);
    CarouselAfterClimbs(0, len, start);
  }

  // ---------------------------------------------------------------------------------------
  // Live price cache

  /** What a `fetchPrice` call ends in: an exception, a body without `ripple`, or the rates. */
  datatype FetchResult = Threw | NoRipple | Ripple(usd: real, bwp: real)

  /** A fetch that settled, with the display currency its effect closure captured. */
  datatype SettledFetch = SettledFetch(currency: string, result: FetchResult)

  /** The rate a response carries for a currency: `usd` for "USD", `bwp` for anything else. */
  function RateFor(currency: string, usd: real, bwp: real): real
  {
    if currency == "USD" then usd else bwp
  }

  /** The cache after one settled fetch: overwritten only when the response has `ripple`. */
  function ApplyFetch(cache: Option<real>, f: SettledFetch): (r: Option<real>)
    ensures !f.result.Ripple? ==> r == cache
    ensures f.result.Ripple? ==> r == Some(RateFor(f.currency, f.result.usd, f.result.bwp))
  {
    match f.result
    case Ripple(usd, bwp) => Some(RateFor(f.currency, usd, bwp))
    case _ => cache
  }

  /** The cache after a run of settled fetches, in the order they settled. */
  function CacheAfter(cache: Option<real>, fs: seq<SettledFetch>): Option<real>
  {
    if fs == [] then cache else ApplyFetch(CacheAfter(cache, fs[..|fs| - 1]), fs[|fs| - 1])
  }

  /** Fetches that fail or lack `ripple` leave the cache as it was. */
  lemma {:induction false} FailuresKeepCache(cache: Option<real>, fs: seq<SettledFetch>)
    requires forall k :: 0 <= k < |fs| ==> !fs[k].result.Ripple?
    ensures CacheAfter(cache, fs) == cache
  {
    if fs != [] {
      FailuresKeepCache(cache, fs[..|fs| - 1]);
    }
  }

  /** The cache holds the rate of the last fetch that brought `ripple`, whatever came after. */
  lemma {:induction false} LastSuccessWins(cache: Option<real>, fs: seq<SettledFetch>, k: nat)
    requires k < |fs| && fs[k].result.Ripple?
    requires forall j :: k < j < |fs| ==> !fs[j].result.Ripple?
    ensures CacheAfter(cache, fs) == Some(RateFor(fs[k].currency, fs[k].result.usd, fs[k].result.bwp))
  {
    if k < |fs| - 1 {
      LastSuccessWins(cache, fs[..|fs| - 1], k);
    }
  }

  /** Once a rate is cached, no run of fetches brings the cache back to null. */
  lemma {:induction false} NeverUnset(cache: Option<real>, fs: seq<SettledFetch>)
    requires cache.Some?
    ensures CacheAfter(cache, fs).Some?
  {
    if fs != [] {
      NeverUnset(cache, fs[..|fs| - 1]);
    }
  }

  /** Until some fetch brings `ripple`, every card is valued at the 32.5 fallback. */
  lemma FallbackUntilFirstSuccess(fs: seq<SettledFetch>, totalXrp: real)
    requires forall k :: 0 <= k < |fs| ==> !fs[k].result.Ripple?
    ensures EstimatedValue(totalXrp, CacheAfter(None, fs)) == totalXrp * 32.5
  {
    FailuresKeepCache(None, fs);
  }

  // ---------------------------------------------------------------------------------------
  // The component's state

  class LandingState {
    /** The user list the page was last rendered with. */
    var users: seq<User>
    var sort: SortState
    var searchTerm: string
    /** `carouselIndex`. */
    var carouselIndex: nat
    /** `topThree.length` as last seen by the rotation effect; its timer runs when positive. */
    var carouselLength: nat
    /** `liveXrpPrice`; `None` is JavaScript's null. */
    var liveXrpPrice: Option<real>
    /** `settings.xrpDisplayCurrency` as last seen by the price effect. */
    var displayCurrency: string
    /** The currencies captured by fetches that have started and not yet settled. */
    var inFlight: seq<string>

    /**
     * The first render and its effects: default sort, empty search, index 0, null price,
     * and the immediate fetch of the price effect.
     */
    constructor (initialUsers: seq<User>, currency: string)
      ensures users == initialUsers && sort == InitialSort && searchTerm == ""
      ensures carouselIndex == 0 && carouselLength == |TopThree(users)|
      ensures liveXrpPrice == None && displayCurrency == currency && inFlight == [currency]
    {
      users := initialUsers;
      sort := InitialSort;
      searchTerm := "";
      carouselIndex := 0;
      carouselLength := |TopThree(initialUsers)|;
      liveXrpPrice := None;
      displayCurrency := currency;
      inFlight := [currency];
    }

    /** A press of one of the three sort buttons. */
    method HandleSort(criteria: SortKey)
      modifies this`sort
      ensures sort == NextSort(old(sort), criteria)
    {
      sort := NextSort(sort, criteria);
    }

    method SetSearchTerm(term: string)
      modifies this`searchTerm
      ensures searchTerm == term
    {
      searchTerm := term;
    }

    /** The rotation interval fires; it exists only while the length it captured is positive. */
    method CarouselTick()
      requires carouselLength > 0
      modifies this`carouselIndex
      ensures carouselIndex == NextCarouselIndex(old(carouselIndex), carouselLength)
      ensures carouselIndex < carouselLength
    {
      carouselIndex := NextCarouselIndex(carouselIndex, carouselLength);
    }

    /**
     * New users arrive; if `topThree.length` changed, the rotation effect restarts its timer
     * with the new length. The index is left as it was, even when it is now out of range.
     */
    method UsersChanged(newUsers: seq<User>)
      modifies this`users, this`carouselLength
      ensures users == newUsers && carouselLength == |TopThree(newUsers)|
    {
      users := newUsers;
      carouselLength := |TopThree(newUsers)|;
    }

    /** The 60-second price interval fires: a fetch starts under the current currency. */
    method PriceIntervalTick()
      modifies this`inFlight
      ensures inFlight == old(inFlight) + [displayCurrency]
    {
      inFlight := inFlight + [displayCurrency];
    }

    /** The display currency setting changes: the price effect refetches at once. */
    method CurrencyChanged(currency: string)
      modifies this`displayCurrency, this`inFlight
      ensures displayCurrency == currency
      ensures inFlight == if currency == old(displayCurrency) then old(inFlight) else old(inFlight) + [currency]
    {
      if currency != displayCurrency {
        displayCurrency := currency;
        inFlight := inFlight + [currency];
      }
    }

    /** The i-th started fetch settles, with the currency its closure captured. */
    method FetchSettled(i: nat, result: FetchResult)
      requires i < |inFlight|
      modifies this`liveXrpPrice, this`inFlight
      ensures liveXrpPrice == ApplyFetch(old(liveXrpPrice), SettledFetch(old(inFlight)[i], result))
      ensures inFlight == old(inFlight[..i] + inFlight[i + 1..])
    {
      liveXrpPrice := ApplyFetch(liveXrpPrice, SettledFetch(inFlight[i], result));
      inFlight := inFlight[..i] + inFlight[i + 1..];
    }

    /** The grid as this state shows it. */
    function GridView(): (r: seq<User>)
      reads this
      ensures Sorted(ByKey(sort.key, sort.order), r)
      ensures |r| <= |users|
      ensures forall i :: 0 <= i < |r| ==> r[i] in users && r[i].role == Participant && Matches(r[i].name, searchTerm)
      ensures forall u :: multiset(r)[u]
                == if u.role == Participant && Matches(u.name, searchTerm) then multiset(users)[u] else 0
    {
      forall u {
        GridMembers(users, sort.key, sort.order, searchTerm, u);
      }
      GridOrdered(users, sort.key, sort.order, searchTerm);
      GridEntries(users, sort.key, sort.order, searchTerm);
      Grid(users, sort.key, sort.order, searchTerm)
    }

    /** The carousel card shown in front, if the index points at one of the top three. */
    function Highlighted(): (r: Option<User>)
      reads this
      ensures r.Some? <==> carouselIndex < |TopThree(users)|
      ensures r.Some? ==> r.value in TopThree(users)
      ensures r.Some? ==> r.value == TopThree(users)[carouselIndex]
    {
      var top := TopThree(users);
      if carouselIndex < |top| then Some(top[carouselIndex]) else None
    }
  }

  /**
   * A fetch started under "USD" that settles after the switch to "BWP" (and after the
   * BWP refetch) leaves the USD rate in the cache while the badge says BWP.
   */
  method StaleCurrencyScenario(users: seq<User>) returns (price: Option<real>, currency: string)
    ensures currency == "BWP" && price == Some(0.5)
  {
    var page := new LandingState(users, "USD");
    page.CurrencyChanged("BWP");
    page.FetchSettled(1, Ripple(0.5, 7.0));
    page.FetchSettled(0, Ripple(0.5, 7.0));
    price, currency := page.liveXrpPrice, page.displayCurrency;
  }

  /**
   * The top three shrinks from three to one while the index is 2: the index stays 2, no
   * card is highlighted, and the next firing brings it back to 0.
   */
  method ShrinkScenario(a: User, b: User, c: User)
    returns (indexAfterShrink: nat, shownAfterShrink: Option<User>, indexAfterTick: nat)
    requires a.role == Participant && b.role == Participant && c.role == Participant
    ensures indexAfterShrink == 2 && shownAfterShrink == None && indexAfterTick == 0
  {
    TopThreeOfThree(a, b, c);
    TopThreeOfOne(a);
    var page := new LandingState([a, b, c], "USD");
    assert page.carouselLength == 3;
    page.CarouselTick();
    assert page.carouselIndex == 1;
    page.CarouselTick();
    assert page.carouselIndex == 2;
    page.UsersChanged([a]);
    assert page.carouselLength == 1 && page.users == [a];
    indexAfterShrink := page.carouselIndex;
    shownAfterShrink := page.Highlighted();
    page.CarouselTick();
    indexAfterTick := page.carouselIndex;
  }
}
