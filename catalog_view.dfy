/** The pipeline that the three catalogue pages (src/js/movies.js, src/js/tvshows.js, src/js/music.js) share:
    a page caches its items, filters them by a case-insensitive substring of the name, sorts a copy by name,
    size or date in the direction of the sort buttons, and lays out a grid of cards or of placeholders that
    an intersection observer later turns into cards. */
module CatalogView {
  import opened Text
  import opened Sorting

  // ---------------------------------------------------------------- sort buttons

  /** The sort buttons: 'title' (movies, shows) or 'artist' (music), 'size' and 'date'. */
  datatype SortKey = Name | Size | Date

  /** `currentFilter` and `isAscending`. */
  datatype SortState = SortState(key: SortKey, ascending: bool)

  /** The state a page starts in: by name, ascending. */
  const InitialSort := SortState(Name, true)

  /** The click handler of a sort button: the active key flips the direction, another key becomes active
      in ascending order. */
  function Toggle(s: SortState, clicked: SortKey): (r: SortState)
    ensures r.key == clicked
    ensures s.key == clicked ==> r.ascending == !s.ascending
    ensures s.key != clicked ==> r.ascending
  {
    if s.key == clicked then SortState(s.key, !s.ascending) else SortState(clicked, true)
  }

  /** Two clicks on the active key restore the state; two clicks on another key leave it active and
      descending. */
  lemma ToggleTwice(s: SortState, clicked: SortKey)
    ensures s.key == clicked ==> Toggle(Toggle(s, clicked), clicked) == s
    ensures s.key != clicked ==> Toggle(Toggle(s, clicked), clicked) == SortState(clicked, false)
  {
  }

  /** The arrow text of the active button. */
  function Arrow(s: SortState): (arrow: string)
    ensures |arrow| == 3 && arrow[1] == '\U{2192}'
  {
    match s.key
    case Name => if s.ascending then "A\U{2192}Z" else "Z\U{2192}A"
    case Size => if s.ascending then "S\U{2192}L" else "L\U{2192}S"
    case Date => if s.ascending then "O\U{2192}N" else "N\U{2192}O"
  }

  /** The arrow shown on `button`: the active one carries the arrow, every other one is cleared. */
  function ButtonArrow(s: SortState, button: SortKey): (arrow: string)
    ensures arrow != "" <==> button == s.key
  {
    if button == s.key then Arrow(s) else ""
  }

  /** The arrows tell every state apart: the arrow reversed is the arrow of the other direction. */
  lemma ArrowsDistinct(s: SortState, t: SortState)
    requires s != t
    ensures Arrow(s) != Arrow(t)
  {
    assert Arrow(s)[0] != Arrow(t)[0];
  }

  // ---------------------------------------------------------------- search filter

  /** `name.toLowerCase().includes(query)` for an already lower-cased query. */
  predicate Matches(query: string, name: string) {
    Contains(ToLower(name), query)
  }

  /** `items.filter(x => name(x).toLowerCase().includes(query))`: the matching items, in their order. */
  function Keep<T(!new)>(items: seq<T>, query: string, name: T -> string): (r: seq<T>)
    ensures |r| <= |items|
  {
    if items == [] then []
    else
      var rest := Keep(items[1..], query, name);
      if Matches(query, name(items[0])) then [items[0]] + rest else rest
  }

  /** An item is kept as often as it occurs when its name matches, and never otherwise. */
  lemma {:induction false} KeepCount<T(!new)>(items: seq<T>, query: string, name: T -> string, x: T)
    ensures multiset(Keep(items, query, name))[x] == if Matches(query, name(x)) then multiset(items)[x] else 0
  {
    if items != [] {
      KeepCount(items[1..], query, name, x);
      assert items == [items[0]] + items[1..];
    }
  }

  /** Filtering keeps order: filtering a concatenation concatenates the filtered parts. */
  lemma {:induction false} KeepAppend<T(!new)>(a: seq<T>, b: seq<T>, query: string, name: T -> string)
    ensures Keep(a + b, query, name) == Keep(a, query, name) + Keep(b, query, name)
  {
    if a != [] {
      assert (a + b)[1..] == a[1..] + b;
      KeepAppend(a[1..], b, query, name);
    } else {
      assert a + b == b;
    }
  }

  /** The empty string occurs in every name, so filtering by it keeps everything. */
  lemma {:induction false} KeepEmptyQuery<T(!new)>(items: seq<T>, name: T -> string)
    ensures Keep(items, "", name) == items
  {
    if items != [] {
      assert OccursAt(ToLower(name(items[0])), "", 0);
      KeepEmptyQuery(items[1..], name);
    }
  }

  /** The search step of a render pass: the query is lower-cased; an empty query keeps every item, any
      other keeps exactly the items whose lower-cased name contains it, in their order. */
  function Filter<T(!new)>(items: seq<T>, searchQuery: string, name: T -> string): (r: seq<T>)
    ensures ToLower(searchQuery) == "" ==> r == items
    ensures ToLower(searchQuery) != "" ==> r == Keep(items, ToLower(searchQuery), name)
  {
    var query := ToLower(searchQuery);
    if query == "" then items else Keep(items, query, name)
  }

  /** Whatever the query, an item is kept as often as it occurs exactly when its name contains the
      lower-cased query: the `query ? ... : all` shortcut agrees with filtering. */
  lemma FilterMembership<T(!new)>(items: seq<T>, searchQuery: string, name: T -> string, x: T)
    ensures multiset(Filter(items, searchQuery, name))[x]
      == if Matches(ToLower(searchQuery), name(x)) then multiset(items)[x] else 0
  {
    if ToLower(searchQuery) == "" {
      KeepEmptyQuery(items, name);
    }
    KeepCount(items, ToLower(searchQuery), name, x);
  }

  /** The search ignores the letter case of the query. */
  lemma FilterIgnoresQueryCase<T(!new)>(items: seq<T>, searchQuery: string, name: T -> string)
    ensures Filter(items, ToUpper(searchQuery), name) == Filter(items, searchQuery, name)
  {
    LowerOfUpper(searchQuery);
  }

  // ---------------------------------------------------------------- sorting

  /** What a page sorts by: the name, and the numeric size and date keys of an item. */
  datatype Keys<!T> = Keys(name: T -> string, size: T -> real, date: T -> real)

  /** The comparison of the sort callback before the direction is applied: `localeCompare` of the names
      (`collate`), or the difference of the size or date keys. */
  function Comparison<T>(key: SortKey, collate: Comparator<string>, keys: Keys<T>): Comparator<T> {
    match key
    case Name => (a: T, b: T) => collate(keys.name(a), keys.name(b))
    case Size => ByKey(keys.size)
    case Date => ByKey(keys.date)
  }

  /** The sort callback: `isAscending ? comparison : -comparison`. */
  function Order<T>(s: SortState, collate: Comparator<string>, keys: Keys<T>): Comparator<T> {
    Directed(s.ascending, Comparison(s.key, collate, keys))
  }

  lemma OrderConsistent<T(!new)>(s: SortState, collate: Comparator<string>, keys: Keys<T>)
    requires IsConsistent(collate)
    ensures IsConsistent(Order(s, collate, keys))
  {
    var c := Comparison(s.key, collate, keys);
    if s.key == Name {
      forall a: T, b: T ensures c(a, b) < 0.0 <==> c(b, a) > 0.0 {
        assert c(a, b) == collate(keys.name(a), keys.name(b));
      }
      forall a: T, b: T, e: T | c(a, b) <= 0.0 && c(b, e) <= 0.0 ensures c(a, e) <= 0.0 {
        assert collate(keys.name(a), keys.name(b)) <= 0.0;
      }
    } else {
      ByKeyConsistent(if s.key == Size then keys.size else keys.date);
    }
    DirectedConsistent(s.ascending, c);
  }

  /** One render pass's list: the filtered items, sorted on a copy (the cache is not reordered). */
  function View<T(!new)>(items: seq<T>, searchQuery: string, s: SortState, collate: Comparator<string>,
                   keys: Keys<T>): seq<T> {
    SortBy(Filter(items, searchQuery, keys.name), Order(s, collate, keys))
  }

  /** The rendered list holds the filtered items, each as often, ordered by the active key: non-decreasing
      when ascending, non-increasing when descending. */
  lemma ViewSorted<T(!new)>(items: seq<T>, searchQuery: string, s: SortState, collate: Comparator<string>,
                            keys: Keys<T>)
    requires IsConsistent(collate)
    ensures var v := View(items, searchQuery, s, collate, keys);
      && multiset(v) == multiset(Filter(items, searchQuery, keys.name))
      && (s.key == Size && s.ascending ==>
            forall i, j :: 0 <= i < j < |v| ==> keys.size(v[i]) <= keys.size(v[j]))
      && (s.key == Size && !s.ascending ==>
            forall i, j :: 0 <= i < j < |v| ==> keys.size(v[i]) >= keys.size(v[j]))
      && (s.key == Date && s.ascending ==>
            forall i, j :: 0 <= i < j < |v| ==> keys.date(v[i]) <= keys.date(v[j]))
      && (s.key == Date && !s.ascending ==>
            forall i, j :: 0 <= i < j < |v| ==> keys.date(v[i]) >= keys.date(v[j]))
      && (s.key == Name && s.ascending ==>
            forall i, j :: 0 <= i < j < |v| ==> collate(keys.name(v[i]), keys.name(v[j])) <= 0.0)
      && (s.key == Name && !s.ascending ==>
            forall i, j :: 0 <= i < j < |v| ==> collate(keys.name(v[i]), keys.name(v[j])) >= 0.0)
  {
    var order := Order(s, collate, keys);
    OrderConsistent(s, collate, keys);
    SortBySorted(Filter(items, searchQuery, keys.name), order);
  }

  /** The sort is stable in both directions: items that compare equal under the active key keep the order
      they had in the cache. */
  lemma ViewStable<T(!new)>(items: seq<T>, searchQuery: string, s: SortState, collate: Comparator<string>,
                            keys: Keys<T>, p: T)
    requires IsConsistent(collate)
    ensures Ties(View(items, searchQuery, s, collate, keys), p, Order(s, collate, keys))
         == Ties(Filter(items, searchQuery, keys.name), p, Order(s, collate, keys))
  {
    OrderConsistent(s, collate, keys);
    SortByStable(Filter(items, searchQuery, keys.name), p, Order(s, collate, keys));
  }

  // ---------------------------------------------------------------- the grid

  /** A grid cell: a placeholder holding its item until it is rendered, or a rendered card. */
  datatype Slot<T> = Placeholder(item: T) | Card(item: T)

  /** The items of the grid cells, in order. */
  function Items<T>(grid: seq<Slot<T>>): (r: seq<T>)
    ensures |r| == |grid|
    ensures forall i :: 0 <= i < |grid| ==> r[i] == grid[i].item
  {
    seq(|grid|, i requires 0 <= i < |grid| => grid[i].item)
  }

  /** The lazy path: one placeholder appended to the grid per item, in order. */
  method Placeholders<T>(items: seq<T>) returns (grid: seq<Slot<T>>)
    ensures Items(grid) == items
    ensures forall i :: 0 <= i < |grid| ==> grid[i].Placeholder?
  {
    grid := [];
    for k := 0 to |items|
      invariant |grid| == k
      invariant forall i :: 0 <= i < k ==> grid[i] == Placeholder(items[i])
    {
      grid := grid + [Placeholder(items[k])];
    }
  }

  /** The eager path: one card appended to the grid per item, in order. */
  method Cards<T>(items: seq<T>) returns (grid: seq<Slot<T>>)
    ensures Items(grid) == items
    ensures forall i :: 0 <= i < |grid| ==> grid[i].Card?
  {
    grid := [];
    for k := 0 to |items|
      invariant |grid| == k
      invariant forall i :: 0 <= i < k ==> grid[i] == Card(items[i])
    {
      grid := grid + [Card(items[k])];
    }
  }

  /** The cell indices `0 .. n - 1`. */
  function Below(n: nat): (r: set<nat>)
    ensures forall i :: i in r <==> 0 <= i < n
  {
    if n == 0 then {} else Below(n - 1) + {n - 1}
  }

  /** A catalogue page: the cached items (`allMovies`, `allShows`, `allArtists`), the sort buttons' state,
      the grid, and the intersection observer, identified by how many observers the page has created
      (0 while `currentObserver` is null) and the grid cells it still observes. `alwaysLazy` is set for the
      movies page, which renders placeholders even for a search; the shows and music pages render cards
      straight away when there is a query. */
  class CatalogPage<T(!new)> {
    const keys: Keys<T>
    const alwaysLazy: bool
    var all: seq<T>
    var sort: SortState
    var grid: seq<Slot<T>>
    var observer: nat
    var observing: set<nat>

    /** Exactly the placeholders are observed. */
    ghost predicate Valid()
      reads this
    {
      (forall i :: i in observing ==> i < |grid|)
      && (forall i :: 0 <= i < |grid| ==> (grid[i].Placeholder? <==> i in observing))
    }

    constructor(keys: Keys<T>, alwaysLazy: bool)
      ensures this.keys == keys && this.alwaysLazy == alwaysLazy
      ensures all == [] && sort == InitialSort && grid == [] && observer == 0 && observing == {}
      ensures Valid()
    {
      this.keys := keys;
      this.alwaysLazy := alwaysLazy;
      all := [];
      sort := InitialSort;
      grid := [];
      observer := 0;
      observing := {};
    }

    /** Whether a render pass for this query goes through placeholders. */
    predicate LazyFor(searchQuery: string) {
      alwaysLazy || ToLower(searchQuery) == ""
    }

    /** A render pass (`populate...Content(data, searchQuery)`): the cache is filled from the data only
        while it is empty; the grid is rebuilt from the view of the cache. A lazy pass disconnects the
        previous observer (its later notifications are ignored), creates a new one and observes one
        placeholder per item; an eager pass lays out the cards. */
    method Populate(data: seq<T>, searchQuery: string, collate: Comparator<string>)
      modifies this
      ensures all == if old(all) == [] then data else old(all)
      ensures sort == old(sort)
      ensures Items(grid) == View(all, searchQuery, sort, collate, keys)
      ensures Valid()
      ensures LazyFor(searchQuery) ==> observer == old(observer) + 1
      ensures LazyFor(searchQuery) ==> forall i :: 0 <= i < |grid| ==> grid[i].Placeholder?
      ensures !LazyFor(searchQuery) ==> observer == old(observer) && observing == {}
      ensures !LazyFor(searchQuery) ==> forall i :: 0 <= i < |grid| ==> grid[i].Card?
    {
      if all == [] {
        all := data;
      }
      var shown := View(all, searchQuery, sort, collate, keys);
      if LazyFor(searchQuery) {
        observer := observer + 1;
        grid := Placeholders(shown);
        observing := Below(|grid|);
      } else {
        grid := Cards(shown);
        observing := {};
      }
    }

    /** The observer of generation `generation` reports cell `i` as intersecting: a placeholder that the
        current observer still observes is replaced by its card and unobserved; anything else changes
        nothing, so each placeholder becomes a card at most once. */
    method Intersect(generation: nat, i: nat)
      requires Valid()
      modifies this
      ensures Valid()
      ensures Items(grid) == old(Items(grid))
      ensures all == old(all) && sort == old(sort) && observer == old(observer)
      ensures generation == observer && i in old(observing) ==>
        grid == old(grid)[i := Card(old(grid)[i].item)] && observing == old(observing) - {i}
      ensures !(generation == observer && i in old(observing)) ==>
        grid == old(grid) && observing == old(observing)
    {
      if generation == observer && i in observing {
        grid := grid[i := Card(grid[i].item)];
        observing := observing - {i};
      }
    }

    /** A click on a sort button: the state toggles, and the page is rendered again with the current
        search text once its data has been loaded. */
    method ClickSort(clicked: SortKey, data: seq<T>, loaded: bool, searchQuery: string,
                     collate: Comparator<string>)
      requires Valid()
      modifies this
      ensures sort == Toggle(old(sort), clicked)
      ensures Valid()
      ensures !loaded ==> all == old(all) && grid == old(grid) && observer == old(observer)
                          && observing == old(observing)
      ensures loaded ==> all == (if old(all) == [] then data else old(all))
      ensures loaded ==> Items(grid) == View(all, searchQuery, sort, collate, keys)
      ensures loaded && LazyFor(searchQuery) ==> observer == old(observer) + 1
      ensures loaded && LazyFor(searchQuery) ==> forall i :: 0 <= i < |grid| ==> grid[i].Placeholder?
      ensures loaded && !LazyFor(searchQuery) ==> observer == old(observer) && observing == {}
      ensures loaded && !LazyFor(searchQuery) ==> forall i :: 0 <= i < |grid| ==> grid[i].Card?
    {
      sort := Toggle(sort, clicked);
      if loaded {
        Populate(data, searchQuery, collate);
      }
    }
  }
}
