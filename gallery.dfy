/**
 * The gallery page: its filter and sort pipeline over the visible
 * artifacts, and the view state the page's controls update.
 *
 * `toLowerCase` and `localeCompare` are parameters: `lower` and `collate`
 * (negative, zero or positive like `localeCompare`).
 */
module Gallery {
  import opened Wrappers
  import opened JsStrings
  import opened Sorting
  import opened Types
  import opened ArtifactLoader

  /** `filterType`: `'all'` or one artifact type. */
  datatype TypeFilter = AllTypes | OnlyType(kind: ArtifactType)

  /** The value of `filterTag` that filters nothing. */
  const AllTags: string := "all"

  /** `sortBy` */
  datatype SortKey = UpdatedAt | CreatedAt | Title

  /** `sortOrder` */
  datatype SortOrder = Asc | Desc

  /** The three filter controls. */
  datatype Filters = Filters(kind: TypeFilter, tag: string, search: string)

  /** The filters the page starts with, and the ones "Clear All Filters" restores. */
  const NoFilters: Filters := Filters(AllTypes, AllTags, "")

  /** `filterType !== 'all' || filterTag !== 'all' || searchTerm`: the clear button is shown. */
  predicate FiltersActive(f: Filters) {
    f.kind != AllTypes || f.tag != AllTags || f.search != ""
  }

  /** The search term occurs, case-insensitively, in the title, the description or a tag. */
  predicate MatchesSearch(a: Artifact, search: string, lower: string -> string) {
    var needle := lower(search);
    || Includes(lower(a.title), needle)
    || (a.description.Some? && Includes(lower(a.description.value), needle))
    || (exists t :: t in a.tags && Includes(lower(t), needle))
  }

  /** The predicate `artifacts.filter` applies. */
  predicate Keep(a: Artifact, f: Filters, lower: string -> string) {
    if f.kind.OnlyType? && a.kind != f.kind.kind then false
    else if f.tag != AllTags && f.tag !in a.tags then false
    else if f.search != "" && !MatchesSearch(a, f.search, lower) then false
    else true
  }

  /** `artifacts.filter(...)`: the artifacts kept, in their order. */
  function Filtered(arts: seq<Artifact>, f: Filters, lower: string -> string): (r: seq<Artifact>)
    ensures forall a :: a in r <==> a in arts && Keep(a, f, lower)
    ensures multiset(r) <= multiset(arts)
  {
    if |arts| == 0 then []
    else
      assert arts == [arts[0]] + arts[1..];
      (if Keep(arts[0], f, lower) then [arts[0]] else []) + Filtered(arts[1..], f, lower)
  }

  /** `r` is `s` with some elements left out, the others in their order. */
  predicate IsSubsequence<T(==)>(r: seq<T>, s: seq<T>) {
    if |s| == 0 then |r| == 0
    else (|r| > 0 && r[0] == s[0] && IsSubsequence(r[1..], s[1..])) || IsSubsequence(r, s[1..])
  }

  /** `filter` keeps the artifacts it keeps in their input order. */
  lemma {:induction false} FilteredKeepsOrder(arts: seq<Artifact>, f: Filters, lower: string -> string)
    ensures IsSubsequence(Filtered(arts, f, lower), arts)
  {
    if |arts| > 0 {
      var r, rest := Filtered(arts, f, lower), Filtered(arts[1..], f, lower);
      FilteredKeepsOrder(arts[1..], f, lower);
      if Keep(arts[0], f, lower) {
        assert r[0] == arts[0] && r[1..] == rest;
      } else {
        assert r == rest;
      }
    }
  }

  /** The timestamp a date sort compares. */
  function Stamp(a: Artifact, key: SortKey): int {
    if key == CreatedAt then a.createdAt else a.updatedAt
  }

  /**
   * The comparator of the sort, as "may precede": `compare(a, b) <= 0`.
   * Titles: `titleA.localeCompare(titleB)` ascending, the swapped call
   * descending. Dates: `dateA - dateB` ascending, `dateB - dateA` descending.
   */
  function Precedes(key: SortKey, order: SortOrder, lower: string -> string, collate: (string, string) -> int)
    : (Artifact, Artifact) -> bool
  {
    if key == Title then
      if order == Asc then (a: Artifact, b: Artifact) => collate(lower(a.title), lower(b.title)) <= 0
      else (a: Artifact, b: Artifact) => collate(lower(b.title), lower(a.title)) <= 0
    else
      if order == Asc then (a: Artifact, b: Artifact) => Stamp(a, key) - Stamp(b, key) <= 0
      else (a: Artifact, b: Artifact) => Stamp(b, key) - Stamp(a, key) <= 0
  }

  /** `filteredAndSortedArtifacts`: a sorted copy of the filtered artifacts. */
  function Displayed(
    arts: seq<Artifact>, f: Filters, key: SortKey, order: SortOrder,
    lower: string -> string, collate: (string, string) -> int): seq<Artifact>
  {
    InsertionSort(Filtered(arts, f, lower), Precedes(key, order, lower, collate))
  }

  /** `localeCompare` behaves as a total order: "at most" is total and transitive. */
  ghost predicate IsCollation(collate: (string, string) -> int) {
    && (forall x, y :: collate(x, y) <= 0 || collate(y, x) <= 0)
    && (forall x, y, z :: collate(x, y) <= 0 && collate(y, z) <= 0 ==> collate(x, z) <= 0)
  }

  /** Every sort comparator of the page is a total preorder, and descending swaps ascending. */
  lemma ComparatorsAreOrders(key: SortKey, lower: string -> string, collate: (string, string) -> int)
    requires key == Title ==> IsCollation(collate)
    ensures TotalPreorder(Precedes(key, Asc, lower, collate))
    ensures TotalPreorder(Precedes(key, Desc, lower, collate))
    ensures forall a, b :: Precedes(key, Desc, lower, collate)(a, b) == Precedes(key, Asc, lower, collate)(b, a)
  {
    var up, down := Precedes(key, Asc, lower, collate), Precedes(key, Desc, lower, collate);
    forall a, b ensures up(a, b) || up(b, a) {
      if key == Title {
        var x, y := lower(a.title), lower(b.title);
        assert collate(x, y) <= 0 || collate(y, x) <= 0;
      }
    }
    forall a, b, c | up(a, b) && up(b, c) ensures up(a, c) {
      if key == Title {
        assert collate(lower(a.title), lower(b.title)) <= 0 && collate(lower(b.title), lower(c.title)) <= 0;
      }
    }
    forall a, b ensures down(a, b) == up(b, a) {
    }
    forall a, b ensures down(a, b) || down(b, a) {
      assert down(a, b) == up(b, a) && down(b, a) == up(a, b);
    }
    forall a, b, c | down(a, b) && down(b, c) ensures down(a, c) {
      assert up(b, a) && up(c, b);
    }
  }

  /**
   * The page shows exactly the artifacts that pass the filter: every one
   * shown passes, every artifact that passes is shown, as often as it occurs.
   */
  lemma DisplayedIsFilteredPermutation(
    arts: seq<Artifact>, f: Filters, key: SortKey, order: SortOrder,
    lower: string -> string, collate: (string, string) -> int)
    ensures multiset(Displayed(arts, f, key, order, lower, collate)) == multiset(Filtered(arts, f, lower))
    ensures forall a :: a in Displayed(arts, f, key, order, lower, collate) <==> a in arts && Keep(a, f, lower)
  {
    var d := Displayed(arts, f, key, order, lower, collate);
    forall a ensures a in d <==> a in Filtered(arts, f, lower) {
      assert a in d <==> a in multiset(d);
    }
  }

  /** With a type selected, every artifact shown has that type. */
  lemma TypeFilterSound(
    arts: seq<Artifact>, f: Filters, key: SortKey, order: SortOrder,
    lower: string -> string, collate: (string, string) -> int)
    requires f.kind.OnlyType?
    ensures forall a :: a in Displayed(arts, f, key, order, lower, collate) ==> a.kind == f.kind.kind
  {
    DisplayedIsFilteredPermutation(arts, f, key, order, lower, collate);
  }

  /** With a tag selected, every artifact shown carries it. */
  lemma TagFilterSound(
    arts: seq<Artifact>, f: Filters, key: SortKey, order: SortOrder,
    lower: string -> string, collate: (string, string) -> int)
    requires f.tag != AllTags
    ensures forall a :: a in Displayed(arts, f, key, order, lower, collate) ==> f.tag in a.tags
  {
    DisplayedIsFilteredPermutation(arts, f, key, order, lower, collate);
  }

  /**
   * With a search term, an artifact is shown iff it passes the other two
   * filters and the lower-cased term occurs in its lower-cased title,
   * description or one of its tags; an empty term filters nothing.
   */
  lemma SearchFilterExact(
    arts: seq<Artifact>, kind: TypeFilter, tag: string, search: string, key: SortKey, order: SortOrder,
    lower: string -> string, collate: (string, string) -> int)
    ensures var f := Filters(kind, tag, search);
      var g := Filters(kind, tag, "");
      forall a :: a in Displayed(arts, f, key, order, lower, collate) <==>
        a in Displayed(arts, g, key, order, lower, collate) && (search == "" || MatchesSearch(a, search, lower))
  {
    var f, g := Filters(kind, tag, search), Filters(kind, tag, "");
    DisplayedIsFilteredPermutation(arts, f, key, order, lower, collate);
    DisplayedIsFilteredPermutation(arts, g, key, order, lower, collate);
    forall a ensures Keep(a, f, lower) <==> Keep(a, g, lower) && (search == "" || MatchesSearch(a, search, lower)) {
    }
  }

  /** With every filter at its default, the filter keeps every artifact in its place. */
  lemma {:induction false} NoFiltersKeepAll(arts: seq<Artifact>, lower: string -> string)
    ensures Filtered(arts, NoFilters, lower) == arts
  {
    if |arts| > 0 {
      NoFiltersKeepAll(arts[1..], lower);
      assert arts == [arts[0]] + arts[1..];
    }
  }

  /** With every filter at its default, the page shows a reordering of all the artifacts. */
  lemma NoFiltersShowAll(
    arts: seq<Artifact>, key: SortKey, order: SortOrder, lower: string -> string, collate: (string, string) -> int)
    ensures multiset(Displayed(arts, NoFilters, key, order, lower, collate)) == multiset(arts)
  {
    NoFiltersKeepAll(arts, lower);
  }

  /** Sorting by title orders by lower-cased title, through `localeCompare`, in either direction. */
  lemma TitleOrder(
    arts: seq<Artifact>, f: Filters, order: SortOrder, lower: string -> string, collate: (string, string) -> int)
    requires IsCollation(collate)
    ensures var d := Displayed(arts, f, Title, order, lower, collate);
      forall i, j :: 0 <= i < j < |d| ==>
        if order == Asc then collate(lower(d[i].title), lower(d[j].title)) <= 0
        else collate(lower(d[j].title), lower(d[i].title)) <= 0
  {
    ComparatorsAreOrders(Title, lower, collate);
    InsertionSortSorted(Filtered(arts, f, lower), Precedes(Title, order, lower, collate));
  }

  /** Sorting by a date gives non-decreasing timestamps ascending and non-increasing ones descending. */
  lemma DateOrder(
    arts: seq<Artifact>, f: Filters, key: SortKey, order: SortOrder,
    lower: string -> string, collate: (string, string) -> int)
    requires key != Title
    ensures var d := Displayed(arts, f, key, order, lower, collate);
      forall i, j :: 0 <= i < j < |d| ==>
        if order == Asc then Stamp(d[i], key) <= Stamp(d[j], key) else Stamp(d[i], key) >= Stamp(d[j], key)
  {
    ComparatorsAreOrders(key, lower, collate);
    InsertionSortSorted(Filtered(arts, f, lower), Precedes(key, order, lower, collate));
  }

  /** The other sort direction. */
  function Flipped(o: SortOrder): (r: SortOrder)
    ensures r != o
  {
    if o == Asc then Desc else Asc
  }

  /** Pressing the arrow button twice restores the direction. */
  lemma FlipTwice(o: SortOrder)
    ensures Flipped(Flipped(o)) == o
  {
  }

  /**
   * When no two artifacts shown tie under the sort key, switching the
   * direction shows the same artifacts in reverse.
   */
  lemma ToggleReverses(
    arts: seq<Artifact>, f: Filters, key: SortKey, order: SortOrder,
    lower: string -> string, collate: (string, string) -> int)
    requires key == Title ==> IsCollation(collate)
    requires AntisymmetricOn(Filtered(arts, f, lower), Precedes(key, Asc, lower, collate))
    ensures Displayed(arts, f, key, Flipped(order), lower, collate)
         == Reversed(Displayed(arts, f, key, order, lower, collate))
  {
    var s := Filtered(arts, f, lower);
    var up, down := Precedes(key, Asc, lower, collate), Precedes(key, Desc, lower, collate);
    ComparatorsAreOrders(key, lower, collate);
    SortSwappedIsReversed(s, up, down);
    if order == Desc {
      ReverseReverse(InsertionSort(s, up));
    }
  }

  lemma ReverseReverse<T>(s: seq<T>)
    ensures Reversed(Reversed(s)) == s
  {
  }

  const NothingInPortfolio: string := "No projects found in this portfolio"
  const NothingMatches: string := "No projects match your current filters"

  /** The empty-state message: none while something is shown. */
  function EmptyMessage(arts: seq<Artifact>, shown: seq<Artifact>): (m: Option<string>)
    ensures m.None? <==> |shown| > 0
    ensures m == Some(NothingInPortfolio) <==> |shown| == 0 && |arts| == 0
    ensures m == Some(NothingMatches) <==> |shown| == 0 && |arts| > 0
  {
    if |shown| > 0 then None
    else if |arts| == 0 then Some(NothingInPortfolio)
    else Some(NothingMatches)
  }

  /**
   * "No projects match" is only ever shown with some filter active, so
   * the clear button is always offered beside it.
   */
  lemma NoMatchMeansFiltersActive(
    arts: seq<Artifact>, f: Filters, key: SortKey, order: SortOrder,
    lower: string -> string, collate: (string, string) -> int)
    requires EmptyMessage(arts, Displayed(arts, f, key, order, lower, collate)) == Some(NothingMatches)
    ensures FiltersActive(f)
  {
    if f == NoFilters {
      NoFiltersShowAll(arts, key, order, lower, collate);
    }
  }

  /**
   * What `fetchData` reads from the registry: the visible artifacts of its
   * map and the tag list of those artifacts.
   */
  ghost predicate FetchedFrom(registry: Registry, artifacts: seq<Artifact>, tags: seq<string>)
    reads registry
  {
    && registry.Valid()
    && artifacts == Visible(registry.Built(), CombinedImports(registry.direct, registry.subdir))
    && tags == TagList(artifacts)
  }

  /**
   * The `Promise.all` of `fetchData` and the tag lookup after it: the
   * visible artifacts, the site configuration and the tag list, all read
   * from the same registry map.
   */
  method FetchData(registry: Registry, response: FetchOutcome, now: int)
    returns (loaded: seq<Artifact>, loadedConfig: ToyboxConfig, tags: seq<string>)
    requires registry.Valid()
    modifies registry
    ensures FetchedFrom(registry, loaded, tags)
    ensures loadedConfig == LoadToyboxConfig(response)
  {
    loaded := registry.LoadArtifacts(now);
    loadedConfig := LoadToyboxConfig(response);
    ghost var built := registry.Built();
    tags := registry.GetAllTags(now);
    assert registry.Built() == built;
  }

  /** The gallery page's state. */
  class GalleryView {
    var artifacts: seq<Artifact>
    var config: Option<ToyboxConfig>
    var loading: bool
    var filterType: TypeFilter
    var filterTag: string
    var searchTerm: string
    var sortBy: SortKey
    var sortOrder: SortOrder
    var allTags: seq<string>

    /** The filters as the three controls show them. */
    function CurrentFilters(): Filters
      reads this
    {
      Filters(filterType, filterTag, searchTerm)
    }

    /** The list the page shows for the current state. */
    function Shown(lower: string -> string, collate: (string, string) -> int): seq<Artifact>
      reads this
    {
      Displayed(artifacts, CurrentFilters(), sortBy, sortOrder, lower, collate)
    }

    /** The initial state: nothing loaded, no filter, newest first. */
    constructor()
      ensures artifacts == [] && config == None && loading && allTags == []
      ensures CurrentFilters() == NoFilters && sortBy == UpdatedAt && sortOrder == Desc
    {
      artifacts := [];
      config := None;
      loading := true;
      filterType := AllTypes;
      filterTag := AllTags;
      searchTerm := "";
      sortBy := UpdatedAt;
      sortOrder := Desc;
      allTags := [];
    }

    /** `fetchData`: the visible artifacts, the site configuration and the tag list, then not loading. */
    method Mount(registry: Registry, response: FetchOutcome, now: int)
      requires registry.Valid()
      modifies this, registry
      ensures FetchedFrom(registry, artifacts, allTags)
      ensures config == Some(LoadToyboxConfig(response))
      ensures !loading
      ensures filterType == old(filterType) && filterTag == old(filterTag) && searchTerm == old(searchTerm)
      ensures sortBy == old(sortBy) && sortOrder == old(sortOrder)
    {
      var loaded, loadedConfig, tags := FetchData(registry, response, now);
      ShowLoaded(loaded, loadedConfig, tags);
    }

    /** The state updates at the end of `fetchData`. */
    method ShowLoaded(loaded: seq<Artifact>, loadedConfig: ToyboxConfig, tags: seq<string>)
      modifies this
      ensures artifacts == loaded && config == Some(loadedConfig) && allTags == tags && !loading
      ensures filterType == old(filterType) && filterTag == old(filterTag) && searchTerm == old(searchTerm)
      ensures sortBy == old(sortBy) && sortOrder == old(sortOrder)
    {
      artifacts := loaded;
      config := Some(loadedConfig);
      allTags := tags;
      loading := false;
    }

    /** "Clear All Filters": the three filters back to their defaults, the sort untouched. */
    method ClearFilters()
      modifies this
      ensures CurrentFilters() == NoFilters
      ensures sortBy == old(sortBy) && sortOrder == old(sortOrder)
      ensures artifacts == old(artifacts) && config == old(config) && loading == old(loading)
      ensures allTags == old(allTags)
      ensures forall lower, collate :: multiset(Shown(lower, collate)) == multiset(artifacts)
    {
      filterType := AllTypes;
      filterTag := AllTags;
      searchTerm := "";
      assert CurrentFilters() == NoFilters;
      forall lower, collate ensures multiset(Shown(lower, collate)) == multiset(artifacts) {
        assert Shown(lower, collate) == Displayed(artifacts, NoFilters, sortBy, sortOrder, lower, collate);
        NoFiltersShowAll(artifacts, sortBy, sortOrder, lower, collate);
      }
    }

    /** The arrow button: the other sort direction, nothing else. */
    method ToggleSortOrder()
      modifies this
      ensures sortOrder == Flipped(old(sortOrder))
      ensures CurrentFilters() == old(CurrentFilters()) && sortBy == old(sortBy)
      ensures artifacts == old(artifacts) && config == old(config) && loading == old(loading)
      ensures allTags == old(allTags)
      ensures forall lower, collate ::
        (sortBy == Title ==> IsCollation(collate))
        && AntisymmetricOn(Filtered(artifacts, CurrentFilters(), lower), Precedes(sortBy, Asc, lower, collate))
        ==> Shown(lower, collate) == Reversed(old(Shown(lower, collate)))
    {
      sortOrder := if sortOrder == Asc then Desc else Asc;
      forall lower, collate |
        && (sortBy == Title ==> IsCollation(collate))
        && AntisymmetricOn(Filtered(artifacts, CurrentFilters(), lower), Precedes(sortBy, Asc, lower, collate))
        ensures Shown(lower, collate) == Reversed(old(Shown(lower, collate)))
      {
        ToggleReverses(artifacts, CurrentFilters(), sortBy, old(sortOrder), lower, collate);
      }
    }
  }
}
