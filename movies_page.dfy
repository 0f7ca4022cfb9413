/** The movies page (src/js/movies.js): the movie records it reads from the catalogue file, its sort keys,
    and the numbering of a card's detail items. The page always renders through placeholders. */
module MoviesPage {
  import opened Wrappers
  import opened Sorting
  import opened CatalogValues
  import opened CatalogView

  /** The fields of a movie record that the page sorts and searches by. */
  datatype Movie = Movie(ratingKey: string, title: string, year: Option<int>, sizeHuman: Option<string>)

  /** `a.year || 0`: a missing year counts 0. */
  function YearKey(m: Movie): (k: real)
    ensures m.year.None? ==> k == 0.0
    ensures m.year.Some? ==> k == m.year.value as real
  {
    m.year.GetOr(0) as real
  }

  /** Title, `parseSize(sizeHuman)` and the year. */
  function MovieKeys(): Keys<Movie> {
    Keys((m: Movie) => m.title, (m: Movie) => ParseSize(m.sizeHuman), YearKey)
  }

  /** The page as it starts: nothing cached, sorted by title ascending, always lazy. */
  method NewMoviesPage() returns (page: CatalogPage<Movie>)
    ensures fresh(page)
    ensures page.keys == MovieKeys() && page.alwaysLazy
    ensures page.all == [] && page.sort == InitialSort && page.grid == [] && page.observer == 0
    ensures page.Valid()
  {
    page := new CatalogPage(MovieKeys(), true);
  }

  /** Sorted by date ascending, the years never decrease, and a movie without a year comes before every
      movie with a positive year; descending, the years never increase. */
  lemma MoviesByDate(all: seq<Movie>, searchQuery: string, ascending: bool, collate: Comparator<string>)
    requires IsConsistent(collate)
    ensures var v := View(all, searchQuery, SortState(Date, ascending), collate, MovieKeys());
      && (ascending ==> forall i, j :: 0 <= i < j < |v| ==> YearKey(v[i]) <= YearKey(v[j]))
      && (ascending ==> forall i, j :: 0 <= i < |v| && 0 <= j < |v| && v[i].year.None? && YearKey(v[j]) > 0.0 ==> i < j)
      && (!ascending ==> forall i, j :: 0 <= i < j < |v| ==> YearKey(v[i]) >= YearKey(v[j]))
  {
    ViewSorted(all, searchQuery, SortState(Date, ascending), collate, MovieKeys());
  }

  /** Sorted by size, the sizes read back by `parseSize` never decrease (ascending) or never increase
      (descending). */
  lemma MoviesBySize(all: seq<Movie>, searchQuery: string, ascending: bool, collate: Comparator<string>)
    requires IsConsistent(collate)
    ensures var v := View(all, searchQuery, SortState(Size, ascending), collate, MovieKeys());
      && (ascending ==> forall i, j :: 0 <= i < j < |v| ==> ParseSize(v[i].sizeHuman) <= ParseSize(v[j].sizeHuman))
      && (!ascending ==> forall i, j :: 0 <= i < j < |v| ==> ParseSize(v[i].sizeHuman) >= ParseSize(v[j].sizeHuman))
  {
    ViewSorted(all, searchQuery, SortState(Size, ascending), collate, MovieKeys());
  }

  /** The detail items of a card get `--detail-index` 1, 2, ... in document order. */
  method NumberDetails(count: nat) returns (indices: seq<nat>)
    ensures |indices| == count
    ensures forall k :: 0 <= k < count ==> indices[k] == k + 1
  {
    indices := [];
    for k := 0 to count
      invariant |indices| == k
      invariant forall j :: 0 <= j < k ==> indices[j] == j + 1
    {
      indices := indices + [k + 1];
    }
  }
}
