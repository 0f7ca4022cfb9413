/** The music page (src/js/music.js): the artist and album records it reads, its sort keys (artist name,
    total size read by `parseSize`, first year of the artist's range), and the album view's rules: albums
    newest first with the undated ones last, the year label and the file-type label. */
module MusicPage {
  import opened Wrappers
  import opened Text
  import opened Sorting
  import opened CatalogValues
  import opened CatalogView

  /** An album record; a `null` year is `None`. */
  datatype Album = Album(ratingKey: string, title: string, year: Option<int>,
                         albumContainers: seq<Option<string>>)

  /** The fields of an artist record that the page sorts, searches and shows by. */
  datatype Artist = Artist(ratingKey: string, artistName: string, yearRange: Option<string>,
                           totalSizeHuman: Option<string>, albums: seq<Album>)

  /** Artist name, `parseSize(totalSizeHuman)` and `parseYearRange(yearRange)`. */
  function ArtistKeys(): Keys<Artist> {
    Keys((a: Artist) => a.artistName, (a: Artist) => ParseSize(a.totalSizeHuman),
         (a: Artist) => ParseYearRange(a.yearRange) as real)
  }

  /** The page as it starts: nothing cached, sorted by artist ascending, lazy only without a search. */
  method NewMusicPage() returns (page: CatalogPage<Artist>)
    ensures fresh(page)
    ensures page.keys == ArtistKeys() && !page.alwaysLazy
    ensures page.all == [] && page.sort == InitialSort && page.grid == [] && page.observer == 0
    ensures page.Valid()
  {
    page := new CatalogPage(ArtistKeys(), false);
  }

  /** Sorted by size, the artists' total sizes read back by `parseSize` never decrease (ascending) or never
      increase (descending). */
  lemma ArtistsBySize(all: seq<Artist>, searchQuery: string, ascending: bool, collate: Comparator<string>)
    requires IsConsistent(collate)
    ensures var v := View(all, searchQuery, SortState(Size, ascending), collate, ArtistKeys());
      && (ascending ==> forall i, j :: 0 <= i < j < |v| ==>
            ParseSize(v[i].totalSizeHuman) <= ParseSize(v[j].totalSizeHuman))
      && (!ascending ==> forall i, j :: 0 <= i < j < |v| ==>
            ParseSize(v[i].totalSizeHuman) >= ParseSize(v[j].totalSizeHuman))
  {
    ViewSorted(all, searchQuery, SortState(Size, ascending), collate, ArtistKeys());
  }

  // ---------------------------------------------------------------- the album view

  /** The album comparator: two undated albums tie, an undated album goes after a dated one, and dated
      albums compare by `b.year - a.year`. */
  function AlbumOrder(a: Album, b: Album): (r: real)
    ensures r < 0.0 <==> a.year.Some? && (b.year.None? || a.year.value > b.year.value)
    ensures r == 0.0 <==> a.year == b.year
  {
    if a.year.None? && b.year.None? then 0.0
    else if a.year.None? then 1.0
    else if b.year.None? then -1.0
    else (b.year.value - a.year.value) as real
  }

  lemma AlbumOrderConsistent()
    ensures IsConsistent(AlbumOrder)
  {
  }

  /** `artist.albums.slice().sort(...)`: a sorted copy. */
  function SortedAlbums(albums: seq<Album>): seq<Album> {
    SortBy(albums, AlbumOrder)
  }

  /** The album view lists the artist's albums, each as often: dated albums newest first, then all the
      undated ones; albums of the same year keep their order. */
  lemma SortedAlbumsOrder(albums: seq<Album>, p: Album)
    ensures var v := SortedAlbums(albums);
      && multiset(v) == multiset(albums)
      && (forall i, j :: 0 <= i < j < |v| && v[i].year.None? ==> v[j].year.None?)
      && (forall i, j :: 0 <= i < j < |v| && v[i].year.Some? && v[j].year.Some? ==>
            v[i].year.value >= v[j].year.value)
      && Ties(v, p, AlbumOrder) == Ties(albums, p, AlbumOrder)
  {
    AlbumOrderConsistent();
    SortBySorted(albums, AlbumOrder);
    SortByStable(albums, p, AlbumOrder);
  }

  /** `${album.year || 'Unknown'}`: the year, or "Unknown" for a missing year or year 0. */
  function AlbumYearLabel(year: Option<int>): (text: string)
    ensures text == "Unknown" <==> year.None? || year == Some(0)
    ensures year.Some? && year.value > 0 ==> AllDigits(text) && DigitsValue(text) == year.value
  {
    if year.None? || year.value == 0 then "Unknown"
    else
      var text := IntToString(year.value);
      assert text[0] != 'U';
      assert year.value > 0 ==> AllDigits(text) && DigitsValue(text) == year.value by {
        if year.value > 0 {
          NatToDigitsValue(year.value);
        }
      }
      text
  }

  /** The text of the containers in `join`: `null` becomes empty. */
  function ContainerTexts(containers: seq<Option<string>>): (texts: seq<string>)
    ensures |texts| == |containers|
    ensures forall k :: 0 <= k < |texts| ==> texts[k] == containers[k].GetOr("")
  {
    seq(|containers|, k requires 0 <= k < |containers| => containers[k].GetOr(""))
  }

  /** `.${album.albumContainers.join(', .')}`. */
  function FileTypeLabel(containers: seq<Option<string>>): string {
    "." + Join(ContainerTexts(containers), ", .")
  }

  /** The label starts with "." and the first container; each further container adds ", ." and its name. */
  lemma FileTypeLabelShape(containers: seq<Option<string>>, c: Option<string>)
    ensures FileTypeLabel([]) == "."
    ensures FileTypeLabel([c]) == "." + c.GetOr("")
    ensures containers != [] ==>
      FileTypeLabel(containers + [c]) == FileTypeLabel(containers) + ", ." + c.GetOr("")
  {
    if containers != [] {
      assert ContainerTexts(containers + [c]) == ContainerTexts(containers) + [c.GetOr("")];
      JoinSnoc(ContainerTexts(containers), c.GetOr(""), ", .");
    }
  }
}
