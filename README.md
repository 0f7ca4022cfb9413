# PK-Media in Dafny

PK-Media is a static media-catalogue site. Python exporters read a Tautulli server, or a Plex
server directly, and write three JSON catalogues: movies, TV shows and music. Browser pages
then read those files and render searchable, sortable card grids. This project models the core
of both halves and proves properties about it:

- **Catalogue value parsers and formatters** (`CatalogValues`, helped by `Text`, `Decimal` and
  `Sorting`):
  - `parseSize`, `parseYearRange` and `formatYearRange` of `src/js/utils.js`;
  - the show page's `formatResolution`.
- **The view pipeline** shared by the movie, TV and music pages (`CatalogView`, with
  `MoviesPage`, `TvShowsPage` and `MusicPage` for each page's sort keys and labels):
  - the cached list, the search filter and the three-key sort with its direction toggle;
  - the eager and lazy grid, and the lazy placeholders swapped for cards by an observer.
- **Overlay and info-icon interaction** (`Overlays`, `InfoIcons`):
  - touch-to-dismiss of the show and artist overlays;
  - the rule that at most one info tooltip is open.
- **The recommendation board** (`Recommendations`): `wrapText` and the routing of a
  Firestore snapshot into the three category lists.
- **The exporters**:
  - their formatters (`ExportFormat`, over the record types of `ExportRecords`);
  - the movie, TV and music roll-ups, each as read from Tautulli (`export.py` and its
    siblings) and from Plex (`plex_sync.py`): `MovieExport`, `TvExport` with `TvFacts`,
    `MusicExport` with `MusicFacts`, and `AlbumExport`;
  - how the pages read back what the exporters write (`Interchange`).

Each loop of the source is a method with loop invariants, proved against a function that
states the whole result. The lemmas then prove what the result means:
- totals equal the sums over what was kept;
- a skipped show keeps the counters it had reached;
- every credited artist is listed once, with its albums;
- sizes read back to the value written;
- the rendered list is a sorted permutation of the filtered cache;
- a stale observer changes nothing.

Values the code takes from outside are parameters of the model:
- the server's answers;
- the configured size and duration formatters, where a roll-up does not depend on their
  arithmetic;
- the browser's `localeCompare`, as any consistent comparator.

## Model

| member | source | states |
|---|---|---|
| CatalogValues.Scaled | src/js/utils.js:5-7 | a "GB" size is 1024 times the number, a "TB" size 1024·1024 times it, and any other or missing unit leaves the number as it is |
| CatalogValues.ParseSize | src/js/utils.js:1-8 | a missing or empty size reads as 0 |
| CatalogValues.ParseSizeParts | src/js/utils.js:3-7 | a numeral, a space and a unit read as the numeral's leading float (0 when it has none) scaled by the unit |
| CatalogValues.ParseSizeBare | src/js/utils.js:3-7 | a size without a space is its bare leading float |
| CatalogValues.ParseSizeUnits | src/js/utils.js:1-8 | "MB" and no unit read the same; a GB value is 1024 times the MB value and a TB value 1024 times the GB value; an unreadable numeral reads as 0 whatever the unit |
| CatalogValues.ParseSizeSuffix | src/js/utils.js:3-7 | only the first space-separated word after the numeral is taken as the unit: a numeral, a unit, a second space and any text read as the numeral scaled by that unit |
| CatalogValues.ParseSizeOfWritten | src/js/utils.js:1-8 | a two-decimal number, a space and a unit reads back as that number (hundredths / 100) scaled by the unit |
| CatalogValues.ParseSizeGigabytes | src/js/utils.js:1-8 | "1.50 GB" reads as 1536 |
| CatalogValues.ParseSizeTerabytes | src/js/utils.js:1-8 | "2.00 TB" reads as 2097152 |
| CatalogValues.FirstFourDigits | src/js/utils.js:12 | the result is the leftmost position from which four digits follow, and None only when there is no such position |
| CatalogValues.ParseYearRange | src/js/utils.js:10-14 | the result is at most 9999; it is 0 when the range is missing or holds no four consecutive digits, and otherwise the value of the leftmost four consecutive digits |
| CatalogValues.ParseYearRangeExample | src/js/utils.js:10-14 | "1998-2004" reads as 1998 |
| CatalogValues.FourDigitValue | src/js/utils.js:13 | the value of a four-digit string is at most 9999 |
| CatalogValues.FirstRange | src/js/utils.js:18 | the result is the leftmost position where `dddd-dddd` matches, and None only when it matches nowhere |
| CatalogValues.FormatYearRange | src/js/utils.js:16-27 | a missing range shows as ""; when the leftmost `dddd-dddd` has equal halves the display is that one year, and otherwise it is the range unchanged; the display is never longer than the range |
| CatalogValues.FormatYearRangeIdempotent | src/js/utils.js:16-27 | formatting a formatted year range again changes nothing |
| CatalogValues.LowerScanSuffixes | src/js/tvshows.js:17-19 | the replacement keeps the length, and each character is lowered exactly when it is a p/i letter right after a run of digits |
| CatalogValues.LoweredAfterRun | src/js/tvshows.js:17-19 | after a digit run and a p/i letter, the replacement lowers that letter and carries on with the rest |
| CatalogValues.KeptFirst | src/js/tvshows.js:17-19 | where no digit run is followed by p/i, the first character is kept and the replacement carries on with the rest |
| CatalogValues.FormatResolution | src/js/tvshows.js:9-20 | keeps the length and the lower-case reading; "sd" and "hd" in any case become "SD" and "HD"; any other resolution changes only in a "P" or "I" that follows a digit, which is lowered |
| CatalogValues.FormatResolutionIdempotent | src/js/tvshows.js:9-20 | formatting a formatted resolution changes nothing |
| CatalogValues.FormatResolutionOfLower | src/js/tvshows.js:15-19 | a lower-case resolution other than "sd" and "hd" is shown unchanged |
| CatalogValues.ResolutionBadges | src/js/tvshows.js:92 | there is one badge per comma-separated piece: the piece trimmed and formatted |
| CatalogView.Toggle | src/js/movies.js:267-272 | the clicked key becomes active; clicking the active key flips the direction; another key starts ascending |
| CatalogView.ToggleTwice | src/js/movies.js:267-272 | clicking the active key twice restores the state; clicking a new key twice leaves it descending |
| CatalogView.Arrow | src/js/movies.js:279-285 | the active button's arrow is three characters with "→" in the middle |
| CatalogView.ButtonArrow | src/js/movies.js:274-293 | a button shows an arrow exactly when it is the active key's button |
| CatalogView.ArrowsDistinct | src/js/movies.js:279-285 | different sort states show different arrows |
| CatalogView.Keep | src/js/movies.js:48-50 | the filter never lengthens the list |
| CatalogView.KeepCount | src/js/movies.js:48-50 | an item is kept as often as it occurs when its lower-cased name contains the query, and not at all otherwise |
| CatalogView.KeepAppend | src/js/movies.js:48-50 | filtering keeps order: filtering a concatenation concatenates the filtered parts |
| CatalogView.KeepEmptyQuery | src/js/movies.js:48-50 | the empty query keeps every item |
| CatalogView.Filter | src/js/movies.js:47-50 | an empty lower-cased query leaves the cache as it is; any other query keeps the matching items |
| CatalogView.FilterMembership | src/js/movies.js:47-50 | the filtered list holds each matching item as often as the cache, and no other |
| CatalogView.FilterIgnoresQueryCase | src/js/movies.js:47 | the search ignores the letter case of the query |
| CatalogView.OrderConsistent | src/js/movies.js:52-64 | the sort callback, in either direction and for every key, is a consistent comparator |
| CatalogView.ViewSorted | src/js/movies.js:47-64 | the rendered list is a permutation of the filtered cache, ordered by the active key: non-decreasing when ascending, non-increasing when descending |
| CatalogView.ViewStable | src/js/movies.js:52-64 | items that compare equal keep their cache order |
| CatalogView.View | src/js/movies.js:47-64 | the filtered cache sorted by the active key; its order and stability are stated by `ViewSorted` and `ViewStable` |
| CatalogView.Items | src/js/movies.js:177-184 | the grid's items are its cells' items, in order |
| CatalogView.Placeholders | src/js/movies.js:177-184 | the lazy path lays out one placeholder per item, in order |
| CatalogView.Cards | src/js/tvshows.js:90-166 | the eager path lays out one card per item, in order |
| CatalogView.Below | src/js/movies.js:177-184 | the observed indices are exactly 0 .. n - 1 |
| CatalogView.CatalogPage.constructor | src/js/movies.js:3-6 | the page starts with no cache, an empty grid, no observer and the initial title-ascending sort |
| CatalogView.CatalogPage.Populate | src/js/movies.js:34-185 | the cache is filled only while empty; the grid shows exactly the sorted, filtered view; a lazy pass replaces the observer and observes exactly the placeholders; an eager pass lays out cards and observes nothing |
| CatalogView.CatalogPage.Intersect | src/js/movies.js:75-175 | a notification from the current observer for an observed placeholder turns that cell, and only it, into a card and stops observing it; anything else changes nothing; the items never change |
| CatalogView.CatalogPage.ClickSort | src/js/movies.js:263-297 | the sort state is toggled; with data loaded the page is populated again: the cache is filled only if it was empty, the grid is the new view of the cache, a lazy pass starts a new observer over placeholders only, and an eager pass shows cards only and observes nothing; without data nothing else changes |
| MoviesPage.YearKey | src/js/movies.js:61 | a missing year sorts as 0 |
| MoviesPage.NewMoviesPage | src/js/movies.js:3-6 | the movie page starts empty, keyed by title, size and year, and always renders lazily |
| MoviesPage.MoviesByDate | src/js/movies.js:52-64 | by date, years never decrease ascending and never increase descending; ascending, an undated movie comes before every dated one |
| MoviesPage.MoviesBySize | src/js/movies.js:56-59 | by size, `parseSize` of the sizes never decreases ascending and never increases descending |
| MoviesPage.NumberDetails | src/js/movies.js:161-164 | the detail items are numbered 1, 2, … in order |
| TvShowsPage.NewTvShowsPage | src/js/tvshows.js:3-6 | the show page starts empty, keyed by title, size and first year, and renders lazily only without a search |
| TvShowsPage.ShowsByDate | src/js/tvshows.js:69-83 | by date, the first years of the ranges never decrease ascending and never increase descending |
| TvShowsPage.SeasonLabel | src/js/tvshows.js:513 | `null`, the number 0, the text "0" and any text that `Number()` reads as 0 are "Specials"; a non-zero number n is "Season n"; a missing number is "Season undefined"; any other text s is "Season " followed by s |
| TvShowsPage.NumberIsZero | src/js/tvshows.js:513 | `Number(seasonNumber) === 0`: `null`, the number 0, and text that is blank or a zero literal once trimmed; its cases are stated by the `SeasonLabelOf` lemmas |
| TvShowsPage.SeasonLabelOfZeroForms | src/js/tvshows.js:513 | "0e0", "0x0" and "-0" convert to 0 and are shown as specials |
| TvShowsPage.SeasonLabelOfNumber | src/js/tvshows.js:513 | a numeric season is "Specials" exactly when it is 0; a positive season's label ends in its decimal digits |
| TvShowsPage.SeasonLabelOfBlank | src/js/tvshows.js:513 | a blank season number converts to 0 and is shown as specials |
| TvShowsPage.SeasonLabelOfZeros | src/js/tvshows.js:513 | the text "00" converts to 0 and is shown as specials |
| TvShowsPage.SeasonLabelOfDigitText | src/js/tvshows.js:513 | the text "2" is shown as "Season 2" |
| MusicPage.NewMusicPage | src/js/music.js:3-6 | the music page starts empty, keyed by artist name, total size and first year, and renders lazily only without a search |
| MusicPage.AlbumOrder | src/js/music.js:438-443 | the comparator is negative exactly when the first album is dated and the second is undated or older, and zero exactly when both have the same year or none |
| MusicPage.ArtistsBySize | src/js/music.js:60-63 | by size, `parseSize` of the artists' total sizes never decreases ascending and never increases descending |
| MusicPage.AlbumOrderConsistent | src/js/music.js:438-443 | the album comparator is consistent: antisymmetric, transitive and total |
| MusicPage.SortedAlbums | src/js/music.js:438-443 | the stable sort of the albums by `AlbumOrder`; what it lists and in which order is stated by `SortedAlbumsOrder` |
| MusicPage.SortedAlbumsOrder | src/js/music.js:438-443 | the album view lists every album as often as the artist has it; an undated album is followed only by undated ones; dated albums go newest first; albums that compare equal keep their order |
| MusicPage.AlbumYearLabel | src/js/music.js:485 | the label is "Unknown" exactly when the year is missing or 0; a positive year is shown as its decimal digits |
| MusicPage.ContainerTexts | src/js/music.js:503 | one text per container, with a `null` container read as "" |
| MusicPage.FileTypeLabel | src/js/music.js:503 | "." and the containers joined with ", ."; its shape is stated by `FileTypeLabelShape` |
| MusicPage.FileTypeLabelShape | src/js/music.js:503 | no containers give "."; one gives "." and its name; each further container adds ", ." and its name |
| Overlays.Abs | src/js/tvshows.js:751 | the distance is non-negative and is the difference or its negation |
| Overlays.ClickCloses | src/js/tvshows.js:774-784 | on a touch device a click never closes; otherwise a click closes exactly when it is outside the cards |
| Overlays.TouchDismissal.constructor | src/js/tvshows.js:733-737 | the overlay opens with the grace period running, no close in progress, no scrolling and no touch start |
| Overlays.TouchDismissal.GraceElapsed | src/js/tvshows.js:739-741 | the grace timer only ends the grace period |
| Overlays.TouchDismissal.TouchStart | src/js/tvshows.js:743-747 | a touch start records its time and position and clears scrolling, and nothing else |
| Overlays.TouchDismissal.TouchMove | src/js/tvshows.js:749-754 | a move of more than 10 px from the start marks scrolling; scrolling is never cleared by a move |
| Overlays.TouchDismissal.TouchEnd | src/js/tvshows.js:756-772 | the overlay closes exactly when the grace period is over, no close is in progress, there was no scrolling, the touch started and lasted under 300 ms, and it ended outside the cards; a scroll flag is cleared only by a touch end that gets past the first guard |
| Overlays.TouchDismissal.ClosingElapsed | src/js/tvshows.js:768-770 | the closing timer only ends the close in progress |
| Overlays.SecondTapIgnored | src/js/tvshows.js:756-772 | of two taps with no timer between them, at most one closes the overlay |
| InfoIcons.CardIcons.constructor | src/js/utils.js:83-92 | at start no card hovers and no icon is hidden |
| InfoIcons.CardIcons.IconClick | src/js/utils.js:132-145 | clicking a card's icon toggles that card's hover and hides its icon, and clears hover and icon for every other card |
| InfoIcons.CardIcons.DocumentClick | src/js/utils.js:94-121 | a click outside all cards resets every card; a click on a non-link card resets that card only; a click on an icon or a link card changes nothing |
| InfoIcons.Clicks | src/js/utils.js:83-147 | after any sequence of clicks at most one card hovers, and a hovering card's icon is hidden |
| Recommendations.ChunksConcat | js/recommend.js:32-34 | the slices of width `maxLength` concatenate back to the text; there are none exactly when the text is empty; the last one is non-empty |
| Recommendations.ChunksShape | js/recommend.js:32-34 | every slice but the last is exactly `maxLength` long; the last holds 1 to `maxLength` characters; the text's length is accounted for by the slices |
| Recommendations.WrapShort | js/recommend.js:30 | a text no longer than `maxLength` is returned unchanged |
| Recommendations.WrapRoundTrip | js/recommend.js:29-36 | for a text without line breaks, removing the line breaks from the wrapped text gives the text back; there is one line break between each two slices and none after the last; the wrapped text ends with the text's last character |
| Recommendations.ChunksWithout | js/recommend.js:33 | a character absent from the text is absent from every slice |
| Recommendations.WithoutJoin | js/recommend.js:33 | joining slices that hold no line break with line breaks, then removing the line breaks, gives their concatenation |
| Recommendations.JoinCount | js/recommend.js:33 | n slices without line breaks joined by line breaks hold n - 1 line breaks |
| Recommendations.WrapText | js/recommend.js:29-36 | the loop returns the text unchanged when it fits and otherwise its slices joined by line breaks |
| Recommendations.Wrap | js/recommend.js:29-36 | the slices of the text joined by line breaks; `WrapShort`, `WrapRoundTrip` and `ChunksShape` state what it holds |
| Recommendations.WrapAdvance | js/recommend.js:32-34 | one step of the loop appends the next slice, and a line break when more text follows, keeping the invariant that what is written plus the wrap of the rest is the wrap of the whole |
| Recommendations.WrapFrom | js/recommend.js:32-34 | the wrap of a suffix is its first slice, a line break and the wrap of the rest, or the suffix itself when it fits |
| Recommendations.Target | js/recommend.js:68-79 | "Movies", "TV Shows" and "Music" go to the movie, show and music lists, each exactly for its category; any other category has no list |
| Recommendations.EntryOf | js/recommend.js:68-84 | a movie entry shows the title wrapped at 20; a show entry shows the show and a season line exactly when the season is non-empty; a music entry shows the artist and an album line exactly when the album is non-empty; the entry keeps the document's timestamp |
| Recommendations.Routed | js/recommend.js:58-86 | a list never holds more entries than there are documents, and holds only request entries |
| Recommendations.RoutedAppend | js/recommend.js:58-86 | routing a concatenation of snapshots concatenates each list's entries |
| Recommendations.RoutedStep | js/recommend.js:58-86 | each document appends its entry to its category's list, and to no other |
| Recommendations.Handled | js/recommend.js:58-86 | the handled prefix holds only known categories and stops at the first unknown one |
| Recommendations.RoutedPartition | js/recommend.js:58-86 | the three lists together hold one entry per document of a known category |
| Recommendations.RoutedBounded | js/recommend.js:58-86 | no entry is newer than the newest document |
| Recommendations.RoutedNewestFirst | js/recommend.js:39-41 | a snapshot ordered newest first gives lists ordered newest first |
| Recommendations.Unrouted | js/recommend.js:58-86 | the unknown-category documents are at most all the documents |
| Recommendations.RecommendationBoard.constructor | js/recommend.js:45-47 | the board starts with three empty lists |
| Recommendations.RecommendationBoard.Append | js/recommend.js:85 | an entry is appended to the chosen list and the other two are unchanged |
| Recommendations.RecommendationBoard.OnSnapshotAsWritten | js/recommend.js:41-86 | an empty snapshot shows "No recommendations yet." in each list; otherwise the documents before the first unknown category are routed, and the handler completes exactly when no category is unknown |
| Recommendations.RecommendationBoard.OnSnapshot | js/recommend.js:41-86 | an empty snapshot shows "No recommendations yet." in each list; otherwise each list holds exactly the routed entries of every document, in snapshot order |
| Recommendations.UnknownCategoryHidesLater | js/recommend.js:68-85 | a snapshot whose newest document has an unknown category routes nothing, although a later document is a movie |
| Text.ToLower | src/js/movies.js:47 | lower-casing keeps the length and lowers each ASCII capital, leaving every other character |
| Text.ToUpper | scripts/datagen/export.py:51 | upper-casing keeps the length and raises each ASCII small letter, leaving every other character |
| Text.LowerOfLower | src/js/movies.js:47-49 | lower-casing twice is lower-casing once |
| Text.LowerOfUpper | src/js/movies.js:47-49 | lower-casing an upper-cased text is lower-casing the text |
| Text.StripWhere | scripts/datagen/export.py:67 | the result is a contiguous slice of the text, everything before and after it is white space, and it neither starts nor ends with white space |
| Text.Strip | scripts/datagen/export.py:67 | Python's `strip()`: the text without its leading and trailing `str.isspace()` characters, as a contiguous slice |
| Text.Trim | src/js/tvshows.js:92 | JavaScript's `trim()`: the text without its leading and trailing ECMAScript white space and line terminators, as a contiguous slice |
| Text.TrimSpacePrefix | src/js/tvshows.js:92 | a leading space does not change the trimmed text |
| Text.IndexOf | scripts/datagen/export.py:67 | the index is the first occurrence of the separator |
| Text.Split | scripts/datagen/export.py:67 | splitting gives at least one piece |
| Text.JoinSplit | src/js/tvshows.js:92 | joining the pieces of a split with the separator gives the text back |
| Text.SplitPieces | src/js/tvshows.js:92 | a split gives one piece more than there are separators, and no piece holds the separator |
| Text.SplitAtFirst | scripts/datagen/export.py:67 | splitting at the first separator gives the text before it, then the split of the rest |
| Text.JoinSnoc | scripts/datagen/export.py:71 | joining one more part appends the separator and the part |
| Text.DigitRun | src/js/tvshows.js:17 | the run is the longest all-digit prefix |
| Text.NatToDigits | src/js/movies.js:163 | a number's decimal text is non-empty, all digits, and without a leading zero unless the number is 0 |
| Text.NatToDigitsValue | src/js/movies.js:163 | reading a number's decimal text gives the number back |
| Text.IntToString | src/js/tvshows.js:513 | an integer's text is non-empty, digits for a non-negative integer and a leading "-" for a negative one |
| Decimal.DigitsValueBound | src/js/utils.js:13 | n digits are worth less than 10 to the n |
| Decimal.SkipSpace | src/js/utils.js:4 | leading ECMAScript white space and line terminators are dropped and nothing else |
| Decimal.ParseUnsigned | src/js/utils.js:4 | a number is read exactly when the text starts with a digit, or with a point and a digit, and it is never negative |
| Decimal.ParseFloat | src/js/utils.js:4 | `parseFloat` yields a number exactly when, after white space and a sign, a digit or a point and a digit follow |
| Decimal.RoundHalfEven | scripts/datagen/export.py:32-36 | the rounded quotient is the floor or the floor plus one, the nearer one, and the even one on a tie |
| Decimal.RoundNearest | scripts/datagen/export.py:32-36 | the rounded quotient is within half a unit of the exact quotient |
| Decimal.RoundMonotone | scripts/datagen/export.py:32-36 | rounding never reverses the order of two amounts |
| Decimal.RoundExact | scripts/datagen/export.py:32-36 | an exact multiple rounds to itself |
| Decimal.FormatFixed2 | scripts/datagen/export.py:32-36 | a `.2f` text is digits, a point and exactly two digits |
| Decimal.ParseFraction | src/js/utils.js:4 | digits, a point, digits and then a non-digit read as the whole part plus the fraction |
| Decimal.ParseFormatFixed2 | src/js/utils.js:4 | `parseFloat` of a `.2f` text, followed by anything that does not start with a digit, reads back the hundredths / 100 that were written |
| Decimal.CentsFraction | src/js/utils.js:4 | two digits after the point are worth their value / 100 |
| Sorting.DirectedConsistent | src/js/movies.js:63 | negating a consistent comparator keeps it consistent and keeps its ties |
| Sorting.ByKeyConsistent | src/js/movies.js:56-59 | comparing by the difference of a numeric key is consistent |
| Sorting.Insert | src/js/movies.js:52 | inserting adds exactly the one element |
| Sorting.SortBy | src/js/movies.js:52 | the sorted copy is a permutation of the list |
| Sorting.InsertSorted | src/js/movies.js:52 | inserting into a sorted list keeps it sorted |
| Sorting.SortBySorted | src/js/movies.js:52-64 | with a consistent comparator the copy is sorted |
| Sorting.SortByStable | src/js/movies.js:52-64 | the sort is stable: elements that tie with any given one keep their order |
| Sorting.InsertTies | src/js/movies.js:52 | inserting an element places it after every element that ties with it |
| Sorting.TiesAppend | src/js/movies.js:52 | the ties of a concatenation are the concatenated ties |
| Sorting.StrLessIrreflexive | scripts/datagen/export.py:71 | no string sorts before itself |
| Sorting.StrLessTransitive | scripts/datagen/export.py:71 | Python's string order is transitive |
| Sorting.StrLessTotal | scripts/datagen/export.py:71 | of two different strings one sorts before the other |
| Sorting.StrLessAsymmetric | scripts/datagen/export.py:71 | two strings never sort before each other |
| Sorting.InsertUnique | scripts/datagen/export.py:71 | adding a string to a strictly sorted list keeps it strictly sorted and adds exactly that string |
| Sorting.SortedUnique | scripts/datagen/export.py:71 | `sorted(set(values))` is strictly sorted and holds exactly the values' elements |
| Sorting.StrictlySortedUnique | scripts/datagen/export.py:71 | two strictly sorted lists with the same elements are equal |
| Sorting.SortedUniqueBySet | scripts/datagen/export.py:71 | `sorted(set(values))` depends only on the set of values |
| ExportFormat.Unit.Divisor | scripts/datagen/export.py:30-36 | every unit divides by a positive number of bytes |
| ExportFormat.Unit.Name | scripts/datagen/export.py:30-36 | a unit name holds no space, so the page's `split(' ')` finds it whole |
| ExportFormat.UnitFor | scripts/datagen/export.py:30-36 | TB is chosen exactly when the script knows TB and the count reaches 10^12 bytes; MB exactly when the script knows MB and the count is under 10^9 bytes |
| ExportFormat.Hundredths | scripts/datagen/export.py:30-36 | `total_bytes / unit` rounded to hundredths the way `:.2f` rounds; the bounds are stated by `HundredthsNearest` |
| ExportFormat.HundredthsNearest | scripts/datagen/export.py:30-36 | the printed hundredths are within half a hundredth of `total_bytes / unit`, and even on an exact tie |
| ExportFormat.HumanReadableSize | scripts/datagen/export.py:30-36 | the text ends with a space and the chosen unit, and `parseFloat` of it reads back the rounded hundredths |
| ExportFormat.FixedWithUnit | scripts/datagen/export.py:32-36 | a `.2f` number, a space and a two-letter unit end with the unit and read back as the number |
| ExportFormat.FormatResolution | scripts/datagen/export.py:38-46 | `None` stays `None` and only `None` gives `None`; the result is lower case; "4k" in any case becomes "2160p"; a bare number gains a "p"; anything else is lower-cased |
| ExportFormat.FormatResolutionIdempotent | scripts/datagen/export.py:38-46 | formatting a formatted resolution again changes nothing |
| ExportFormat.FormatCodec | scripts/datagen/export.py:48-51 | `None` stays `None`; a codec keeps its length and its lower-case reading and is upper case |
| ExportFormat.ClockOf | scripts/datagen/export.py:54-56 | minutes and seconds are under 60 and the three parts add back up to the whole seconds |
| ExportFormat.HumanReadableDuration | scripts/datagen/export.py:53-64 | the text ends " secs" under a minute, " mins" from ten minutes on, and one of the two in between; the exact shapes are in `DurationShapes` |
| ExportFormat.DurationShapes | scripts/datagen/export.py:53-64 | an hour or more shows hours and minutes; 10 to 59 minutes show minutes; 1 to 9 minutes show minutes and seconds; under a minute shows seconds |
| ExportFormat.RoundedMinutes | scripts/datagen/plex_sync.py:55-61 | the minutes are 0 only for no whole second, at least 1 for any second, and otherwise within half a minute of the exact duration, an exact half minute going to the even count |
| ExportFormat.RoundedDuration | scripts/datagen/plex_sync.py:62 | exactly one minute is written "1 min" |
| ExportFormat.MinOf | scripts/datagen/export.py:164 | the minimum is one of the years and no year is smaller |
| ExportFormat.MaxOf | scripts/datagen/export.py:164 | the maximum is one of the years and no year is larger |
| ExportFormat.YearRange | scripts/datagen/export.py:164 | there is a range exactly when there is a year |
| ExportFormat.TruthyYears | scripts/datagen/export.py:163 | the kept years are exactly the present non-zero ones |
| ExportFormat.PresentYears | scripts/datagen/plex_sync.py:389 | the kept years are exactly the present ones, 0 included |
| ExportFormat.SplitCollaborators | scripts/datagen/export.py:66-67 | one name per `;`-separated piece, each stripped and free of `;` |
| ExportFormat.Present | scripts/datagen/export.py:70 | the kept values are exactly the present ones |
| ExportFormat.Truthy | scripts/datagen/plex_sync.py:366-369 | the kept values are exactly the non-empty ones |
| ExportFormat.AggregateUnique | scripts/datagen/export.py:69-71 | the text is a strictly sorted list, joined with ", ", holding exactly the present values |
| ExportFormat.AggregateTruthy | scripts/datagen/plex_sync.py:366-369 | the text is a strictly sorted list, joined with ", ", holding exactly the present non-empty values |
| ExportFormat.AggregateUniqueBySet | scripts/datagen/export.py:69-71 | the aggregate depends only on the set of present values, not on order or repetition |
| ExportFormat.AggregateTruthyBySet | scripts/datagen/plex_sync.py:400-403 | plex_sync's aggregate depends only on the set of present values |
| ExportFormat.AggregateTruthyWithoutEmpty | scripts/datagen/plex_sync.py:400-403 | without an empty value, plex_sync's aggregate equals `aggregate_unique` |
| ExportFormat.AggregateUniqueOfConcat | scripts/datagen/export.py:69-71 | aggregating two lists together is aggregating any list with their combined present values |
| ExportFormat.RatingKeyOfFileName | scripts/datagen/export.py:442 | the extracted rating key holds no bracket |
| ExportFormat.RatingKeyOfTaggedName | scripts/datagen/export.py:442 | from a name with a last bracketed tag and no later `[`, the key is the tag's contents |
| ExportFormat.LastPiece | scripts/datagen/export.py:442 | after the last separator, the last piece of a split is what follows it |
| ExportRecords.Script.Scale | scripts/datagen/music.py:8 | music.py alone knows only GB and MB; show.py and movie.py alone know only TB and GB |
| ExportRecords.FormatsOf | scripts/datagen/plex_sync.py:46-62 | a script's formatters are its `human_readable_size` and `human_readable_duration`; exactly plex_sync.py writes one minute as "1 min", where the other scripts write "1 mins 0 secs" |
| ExportRecords.First | scripts/datagen/export.py:84-85 | the first element exists exactly when the list exists and is non-empty, and it is the list's head |
| ExportRecords.SumAppend | scripts/datagen/export.py:220-325 | the sum of a concatenation is the sum of the parts |
| ExportRecords.UnionMembers | scripts/datagen/export.py:220-325 | a value is in the union exactly when some element contributes it |
| ExportRecords.Count | scripts/datagen/export.py:73-114 | a count never exceeds the number of elements |
| ExportRecords.CountStep | scripts/datagen/export.py:73-114 | one more element adds one exactly when it qualifies |
| MovieExport.CatalogueEntriesStep | scripts/datagen/export.py:81-102 | each movie appends its entry when it is kept and nothing when it is skipped |
| MovieExport.CatalogueMovie | scripts/datagen/export.py:81-102 | a movie is written exactly when it has a media part, a rating key and a title, with its key, title and the part's size text |
| MovieExport.ProcessMovieData | scripts/datagen/export.py:73-114 | export.py, export_movies.py and movie.py, each with its own size formatter, write the catalogue file of the catalogue exporters |
| MovieExport.CatalogueRollUp | scripts/datagen/export_movies.py:45-86 | the loop's totals and entries are those of the catalogue file: every movie counted, every movie with a file adding its size, the kept entries in input order |
| MovieExport.PlexEntriesStep | scripts/datagen/plex_sync.py:166-207 | each movie appends its entry when it has a file and nothing otherwise |
| MovieExport.PlexMovie | scripts/datagen/plex_sync.py:166-207 | a movie is written exactly when it has a media part, with its key and the part's bytes in plex_sync's size format |
| MovieExport.ProcessMovies | scripts/datagen/plex_sync.py:126-221 | plex_sync.py with its own formatters writes its catalogue file, and nothing for an empty library |
| MovieExport.PlexRollUp | scripts/datagen/plex_sync.py:148-212 | the loop's totals and entries are those of plex_sync's catalogue file for any formatters |
| MovieExport.CatalogueMovieCount | scripts/datagen/export.py:81-106 | `totalMovies` counts every record: the written entries, the movies without a file and the movies without a key or a title |
| MovieExport.CatalogueKeptCount | scripts/datagen/export.py:81-102 | kept, fileless and keyless movies together are all the movies |
| MovieExport.PlexMovieCount | scripts/datagen/plex_sync.py:166-211 | plex_sync's `totalMovies` counts every record: the written entries and the movies without a file |
| MovieExport.PlexKeptCount | scripts/datagen/plex_sync.py:166-207 | written and fileless movies together are all the movies |
| MovieExport.OrphansDropped | scripts/datagen/plex_sync.py:193-204 | on the same records plex_sync.py writes exactly the movies without a key or a title more than the catalogue exporters |
| MovieExport.CatalogueReexport | scripts/datagen/export.py:89-100 | exporting an exported entry again gives the same entry |
| MovieExport.CodecIdempotent | scripts/datagen/export.py:48-51 | upper-casing a codec twice is upper-casing it once |
| AlbumExport.ProcessAlbum | scripts/datagen/export.py:190-218 | the entry counts the album's tracks and holds the bytes of every part of every media version, the duration of every media version, and their formatted texts; the returned bytes and duration are those totals |
| AlbumExport.ContainersListed | scripts/datagen/export.py:204-216 | a container is listed exactly when some media version of some track has it, a missing one included |
| AlbumExport.AlbumTotalsSplit | scripts/datagen/export.py:206-211 | an album's bytes and duration are additive over its tracks |
| MusicExport.FirstMatch | scripts/datagen/export.py:137 | the match is an entry with that title, and there is none exactly when no entry has that title |
| MusicExport.Standalones | scripts/datagen/export.py:136-138 | the credited collaborators are exactly those with an entry of their own whose rating key is truthy |
| MusicExport.AlbumCredits | scripts/datagen/export.py:136-144 | an album gives one credit per credited name, in order |
| MusicExport.Summaries | scripts/datagen/export.py:134-135 | one album entry per album |
| MusicExport.AddCredit | scripts/datagen/export.py:139-143 | one credit added to the tally; `MusicFacts.TallyNames` and `TallyEntry` state what a run of them accumulates |
| MusicExport.AddAllWellFormed | scripts/datagen/export.py:120-159 | crediting keeps the tally well formed: each name listed once, exactly the names with an entry |
| MusicExport.AddAllAppend | scripts/datagen/export.py:127-159 | crediting two runs of credits is crediting the first, then the second |
| MusicExport.AddAlbumsCredits | scripts/datagen/export.py:134-147 | the album loop credits exactly the album-by-album credits |
| MusicExport.SummariesTotals | scripts/datagen/export.py:145-147 | the entries' tracks and bytes add up to the albums' tracks and bytes |
| MusicExport.Entries | scripts/datagen/export.py:161-173 | one artist entry per tallied name |
| MusicExport.ArtistOutOf | scripts/datagen/export.py:161-173 | the entry written for one tallied name; `MusicFacts.ExportEntry` states its fields |
| MusicExport.CreditCollaborators | scripts/datagen/export.py:136-144 | the collaborator loop credits the album to exactly the picked collaborators and adds its duration once per credit |
| MusicExport.CollaboratorsLoopStep | scripts/datagen/export.py:136-144 | a collaborator is credited exactly when plex_sync.py runs or it passes the standalone test |
| MusicExport.ProcessArtist | scripts/datagen/export.py:127-159 | an artist's albums are credited to its credited names; the library counts its albums, tracks and bytes once, and the duration once per credit |
| MusicExport.CreditAlbums | scripts/datagen/export.py:132-159 | the album loop gives the same tally and totals, for a collaborative and for a single artist |
| MusicExport.CreditAlbum | scripts/datagen/export.py:132-155 | one album is credited to the picked collaborators of a collaborative artist, otherwise to the artist itself |
| MusicExport.CreditOwn | scripts/datagen/export.py:149-156 | a single artist's album is credited to that artist alone |
| MusicExport.Written | scripts/datagen/plex_sync.py:453-455 | nothing is written exactly when plex_sync.py meets a library without artists; otherwise the catalogue `Export` describes is written, an empty one included |
| MusicExport.Export | scripts/datagen/export.py:116-188 | the music catalogue of the credits; its names, entries and totals are stated by `MusicFacts.ExportNames`, `ExportEntry` and `ExportTotals` |
| MusicExport.ProcessMusicData | scripts/datagen/export.py:116-188 | each music exporter with its own formatters writes exactly what `Written` describes |
| MusicExport.RollUp | scripts/datagen/plex_sync.py:453-586 | the roll-up, for any formatters, writes nothing for an empty Plex library and otherwise exactly the catalogue `Export` describes |
| MusicExport.ArtistsLoopStep | scripts/datagen/export.py:127-159 | one artist step keeps the loop invariant: the tally and the totals are those of the artists before it |
| MusicExport.ArtistsLoopDone | scripts/datagen/export.py:161-181 | after every artist, the tally is that of all credits and the totals are the library's sums |
| MusicExport.WriteArtists | scripts/datagen/export.py:161-173 | the output loop writes one entry per tallied name, in first-credit order |
| MusicFacts.Names | scripts/datagen/export.py:139 | the names of the credits, in order |
| MusicFacts.Distinct | scripts/datagen/export.py:162 | the names without repetitions: the same names, each once |
| MusicFacts.CreditsFor | scripts/datagen/export.py:139-143 | the credits of one name are exactly those credits with that name |
| MusicFacts.KeptKey | scripts/datagen/plex_sync.py:525-526 | the kept key is truthy exactly when some credit offers a truthy key, and then it is the first such key |
| MusicFacts.TallyNames | scripts/datagen/export.py:162 | the tally lists each credited name once, in the order of first credit, and has an entry exactly for the credited names |
| MusicFacts.TallyEntry | scripts/datagen/export.py:139-143 | a name's entry accumulates exactly the credits of that name, in order |
| MusicFacts.PickedMembers | scripts/datagen/export.py:136-138 | a collaborator is picked exactly when plex_sync.py runs or it has a standalone entry with a truthy key |
| MusicFacts.CreditsNames | scripts/datagen/export.py:134-143 | a name is credited by an artist's albums exactly when it is one of its names and the artist has an album |
| MusicFacts.AllCreditsNames | scripts/datagen/export.py:127-159 | a name is credited exactly when some artist with an album credits it |
| MusicFacts.EntryNames | scripts/datagen/export.py:166 | the names of the artist entries, in order |
| MusicFacts.ExportNames | scripts/datagen/export.py:161-176 | the catalogue lists each credited name exactly once, in first-credit order, and `totalArtists` is the number of entries; a name is listed exactly when an artist with an album credits it |
| MusicFacts.ExportEntry | scripts/datagen/export.py:161-173 | an entry's albums are exactly its credited albums in order; its album count, tracks and size sum them; its year range spans their truthy years; its key is the first truthy credited key in plex_sync.py, and otherwise the key of the first artist with that title |
| MusicFacts.ExportEntryAcc | scripts/datagen/export.py:161-173 | every entry is built from the accumulation of its own credits |
| MusicFacts.EntryOfCredits | scripts/datagen/plex_sync.py:566-578 | the entry of a name's credits lists their albums and sums their tracks and bytes, with its key chosen as above |
| MusicFacts.AlbumCreditsDuration | scripts/datagen/export.py:136-144 | an album credited to n names adds n times its duration |
| MusicFacts.CreditsDuration | scripts/datagen/export.py:134-144 | an artist's credits add the number of its names times the duration of its albums |
| MusicFacts.DurationsSum | scripts/datagen/export.py:134-135 | the album durations sum to the albums' duration |
| MusicFacts.TotalDuration | scripts/datagen/export.py:125-156 | the library duration is, over all artists, the duration of its albums times its number of credited names |
| MusicFacts.ExportTotals | scripts/datagen/export.py:175-181 | the library's album, track and byte totals count every album once, whoever is credited; the duration counts each album once per credited name |
| TvExport.PyYearRange | scripts/datagen/export.py:281 | the catalogue's min/max year range fails (Python raises TypeError comparing None with int) exactly when at least two years are listed and one of them is missing, and is absent exactly when there are no years |
| TvExport.FirstMissing | scripts/datagen/export.py:257-258 | the index of the first episode without a media part: every earlier episode has one, the one at that index does not |
| TvExport.EpisodesCounted | scripts/datagen/export.py:252-258 | the episode counter of a season never exceeds its episodes and reaches all of them exactly when at most the last episode lacks a file |
| TvExport.CompletedSeason | scripts/datagen/export.py:252-263 | a season whose every episode has a file counts all its episodes and all its bytes |
| TvExport.FirstIncomplete | scripts/datagen/export.py:242-258 | the index of the first season with an episode lacking a file: every earlier season is complete, that one is not |
| TvExport.Reached | scripts/datagen/export.py:242-243 | the seasons the loop enters are a prefix of the show's seasons |
| TvExport.CatalogueSeasonPass | scripts/datagen/export.py:252-270 | the episode loop of one season reports whether every episode has a file, the episodes and bytes counted before the KeyError/IndexError, and the season's columns when complete |
| TvExport.SeasonsLoopStep | scripts/datagen/export.py:242-290 | entering a complete season whose entry can be built adds one season, its episodes, its bytes, its columns and its entry to the show's running state |
| TvExport.SkippedAt | scripts/datagen/export.py:243-263 | a show whose season loop meets an episode without a file is skipped, and the running counters reached so far plus that season's partial counts are the show's contribution to the totals |
| TvExport.CrashedAt | scripts/datagen/export.py:281 | a complete season with a missing year among two or more makes the whole show crash with the uncaught TypeError |
| TvExport.AllSeasons | scripts/datagen/export.py:242-290 | when the season loop ends normally, every season was complete and built, the entries are the seasons' entries in order and the counters are the sums of all episodes and bytes |
| TvExport.CompletedSeasons | scripts/datagen/export.py:252-263 | over complete seasons, the counted episodes and bytes equal all episodes and all bytes |
| TvExport.CatalogueShowPass | scripts/datagen/export.py:231-311 | one pass over a show yields the show's outcome (kept, skipped or crashed) and, unless it crashed, the seasons, episodes and bytes it adds to the library totals |
| TvExport.CatalogueShow | scripts/datagen/export.py:231-311 | a show's outcome, kept, skipped or crashed; `CatalogueShowPass` proves the loop computes it and `TvFacts.KeptShow` states a kept show's entry |
| TvExport.CatalogueSeasonsPass | scripts/datagen/export.py:242-290 | the season loop either stops at a skip or crash, which is the show's outcome, with the counters reached, or finishes with the loop invariant holding for all seasons |
| TvExport.CatalogueSeasonStep | scripts/datagen/export.py:243-290 | one season step either stops with the show's outcome and, on a skip, the show's counters, or keeps the loop invariant one season further |
| TvExport.SeasonAdvance | scripts/datagen/export.py:272-290 | after a complete season with a valid year range, the invariant holds with that season's counts, columns and entry appended |
| TvExport.SeasonEntry | scripts/datagen/export.py:272-282 | the entry of a complete season carries its rating key, number, episode count, formatted size, the aggregated distinct values of each column and its year range |
| TvExport.CatalogueSeason | scripts/datagen/export.py:272-282 | the season entry of the catalogue, or the TypeError of its year range; `SeasonEntry` states its fields |
| TvExport.ShowsLoopStep | scripts/datagen/export.py:230-311 | a show that does not crash adds one show, its reached seasons, episodes and bytes to the totals, and its entry to the output only when kept |
| TvExport.ProcessTvShowData | scripts/datagen/export.py:220-325 | the catalogue TV export with the export.py formatters is the catalogue export function of the shows |
| TvExport.CatalogueRollUp | scripts/datagen/export.py:230-318 | the show loop computes the catalogue export: a failure when some show crashes, otherwise the kept entries and the library totals |
| TvExport.CatalogueExport | scripts/datagen/export.py:230-318 | the catalogue TV file, or a failure when a show crashes; `TvFacts.CatalogueShowCount` and `CatalogueEpisodeCount` state its totals |
| TvExport.CrashedShow | scripts/datagen/export.py:310 | one crashing show makes the whole export fail with TypeError, which the except clause does not catch |
| TvExport.ShowsDone | scripts/datagen/export.py:313-318 | when the show loop finishes without a crash, the output holds the kept entries, the show, season and episode counters and the formatted byte total |
| TvExport.PlexSeasons | scripts/datagen/plex_sync.py:296-379 | the live export writes one entry per season |
| TvExport.PlexShows | scripts/datagen/plex_sync.py:267-408 | the live export writes one entry per show |
| TvExport.PlexSeasonPass | scripts/datagen/plex_sync.py:296-379 | the episode loop of a live season builds the season's entry and returns all its bytes and its columns |
| TvExport.AverageDuration | scripts/datagen/plex_sync.py:358 | the floor of the total duration over the number of episodes, and 0 without episodes, as `TvFacts.PlexSeasonAverage` states |
| TvExport.PlexSeason | scripts/datagen/plex_sync.py:296-379 | the live season entry; `TvFacts.PlexSeasonAverage`, `PlexSeasonYears` and `PlexSeasonNoYears` state its fields |
| TvExport.PlexShowPass | scripts/datagen/plex_sync.py:267-408 | one live show yields its entry, its number of seasons, all its episodes and all its bytes |
| TvExport.PlexShow | scripts/datagen/plex_sync.py:267-408 | the live show entry; `TvFacts.PlexShowTotals`, `PlexShowYears` and `PlexShowAggregate` state its fields |
| TvExport.PlexSeasonsLoopStep | scripts/datagen/plex_sync.py:296-379 | one live season adds one season, its episodes, bytes, columns and entry to the show's running state |
| TvExport.PlexSeasonsDone | scripts/datagen/plex_sync.py:296-379 | after all seasons, the counters are the number of seasons and the sums of episodes and bytes, and the entries are the seasons' entries in order |
| TvExport.PlexShowsLoopStep | scripts/datagen/plex_sync.py:267-408 | one live show adds one show, its seasons, episodes, bytes and entry to the library's running totals |
| TvExport.PlexShowsDone | scripts/datagen/plex_sync.py:267-418 | after all shows, the entries are every show's entry and the totals are the number of shows and the sums of seasons, episodes and bytes |
| TvExport.ProcessTvShows | scripts/datagen/plex_sync.py:223-429 | the live TV export with the plex_sync.py formatters is the live export function of the shows |
| TvExport.PlexRollUp | scripts/datagen/plex_sync.py:245-421 | the live show loop computes the live export: nothing for an empty library, otherwise every show's entry and the totals |
| TvExport.PlexExport | scripts/datagen/plex_sync.py:245-421 | the live TV file, nothing for an empty library; `TvFacts.PlexLibraryTotals` states its totals |
| TvExport.PlexShowsPass | scripts/datagen/plex_sync.py:267-412 | the live show loop ends with its invariant holding over all shows |
| TvExport.CollectedStep | scripts/datagen/export.py:265-270 | each episode with a file appends its resolution, codecs, container and year to the season's columns |
| TvExport.ShowColumnsStep | scripts/datagen/export.py:284-288 | each season extends the show's columns with its own |
| TvExport.KeptDataStep | scripts/datagen/export.py:308 | the kept entries grow by a show's entry exactly when that show is kept |
| TvExport.RaisesStep | scripts/datagen/export.py:230-311 | a prefix of shows that does not crash, followed by a show that does not crash, does not crash |
| TvFacts.CatalogueKeptTotals | scripts/datagen/export.py:272-298 | a kept show's entry has one season entry per season, and its episode total is the sum of its seasons' episode totals |
| TvFacts.KeptShow | scripts/datagen/export.py:292-306 | a kept show had every season complete and built and a valid show year range, and its entry is built from those |
| TvFacts.KeptEntry | scripts/datagen/export.py:290-305 | a kept show's season entries are its seasons' entries in order and its episode total counts all its episodes |
| TvFacts.CatalogueSeasonsCount | scripts/datagen/export.py:290 | when every season can be built, there is one entry per season |
| TvFacts.CatalogueSeasonsSum | scripts/datagen/export.py:275 | the season entries' episode totals sum to all the seasons' episodes |
| TvFacts.CatalogueSkippedCounts | scripts/datagen/export.py:242-263 | a skipped show counts the seasons up to and including its first incomplete one, the episodes before that season plus those up to and including the first without a file, and the bytes read before it |
| TvFacts.NoRaiseBefore | scripts/datagen/export.py:230-311 | if a list of shows does not crash, neither does its prefix nor its last show |
| TvFacts.CatalogueShowCount | scripts/datagen/export.py:230-314 | totalShow counts every show, and equals the kept entries plus the skipped shows |
| TvFacts.KeptAndSkipped | scripts/datagen/export.py:230-311 | without a crash, every show is either kept or skipped |
| TvFacts.CatalogueEpisodeCount | scripts/datagen/export.py:252-316 | TotalEpisode is the kept entries' episode totals plus the episodes the skipped shows counted before they stopped |
| TvFacts.KeptAndSkippedEpisodes | scripts/datagen/export.py:254-255 | without a crash, the shows' counted episodes split into those of kept entries and those of skipped shows |
| TvFacts.KeptAndSkippedStep | scripts/datagen/export.py:230-311 | the episode split extends from a prefix of shows to one show more |
| TvFacts.KeptStep | scripts/datagen/export.py:308 | a kept last show adds its episodes to the kept entries and nothing to the skipped count |
| TvFacts.SkippedStep | scripts/datagen/export.py:310-311 | a skipped last show adds its counted episodes to the skipped count and no entry |
| TvFacts.PlexShowTotals | scripts/datagen/plex_sync.py:321-398 | a live show's entry has one season entry per season, and its episode total is the sum of its seasons' episode totals |
| TvFacts.PlexSeasonsSum | scripts/datagen/plex_sync.py:321-363 | the live season entries' episode totals sum to all the seasons' episodes |
| TvFacts.PlexLibraryTotals | scripts/datagen/plex_sync.py:414-418 | the live library's show, season and episode totals agree with the show entries written |
| TvFacts.PlexShowsSeasons | scripts/datagen/plex_sync.py:297 | the show entries' season counts sum to all the shows' seasons |
| TvFacts.PlexShowsEpisodes | scripts/datagen/plex_sync.py:323-324 | the show entries' episode totals sum to all the shows' episodes |
| TvFacts.PlexSeasonAverage | scripts/datagen/plex_sync.py:358-364 | the average episode duration is the floor of the total over the count, and it is written exactly when there are episodes and the average is positive |
| TvFacts.PlexSeasonYears | scripts/datagen/plex_sync.py:346-347 | a season's year range runs from the least to the greatest truthy year |
| TvFacts.PlexSeasonNoYears | scripts/datagen/plex_sync.py:346-347 | a season has no year range exactly when none of its years is truthy |
| TvFacts.PlexShowYears | scripts/datagen/plex_sync.py:389-390 | a show's year range runs from the least to the greatest year that is not None (a year 0 counts here) |
| TvFacts.PlexShowNoYears | scripts/datagen/plex_sync.py:389-390 | a show has no year range exactly when it has no year that is not None |
| TvFacts.RangeOf | scripts/datagen/plex_sync.py:347 | the year range text is the least and the greatest year joined by a dash |
| TvFacts.LeastIs | scripts/datagen/plex_sync.py:347 | min of the years is the year that is in them and below all of them |
| TvFacts.GreatestIs | scripts/datagen/plex_sync.py:347 | max of the years is the year that is in them and above all of them |
| TvFacts.ShowValues | scripts/datagen/export.py:284-288 | a value is in the show's column exactly when it is in some season's column |
| TvFacts.ShowValuesStep | scripts/datagen/export.py:284-288 | the membership characterisation extends from a prefix of seasons to one season more |
| TvFacts.CatalogueShowAggregate | scripts/datagen/export.py:300-303 | a kept show's aggregated column depends only on which values occur in its seasons, not on order or repetition |
| TvFacts.KeptAggregate | scripts/datagen/export.py:300-303 | a kept show's aggregated column is the aggregate of the concatenated season columns |
| TvFacts.PlexShowAggregate | scripts/datagen/plex_sync.py:400-403 | a live show's aggregated column depends only on which truthy values occur in its seasons |
| Interchange.ReadExportedSize | scripts/datagen/export.py:30-36 | reading back an exported size string gives the size in megabytes that its rounded number and unit denote |
| Interchange.HundredthsBounds | scripts/datagen/export.py:30-36 | the rounded number printed for each unit stays within that unit's range |
| Interchange.SizeReadMonotone | scripts/datagen/export.py:30-36 | a larger byte count never reads back as a smaller size |
| Interchange.ReadSizeMonotone | src/js/utils.js:1-8 | sorting by the parsed exported size respects the byte order: more bytes never parse to fewer megabytes |
| Interchange.FourDigitYearText | src/js/utils.js:10-14 | a four-digit year prints as four digits whose value is the year |
| Interchange.ReadExportedYearRange | src/js/utils.js:10-14 | parsing an exported year range of four-digit years gives its first (least) year |
| Interchange.YearRangeText | src/js/utils.js:16-27 | a range of two four-digit years matches the year-range pattern at its start |
| Interchange.DisplayExportedYearRange | src/js/utils.js:16-27 | an exported range whose years are all equal displays as the single year; otherwise it displays unchanged |
| Interchange.SplitCommaJoin | src/js/tvshows.js:92 | splitting the comma-joined values on commas and trimming gives back the values |
| Interchange.SpaceThenSplit | src/js/tvshows.js:92 | a leading space changes only the first piece of a comma split, and only by whitespace |
| Interchange.BadgesOfExportedResolutions | src/js/tvshows.js:92 | the badges shown for an exported resolution list are the formatted distinct sorted resolutions |
| Interchange.BadgesOfJoin | src/js/tvshows.js:92 | the badges of comma-joined resolutions are those resolutions formatted, in order |

## Left out

- Network and remote services: the page data loaders, the Firestore listener, Firebase messaging and the Plex and Tautulli HTTP clients are not modelled. Their results become parameters: the item lists, the snapshot documents and the shows, movies and artists.
- Retries: the retry and backoff loops around `show.seasons()` and `season.episodes()` in `scripts/datagen/plex_sync.py` are not modelled. Each call is taken to return its list, or an empty list after the third failure.
- Files and external tools: JSON reading and writing, zip extraction, file moves, `git` calls and image download and conversion are not modelled. An exporter's result is the record it would dump.
- Logging: console logging and Python progress output are not modelled, because they do not affect any result.
- DOM and layout: the HTML templates, text-width measurement, CSS custom properties, `requestAnimationFrame`, the 300 ms debounce, the polling timers and `IntersectionObserver` geometry are not modelled. Intersection is an event naming a placeholder, and time is an integer clock passed to the touch handlers.
- Scroll-to-top: `initializeScrollToTop` and `findScrollableElement` in `src/js/utils.js` are not modelled, because they only wire scroll listeners to DOM geometry.
- Legacy pages: the pages under `js/` other than `recommend.js` only toggle `display` on existing cards and are not modelled.
- Build and deployment scripts are not modelled.
- Collation: `localeCompare` is any comparison function that is a total preorder and sign-antisymmetric. The proofs hold for every such function, not for one particular locale.
- `.2f` formatting: it is modelled as round-half-even of the exact quotient. Python rounds the nearest binary double instead, so a quotient that is not exactly representable can round differently at the second decimal. The unit choice and the monotonicity of the rounding are modelled exactly.
- JSON shapes: a field read with `.get` is an `Option`, and a field read with `[]` inside a `try` can make the record or show skip. A field read with `[]` outside any `try` is a plain value, so the crash a missing one would cause is not modelled. JSON `null` and a missing key are the same `None`.
- JSON `null` values: because `null` and a missing key are both `None`, a movie or show whose `ratingKey` or `title` is `null` is skipped by `MovieExport` and `TvExport`, while `scripts/datagen/export.py:90-91` writes it with a `null` field. A `"media": null` makes Python raise an uncaught TypeError, which the model does not capture either.
- Album containers: `list(containers)` at `scripts/datagen/export.py:216` lists the set in Python's iteration order. `AlbumExport` keeps the containers as a set, so that order is not modelled.
- Recommendations.WrapText: in `js/recommend.js:30-33`, `text.length` and `slice` count UTF-16 code units, while the model counts characters (Unicode scalar values) in `Recommendations.WrapText` and `Recommendations.Wrap`. A title of 11 emoji is 22 code units: the page cuts it after code unit 20, splitting the 11th emoji into two lone surrogates on two lines, while the model sees 11 characters and returns the title unchanged. Titles made only of characters below U+10000 are wrapped the same way.
- Time formatting: `new Date(timestamp).toLocaleString()` in the recommendation entries is not modelled. The entry keeps the raw timestamp.
- Decimal.ParseFloat: it is modelled on plain decimal literals only: leading ECMAScript white space, an optional sign, digits and an optional fraction, followed by any text. Exponents, `Infinity` and hexadecimal forms are not modelled, because the exporters never write them: "1e3" reads as 1 in the model and as 1000 in JavaScript.
- Decimal.ParseUnsigned: it stops before an exponent, as `Decimal.ParseFloat` does.
- `formatYearRange`: the regular expression has no `g` flag, so only the first `dddd-dddd` occurrence is compared. A later occurrence with equal halves does not collapse the text. The model follows the code.
- The artist rating-key lookup: `scripts/datagen/export.py`, `export_music.py` and `music.py` take the rating key of the first input entry with the same title. This is modelled by a first-match search over the entries rather than by the dictionary the scripts build.
- An empty Plex library: `scripts/datagen/plex_sync.py` returns early and writes no file for an empty movie, TV or music library. `MovieExport.ProcessMovies`, `TvExport.ProcessTvShows` and `MusicExport.ProcessMusicData` then give `None`.
- ExportFormat.HumanReadableDuration: its ensures states only the " secs" or " mins" ending. The exact text of each of the four branches is stated by `ExportFormat.DurationShapes`.
- ExportFormat.HumanReadableSize: its ensures states the unit ending and the value `parseFloat` reads back. The two-decimal digits themselves are pinned only through that read-back, not written out.
- ExportFormat.RoundedDuration: its ensures states only the singular "1 min" case. Every other value is written as the rounded minute count followed by " mins", which the contract does not state.
- CatalogValues.ParseSize: its ensures states only the missing and empty cases. The unit cases are stated by `CatalogValues.ParseSizeParts`, `CatalogValues.ParseSizeBare`, `CatalogValues.ParseSizeUnits` and `CatalogValues.ParseSizeSuffix`.
- TvExport.PlexSeasons: its ensures states only the number of entries. Their totals are stated by `TvFacts.PlexSeasonsSum`.
- TvExport.PlexShows: its ensures states only the number of entries. Their totals are stated by `TvFacts.PlexShowsSeasons` and `TvFacts.PlexShowsEpisodes`.
- Case mapping is ASCII only. JavaScript's `toLowerCase()` and Python's `lower()`, `upper()` and `isdigit()` follow Unicode. The members below therefore differ from the source on text with non-ASCII letters or digits:
- Text.ToLower: lowers only "A" to "Z". `toLowerCase()` also lowers "É" to "é", so the model keeps "É" as it is.
- Text.ToUpper: raises only "a" to "z". Python's `upper()` also maps "é" to "É" and "ß" to "SS", which changes the length.
- CatalogView.KeepCount: "lower-cased" means `Text.ToLower`. The query "édith" keeps "Édith Piaf" on the page but not in the model.
- CatalogView.Filter: the name and the query are lowered with `Text.ToLower`, so a name and a query that differ only in a non-ASCII capital do not match.
- CatalogView.FilterMembership: membership is stated over `Text.ToLower`, with the same difference on non-ASCII capitals.
- CatalogView.FilterIgnoresQueryCase: only ASCII case is ignored. "ÉDITH" and "édith" give different results in the model and the same one on the page.
- ExportFormat.FormatResolution: `lower()` and `isdigit()` are ASCII only. Python treats "１０８０" (full-width digits) as digits and lowers "Ä"; the model does neither.
- ExportFormat.FormatCodec: `upper()` is ASCII only, so the length is always kept. Python's `upper()` turns "ß" into "SS".
- TvShowsPage.SeasonLabel: `Number()` reads text as 0 in the model when it is blank, a decimal literal whose digits are all zeros (with an optional sign, point and exponent), or a "0x", "0o" or "0b" literal of zeros. A non-zero mantissa whose exponent underflows, such as "1e-400", also converts to 0 and shows "Specials" on the page, but the model gives "Season 1e-400". A numeric season number is an integer in the model, so a fractional JSON number such as 1.5, which the page shows as "Season 1.5", is not modelled.
- Integer widths: Python integers are unbounded and JavaScript numbers are doubles. The model uses unbounded integers and exact reals, so precision loss for sizes above 2^53 bytes is not modelled.

## Findings

| source | as written | input that shows it | evidently intended | confidence | as-written member | corrected member |
|---|---|---|---|---|---|---|
| js/recommend.js:68-85 | a document whose category is not "Movies", "TV Shows" or "Music" leaves `targetList` undefined. `targetList.appendChild` then throws a TypeError, which ends the `forEach`, so no later document is shown | a snapshot whose newest document has category "Books", followed by a document with category "Movies" | skip the unknown document and route the rest | not executed | Recommendations.RecommendationBoard.OnSnapshotAsWritten, Recommendations.UnknownCategoryHidesLater | Recommendations.RecommendationBoard.OnSnapshot |
