/** The recommendations board (js/recommend.js): `wrapText`, which breaks a name into lines of a fixed width,
    and the snapshot listener, which rebuilds the movies, shows and music lists from the recommendations
    in the order the query delivers them (newest first). The Firestore query itself is not modelled: a
    snapshot is the sequence of its documents. */
module Recommendations {
  import opened Wrappers
  import opened Text

  // ---------------------------------------------------------------- wrapText

  /** The pieces `wrapText` cuts `text` into: `width` characters each, the last one 1 to `width`. */
  function Chunks(text: string, width: nat): seq<string>
    requires width > 0
    decreases |text|
  {
    if text == [] then []
    else if |text| <= width then [text]
    else [text[..width]] + Chunks(text[width..], width)
  }

  /** The pieces of a string, concatenated. */
  function Concat(parts: seq<string>): string {
    if parts == [] then "" else parts[0] + Concat(parts[1..])
  }

  /** What `wrapText(text, width)` returns: the pieces joined by line breaks. */
  function Wrap(text: string, width: nat): string
    requires width > 0
  {
    Join(Chunks(text, width), "\n")
  }

  /** The pieces put back together give the text; there are none exactly when the text is empty, and the
      last one is never empty. */
  lemma {:induction false} ChunksConcat(text: string, width: nat)
    requires width > 0
    ensures Concat(Chunks(text, width)) == text
    ensures text == [] <==> Chunks(text, width) == []
    ensures text != [] ==> Chunks(text, width)[|Chunks(text, width)| - 1] != []
    decreases |text|
  {
    if |text| > width {
      ChunksConcat(text[width..], width);
      ChunksConcatStep(text, width);
    } else if text != [] {
      assert Concat(Chunks(text, width)) == text + "";
    }
  }

  /** `ChunksConcat` for a text longer than `width`, from the same facts about the rest. */
  lemma ChunksConcatStep(text: string, width: nat)
    requires 0 < width < |text|
    requires var rest := Chunks(text[width..], width);
      Concat(rest) == text[width..] && rest != [] && rest[|rest| - 1] != []
    ensures var chunks := Chunks(text, width);
      Concat(chunks) == text && chunks != [] && chunks[|chunks| - 1] != []
  {
    var rest := Chunks(text[width..], width);
    ChunksCons(text, width);
    ConcatCons(text[..width], rest);
    Rejoin(text, width);
  }

  lemma Rejoin(text: string, i: nat)
    requires i <= |text|
    ensures text[..i] + text[i..] == text
  {
  }

  lemma ConcatCons(first: string, rest: seq<string>)
    requires rest != []
    ensures Concat([first] + rest) == first + Concat(rest)
    ensures ([first] + rest)[|rest|] == rest[|rest| - 1]
  {
    assert ([first] + rest)[1..] == rest;
  }

  /** Text longer than `width` starts with a piece of `width` characters, then the pieces of the rest. */
  lemma ChunksCons(text: string, width: nat)
    requires 0 < width < |text|
    ensures Chunks(text, width) == [text[..width]] + Chunks(text[width..], width)
    ensures Chunks(text, width)[1..] == Chunks(text[width..], width)
  {
    var rest := Chunks(text[width..], width);
    assert ([text[..width]] + rest)[1..] == rest;
  }

  /** All pieces but the last are exactly `width` long and the last is 1 to `width` long, so there are
      ceil(|text| / width) of them. */
  lemma {:induction false} ChunksShape(text: string, width: nat)
    requires width > 0
    ensures forall k :: 0 <= k < |Chunks(text, width)| - 1 ==> |Chunks(text, width)[k]| == width
    ensures text != [] ==> 1 <= |Chunks(text, width)[|Chunks(text, width)| - 1]| <= width
    ensures text != [] ==>
      |text| == (|Chunks(text, width)| - 1) * width + |Chunks(text, width)[|Chunks(text, width)| - 1]|
    decreases |text|
  {
    var chunks := Chunks(text, width);
    if |text| > width {
      var rest := Chunks(text[width..], width);
      ChunksShape(text[width..], width);
      ChunksConcat(text[width..], width);
      ChunksCons(text, width);
      assert (|rest| - 1) * width + width == (|chunks| - 1) * width;
    }
  }

  /** Short text is left as it is. */
  lemma WrapShort(text: string, width: nat)
    requires width > 0 && |text| <= width
    ensures Wrap(text, width) == text
  {
  }

  /** Removing every line break from the wrapped text of a text that has none gives the text back; the
      wrapped text has one line break fewer than pieces, so none after the last piece. */
  lemma WrapRoundTrip(text: string, width: nat)
    requires width > 0 && '\n' !in text
    ensures Without(Wrap(text, width), '\n') == text
    ensures multiset(Wrap(text, width))['\n'] == |Chunks(text, width)| - 1 || text == []
    ensures text != [] ==> Wrap(text, width)[|Wrap(text, width)| - 1] == text[|text| - 1]
  {
    var chunks := Chunks(text, width);
    ChunksConcat(text, width);
    ChunksWithout(text, width, '\n');
    WithoutJoin(chunks, '\n');
    JoinCount(chunks, '\n');
    if text != [] {
      JoinLast(chunks, "\n");
      ConcatLast(chunks);
    }
  }

  /** Every piece is a slice of the text, so a character missing from the text is missing from every piece. */
  lemma {:induction false} ChunksWithout(text: string, width: nat, c: char)
    requires width > 0 && c !in text
    ensures forall k :: 0 <= k < |Chunks(text, width)| ==> c !in Chunks(text, width)[k]
    decreases |text|
  {
    if |text| > width {
      assert text == text[..width] + text[width..];
      ChunksWithout(text[width..], width, c);
      var chunks := Chunks(text, width);
      assert chunks[1..] == Chunks(text[width..], width);
    }
  }

  /** `s` with every `c` removed. */
  function Without(s: string, c: char): string {
    if s == [] then [] else (if s[0] == c then [] else [s[0]]) + Without(s[1..], c)
  }

  lemma {:induction false} WithoutAppend(a: string, b: string, c: char)
    ensures Without(a + b, c) == Without(a, c) + Without(b, c)
  {
    if a != [] {
      assert (a + b)[1..] == a[1..] + b;
      WithoutAppend(a[1..], b, c);
    } else {
      assert a + b == b;
    }
  }

  lemma {:induction false} WithoutAbsent(s: string, c: char)
    requires c !in s
    ensures Without(s, c) == s
  {
    if s != [] {
      WithoutAbsent(s[1..], c);
    }
  }

  /** Removing the separator from the joined parts leaves the parts concatenated when none contains it. */
  lemma {:induction false} WithoutJoin(parts: seq<string>, c: char)
    requires forall k :: 0 <= k < |parts| ==> c !in parts[k]
    ensures Without(Join(parts, [c]), c) == Concat(parts)
    decreases |parts|
  {
    if |parts| == 1 {
      WithoutAbsent(parts[0], c);
      assert Concat(parts) == parts[0] + Concat([]);
    } else if |parts| > 1 {
      WithoutJoin(parts[1..], c);
      WithoutAbsent(parts[0], c);
      WithoutAppend(parts[0] + [c], Join(parts[1..], [c]), c);
      WithoutAppend(parts[0], [c], c);
    }
  }

  /** Joining `n` parts that do not contain the separator character puts `n - 1` of it in. */
  lemma {:induction false} JoinCount(parts: seq<string>, c: char)
    requires forall k :: 0 <= k < |parts| ==> c !in parts[k]
    ensures parts != [] ==> multiset(Join(parts, [c]))[c] == |parts| - 1
    decreases |parts|
  {
    if |parts| == 1 {
      assert multiset(parts[0])[c] == 0;
    } else if |parts| > 1 {
      JoinCount(parts[1..], c);
      assert multiset(parts[0])[c] == 0;
      assert Join(parts, [c]) == parts[0] + [c] + Join(parts[1..], [c]);
    }
  }

  /** The joined text ends with the last part. */
  lemma {:induction false} JoinLast(parts: seq<string>, sep: string)
    requires parts != [] && parts[|parts| - 1] != []
    ensures var j := Join(parts, sep); |j| > 0 && j[|j| - 1] == parts[|parts| - 1][|parts[|parts| - 1]| - 1]
    decreases |parts|
  {
    if |parts| > 1 {
      JoinLast(parts[1..], sep);
    }
  }

  /** The concatenation ends with the last part. */
  lemma {:induction false} ConcatLast(parts: seq<string>)
    requires parts != [] && parts[|parts| - 1] != []
    ensures var j := Concat(parts); |j| > 0 && j[|j| - 1] == parts[|parts| - 1][|parts[|parts| - 1]| - 1]
    decreases |parts|
  {
    if |parts| > 1 {
      ConcatLast(parts[1..]);
    } else {
      assert Concat(parts) == parts[0] + "";
    }
  }

  /** `wrapText(text, maxLength)`: text no longer than `maxLength` is returned as it is; otherwise the loop
      appends each slice of `maxLength` characters, followed by a line break unless it is the last one. */
  method WrapText(text: string, maxLength: nat) returns (wrapped: string)
    requires maxLength > 0
    ensures |text| <= maxLength ==> wrapped == text
    ensures wrapped == Wrap(text, maxLength)
  {
    if |text| <= maxLength {
      return text;
    }
    wrapped := "";
    var i := 0;
    while i < |text|
      invariant i <= |text| ==> wrapped + Wrap(text[i..], maxLength) == Wrap(text, maxLength)
      invariant i > |text| ==> wrapped == Wrap(text, maxLength)
      decreases |text| - i
    {
      WrapAdvance(text, i, maxLength, wrapped);
      if i + maxLength < |text| {
        wrapped := wrapped + text[i..i + maxLength] + "\n";
      } else {
        wrapped := wrapped + text[i..];
      }
      i := i + maxLength;
    }
  }

  /** What the loop of `WrapText` has built so far, followed by the wrapped rest, stays the whole wrapped text
      after one more piece. */
  lemma WrapAdvance(text: string, i: nat, width: nat, wrapped: string)
    requires width > 0 && i < |text|
    requires wrapped + Wrap(text[i..], width) == Wrap(text, width)
    ensures i + width < |text| ==>
      wrapped + text[i..i + width] + "\n" + Wrap(text[i + width..], width) == Wrap(text, width)
    ensures i + width >= |text| ==> wrapped + text[i..] == Wrap(text, width)
    ensures i + width >= |text| ==> wrapped + text[i..] + Wrap(text[|text|..], width) == Wrap(text, width)
  {
    WrapFrom(text, i, width);
    if i + width < |text| {
      var rest := Wrap(text[i + width..], width);
      assert wrapped + text[i..i + width] + "\n" + rest == wrapped + (text[i..i + width] + "\n" + rest);
    } else {
      assert wrapped + text[i..] + "" == wrapped + text[i..];
    }
  }

  /** One step of the loop from position `i`: the wrapped rest starts with the next piece, then a line break
      and the wrapped remainder when more text follows; nothing is left to wrap at the end. */
  lemma WrapFrom(text: string, i: nat, width: nat)
    requires width > 0 && i < |text|
    ensures i + width < |text| ==>
      Wrap(text[i..], width) == text[i..i + width] + "\n" + Wrap(text[i + width..], width)
    ensures i + width >= |text| ==> Wrap(text[i..], width) == text[i..]
    ensures Wrap(text[|text|..], width) == ""
  {
    var t := text[i..];
    if i + width < |text| {
      var rest := Chunks(t[width..], width);
      assert Chunks(t, width) == [t[..width]] + rest;
      assert rest != [];
      assert ([t[..width]] + rest)[1..] == rest;
      assert t[..width] == text[i..i + width];
      assert t[width..] == text[i + width..];
    }
  }

  // ---------------------------------------------------------------- the snapshot listener

  /** A recommendation document: its category, the name fields the board shows (a missing or empty season
      or album is `None` or `Some("")`), and its timestamp. */
  datatype Recommendation = Recommendation(category: string, title: string, show: string,
                                           season: Option<string>, artist: string, album: Option<string>,
                                           timestamp: int)

  /** A rendered entry: the wrapped heading, and for shows and music the labelled wrapped season or album
      when the document has one. */
  datatype Entry = Entry(heading: string, detailLabel: string, detail: Option<string>, timestamp: int)

  /** A list item: the "No recommendations yet." placeholder, or an entry. */
  datatype ListItem = NoneYet | Request(entry: Entry)

  datatype Board = MoviesList | TvShowsList | MusicList

  /** The list a category is routed to; any other category has none. */
  function Target(category: string): (r: Option<Board>)
    ensures r == Some(MoviesList) <==> category == "Movies"
    ensures r == Some(TvShowsList) <==> category == "TV Shows"
    ensures r == Some(MusicList) <==> category == "Music"
  {
    if category == "Movies" then Some(MoviesList)
    else if category == "TV Shows" then Some(TvShowsList)
    else if category == "Music" then Some(MusicList)
    else None
  }

  /** A non-empty optional field, as the template's truthiness test sees it. */
  function Truthy(field: Option<string>): Option<string> {
    if field.Some? && field.value != "" then field else None
  }

  /** The entry rendered for a routed document; names are wrapped at 20 characters. */
  function EntryOf(doc: Recommendation): (e: Entry)
    ensures doc.category == "Movies" ==> e.heading == Wrap(doc.title, 20) && e.detail.None?
    ensures doc.category == "TV Shows" ==>
      (e.heading == Wrap(doc.show, 20) && e.detailLabel == "Season" && (e.detail.Some? <==> Truthy(doc.season).Some?))
    ensures doc.category == "Music" ==>
      (e.heading == Wrap(doc.artist, 20) && e.detailLabel == "Album" && (e.detail.Some? <==> Truthy(doc.album).Some?))
    ensures e.timestamp == doc.timestamp
  {
    if doc.category == "TV Shows" then
      Entry(Wrap(doc.show, 20), "Season",
            if Truthy(doc.season).Some? then Some(Wrap(doc.season.value, 20)) else None, doc.timestamp)
    else if doc.category == "Music" then
      Entry(Wrap(doc.artist, 20), "Album",
            if Truthy(doc.album).Some? then Some(Wrap(doc.album.value, 20)) else None, doc.timestamp)
    else Entry(Wrap(doc.title, 20), "", None, doc.timestamp)
  }

  /** The entries of the documents routed to `list`, in snapshot order. */
  function Routed(docs: seq<Recommendation>, list: Board): (items: seq<ListItem>)
    ensures |items| <= |docs|
    ensures forall k :: 0 <= k < |items| ==> items[k].Request?
  {
    if docs == [] then []
    else
      (if Target(docs[0].category) == Some(list) then [Request(EntryOf(docs[0]))] else [])
      + Routed(docs[1..], list)
  }

  lemma {:induction false} RoutedAppend(a: seq<Recommendation>, b: seq<Recommendation>, list: Board)
    ensures Routed(a + b, list) == Routed(a, list) + Routed(b, list)
  {
    if a != [] {
      assert (a + b)[1..] == a[1..] + b;
      RoutedAppend(a[1..], b, list);
    } else {
      assert a + b == b;
    }
  }

  /** Handling one more document appends its entry to its own list and leaves the others alone. */
  lemma RoutedStep(docs: seq<Recommendation>, k: nat, list: Board)
    requires k < |docs|
    ensures Routed(docs[..k + 1], list) == Routed(docs[..k], list)
      + (if Target(docs[k].category) == Some(list) then [Request(EntryOf(docs[k]))] else [])
  {
    assert docs[..k + 1] == docs[..k] + [docs[k]];
    RoutedAppend(docs[..k], [docs[k]], list);
  }

  /** How many documents the listener handles before it meets one without a target list. */
  function Handled(docs: seq<Recommendation>): (n: nat)
    ensures n <= |docs|
    ensures forall k :: 0 <= k < n ==> Target(docs[k].category).Some?
    ensures n < |docs| ==> Target(docs[n].category).None?
  {
    if docs == [] || Target(docs[0].category).None? then 0 else 1 + Handled(docs[1..])
  }

  /** Every routed document lands in exactly one list: the three lists together hold one entry per
      document with a known category. */
  lemma {:induction false} RoutedPartition(docs: seq<Recommendation>)
    ensures |Routed(docs, MoviesList)| + |Routed(docs, TvShowsList)| + |Routed(docs, MusicList)|
         == |docs| - Unrouted(docs)
  {
    if docs != [] {
      RoutedPartition(docs[1..]);
    }
  }

  /** Every entry routed from documents stamped no later than `t` is stamped no later than `t`. */
  lemma {:induction false} RoutedBounded(docs: seq<Recommendation>, list: Board, t: int)
    requires forall k :: 0 <= k < |docs| ==> docs[k].timestamp <= t
    ensures forall k :: 0 <= k < |Routed(docs, list)| ==> Routed(docs, list)[k].entry.timestamp <= t
  {
    if docs != [] {
      RoutedBounded(docs[1..], list, t);
    }
  }

  /** Entries whose timestamps never increase along the list. */
  predicate NewestFirst(items: seq<ListItem>)
    requires forall k :: 0 <= k < |items| ==> items[k].Request?
  {
    forall i, j :: 0 <= i < j < |items| ==> items[i].entry.timestamp >= items[j].entry.timestamp
  }

  /** The query delivers the documents newest first, and each list keeps them so. */
  lemma {:induction false} RoutedNewestFirst(docs: seq<Recommendation>, list: Board)
    requires forall i, j :: 0 <= i < j < |docs| ==> docs[i].timestamp >= docs[j].timestamp
    ensures NewestFirst(Routed(docs, list))
  {
    if docs != [] {
      RoutedNewestFirst(docs[1..], list);
      RoutedBounded(docs[1..], list, docs[0].timestamp);
      var head := if Target(docs[0].category) == Some(list) then [Request(EntryOf(docs[0]))] else [];
      var rest := Routed(docs[1..], list);
      var items := Routed(docs, list);
      assert items == head + rest;
      forall i, j | 0 <= i < j < |items| ensures items[i].entry.timestamp >= items[j].entry.timestamp {
        if i < |head| {
          assert items[i] == Request(EntryOf(docs[0]));
          assert items[j] == rest[j - 1];
          assert rest[j - 1].entry.timestamp <= docs[0].timestamp;
          assert items[i].entry.timestamp == docs[0].timestamp;
        } else {
          assert items[i] == rest[i - |head|] && items[j] == rest[j - |head|];
          assert 0 <= i - |head| < j - |head| < |rest|;
        }
      }
    }
  }

  /** The number of documents whose category has no list. */
  function Unrouted(docs: seq<Recommendation>): (n: nat)
    ensures n <= |docs|
  {
    if docs == [] then 0 else (if Target(docs[0].category).None? then 1 else 0) + Unrouted(docs[1..])
  }

  /** The three lists of the page. */
  class RecommendationBoard {
    var movies: seq<ListItem>
    var tvshows: seq<ListItem>
    var music: seq<ListItem>

    constructor()
      ensures movies == [] && tvshows == [] && music == []
    {
      movies := [];
      tvshows := [];
      music := [];
    }

    /** Appends an entry to the given list. */
    method Append(list: Board, item: ListItem)
      modifies this
      ensures list == MoviesList ==> movies == old(movies) + [item] && tvshows == old(tvshows) && music == old(music)
      ensures list == TvShowsList ==> tvshows == old(tvshows) + [item] && movies == old(movies) && music == old(music)
      ensures list == MusicList ==> music == old(music) + [item] && movies == old(movies) && tvshows == old(tvshows)
    {
      match list
      case MoviesList => movies := movies + [item];
      case TvShowsList => tvshows := tvshows + [item];
      case MusicList => music := music + [item];
    }

    /** The listener as written: all three lists are cleared; an empty snapshot leaves one placeholder in
        each; otherwise each document is appended to its list in order. A document whose category has no
        list makes `targetList.appendChild` throw, which abandons the rest of the snapshot; `completed` is
        false then. */
    method OnSnapshotAsWritten(docs: seq<Recommendation>) returns (completed: bool)
      modifies this
      ensures docs == [] ==> movies == [NoneYet] && tvshows == [NoneYet] && music == [NoneYet] && completed
      ensures docs != [] ==> (completed <==> Handled(docs) == |docs|)
      ensures docs != [] ==> movies == Routed(docs[..Handled(docs)], MoviesList)
      ensures docs != [] ==> tvshows == Routed(docs[..Handled(docs)], TvShowsList)
      ensures docs != [] ==> music == Routed(docs[..Handled(docs)], MusicList)
    {
      movies, tvshows, music := [], [], [];
      if docs == [] {
        movies, tvshows, music := [NoneYet], [NoneYet], [NoneYet];
        return true;
      }
      var k := 0;
      while k < |docs|
        invariant k <= Handled(docs)
        invariant movies == Routed(docs[..k], MoviesList)
        invariant tvshows == Routed(docs[..k], TvShowsList)
        invariant music == Routed(docs[..k], MusicList)
      {
        var target := Target(docs[k].category);
        RoutedStep(docs, k, MoviesList);
        RoutedStep(docs, k, TvShowsList);
        RoutedStep(docs, k, MusicList);
        if target.None? {
          return false;
        }
        Append(target.value, Request(EntryOf(docs[k])));
        k := k + 1;
      }
      assert docs[..k] == docs;
      return true;
    }

    /** The listener with documents of other categories skipped: every list holds exactly the entries of
        its category, in snapshot order, whatever else the snapshot contains. */
    method OnSnapshot(docs: seq<Recommendation>)
      modifies this
      ensures docs == [] ==> movies == [NoneYet] && tvshows == [NoneYet] && music == [NoneYet]
      ensures docs != [] ==> movies == Routed(docs, MoviesList)
      ensures docs != [] ==> tvshows == Routed(docs, TvShowsList)
      ensures docs != [] ==> music == Routed(docs, MusicList)
    {
      movies, tvshows, music := [], [], [];
      if docs == [] {
        movies, tvshows, music := [NoneYet], [NoneYet], [NoneYet];
        return;
      }
      for k := 0 to |docs|
        invariant movies == Routed(docs[..k], MoviesList)
        invariant tvshows == Routed(docs[..k], TvShowsList)
        invariant music == Routed(docs[..k], MusicList)
      {
        RoutedStep(docs, k, MoviesList);
        RoutedStep(docs, k, TvShowsList);
        RoutedStep(docs, k, MusicList);
        var target := Target(docs[k].category);
        if target.Some? {
          Append(target.value, Request(EntryOf(docs[k])));
        }
      }
      assert docs[..|docs|] == docs;
    }
  }

  /** As written, a document of another category hides every later recommendation: here a movie after a
      "Books" document never reaches the movies list, while skipping the unknown document shows it. */
  lemma UnknownCategoryHidesLater()
    ensures var docs := [Recommendation("Books", "", "", None, "", None, 2),
                         Recommendation("Movies", "Heat", "", None, "", None, 1)];
      && Handled(docs) == 0
      && Routed(docs[..Handled(docs)], MoviesList) == []
      && Routed(docs, MoviesList) == [Request(Entry("Heat", "", None, 1))]
  {
    var docs := [Recommendation("Books", "", "", None, "", None, 2),
                 Recommendation("Movies", "Heat", "", None, "", None, 1)];
    assert docs[1..] == [docs[1]];
    assert Target("Books").None?;
    WrapShort("Heat", 20);
  }
}
