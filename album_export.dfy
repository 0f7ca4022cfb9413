/** `process_album` of the music exporters (scripts/datagen/export.py, export_music.py, music.py and
    plex_sync.py): one pass over an album's tracks, their media and the media's parts that counts the
    tracks, adds up part sizes and media durations and collects the distinct containers. */
module AlbumExport {
  import opened Wrappers
  import opened ExportRecords

  /** A track: its media (`track.get("media", [])`). */
  datatype Track = Track(media: seq<Media>)

  /** An album record of the export: its key, title, optional year and tracks. */
  datatype AlbumRecord = AlbumRecord(ratingKey: string, title: string, year: Option<int>, tracks: seq<Track>)

  /** The album entry written to the catalogue. The containers are a set: `list(containers)` follows the
      set's iteration order, which is not modelled. */
  datatype AlbumData = AlbumData(ratingKey: string, title: string, year: Option<int>, tracks: nat,
                                 albumSizeHuman: string, totalAlbumSizeBytes: nat, albumDurationHuman: string,
                                 albumContainers: set<Option<string>>)

  function PartBytes(p: Part): nat { p.size }

  /** The bytes of a media version: the sum of its parts (`media.get("parts", [])`). */
  function MediaBytes(m: Media): nat { Sum(m.parts.GetOr([]), PartBytes) }

  function TrackBytes(t: Track): nat { Sum(t.media, MediaBytes) }

  /** The bytes of an album: every part of every media version of every track. */
  function AlbumBytes(a: AlbumRecord): nat { Sum(a.tracks, TrackBytes) }

  function MediaDuration(m: Media): nat { m.duration }

  function TrackDuration(t: Track): nat { Sum(t.media, MediaDuration) }

  /** The duration of an album: every media version of every track. */
  function AlbumDuration(a: AlbumRecord): nat { Sum(a.tracks, TrackDuration) }

  function MediaContainer(m: Media): set<Option<string>> { {m.container} }

  function TrackContainers(t: Track): set<Option<string>> { Union(t.media, MediaContainer) }

  /** The containers of an album, a missing one (`None`) included. */
  function AlbumContainers(a: AlbumRecord): set<Option<string>> { Union(a.tracks, TrackContainers) }

  /** The entry `process_album` builds, by the script's own size and duration formatters. */
  function Summary(fmt: Formats, a: AlbumRecord): AlbumData {
    AlbumData(a.ratingKey, a.title, a.year, |a.tracks|, fmt.size(AlbumBytes(a)), AlbumBytes(a),
              fmt.duration(AlbumDuration(a)), AlbumContainers(a))
  }

  /** `process_album(album)`: returns the entry, the album's bytes and its duration in milliseconds. */
  method ProcessAlbum(fmt: Formats, album: AlbumRecord) returns (data: AlbumData, albumSizeBytes: nat, totalDuration: nat)
    ensures data == Summary(fmt, album)
    ensures albumSizeBytes == AlbumBytes(album) && totalDuration == AlbumDuration(album)
    ensures data.tracks == |album.tracks| && data.totalAlbumSizeBytes == albumSizeBytes
  {
    albumSizeBytes := 0;
    totalDuration := 0;
    var containers: set<Option<string>> := {};
    var tracks := album.tracks;
    for i := 0 to |tracks|
      invariant albumSizeBytes == Sum(tracks[..i], TrackBytes)
      invariant totalDuration == Sum(tracks[..i], TrackDuration)
      invariant containers == Union(tracks[..i], TrackContainers)
    {
      var media := tracks[i].media;
      ghost var size0, duration0, containers0 := albumSizeBytes, totalDuration, containers;
      for j := 0 to |media|
        invariant albumSizeBytes == size0 + Sum(media[..j], MediaBytes)
        invariant totalDuration == duration0 + Sum(media[..j], MediaDuration)
        invariant containers == containers0 + Union(media[..j], MediaContainer)
      {
        containers := containers + {media[j].container};
        totalDuration := totalDuration + media[j].duration;
        var parts := media[j].parts.GetOr([]);
        ghost var size1 := albumSizeBytes;
        for k := 0 to |parts|
          invariant albumSizeBytes == size1 + Sum(parts[..k], PartBytes)
        {
          albumSizeBytes := albumSizeBytes + parts[k].size;
          SumStep(parts, k, PartBytes);
        }
        assert parts[..|parts|] == parts;
        SumStep(media, j, MediaBytes);
        SumStep(media, j, MediaDuration);
        UnionStep(media, j, MediaContainer);
      }
      assert media[..|media|] == media;
      SumStep(tracks, i, TrackBytes);
      SumStep(tracks, i, TrackDuration);
      UnionStep(tracks, i, TrackContainers);
    }
    assert tracks[..|tracks|] == tracks;
    data := AlbumData(album.ratingKey, album.title, album.year, |tracks|, fmt.size(albumSizeBytes),
                      albumSizeBytes, fmt.duration(totalDuration), containers);
  }

  /** A container is listed exactly when some media version of some track has it. */
  lemma ContainersListed(fmt: Formats, a: AlbumRecord, c: Option<string>)
    ensures c in Summary(fmt, a).albumContainers <==>
      exists k, j :: 0 <= k < |a.tracks| && 0 <= j < |a.tracks[k].media| && a.tracks[k].media[j].container == c
  {
    UnionMembers(a.tracks, TrackContainers, c);
    forall k | 0 <= k < |a.tracks| {
      UnionMembers(a.tracks[k].media, MediaContainer, c);
    }
  }

  /** Splitting the tracks splits the album's bytes and duration: every track counts once. */
  lemma AlbumTotalsSplit(ratingKey: string, title: string, year: Option<int>, front: seq<Track>, back: seq<Track>)
    ensures AlbumBytes(AlbumRecord(ratingKey, title, year, front + back))
      == AlbumBytes(AlbumRecord(ratingKey, title, year, front)) + AlbumBytes(AlbumRecord(ratingKey, title, year, back))
    ensures AlbumDuration(AlbumRecord(ratingKey, title, year, front + back))
      == AlbumDuration(AlbumRecord(ratingKey, title, year, front)) + AlbumDuration(AlbumRecord(ratingKey, title, year, back))
  {
    SumAppend(front, back, TrackBytes);
    SumAppend(front, back, TrackDuration);
  }
}
