/** The playlist loader (`getMusic`): rebuilds the queue from a song collection
    (or adds a single hash) and then asks the store to select and resolve a hash. */
module GetMusicList {
  import opened Optional
  import opened Strings
  import opened PlaybackHistory

  /** Artist shown when a song carries no usable singer record ("unknown singer"). */
  const UnknownSinger: string := "未知歌手"
  /** Placeholder in cover URLs for the requested image size. */
  const SizePlaceholder: string := "{size}"
  /** Cover image size the loader asks for. */
  const CoverSize: string := "64"

  /** An element of a song's `singerinfo` array; a falsy element (null, undefined) is not a singer. */
  datatype SingerEntry = FalsySinger | Singer(name: Option<string>)

  /** A song record from the backend. `singerinfo` is None when missing or not an array. */
  datatype Song = Song(hash: string, name: Option<string>, singerinfo: Option<seq<SingerEntry>>, cover: Option<string>)

  /** The song collection argument: anything that is not a non-null object, or the
      object's values listed in `Object.keys` order. */
  datatype SongMap = NotAnObject | Entries(songs: seq<Song>)

  /** The first singer's name when the first `singerinfo` element is a singer record. */
  predicate HasSinger(song: Song)
  {
    song.singerinfo.Some? && |song.singerinfo.value| > 0 && song.singerinfo.value[0].Singer?
  }

  /** The queue entry the loader makes for one song: the first singer's name (or
      the unknown-singer text) as artist, and the cover with its first `{size}`
      replaced by `64` (or '' when the song has no cover). */
  function ToTrack(song: Song): (t: Track)
    ensures t.hash == song.hash && t.name == song.name
    ensures t.url == "" && t.lrc == Some("")
    ensures HasSinger(song) ==> t.artist == song.singerinfo.value[0].name
    ensures !HasSinger(song) ==> t.artist == Some(UnknownSinger)
    ensures !Truthy(song.cover) ==> t.cover == Some("")
    ensures Truthy(song.cover) && !Contains(song.cover.value, SizePlaceholder) ==> t.cover == song.cover
    ensures Truthy(song.cover) && Contains(song.cover.value, SizePlaceholder) ==>
      var c := song.cover.value;
      var k := IndexOf(c, SizePlaceholder);
      t.cover == Some(c[..k] + CoverSize + c[k + |SizePlaceholder|..])
  {
    var artist := if HasSinger(song) then song.singerinfo.value[0].name else Some(UnknownSinger);
    var cover := if Truthy(song.cover) then ReplaceFirst(song.cover.value, SizePlaceholder, CoverSize) else "";
    NewTrack(song.hash, song.name, artist, Some(cover))
  }

  /** The `forEach` over the songs: append-if-absent for each song in order. */
  function AddAll(s: PlayState, songs: seq<Song>): (s': PlayState)
    ensures s'.(list := s.list) == s
    decreases |songs|
  {
    if |songs| == 0 then s
    else
      var last := ToTrack(songs[|songs| - 1]);
      SetHashList(AddAll(s, songs[..|songs| - 1]), last.hash, last.name, last.artist, last.cover)
  }

  /** Song `k` is the first in `songs` with its hash. */
  predicate IsFirst(songs: seq<Song>, k: int)
    requires 0 <= k < |songs|
  {
    forall j :: 0 <= j < k ==> songs[j].hash != songs[k].hash
  }

  /** Reference definition: the songs whose hash has not appeared earlier, in order. */
  function Firsts(songs: seq<Song>): seq<Song>
  {
    if |songs| == 0 then []
    else Firsts(songs[..|songs| - 1]) + (if IsFirst(songs, |songs| - 1) then [songs[|songs| - 1]] else [])
  }

  function Tracks(songs: seq<Song>): (ts: seq<Track>)
    ensures |ts| == |songs|
    ensures forall i :: 0 <= i < |songs| ==> ts[i] == ToTrack(songs[i])
  {
    seq(|songs|, i requires 0 <= i < |songs| => ToTrack(songs[i]))
  }

  /** Some song in `songs` has hash `h`. */
  predicate SongsHave(songs: seq<Song>, h: string)
  {
    exists j :: 0 <= j < |songs| && songs[j].hash == h
  }

  /** After adding the songs, a hash is queued iff it was queued before or some song has it. */
  lemma {:induction false} AddAllHashes(s: PlayState, songs: seq<Song>)
    ensures forall h :: HasHash(AddAll(s, songs).list, h) <==> HasHash(s.list, h) || SongsHave(songs, h)
    decreases |songs|
  {
    if |songs| > 0 {
      var n := |songs|;
      var prefix := songs[..n - 1];
      AddAllHashes(s, prefix);
      forall h
        ensures SongsHave(songs, h) <==> SongsHave(prefix, h) || songs[n - 1].hash == h
      {
        if SongsHave(prefix, h) {
          var j :| 0 <= j < n - 1 && prefix[j].hash == h;
          assert songs[j].hash == h;
        }
        if SongsHave(songs, h) && songs[n - 1].hash != h {
          var j :| 0 <= j < n && songs[j].hash == h;
          assert prefix[j].hash == h;
        }
      }
    }
  }

  /** Adding songs keeps queued hashes pairwise distinct. */
  lemma {:induction false} AddAllKeepsDistinct(s: PlayState, songs: seq<Song>)
    requires DistinctHashes(s.list)
    ensures DistinctHashes(AddAll(s, songs).list)
    decreases |songs|
  {
    if |songs| > 0 {
      var n := |songs|;
      AddAllKeepsDistinct(s, songs[..n - 1]);
      var last := ToTrack(songs[n - 1]);
      SetHashListKeepsDistinct(AddAll(s, songs[..n - 1]), last.hash, last.name, last.artist, last.cover);
    }
  }

  /** Starting from an empty queue, adding all songs yields exactly the entries
      of the songs that are first with their hash, in key order; later songs
      with a repeated hash are dropped. */
  lemma {:induction false} AddAllFromEmpty(s: PlayState, songs: seq<Song>)
    requires |s.list| == 0
    ensures AddAll(s, songs).list == Tracks(Firsts(songs))
    decreases |songs|
  {
    if |songs| > 0 {
      var n := |songs|;
      var prefix := songs[..n - 1];
      AddAllFromEmpty(s, prefix);
      AddAllHashes(s, prefix);
      var last := ToTrack(songs[n - 1]);
      assert AddAll(s, songs) == SetHashList(AddAll(s, prefix), last.hash, last.name, last.artist, last.cover);
      if SongsHave(prefix, last.hash) {
        RepeatedSongDropped(songs);
      } else {
        FirstSongKept(songs);
        TracksAppend(Firsts(prefix), songs[n - 1]);
      }
    }
  }

  /** A song whose hash occurs earlier adds nothing to the reference list. */
  lemma RepeatedSongDropped(songs: seq<Song>)
    requires |songs| > 0 && SongsHave(songs[..|songs| - 1], songs[|songs| - 1].hash)
    ensures Firsts(songs) == Firsts(songs[..|songs| - 1])
  {
    var n := |songs|;
    var prefix := songs[..n - 1];
    var j :| 0 <= j < n - 1 && prefix[j].hash == songs[n - 1].hash;
    assert songs[j].hash == songs[n - 1].hash;
    assert !IsFirst(songs, n - 1);
  }

  /** A song whose hash is new is appended to the reference list. */
  lemma FirstSongKept(songs: seq<Song>)
    requires |songs| > 0 && !SongsHave(songs[..|songs| - 1], songs[|songs| - 1].hash)
    ensures Firsts(songs) == Firsts(songs[..|songs| - 1]) + [songs[|songs| - 1]]
  {
    var n := |songs|;
    var prefix := songs[..n - 1];
    forall j | 0 <= j < n - 1
      ensures songs[j].hash != songs[n - 1].hash
    {
      assert prefix[j] == songs[j];
    }
    assert IsFirst(songs, n - 1);
  }

  lemma TracksAppend(songs: seq<Song>, song: Song)
    ensures Tracks(songs + [song]) == Tracks(songs) + [ToTrack(song)]
  {
    assert forall i :: 0 <= i < |songs| ==> (songs + [song])[i] == songs[i];
  }

  /** The synchronous part of `getMusic`: with `ids` defined the queue is cleared
      first and then, only if the collection is an object, refilled from it;
      with `ids` undefined the bare hash is appended if absent. */
  function Rebuild(s: PlayState, hash: string, idsDefined: bool, collection: SongMap): (s': PlayState)
    ensures idsDefined && collection.NotAnObject? ==> |s'.list| == 0
    ensures idsDefined && collection.Entries? ==> s'.list == Tracks(Firsts(collection.songs))
    ensures idsDefined && collection.Entries? ==> DistinctHashes(s'.list)
    ensures !idsDefined ==> s' == SetHashList(s, hash, None, None, None)
    ensures s'.(list := s.list) == s
  {
    if idsDefined then
      var cleared := DeleteHash(s);
      match collection
      case NotAnObject => cleared
      case Entries(songs) =>
        AddAllFromEmpty(cleared, songs);
        AddAllKeepsDistinct(cleared, songs);
        AddAll(cleared, songs)
    else SetHashList(s, hash, None, None, None)
  }

  /** `getMusic(hash, ids, collection)`: rebuild the queue, then in every branch
      request resolution and selection of `hash`. */
  function GetMusic(s: PlayState, hash: string, idsDefined: bool, collection: SongMap, r: Responses): (s': PlayState)
    ensures idsDefined && collection.NotAnObject? ==> |s'.list| == 0
    ensures idsDefined && collection.Entries? ==>
      var firsts := Firsts(collection.songs);
      && |s'.list| == |firsts|
      && forall i :: 0 <= i < |firsts| ==> s'.list[i].hash == firsts[i].hash
    ensures !idsDefined ==>
      && HasHash(s'.list, hash)
      && |s'.list| == |s.list| + (if HasHash(s.list, hash) then 0 else 1)
      && forall i :: 0 <= i < |s.list| ==> s'.list[i].hash == s.list[i].hash
    ensures Resolves(r) ==> s'.currentHash == hash
    ensures !Resolves(r) ==> s'.currentHash == s.currentHash
    ensures s'.isPlaying == s.isPlaying && s'.audio == s.audio && s'.songInfo == s.songInfo
  {
    var rebuilt := Rebuild(s, hash, idsDefined, collection);
    UpdateCurrentHashKeepsHashes(rebuilt, hash, r);
    UpdateCurrentHash(rebuilt, hash, r)
  }

  /** A collection that is not an object still empties the queue, because the
      queue is cleared before the collection is checked. */
  lemma InvalidCollectionEmptiesQueue(s: PlayState, hash: string, r: Responses)
    requires |s.list| > 0
    ensures |GetMusic(s, hash, true, NotAnObject, r).list| == 0
  {
  }
}
