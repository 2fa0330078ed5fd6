/** The playlist queue store: an ordered list of tracks keyed by content hash,
    the currently selected hash, and the playback flags of the single media
    element. Every store action is a pure transition on `PlayState`; the
    results of the song-URL, lyric-search and lyric requests are inputs. */
module PlaybackHistory {
  import opened Optional

  /** One queue entry. `name`, `artist`, `cover` and `lrc` may be `undefined`
      (None): a track added by hash alone carries no metadata, and a lyric
      response may lack its decoded text. `url` is '' until resolved. */
  datatype Track = Track(
    hash: string,
    name: Option<string>,
    artist: Option<string>,
    url: string,
    cover: Option<string>,
    lrc: Option<string>)

  /** What the player bar shows for the song being played. */
  datatype SongInfo = SongInfo(name: Option<string>, artist: Option<string>, cover: Option<string>, url: string)

  /** The media element: absent before the store is mounted and after it is
      unmounted; otherwise its source URL and playback position in seconds. */
  datatype Audio = NoAudio | Audio(src: string, position: real)

  datatype PlayState = PlayState(
    list: seq<Track>,
    currentHash: string,
    currentTime: real,
    duration: real,
    isPlaying: bool,
    audio: Audio,
    songInfo: SongInfo)

  /** The store as first created: empty queue, nothing selected, no media element. */
  const Initial: PlayState :=
    PlayState([], "", 0.0, 0.0, false, NoAudio, SongInfo(Some(""), Some(""), Some(""), ""))

  // ---------------------------------------------------------------------------
  // Queue lookups

  /** `list.some(item => item.hash === h)`. */
  predicate HasHash(list: seq<Track>, h: string)
  {
    exists i :: 0 <= i < |list| && list[i].hash == h
  }

  /** The queue's key invariant: no two entries share a hash. */
  predicate DistinctHashes(list: seq<Track>)
  {
    forall i, j :: 0 <= i < j < |list| ==> list[i].hash != list[j].hash
  }

  /** `list.findIndex(song => song.hash === h)`: the first index holding `h`, or -1. */
  function FindIndex(list: seq<Track>, h: string): (r: int)
    ensures -1 <= r < |list|
    ensures r >= 0 ==> list[r].hash == h
    ensures r >= 0 ==> forall j :: 0 <= j < r ==> list[j].hash != h
    ensures r == -1 <==> !HasHash(list, h)
  {
    if |list| == 0 then -1
    else if list[0].hash == h then 0
    else
      var k := FindIndex(list[1..], h);
      assert forall j :: 1 <= j < |list| ==> list[j] == list[1..][j - 1];
      if k == -1 then -1 else k + 1
  }

  /** With distinct hashes, the index found for an entry's hash is that entry's index. */
  lemma FindIndexOfDistinct(list: seq<Track>, i: int)
    requires DistinctHashes(list)
    requires 0 <= i < |list|
    ensures FindIndex(list, list[i].hash) == i
  {
  }

  /** Wrap-around successor index, `(i + 1) % n`. */
  function NextIndex(i: int, n: int): (r: int)
    requires 0 <= i < n
    ensures 0 <= r < n
    ensures i < n - 1 ==> r == i + 1
    ensures i == n - 1 ==> r == 0
  {
    (i + 1) % n
  }

  /** Wrap-around predecessor index, `(i - 1 + n) % n`. */
  function PrevIndex(i: int, n: int): (r: int)
    requires 0 <= i < n
    ensures 0 <= r < n
    ensures i > 0 ==> r == i - 1
    ensures i == 0 ==> r == n - 1
  {
    (i - 1 + n) % n
  }

  /** Stepping forward and then back returns to the start. */
  lemma PrevUndoesNext(i: int, n: int)
    requires 0 <= i < n
    ensures PrevIndex(NextIndex(i, n), n) == i
    ensures NextIndex(PrevIndex(i, n), n) == i
  {
  }

  // ---------------------------------------------------------------------------
  // Media element lifecycle

  /** Mounting creates the media element (empty source, position 0). */
  function Mount(s: PlayState): (s': PlayState)
    ensures s'.audio.Audio? && s'.audio.src == "" && s'.audio.position == 0.0
    ensures s'.(audio := s.audio) == s
  {
    s.(audio := Audio("", 0.0))
  }

  /** Unmounting pauses and drops the media element; the playing flag is left as it was. */
  function Unmount(s: PlayState): (s': PlayState)
    ensures s'.audio.NoAudio?
    ensures s'.isPlaying == s.isPlaying && s'.list == s.list && s'.currentHash == s.currentHash
    ensures s'.(audio := s.audio) == s
  {
    s.(audio := NoAudio)
  }

  // ---------------------------------------------------------------------------
  // Queue mutations

  /** A fresh entry for a hash: URL and lyric empty until resolution. */
  function NewTrack(hash: string, name: Option<string>, artist: Option<string>, cover: Option<string>): Track
  {
    Track(hash, name, artist, "", cover, Some(""))
  }

  /** `setHashList`: append a new entry at the tail iff its hash is not already queued. */
  function SetHashList(s: PlayState, hash: string, name: Option<string>, artist: Option<string>, cover: Option<string>): (s': PlayState)
    ensures HasHash(s.list, hash) ==> s' == s
    ensures !HasHash(s.list, hash) ==>
      s'.list == s.list + [Track(hash, name, artist, "", cover, Some(""))]
    ensures forall h :: HasHash(s'.list, h) <==> HasHash(s.list, h) || h == hash
    ensures s'.(list := s.list) == s
  {
    if HasHash(s.list, hash) then s
    else
      HasHashAppend(s.list, NewTrack(hash, name, artist, cover));
      s.(list := s.list + [NewTrack(hash, name, artist, cover)])
  }

  /** The hashes of an extended list are the old ones plus the new entry's. */
  lemma HasHashAppend(list: seq<Track>, t: Track)
    ensures forall h :: HasHash(list + [t], h) <==> HasHash(list, h) || h == t.hash
  {
    var l := list + [t];
    assert l[|list|] == t;
    forall h | HasHash(list, h)
      ensures HasHash(l, h)
    {
      var i :| 0 <= i < |list| && list[i].hash == h;
      assert l[i] == list[i];
    }
  }

  /** Appending-if-absent keeps hashes pairwise distinct. */
  lemma SetHashListKeepsDistinct(s: PlayState, hash: string, name: Option<string>, artist: Option<string>, cover: Option<string>)
    requires DistinctHashes(s.list)
    ensures DistinctHashes(SetHashList(s, hash, name, artist, cover).list)
  {
    var l := SetHashList(s, hash, name, artist, cover).list;
    if !HasHash(s.list, hash) {
      forall i, j | 0 <= i < j < |l|
        ensures l[i].hash != l[j].hash
      {
        if j == |s.list| {
          assert l[i] == s.list[i];
        } else {
          assert l[i] == s.list[i] && l[j] == s.list[j];
        }
      }
    }
  }

  /** `clearPlayList`: the queue becomes empty; the selected hash is NOT reset. */
  function ClearPlayList(s: PlayState): (s': PlayState)
    ensures |s'.list| == 0
    ensures s'.currentHash == s.currentHash
    ensures s'.(list := s.list) == s
  {
    s.(list := [])
  }

  /** `deleteHash`: despite its name, it clears the whole queue, exactly as `clearPlayList` does. */
  function DeleteHash(s: PlayState): (s': PlayState)
    ensures s' == ClearPlayList(s)
    ensures |s'.list| == 0 && s'.currentHash == s.currentHash
  {
    s.(list := [])
  }

  // ---------------------------------------------------------------------------
  // Resolution of a hash to a playable URL and lyric (`updateCurrentHash`)

  /** Result of the song-URL request: it may reject, resolve to a falsy value,
      or resolve to a payload whose `backupUrl` may be missing. */
  datatype UrlResponse = UrlRejected | UrlFalsy | UrlPayload(backupUrl: Option<seq<string>>)

  datatype LyricCandidate = LyricCandidate(id: string, accesskey: string)

  /** Result of the lyric search: it may reject (or resolve to nothing to
      destructure, which throws the same way), or carry a possibly-missing
      candidate list. */
  datatype LyricSearch = SearchRejected | SearchResult(candidates: Option<seq<LyricCandidate>>)

  /** Result of fetching the first candidate's lyric; `decodeContent` may be missing. */
  datatype LyricFetch = FetchRejected | FetchResult(decodeContent: Option<string>)

  /** The three network answers one resolution may consume, in request order. */
  datatype Responses = Responses(url: UrlResponse, search: LyricSearch, lyric: LyricFetch)

  /** The URL request yielded a non-empty `backupUrl` list. */
  predicate HasBackupUrl(r: UrlResponse)
  {
    r.UrlPayload? && r.backupUrl.Some? && |r.backupUrl.value| > 0
  }

  /** The lyric search returned at least one candidate, so the lyric itself is fetched. */
  predicate HasCandidates(r: LyricSearch)
  {
    r.SearchResult? && r.candidates.Some? && |r.candidates.value| > 0
  }

  /** Resolution reaches the list update: a usable URL, a search that did not
      throw, and, when a candidate was found, a lyric fetch that did not throw. */
  predicate Resolves(r: Responses)
  {
    && HasBackupUrl(r.url)
    && r.search.SearchResult?
    && (HasCandidates(r.search) ==> r.lyric.FetchResult?)
  }

  /** The lyric text attached on success: '' when no candidate was found. */
  function ResolvedLyric(r: Responses): Option<string>
    requires Resolves(r)
  {
    if HasCandidates(r.search) then r.lyric.decodeContent else Some("")
  }

  /** `updateCurrentHash`: on success, every entry whose hash is `newHash` gets
      the first backup URL and the lyric, and `newHash` becomes current. Any
      failure (rejection, falsy response, no backup URL, a lyric request that
      throws) leaves the store untouched. */
  function UpdateCurrentHash(s: PlayState, newHash: string, r: Responses): (s': PlayState)
    ensures !Resolves(r) ==> s' == s
    ensures Resolves(r) ==>
      && s'.currentHash == newHash
      && |s'.list| == |s.list|
      && (forall i :: 0 <= i < |s.list| && s.list[i].hash != newHash ==> s'.list[i] == s.list[i])
      && (forall i :: 0 <= i < |s.list| && s.list[i].hash == newHash ==>
            s'.list[i] == s.list[i].(url := r.url.backupUrl.value[0], lrc := ResolvedLyric(r)))
      && s'.(list := s.list, currentHash := s.currentHash) == s
  {
    match r.url
    case UrlRejected => s
    case UrlFalsy => s
    case UrlPayload(backup) =>
      if backup.None? || |backup.value| == 0 then s
      else
        match r.search
        case SearchRejected => s
        case SearchResult(candidates) =>
          if candidates.Some? && |candidates.value| > 0 then
            match r.lyric
            case FetchRejected => s
            case FetchResult(content) => Attach(s, newHash, backup.value[0], content)
          else Attach(s, newHash, backup.value[0], Some(""))
  }

  /** Write the resolved URL and lyric onto the entries with `newHash` and select it. */
  function Attach(s: PlayState, newHash: string, url: string, lrc: Option<string>): (s': PlayState)
    ensures |s'.list| == |s.list|
  {
    s.(list := seq(|s.list|, i requires 0 <= i < |s.list| =>
                     if s.list[i].hash == newHash then s.list[i].(url := url, lrc := lrc) else s.list[i]),
       currentHash := newHash)
  }

  /** Resolution never adds, removes or reorders entries: the hashes are kept position by position. */
  lemma UpdateCurrentHashKeepsHashes(s: PlayState, newHash: string, r: Responses)
    ensures var s' := UpdateCurrentHash(s, newHash, r);
      |s'.list| == |s.list| && forall i :: 0 <= i < |s.list| ==> s'.list[i].hash == s.list[i].hash
    ensures DistinctHashes(s.list) ==> DistinctHashes(UpdateCurrentHash(s, newHash, r).list)
    ensures forall h :: HasHash(UpdateCurrentHash(s, newHash, r).list, h) <==> HasHash(s.list, h)
  {
    var s' := UpdateCurrentHash(s, newHash, r);
    forall h | HasHash(s.list, h)
      ensures HasHash(s'.list, h)
    {
      var i :| 0 <= i < |s.list| && s.list[i].hash == h;
      assert s'.list[i].hash == h;
    }
  }

  // ---------------------------------------------------------------------------
  // Playback control

  /** `togglePlay`: without a media element nothing happens; otherwise the
      playing flag flips (pausing or resuming the element). */
  function TogglePlay(s: PlayState): (s': PlayState)
    ensures s.audio.NoAudio? ==> s' == s
    ensures s.audio.Audio? ==> s'.isPlaying == !s.isPlaying && s'.(isPlaying := s.isPlaying) == s
  {
    if s.audio.NoAudio? then s else s.(isPlaying := !s.isPlaying)
  }

  /** Toggling twice restores the state. */
  lemma TogglePlayTwice(s: PlayState)
    ensures TogglePlay(TogglePlay(s)) == s
  {
  }

  /** `setCurrentTime`: records the time and, when the element exists, seeks it. */
  function SetCurrentTime(s: PlayState, time: real): (s': PlayState)
    ensures s'.currentTime == time
    ensures s.audio.Audio? ==> s'.audio == s.audio.(position := time)
    ensures s.audio.NoAudio? ==> s'.audio.NoAudio?
    ensures s'.(currentTime := s.currentTime, audio := s.audio) == s
  {
    var s1 := s.(currentTime := time);
    if s.audio.Audio? then s1.(audio := s.audio.(position := time)) else s1
  }

  /** The last `setCurrentTime` wins, and afterwards a present element sits at
      the recorded time. */
  lemma SetCurrentTimeLastWins(s: PlayState, a: real, b: real)
    ensures SetCurrentTime(SetCurrentTime(s, a), b) == SetCurrentTime(s, b)
    ensures SetCurrentTime(s, a).audio.Audio? ==> SetCurrentTime(s, a).audio.position == SetCurrentTime(s, a).currentTime
  {
  }

  /** The media element rejected the play request (or reported an error): playing stops. */
  function PlayRejected(s: PlayState): (s': PlayState)
    ensures !s'.isPlaying
    ensures s'.(isPlaying := s.isPlaying) == s
  {
    s.(isPlaying := false)
  }

  /** `playSong(index)` will start playback: the index names an entry, the
      media element exists and the entry's URL is resolved. */
  predicate CanPlay(s: PlayState, index: int)
  {
    0 <= index < |s.list| && s.audio.Audio? && s.list[index].url != ""
  }

  /** `playSong(index)`: with an out-of-range index, no media element, or an
      unresolved URL nothing changes; otherwise the element is loaded with the
      entry's URL (position back to 0), playing starts, the entry's hash becomes
      current and the player bar copies its name, artist, cover and URL. */
  function PlaySong(s: PlayState, index: int): (s': PlayState)
    ensures !CanPlay(s, index) ==> s' == s
    ensures CanPlay(s, index) ==>
      var song := s.list[index];
      && s'.isPlaying
      && s'.currentHash == song.hash
      && s'.audio == Audio(song.url, 0.0)
      && s'.songInfo == SongInfo(song.name, song.artist, song.cover, song.url)
      && s'.list == s.list && s'.currentTime == s.currentTime && s'.duration == s.duration
  {
    if CanPlay(s, index) then
      var song := s.list[index];
      s.(audio := Audio(song.url, 0.0),
         isPlaying := true,
         currentHash := song.hash,
         songInfo := SongInfo(song.name, song.artist, song.cover, song.url))
    else s
  }

  /** `playNext`: no-op when the current hash is not queued; otherwise plays the
      wrap-around successor of the current entry. */
  function PlayNext(s: PlayState): (s': PlayState)
    ensures !HasHash(s.list, s.currentHash) ==> s' == s
    ensures s'.list == s.list
    ensures HasHash(s.list, s.currentHash) ==>
      var k := NextIndex(FindIndex(s.list, s.currentHash), |s.list|);
      && (CanPlay(s, k) ==> s'.currentHash == s.list[k].hash && s'.isPlaying && s'.audio == Audio(s.list[k].url, 0.0))
      && (!CanPlay(s, k) ==> s' == s)
  {
    var i := FindIndex(s.list, s.currentHash);
    if i == -1 then s else PlaySong(s, NextIndex(i, |s.list|))
  }

  /** `playPrev`: no-op when the current hash is not queued; otherwise plays the
      wrap-around predecessor of the current entry. */
  function PlayPrev(s: PlayState): (s': PlayState)
    ensures !HasHash(s.list, s.currentHash) ==> s' == s
    ensures s'.list == s.list
    ensures HasHash(s.list, s.currentHash) ==>
      var k := PrevIndex(FindIndex(s.list, s.currentHash), |s.list|);
      && (CanPlay(s, k) ==> s'.currentHash == s.list[k].hash && s'.isPlaying && s'.audio == Audio(s.list[k].url, 0.0))
      && (!CanPlay(s, k) ==> s' == s)
  {
    var i := FindIndex(s.list, s.currentHash);
    if i == -1 then s else PlaySong(s, PrevIndex(i, |s.list|))
  }

  /** From entry `i` of a queue with distinct hashes, `playNext` plays entry
      `(i + 1) mod n` when that entry is playable and otherwise changes nothing;
      `playPrev` does the same with entry `(i - 1 + n) mod n`. After `getMusic`
      with `ids` defined (a rebuilt queue) only the resolved entry has a URL, so
      moving to an unresolved neighbour is a no-op. */
  lemma NavigationSelects(s: PlayState, i: int)
    requires DistinctHashes(s.list)
    requires 0 <= i < |s.list| && s.list[i].hash == s.currentHash
    ensures var k := (i + 1) % |s.list|;
      && (CanPlay(s, k) ==> PlayNext(s).currentHash == s.list[k].hash && PlayNext(s).isPlaying)
      && (!CanPlay(s, k) ==> PlayNext(s) == s)
    ensures var k := (i - 1 + |s.list|) % |s.list|;
      && (CanPlay(s, k) ==> PlayPrev(s).currentHash == s.list[k].hash && PlayPrev(s).isPlaying)
      && (!CanPlay(s, k) ==> PlayPrev(s) == s)
  {
    FindIndexOfDistinct(s.list, i);
  }

  /** With distinct hashes, `playPrev` undoes `playNext` (and vice versa) as far
      as the selected track is concerned, provided the current entry and both of
      its neighbours are resolved and the element exists. */
  lemma PrevAfterNextReturns(s: PlayState)
    requires DistinctHashes(s.list)
    requires HasHash(s.list, s.currentHash)
    requires var i := FindIndex(s.list, s.currentHash); var n := |s.list|;
      CanPlay(s, i) && CanPlay(s, NextIndex(i, n)) && CanPlay(s, PrevIndex(i, n))
    ensures PlayPrev(PlayNext(s)).currentHash == s.currentHash
    ensures PlayNext(PlayPrev(s)).currentHash == s.currentHash
  {
    var n := |s.list|;
    var i := FindIndex(s.list, s.currentHash);
    PrevUndoesNext(i, n);
    var s1 := PlayNext(s);
    assert s1.currentHash == s.list[NextIndex(i, n)].hash;
    FindIndexOfDistinct(s.list, NextIndex(i, n));
    assert CanPlay(s1, i);
    var s2 := PlayPrev(s);
    assert s2.currentHash == s.list[PrevIndex(i, n)].hash;
    FindIndexOfDistinct(s.list, PrevIndex(i, n));
    assert CanPlay(s2, i);
  }

  // ---------------------------------------------------------------------------
  // The store over its lifetime

  /** The freshly created store holds the queue invariant, and navigation and
      toggling on it do nothing: there is no current entry and no element. */
  lemma InitialQueue()
    ensures DistinctHashes(Initial.list) && !HasHash(Initial.list, Initial.currentHash)
    ensures PlayNext(Initial) == Initial && PlayPrev(Initial) == Initial
    ensures TogglePlay(Initial) == Initial
    ensures forall i :: !CanPlay(Initial, i)
  {
  }

  /** A call on the store's public actions. */
  datatype Action =
    | DoMount
    | DoUnmount
    | DoSetHashList(hash: string, name: Option<string>, artist: Option<string>, cover: Option<string>)
    | DoClear
    | DoDeleteHash
    | DoUpdateCurrentHash(newHash: string, r: Responses)
    | DoTogglePlay
    | DoSetCurrentTime(time: real)
    | DoPlayRejected
    | DoPlaySong(index: int)
    | DoPlayNext
    | DoPlayPrev

  function Apply(s: PlayState, a: Action): PlayState
  {
    match a
    case DoMount => Mount(s)
    case DoUnmount => Unmount(s)
    case DoSetHashList(h, n, ar, c) => SetHashList(s, h, n, ar, c)
    case DoClear => ClearPlayList(s)
    case DoDeleteHash => DeleteHash(s)
    case DoUpdateCurrentHash(h, r) => UpdateCurrentHash(s, h, r)
    case DoTogglePlay => TogglePlay(s)
    case DoSetCurrentTime(t) => SetCurrentTime(s, t)
    case DoPlayRejected => PlayRejected(s)
    case DoPlaySong(i) => PlaySong(s, i)
    case DoPlayNext => PlayNext(s)
    case DoPlayPrev => PlayPrev(s)
  }

  function ApplyAll(s: PlayState, actions: seq<Action>): PlayState
    decreases |actions|
  {
    if |actions| == 0 then s else ApplyAll(Apply(s, actions[0]), actions[1..])
  }

  /** One action keeps the queue's hashes pairwise distinct. */
  lemma ApplyKeepsDistinct(s: PlayState, a: Action)
    requires DistinctHashes(s.list)
    ensures DistinctHashes(Apply(s, a).list)
  {
    match a
    case DoSetHashList(h, n, ar, c) => SetHashListKeepsDistinct(s, h, n, ar, c);
    case DoUpdateCurrentHash(h, r) => UpdateCurrentHashKeepsHashes(s, h, r);
    case _ =>
  }

  /** Any sequence of actions with any arguments keeps every hash in the queue at
      most once. With `InitialQueue`, this holds for every store reachable from the
      freshly created one, which the navigation lemmas above rely on. */
  lemma {:induction false} AlwaysDistinct(s: PlayState, actions: seq<Action>)
    requires DistinctHashes(s.list)
    ensures DistinctHashes(ApplyAll(s, actions).list)
    decreases |actions|
  {
    if |actions| > 0 {
      ApplyKeepsDistinct(s, actions[0]);
      AlwaysDistinct(Apply(s, actions[0]), actions[1..]);
    }
  }
}
