/** The mini-player controller (`useMiniPlayer`): its own media element, play
    mode and player-bar fields on top of the shared queue store. Its next-track
    policy differs from the store's: in 'sequence' mode it stops at the end of
    the queue instead of wrapping. Random draws, network answers and press
    durations are inputs. */
module MiniPlayer {
  import opened Optional
  import opened Strings
  import opened PlaybackHistory

  /** The play modes in cycle order. */
  const Modes: seq<string> := ["sequence", "random", "single", "loop"]

  /** Press length (milliseconds) from which a press on the bar counts as a long press. */
  const LongPressMs: int := 700

  /** The bar's text: name, artist and cover of the song being played. */
  datatype BarInfo = BarInfo(name: Option<string>, artist: Option<string>, cover: Option<string>)

  /** The controller's own state next to the shared store. `src` is its media
      element's source; `playMode` is a free string, initially 'sequence'. */
  datatype MiniState = MiniState(
    store: PlayState,
    src: string,
    isPlaying: bool,
    info: BarInfo,
    playMode: string,
    isSeeking: bool,
    isShow: bool)

  /** The controller as created on top of `store`: stopped, not seeking, bar
      shown, and the first mode of the cycle, which shows the arrow icon. */
  function Initial(store: PlayState): (m: MiniState)
    ensures m.store == store && !m.isPlaying && !m.isSeeking && m.isShow
    ensures ModeIndex(m.playMode) == 0 && PlayModeIcon(m.playMode) == "\U{2192}"
  {
    MiniState(store, "", false, BarInfo(Some(""), Some(""), Some("")), "sequence", false, true)
  }

  // ---------------------------------------------------------------------------
  // Play mode

  /** `modes.indexOf(mode)`. */
  function ModeIndex(mode: string): (r: int)
    ensures -1 <= r < |Modes|
    ensures r >= 0 ==> Modes[r] == mode
    ensures r == -1 <==> mode !in Modes
  {
    if mode == "sequence" then 0
    else if mode == "random" then 1
    else if mode == "single" then 2
    else if mode == "loop" then 3
    else -1
  }

  /** `togglePlayMode`: the mode after `mode` in the cycle
      sequence -> random -> single -> loop -> sequence; an unknown mode goes to 'sequence'. */
  function TogglePlayMode(mode: string): (r: string)
    ensures r in Modes
    ensures mode !in Modes ==> r == "sequence"
    ensures mode in Modes ==> ModeIndex(r) == (ModeIndex(mode) + 1) % 4
  {
    Modes[(ModeIndex(mode) + 1) % |Modes|]
  }

  /** Four toggles return a known mode to itself, and no fewer do. */
  lemma TogglePlayModeCycle(mode: string)
    requires mode in Modes
    ensures TogglePlayMode(TogglePlayMode(TogglePlayMode(TogglePlayMode(mode)))) == mode
    ensures TogglePlayMode(mode) != mode
    ensures TogglePlayMode(TogglePlayMode(mode)) != mode
    ensures TogglePlayMode(TogglePlayMode(TogglePlayMode(mode))) != mode
  {
  }

  /** `getPlayModeIcon`: shuffle, repeat-one and repeat icons, and an arrow for
      every other mode. Each icon is one Unicode code point; as a JavaScript string
      the three emoji have length 2 (a surrogate pair). */
  function PlayModeIcon(mode: string): (icon: string)
    ensures |icon| == 1
    ensures mode !in Modes[1..] ==> icon == "\U{2192}"
  {
    match mode
    case "random" => "\U{1F500}"
    case "single" => "\U{1F502}"
    case "loop" => "\U{1F501}"
    case _ => "\U{2192}"
  }

  /** Among the four modes the icon identifies the mode, so every toggle of a
      known mode changes the icon. */
  lemma PlayModeIconDistinguishes(m1: string, m2: string)
    requires m1 in Modes && m2 in Modes
    ensures PlayModeIcon(m1) == PlayModeIcon(m2) <==> m1 == m2
    ensures PlayModeIcon(TogglePlayMode(m1)) != PlayModeIcon(m1)
  {
  }

  /** An unknown mode shows the arrow, and toggling it gives 'sequence', which
      shows the arrow too: the first toggle leaves the icon as it was. */
  lemma UnknownModeIcon(m: string)
    requires m !in Modes
    ensures PlayModeIcon(m) == "\U{2192}"
    ensures TogglePlayMode(m) == "sequence" && PlayModeIcon(TogglePlayMode(m)) == PlayModeIcon(m)
  {
  }

  // ---------------------------------------------------------------------------
  // Next-track policy

  /** `Math.floor(r * n)` for a draw `r` in [0, 1). */
  function RandomIndex(r: real, n: int): (k: int)
    requires 0.0 <= r < 1.0 && n > 0
    ensures 0 <= k < n
  {
    var x := r * (n as real);
    assert 0.0 <= x;
    assert x < n as real by {
      assert (1.0 - r) * (n as real) > 0.0;
    }
    x.Floor
  }

  /** The index `playNext` moves to from entry `i` of `n` in mode `mode`, or None
      when it stops: 'random' draws, 'single' repeats, 'loop' wraps, and any other
      mode ('sequence') advances by one and stops after the last entry. */
  function NextTarget(mode: string, i: int, n: int, r: real): (t: Option<int>)
    requires 0 <= i < n
    requires 0.0 <= r < 1.0
    ensures t.Some? ==> 0 <= t.value < n
    ensures t.None? <==> mode !in Modes[1..] && i == n - 1
    ensures mode == "single" ==> t == Some(i)
    ensures mode == "loop" ==> t == Some((i + 1) % n)
    ensures mode !in Modes[1..] && i < n - 1 ==> t == Some(i + 1)
  {
    match mode
    case "random" => Some(RandomIndex(r, n))
    case "single" => Some(i)
    case "loop" => Some(NextIndex(i, n))
    case _ => if i + 1 >= n then None else Some(i + 1)
  }

  /** 'random' may pick the current entry again: the draw `i / n` lands on `i`. */
  lemma RandomMayRepeat(i: int, n: int)
    requires 0 <= i < n
    ensures NextTarget("random", i, n, (i as real) / (n as real)) == Some(i)
  {
    var r := (i as real) / (n as real);
    assert r * (n as real) == i as real;
    assert RandomIndex(r, n) == i;
  }

  /** The two next-track policies disagree at the end of the queue: the store
      wraps to the first entry while the mini-player in 'sequence' mode stops;
      they agree everywhere else in 'sequence' and everywhere in 'loop'. */
  lemma NextPoliciesCompared(i: int, n: int, r: real)
    requires 0 <= i < n && 0.0 <= r < 1.0
    ensures i == n - 1 ==> NextIndex(i, n) == 0 && NextTarget("sequence", i, n, r).None?
    ensures i < n - 1 ==> NextTarget("sequence", i, n, r) == Some(NextIndex(i, n))
    ensures NextTarget("loop", i, n, r) == Some(NextIndex(i, n))
  {
  }

  // ---------------------------------------------------------------------------
  // Playback

  /** The watcher on the store's current hash: when it changes to a non-empty
      hash that is queued, the element is loaded with that entry's URL, playing
      starts and the bar shows the entry. */
  function Watch(oldHash: string, m: MiniState): (m': MiniState)
    ensures m'.store == m.store && m'.playMode == m.playMode
    ensures m.store.currentHash == oldHash || m.store.currentHash == "" || !HasHash(m.store.list, m.store.currentHash) ==> m' == m
    ensures var h := m.store.currentHash;
      h != oldHash && h != "" && HasHash(m.store.list, h) ==>
        var song := m.store.list[FindIndex(m.store.list, h)];
        && song.hash == h
        && m'.src == song.url && m'.isPlaying
        && m'.info == BarInfo(song.name, song.artist, song.cover)
        && m'.isSeeking == m.isSeeking && m'.isShow == m.isShow
  {
    var h := m.store.currentHash;
    if h != oldHash && h != "" then
      var k := FindIndex(m.store.list, h);
      if k >= 0 then
        var song := m.store.list[k];
        m.(src := song.url, isPlaying := true, info := BarInfo(song.name, song.artist, song.cover))
      else m
    else m
  }

  /** `playSong(index)`: with an out-of-range index nothing happens. Otherwise the
      element is pointed at the entry's current URL and playing starts, the bar
      shows the entry, and the store resolves and selects the entry's hash; if that
      changes the current hash, the watcher then reloads the resolved URL. */
  function PlaySong(m: MiniState, index: int, r: Responses): (m': MiniState)
    ensures !(0 <= index < |m.store.list|) ==> m' == m
    ensures 0 <= index < |m.store.list| ==>
      var song := m.store.list[index];
      && m'.isPlaying
      && m'.store == UpdateCurrentHash(m.store, song.hash, r)
      && m'.playMode == m.playMode
  {
    if 0 <= index < |m.store.list| then
      var song := m.store.list[index];
      var m1 := m.(src := song.url, isPlaying := true, info := BarInfo(song.name, song.artist, song.cover));
      var store' := UpdateCurrentHash(m.store, song.hash, r);
      UpdateCurrentHashKeepsHashes(m.store, song.hash, r);
      Watch(m.store.currentHash, m1.(store := store'))
    else m
  }

  /** When resolution succeeds for an entry whose hash is not the current one and
      hashes are distinct, the entry becomes current and the element ends up on
      its freshly resolved URL. When resolution fails the store is unchanged and
      the element keeps the entry's old URL. */
  lemma PlaySongOutcome(m: MiniState, index: int, r: Responses)
    requires DistinctHashes(m.store.list)
    requires 0 <= index < |m.store.list|
    ensures var song := m.store.list[index];
      PlaySong(m, index, r).info == BarInfo(song.name, song.artist, song.cover)
    ensures var song := m.store.list[index];
      Resolves(r) && song.hash != m.store.currentHash && song.hash != "" ==>
        && PlaySong(m, index, r).store.currentHash == song.hash
        && PlaySong(m, index, r).src == r.url.backupUrl.value[0]
    ensures !Resolves(r) ==>
      PlaySong(m, index, r).store == m.store && PlaySong(m, index, r).src == m.store.list[index].url
  {
    var song := m.store.list[index];
    var s' := UpdateCurrentHash(m.store, song.hash, r);
    UpdateCurrentHashKeepsHashes(m.store, song.hash, r);
    FindIndexOfDistinct(s'.list, index);
  }

  /** `playNext` with the random draw `r`: no-op when the current hash is not
      queued; stops playing at the end of the queue in 'sequence' mode; otherwise
      plays the target the mode picks. */
  function PlayNext(m: MiniState, r: real, resp: Responses): (m': MiniState)
    requires 0.0 <= r < 1.0
    ensures !HasHash(m.store.list, m.store.currentHash) ==> m' == m
    ensures HasHash(m.store.list, m.store.currentHash) && m.playMode !in Modes[1..]
            && FindIndex(m.store.list, m.store.currentHash) == |m.store.list| - 1 ==>
      m' == m.(isPlaying := false)
  {
    var i := FindIndex(m.store.list, m.store.currentHash);
    if i == -1 then m
    else
      match NextTarget(m.playMode, i, |m.store.list|, r)
      case None => m.(isPlaying := false)
      case Some(k) => PlaySong(m, k, resp)
  }

  /** When the current hash is queued and resolution succeeds, `playNext` makes
      current: the next entry in 'loop' mode (wrapping), the same entry in
      'single' mode, the drawn entry `floor(r * n)` in 'random' mode, and the next
      entry in 'sequence' mode unless the current one is last. */
  lemma PlayNextSelects(m: MiniState, r: real, resp: Responses)
    requires 0.0 <= r < 1.0
    requires HasHash(m.store.list, m.store.currentHash) && Resolves(resp)
    ensures var l := m.store.list;
      var n := |l|;
      var i := FindIndex(l, m.store.currentHash);
      var m' := PlayNext(m, r, resp);
      && (m.playMode == "loop" ==> m'.store.currentHash == l[(i + 1) % n].hash && m'.isPlaying)
      && (m.playMode == "single" ==> m'.store.currentHash == l[i].hash && m'.isPlaying)
      && (m.playMode == "random" ==> m'.store.currentHash == l[RandomIndex(r, n)].hash && m'.isPlaying)
      && (m.playMode !in Modes[1..] && i < n - 1 ==> m'.store.currentHash == l[i + 1].hash && m'.isPlaying)
  {
    var l := m.store.list;
    var i := FindIndex(l, m.store.currentHash);
    var t := NextTarget(m.playMode, i, |l|, r);
    if t.Some? {
      assert PlayNext(m, r, resp) == PlaySong(m, t.value, resp);
      PlaySongSelects(m, t.value, resp);
    }
  }

  /** Whatever the URL request returns, `playNext` shows the entry its mode picks
      on the bar and starts playing; when resolution fails, the element is left on
      that entry's stored URL and the store is unchanged. When the mode picks no
      entry, only the playing flag is cleared. */
  lemma NextShowsTarget(m: MiniState, r: real, resp: Responses)
    requires 0.0 <= r < 1.0
    requires DistinctHashes(m.store.list) && HasHash(m.store.list, m.store.currentHash)
    ensures var l := m.store.list;
      var t := NextTarget(m.playMode, FindIndex(l, m.store.currentHash), |l|, r);
      var m' := PlayNext(m, r, resp);
      && (t.None? ==> m' == m.(isPlaying := false))
      && (t.Some? ==>
            && m'.info == BarInfo(l[t.value].name, l[t.value].artist, l[t.value].cover)
            && m'.isPlaying
            && (!Resolves(resp) ==> m'.src == l[t.value].url && m'.store == m.store))
  {
    var l := m.store.list;
    var t := NextTarget(m.playMode, FindIndex(l, m.store.currentHash), |l|, r);
    if t.Some? {
      PlaySongOutcome(m, t.value, resp);
    }
  }

  /** A successful `playSong` makes the played entry's hash current and plays. */
  lemma PlaySongSelects(m: MiniState, index: int, r: Responses)
    requires 0 <= index < |m.store.list| && Resolves(r)
    ensures PlaySong(m, index, r).store.currentHash == m.store.list[index].hash
    ensures PlaySong(m, index, r).isPlaying
  {
  }

  /** In 'single' mode `playNext` re-requests the current entry; the hash does not
      change, so the watcher stays silent and the element keeps the entry's URL. */
  lemma SingleReplaysCurrent(m: MiniState, r: real, resp: Responses)
    requires 0.0 <= r < 1.0
    requires m.playMode == "single" && HasHash(m.store.list, m.store.currentHash)
    ensures var i := FindIndex(m.store.list, m.store.currentHash);
      && PlayNext(m, r, resp).isPlaying
      && PlayNext(m, r, resp).src == m.store.list[i].url
      && (Resolves(resp) ==> PlayNext(m, r, resp).store.currentHash == m.store.currentHash)
  {
  }

  /** `playPrev`: no-op when the current hash is not queued; otherwise plays the
      wrap-around predecessor, the same index the store's `playPrev` picks. */
  function PlayPrev(m: MiniState, resp: Responses): (m': MiniState)
    ensures !HasHash(m.store.list, m.store.currentHash) ==> m' == m
    ensures HasHash(m.store.list, m.store.currentHash) ==>
      var i := FindIndex(m.store.list, m.store.currentHash);
      var n := |m.store.list|;
      && m'.isPlaying
      && (Resolves(resp) ==> m'.store.currentHash == m.store.list[(i - 1 + n) % n].hash)
  {
    var i := FindIndex(m.store.list, m.store.currentHash);
    if i == -1 then m else PlaySong(m, PrevIndex(i, |m.store.list|), resp)
  }

  /** Whatever the URL request returns, `playPrev` shows the wrap-around
      predecessor on the bar and starts playing; when resolution fails, the element
      is left on that entry's stored URL and the store is unchanged. */
  lemma PrevShowsTarget(m: MiniState, resp: Responses)
    requires DistinctHashes(m.store.list) && HasHash(m.store.list, m.store.currentHash)
    ensures var l := m.store.list;
      var k := PrevIndex(FindIndex(l, m.store.currentHash), |l|);
      var m' := PlayPrev(m, resp);
      && m'.info == BarInfo(l[k].name, l[k].artist, l[k].cover)
      && m'.isPlaying
      && (!Resolves(resp) ==> m'.src == l[k].url && m'.store == m.store)
  {
    var l := m.store.list;
    PlaySongOutcome(m, PrevIndex(FindIndex(l, m.store.currentHash), |l|), resp);
  }

  /** `togglePlay`: pause when playing, resume otherwise (the element always exists here). */
  function TogglePlay(m: MiniState): (m': MiniState)
    ensures m'.isPlaying == !m.isPlaying
    ensures m'.(isPlaying := m.isPlaying) == m
  {
    m.(isPlaying := !m.isPlaying)
  }

  /** `isCurrentSong(song)`: whether the song is the store's current one. */
  predicate IsCurrentSong(m: MiniState, song: Track)
  {
    song.hash == m.store.currentHash
  }

  /** After a successful `playSong`, the played entry is the current song and no
      entry with another hash is. */
  lemma PlayedSongIsCurrent(m: MiniState, index: int, r: Responses)
    requires 0 <= index < |m.store.list| && Resolves(r)
    ensures IsCurrentSong(PlaySong(m, index, r), m.store.list[index])
    ensures forall t: Track :: t.hash != m.store.list[index].hash ==> !IsCurrentSong(PlaySong(m, index, r), t)
  {
  }

  // ---------------------------------------------------------------------------
  // Press on the bar

  /** Outcome of releasing a press: the new state and whether to open the play page. */
  datatype Release = Release(state: MiniState, openPlayPage: bool)

  /** `endSeek`: seeking always ends and the bar is shown; a press shorter than
      the long-press threshold that was not on a button opens the play page. */
  function EndSeek(m: MiniState, pressMs: int, onButton: bool): (r: Release)
    ensures !r.state.isSeeking && r.state.isShow
    ensures r.state.(isSeeking := m.isSeeking, isShow := m.isShow) == m
    ensures r.openPlayPage <==> pressMs < LongPressMs && !onButton
  {
    var isLongPress := pressMs >= LongPressMs;
    Release(m.(isSeeking := false, isShow := true), !isLongPress && pressMs < LongPressMs && !onButton)
  }

  /** Releasing twice leaves the bar as releasing once: the second release only
      decides again whether to open the play page. */
  lemma EndSeekIdempotent(m: MiniState, p1: int, b1: bool, p2: int, b2: bool)
    ensures EndSeek(EndSeek(m, p1, b1).state, p2, b2).state == EndSeek(m, p1, b1).state
    ensures EndSeek(m, p1, b1).state == EndSeek(m, p2, b2).state
  {
  }

  // ---------------------------------------------------------------------------
  // Time display

  /** `formatTime(seconds)` for a media time in seconds: whole minutes, a colon,
      and the whole seconds of the current minute, always as two digits. */
  function FormatTime(seconds: real): (t: string)
    requires seconds >= 0.0
    ensures |t| >= 4 && t[|t| - 3] == ':'
    ensures t[..|t| - 3] == NatToString((seconds / 60.0).Floor)
    ensures AllDigits(t[|t| - 2..]) && DecimalValue(t[|t| - 2..]) < 60
  {
    var mins := (seconds / 60.0).Floor;
    var secs := SecondsOfMinute(seconds);
    var t := NatToString(mins) + ":" + TwoDigits(secs);
    assert t[|t| - 2..] == TwoDigits(secs);
    t
  }

  /** `Math.floor(seconds % 60)`: whole seconds elapsed in the current minute. */
  function SecondsOfMinute(seconds: real): (secs: nat)
    requires seconds >= 0.0
    ensures secs < 60
    ensures 60 * (seconds / 60.0).Floor + secs == seconds.Floor
  {
    var mins := (seconds / 60.0).Floor;
    assert mins as real <= seconds / 60.0 < mins as real + 1.0;
    var secs := (seconds - 60.0 * (mins as real)).Floor;
    assert 0 <= secs < 60;
    secs
  }

  /** `${secs < 10 ? '0' : ''}${secs}` for seconds below 60: exactly two digits. */
  function TwoDigits(n: nat): (d: string)
    requires n < 60
    ensures |d| == 2 && AllDigits(d) && DecimalValue(d) == n
  {
    NatToStringRoundTrip(n);
    if n < 10 then
      var d := "0" + NatToString(n);
      assert d[..1] == "0";
      d
    else NatToString(n)
  }

  /** Reads back an `m:ss` display: digits, a colon, then exactly two digits below 60. */
  function ParseTime(t: string): (r: Option<nat>)
  {
    if |t| >= 4 && t[|t| - 3] == ':' && AllDigits(t[..|t| - 3]) && AllDigits(t[|t| - 2..])
      && DecimalValue(t[|t| - 2..]) < 60
    then Some(DecimalValue(t[..|t| - 3]) * 60 + DecimalValue(t[|t| - 2..]))
    else None
  }

  /** The display of a media time reads back as the whole seconds elapsed. */
  lemma FormatTimeReadsBack(seconds: real)
    requires seconds >= 0.0
    ensures ParseTime(FormatTime(seconds)) == Some(seconds.Floor)
  {
    var t := FormatTime(seconds);
    var mins := (seconds / 60.0).Floor;
    NatToStringRoundTrip(mins);
    assert DecimalValue(t[|t| - 2..]) == SecondsOfMinute(seconds);
  }

  /** For whole seconds `s` the display shows `s div 60` minutes and `s mod 60` seconds. */
  lemma FormatWholeSeconds(s: nat)
    ensures FormatTime(s as real) == NatToString(s / 60) + ":" + TwoDigits(s % 60)
  {
    WholeMinutes(s);
  }

  /** For whole seconds, the real-valued minutes and seconds agree with integer division. */
  lemma WholeMinutes(s: nat)
    ensures ((s as real) / 60.0).Floor == s / 60
    ensures SecondsOfMinute(s as real) == s % 60
  {
    var q := s / 60;
    assert (s as real) / 60.0 == (q as real) + ((s % 60) as real) / 60.0;
    assert ((s as real) / 60.0).Floor == q;
  }
}
