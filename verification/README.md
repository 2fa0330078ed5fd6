# Music-player client core, modelled in Dafny

This project models the client-side state logic of a desktop music player (an
Electron + Vue app that plays tracks from a third-party music API). Every store
action is written as a pure transition on an immutable state record. Network
answers, random draws, clock readings and press durations are explicit inputs.

- `playback_history.dfy` (module `PlaybackHistory`) is the playlist queue store.
  It holds tracks keyed by content hash, the current hash, the playing flag and
  the single media element, which is either absent or has a source and a
  position. It covers append-if-absent, clearing, resolving a hash to a URL and
  lyric, `playSong`, and wrap-around next/previous.
- `mini_player.dfy` (module `MiniPlayer`) is the mini-player controller. It has
  its own four-mode next-track policy, the play-mode cycle and icon, the store
  watcher, `formatTime` and the end-of-press handling.
- `get_music_list.dfy` (module `GetMusicList`) is the playlist loader
  `getMusic`. It rebuilds the queue from a song collection, then resolves and
  selects a hash.
- `theme_store.dfy` (module `ThemeStore`) holds the validated theme-mode and
  colour setters and the invariant they keep.
- `throttle.dfy` (module `Throttle`) is the time-gated throttle, with the clock
  passed in.
- `request.dfy` (module `Request`) holds the bounded health check, the request
  header rules, the response `code` check and error classification.
- `user_store.dfy` (module `UserStore`) is the token cell.
- `optional.dfy` and `strings.dfy` are shared helpers. They provide `Option`
  (which stands for JavaScript `undefined`) and the JavaScript string operations
  the code uses: `includes`, first-occurrence `replace` and number rendering.
  A first-occurrence search, `Strings.IndexOf`, underlies the first two.

## Behaviour worth knowing

- A lyric search or lyric fetch that throws aborts the whole resolution in
  `updateCurrentHash`. The queue and the current hash are then left untouched.
- `clearPlayList` and `deleteHash` empty the queue but do not reset
  `currentHash`.
- There are four play modes (`sequence`, `random`, `single`, `loop`), and the
  cycle has period four.
- 'random' mode draws `floor(r * n)`, which may be the current index again
  (`MiniPlayer.RandomMayRepeat`).
- The store's `playNext` and `playPrev` pick the wrap-around neighbour. They do
  nothing when that neighbour's URL is still '', because `playSong` returns
  early. After `getMusic` with `ids` defined (a rebuilt queue), only the
  resolved entry has a URL, so this is the usual case (`PlaybackHistory.NavigationSelects`).
- The mini-player in 'sequence' mode stops after the last entry instead of
  wrapping (`MiniPlayer.NextPoliciesCompared`).
- When the backend never becomes ready, the request interceptor's rejection
  also passes through the response error handler. The user sees the not-ready
  notice and then the configuration-error notice.
- The user store holds only a token. There is no user id, name or avatar.

## Model

| member | source | states |
|---|---|---|
| PlaybackHistory.FindIndex | src/stores/PlaybackHistory.js:203 | -1 exactly when no entry has the hash; otherwise the index holds the hash and no earlier entry does |
| PlaybackHistory.FindIndexOfDistinct | src/stores/PlaybackHistory.js:203 | when hashes are distinct, looking up an entry's hash finds that entry's own index |
| PlaybackHistory.NextIndex | src/stores/PlaybackHistory.js:205 | the successor index stays in range: i+1 before the end, 0 after the last entry |
| PlaybackHistory.PrevIndex | src/stores/PlaybackHistory.js:213 | the predecessor index stays in range: i-1 after the first entry, n-1 from the first |
| PlaybackHistory.PrevUndoesNext | src/stores/PlaybackHistory.js:202-216 | the predecessor of the successor is the start index, and so is the successor of the predecessor |
| PlaybackHistory.Mount | src/stores/PlaybackHistory.js:25-27 | mounting creates a media element with an empty source and changes nothing else |
| PlaybackHistory.Unmount | src/stores/PlaybackHistory.js:65-70 | unmounting drops the media element; the playing flag, queue and current hash are kept |
| PlaybackHistory.SetHashList | src/stores/PlaybackHistory.js:122-133 | a queued hash leaves the state unchanged; otherwise one entry with url '' and lrc '' is appended at the tail; afterwards the queued hashes are the old ones plus this hash |
| PlaybackHistory.SetHashListKeepsDistinct | src/stores/PlaybackHistory.js:122-133 | append-if-absent keeps the hashes pairwise distinct |
| PlaybackHistory.ClearPlayList | src/stores/PlaybackHistory.js:139-141 | the queue becomes empty and the current hash and other fields are unchanged |
| PlaybackHistory.DeleteHash | src/stores/PlaybackHistory.js:135-137 | same effect as clearing: empty queue, current hash kept |
| PlaybackHistory.UpdateCurrentHash | src/stores/PlaybackHistory.js:89-120 | any failure (rejection, falsy answer, empty or missing backupUrl, a lyric request that throws) leaves the state unchanged; on success only entries with the new hash get the first backup URL and the lyric (or ''), the length is kept and the new hash becomes current |
| PlaybackHistory.UpdateCurrentHashKeepsHashes | src/stores/PlaybackHistory.js:106-115 | resolution keeps each position's hash, keeps the hashes distinct and keeps the set of queued hashes |
| PlaybackHistory.TogglePlay | src/stores/PlaybackHistory.js:150-158 | with no media element nothing changes; otherwise only the playing flag flips |
| PlaybackHistory.TogglePlayTwice | src/stores/PlaybackHistory.js:150-158 | toggling twice restores the state |
| PlaybackHistory.SetCurrentTime | src/stores/PlaybackHistory.js:143-148 | the recorded time is set, and the element's position too when the element exists |
| PlaybackHistory.SetCurrentTimeLastWins | src/stores/PlaybackHistory.js:143-148 | of two calls the last one wins, and afterwards a present element sits at the recorded time |
| PlaybackHistory.PlayRejected | src/stores/PlaybackHistory.js:185-188 | a rejected play request clears the playing flag and nothing else |
| PlaybackHistory.PlaySong | src/stores/PlaybackHistory.js:160-200 | an out-of-range index, no element, or an empty URL changes nothing; otherwise the element is loaded with the URL, playing starts, the entry's hash becomes current, the bar copies name, artist, cover and url, and the queue is kept |
| PlaybackHistory.PlayNext | src/stores/PlaybackHistory.js:202-208 | a no-op when the current hash is not queued; otherwise the wrap-around successor k of the first entry with the current hash is played (current, playing, element on its URL) when it is playable, and nothing changes when it is not; the queue is never changed |
| PlaybackHistory.PlayPrev | src/stores/PlaybackHistory.js:210-216 | a no-op when the current hash is not queued; otherwise the wrap-around predecessor k is played when it is playable, and nothing changes when it is not; the queue is never changed |
| PlaybackHistory.NavigationSelects | src/stores/PlaybackHistory.js:202-216 | from entry i of a queue with distinct hashes, next plays entry (i+1) mod n and previous plays (i-1+n) mod n when that entry is playable, and each is a no-op when its target has no URL or there is no element |
| PlaybackHistory.PrevAfterNextReturns | src/stores/PlaybackHistory.js:202-216 | with distinct hashes, and the current entry and both neighbours resolved with an element present, previous after next returns to the same current track, and so does next after previous |
| PlaybackHistory.InitialQueue | src/stores/PlaybackHistory.js:9-22 | the freshly created store has distinct hashes (an empty queue) and no current entry; next, previous and toggle leave it unchanged and no index is playable |
| PlaybackHistory.AlwaysDistinct | src/stores/PlaybackHistory.js:122-216 | every sequence of store actions (mount, unmount, setHashList, clear, deleteHash, updateCurrentHash, togglePlay, setCurrentTime, play rejection, playSong, playNext, playPrev) with any arguments keeps the queue's hashes pairwise distinct |
| GetMusicList.ToTrack | src/utils/GetMusicList.js:13-19 | the artist is the first singer's name when that element is a singer record, else the unknown-singer text; a falsy cover gives ''; otherwise only the first '{size}' becomes '64' and the rest of the cover is kept |
| GetMusicList.AddAll | src/utils/GetMusicList.js:10-20 | adding the songs touches only the queue |
| GetMusicList.AddAllHashes | src/utils/GetMusicList.js:10-20 | after the loop, a hash is queued iff it was queued before or some song has it |
| GetMusicList.AddAllKeepsDistinct | src/utils/GetMusicList.js:10-20 | the loop keeps queued hashes pairwise distinct |
| GetMusicList.AddAllFromEmpty | src/utils/GetMusicList.js:5-20 | from an empty queue the result is the songs in key order with later repeated hashes dropped, matching an independent first-occurrence filter |
| GetMusicList.Rebuild | src/utils/GetMusicList.js:5-26 | with ids defined, a non-object collection leaves the queue empty and an object collection gives the first-occurrence list (distinct hashes); with ids undefined, only an append-if-absent of the hash happens |
| GetMusicList.GetMusic | src/utils/GetMusicList.js:4-30 | the rebuilt queue's hashes come out as above; in every branch the hash becomes current iff its resolution succeeds, and playback fields are untouched |
| GetMusicList.InvalidCollectionEmptiesQueue | src/utils/GetMusicList.js:5-23 | a non-object collection still empties a non-empty queue, because clearing comes before the check |
| MiniPlayer.Initial | src/utils/miniPlayerUtils.js:11-21 | the controller starts stopped, not seeking, with the bar shown, in the first mode of the cycle ('sequence'), showing the arrow icon |
| MiniPlayer.ModeIndex | src/utils/miniPlayerUtils.js:167-168 | the index of a known mode in the cycle, -1 exactly for unknown modes |
| MiniPlayer.TogglePlayMode | src/utils/miniPlayerUtils.js:166-170 | the result is always a known mode; an unknown mode goes to 'sequence'; a known mode advances one place in the cycle |
| MiniPlayer.TogglePlayModeCycle | src/utils/miniPlayerUtils.js:166-170 | four toggles are the identity on known modes, and one, two or three toggles are not |
| MiniPlayer.PlayModeIcon | src/utils/miniPlayerUtils.js:172-179 | total; every mode other than random/single/loop shows the arrow |
| MiniPlayer.PlayModeIconDistinguishes | src/utils/miniPlayerUtils.js:172-179 | among the known modes the icon determines the mode, so each toggle changes the icon |
| MiniPlayer.UnknownModeIcon | src/utils/miniPlayerUtils.js:166-179 | an unknown mode shows the arrow and toggles to 'sequence', which shows the arrow too |
| MiniPlayer.RandomIndex | src/utils/miniPlayerUtils.js:147-149 | floor(r*n) lies in [0, n) for every draw r in [0, 1) |
| MiniPlayer.NextTarget | src/utils/miniPlayerUtils.js:145-162 | the target is in range; playback stops exactly in a non-random/single/loop mode at the last entry; 'single' repeats, 'loop' wraps, 'sequence' advances by one |
| MiniPlayer.RandomMayRepeat | src/utils/miniPlayerUtils.js:147-149 | the draw i/n makes 'random' pick the current index i again |
| MiniPlayer.NextPoliciesCompared | src/utils/miniPlayerUtils.js:153-162 | at the last entry the store's policy wraps to 0 while 'sequence' stops; elsewhere 'sequence' matches the store, and 'loop' always does |
| MiniPlayer.Watch | src/utils/miniPlayerUtils.js:207-221 | the watcher never touches the store; it does nothing unless the current hash changed to a non-empty queued hash; when it fires, the element gets the first matching entry's URL, playing starts and the bar shows that entry's name, artist and cover |
| MiniPlayer.PlaySong | src/utils/miniPlayerUtils.js:124-137 | an out-of-range index changes nothing; otherwise playing starts and the store is exactly the store after resolving the entry's hash |
| MiniPlayer.PlaySongOutcome | src/utils/miniPlayerUtils.js:124-137 | the bar shows the entry; after a successful resolution that changes the current hash, the element plays the freshly resolved URL; after a failed one the store is unchanged and the element keeps the entry's old URL |
| MiniPlayer.PlaySongSelects | src/utils/miniPlayerUtils.js:124-137 | after a successful resolution the played entry's hash is current and the player is playing |
| MiniPlayer.PlayNext | src/utils/miniPlayerUtils.js:139-164 | a no-op when the current hash is not queued; at the last entry in 'sequence' (or an unknown) mode only the playing flag is cleared |
| MiniPlayer.PlayNextSelects | src/utils/miniPlayerUtils.js:139-164 | on success the new current entry is (i+1) mod n for 'loop', i for 'single', floor(r*n) for 'random', and i+1 for 'sequence' before the end |
| MiniPlayer.NextShowsTarget | src/utils/miniPlayerUtils.js:124-164 | for every URL answer, the bar shows the entry the mode picks and playing starts; a failed resolution leaves the element on that entry's stored URL and the store unchanged; with no pick only the playing flag is cleared |
| MiniPlayer.SingleReplaysCurrent | src/utils/miniPlayerUtils.js:150-152 | 'single' replays the current entry's URL and keeps the current hash |
| MiniPlayer.PlayPrev | src/utils/miniPlayerUtils.js:181-189 | a no-op when the current hash is not queued; otherwise playing starts and, on success, entry (i-1+n) mod n becomes current |
| MiniPlayer.PrevShowsTarget | src/utils/miniPlayerUtils.js:124-189 | for every URL answer, the bar shows the wrap-around predecessor and playing starts; a failed resolution leaves the element on that entry's stored URL and the store unchanged |
| MiniPlayer.TogglePlay | src/utils/miniPlayerUtils.js:100-107 | only the playing flag flips |
| MiniPlayer.IsCurrentSong | src/utils/miniPlayerUtils.js:191-193 | a song is current iff its hash is the store's current hash |
| MiniPlayer.PlayedSongIsCurrent | src/utils/miniPlayerUtils.js:191-193 | after a successful play, exactly the songs with the played hash count as the current song |
| MiniPlayer.EndSeek | src/utils/miniPlayerUtils.js:47-70 | seeking ends and the bar is shown; the play page opens iff the press was shorter than 700 ms and not on a button |
| MiniPlayer.EndSeekIdempotent | src/utils/miniPlayerUtils.js:47-70 | a second release leaves the bar state as the first left it, and the state does not depend on the press length or target |
| MiniPlayer.FormatTime | src/utils/miniPlayerUtils.js:114-118 | the display is floor(s/60) in decimal, a colon, and two digits whose value is below 60 |
| MiniPlayer.SecondsOfMinute | src/utils/miniPlayerUtils.js:116 | the seconds field is below 60, and minutes*60 plus seconds is the whole number of elapsed seconds |
| MiniPlayer.TwoDigits | src/utils/miniPlayerUtils.js:117 | the padded field has exactly two digits and denotes the number |
| MiniPlayer.FormatTimeReadsBack | src/utils/miniPlayerUtils.js:114-118 | reading an `m:ss` display back gives floor(s) |
| MiniPlayer.FormatWholeSeconds | src/utils/miniPlayerUtils.js:114-118 | for whole seconds s the display is (s div 60) ':' two-digit (s mod 60) |
| ThemeStore.SetThemeMode | src/stores/ThemeStore.js:34-41 | the mode changes iff the argument is 'material_you' or 'album_cover'; otherwise nothing changes; the colours never change |
| ThemeStore.SetMaterialYouColor | src/stores/ThemeStore.js:48-59 | the colour is stored iff it is an array of exactly three numbers in [0,255]; otherwise nothing changes; the mode and album colour are untouched |
| ThemeStore.SetAlbumCoverColor | src/stores/ThemeStore.js:66-77 | the colour is stored iff it is an array of exactly three numbers in [0,255]; otherwise nothing changes; the mode and Material You colour are untouched |
| ThemeStore.ExtractColorFromImage | src/stores/ThemeStore.js:85-91 | the album colour becomes white and the Material You colour the default blue; the mode is kept |
| ThemeStore.ExtractColorFromImageIdempotent | src/stores/ThemeStore.js:85-91 | applying it twice is the same as once |
| ThemeStore.PalettesAreValid | src/stores/ThemeStore.js:21-27 | every preset palette passes the colour validation |
| ThemeStore.AlwaysValid | src/stores/ThemeStore.js:14-77 | the initial store is valid, and any sequence of setter calls with any arguments keeps a known mode and two valid RGB triples |
| Throttle.Create | src/utils/throttle.js:9-10 | a new throttle has the given delay and lastCall 0 |
| Throttle.Call | src/utils/throttle.js:11-17 | a call runs fn iff now - lastCall >= delay; then lastCall becomes now; a suppressed call leaves the throttle unchanged |
| Throttle.LastCallHeld | src/utils/throttle.js:13-16 | between two calls that run fn, lastCall holds the time of the earlier one |
| Throttle.ConsecutiveFiredSpaced | src/utils/throttle.js:13-16 | two consecutive calls that run fn are at least delay apart, whatever the clock does |
| Throttle.LastCallAtLeast | src/utils/throttle.js:13-16 | with a non-decreasing clock, lastCall never falls below the time of an earlier call that ran fn |
| Throttle.FiredSpaced | src/utils/throttle.js:13-16 | with a non-decreasing clock, any two calls that run fn are at least delay apart |
| Throttle.LastCallNotAhead | src/utils/throttle.js:13-16 | with a non-decreasing clock that starts no earlier than lastCall, lastCall never passes the next call's time |
| Throttle.ZeroDelayAlwaysFires | src/utils/throttle.js:13 | with delay 0 and such a clock, every call runs fn |
| Request.CheckBackendHealth | src/utils/request.js:5-23 | ready iff one of the first 30 attempts succeeds; attempts stop at the first success and never exceed 30; pauses = attempts - 1, so there is none after the final attempt |
| Request.AddHeaders | src/utils/request.js:46-52 | Accept is always application/json; Authorization is 'Bearer ' + token iff the token is non-empty, and otherwise the existing header is kept; no other header changes |
| Request.InterceptRequest | src/utils/request.js:33-53 | '/health' passes through unchanged; any other request proceeds with the added headers iff the health check succeeds, and is otherwise aborted with the not-ready notice followed by the configuration-error notice, rejecting with the 'Backend not ready' error |
| Request.CheckResponse | src/utils/request.js:61-68 | a payload is passed through iff its code is missing, falsy or the number 200; otherwise it is rejected with its message or 'Error' |
| Request.CheckResponseAcceptedCodes | src/utils/request.js:61-68 | for every payload: it passes exactly when its code is missing, 0, '' or the number 200 |
| Request.CheckResponseCodes | src/utils/request.js:63 | codes 0, '' and missing pass; '200' as text and 404 are rejected |
| Request.ClassifyError | src/utils/request.js:69-108 | every error is rejected unchanged; statuses 400/401/403/404/500/502 get their own message and others the default; without a response, refused connections are checked first (info level), then timeouts, then a generic network message; setup failures get the configuration message |
| Request.StatusTextsDistinct | src/utils/request.js:71-93 | the six status messages are pairwise different and never equal a default message |
| UserStore.SetToken | src/stores/user.js:6-8 | getToken after setToken(t) returns t |
| UserStore.RemoveToken | src/stores/user.js:14-16 | removing resets the token to '' (the initial store) |
| UserStore.GetToken | src/stores/user.js:10-12 | the token read is '' exactly when the store is the initial, signed-out one |
| UserStore.TokenCell | src/stores/user.js:6-16 | a second set overwrites the first; remove after set gives the initial store; set after remove is as if set directly |
| Strings.IndexOf | src/utils/request.js:96-98 | the first position where the pattern occurs, or -1 exactly when it occurs nowhere (used by `includes`) |
| Strings.Contains | src/utils/request.js:96-98 | `includes`: the pattern occurs in the string |
| Strings.ContainsIff | src/utils/request.js:96-98 | `includes` holds iff some position starts an occurrence |
| Strings.ReplaceFirst | src/utils/GetMusicList.js:17 | without an occurrence the string is unchanged; otherwise the first occurrence is replaced and the text around it is kept |
| Strings.ReplaceFirstKeepsPrefix | src/utils/GetMusicList.js:17 | characters before the first occurrence are unchanged and hold no occurrence |
| Strings.NatToString | src/utils/miniPlayerUtils.js:117 | the decimal rendering is non-empty, all digits, has no leading zero, and has one digit iff the number is below 10 |
| Strings.NatToStringRoundTrip | src/utils/miniPlayerUtils.js:117 | reading the rendered digits back gives the number |

## Left out

- The browser media element is left out: its events, `load()`, volume and
  buffering. Only an absent/present element with a source and position
  remains. The play-promise rejection and the element's error event are
  reduced to `PlaybackHistory.PlayRejected`.
- The `timeupdate`, `durationchange` and `ended` listeners are left out. They
  are device event wiring; 'ended' simply calls `playNext`, which is modelled.
- Vue reactivity, Pinia persistence, `ElMessage` and console logging are left
  out. User notices are returned as values, and logging is dropped.
- `setMusicIds`, `setPage` and `setMusicList` in the queue store are left out.
  The first two are plain field setters. The third only logs a network answer.
- In the mini-player, `startSeek`, `handleDrag`, `seek` and `setVolume` are
  left out, and so are the timeupdate mirroring and the mounted/unmounted
  listeners. They are DOM geometry, timers and device calls. `EndSeek` takes
  the press duration and the on-a-button test as inputs.
- `getMoreList` is left out: it is a paginated network fetch.
- Interleavings are not modelled. Each asynchronous resolution is treated as
  completing before the next action. Two overlapping resolutions can write
  stale data in the application; the model does not show this.
- `GetMusicList.GetMusic`: a song record that is itself null makes the loop
  throw part-way. This is not modelled: every collection element is a record.
  JavaScript key enumeration order is represented by the order of the input
  sequence.
- `ThemeStore.SetMaterialYouColor` and `ThemeStore.SetAlbumCoverColor`: array
  aliasing (the stored array is the caller's, and later mutation shows
  through) and sparse arrays (whose holes `every` skips) are not modelled.
- `MiniPlayer.FormatTime` is modelled on exact reals for non-negative media
  times. Floating-point rounding and negative or NaN inputs are out of scope,
  because the callers pass media times.
- `MiniPlayer.RandomIndex` uses exact real multiplication. Rounding of the
  floating-point product is not modelled.
- `Request.CheckBackendHealth`: the 1-second per-attempt timeout and the
  1000 ms pause are not modelled, because no time passes in the model. Only
  the number of pauses is counted.
  Attempts beyond the supplied outcomes count as failures.
- `Request.InterceptRequest`: the token is the value read from local storage,
  passed in as an input. `getItem` returning null is `None`.
- `Request.CheckResponse`: a null payload, which would throw, is not modelled.
- The axios instance settings (base URL, 30 s timeout, credentials) are left
  out. They are transport configuration.
- The REST wrappers, router, application bootstrap and token refresh, Electron
  main/preload scripts and build configuration are left out. They are thin
  plumbing over external collaborators.
