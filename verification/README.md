# SamJ Music Octave — player, queue and library logic in Dafny

A Dafny model of the state logic inside a React music-streaming front end
(a Spotify-style player backed by Deezer data). The app ships two player
shells with their own queue logic:

- the *clone* variant (`src/components/SpotifyClone/index.tsx`), with
  unguarded operations;
- the *guarded* variant (`src/components/index.tsx`), with guarded skip and
  back and a clean end-of-track switch.

They share a mobile player and a desktop player. This project models, as pure
functions over immutable values:

- **the playback queue**: play, previous, skip, add, remove, clicking a queue
  or history entry, and the end-of-track decision. Both variants are modelled
  as separate modules, `CloneQueue` and `GuardedQueue`, over a shared
  `Tracks.Player` state. The add and remove code, which the two variants share
  verbatim, is defined once in `Tracks`.
- **the library**: the Liked Songs playlist, pinning, deletion, drag reorder,
  recently played, recent searches, listen counts and track selection
  (`Library`, `Sanitize`).
- **the player controls**: the audio-quality and repeat-mode cycles, the
  back/forward click rule, the swipe threshold, mute and the volume icon
  (`Controls`).
- **the player arithmetic**: the seekbar clamp and drag, the `m:ss` clock
  label, the active lyric line and its progress sweep (`Seekbar`,
  `TimeFormat`, `Lyrics`). This is over a small model of JavaScript numbers
  (`JsNumber`): finite values as exact reals, plus the two infinities and NaN.
- **smaller pieces**: the Spotify playlist import (`PlaylistImport`), the
  four-quadrant composite cover (`CoverGrid`) and the home-screen greeting
  (`Greeting`).

The browser supplies the clock, the audio element, cursor positions and
network answers. Here they are ordinary parameters:

- `hasAudio` says whether an audio element exists.
- The greeting takes the hour, month and day.
- The seekbar takes the cursor position `clientX` and the bar's `left` and `width`.
- The import takes the conversion service's answer, or `None` when the request
  failed.

Decimal rendering of numbers (`Decimal`) and `Option` (`Wrappers`) are
support modules.

## Model

| member | source | states |
|---|---|---|
| Tracks.RemoveId | src/components/SpotifyClone/index.tsx:437 | Filtering by id removes every entry with that id and keeps all others in order. Absent ids leave the list untouched. |
| Tracks.RemoveIdLength | src/components/SpotifyClone/index.tsx:437 | On a list with unique ids, filtering removes exactly one entry when the id is present and none otherwise. |
| Tracks.MoveToFront | src/components/SpotifyClone/index.tsx:436-438 | `[t, ...q.filter(x => x.id !== t.id)]` puts `t` first, leaves no other entry with its id, and keeps a duplicate-free queue duplicate-free. |
| Tracks.FindIndexById | src/components/index.tsx:388 | `findIndex` by id gives the first matching position, or -1 exactly when no entry has the id. |
| Tracks.RemoveAt | src/components/SpotifyClone/index.tsx:511 | `filter((_, i) => i !== k)` drops exactly position `k` and shifts the later entries down. An index outside the list changes nothing. |
| Tracks.RemoveAtUnique | src/components/index.tsx:728 | Dropping one position from a duplicate-free list keeps it duplicate-free. |
| Tracks.AppendNew | src/components/SpotifyClone/index.tsx:500-508 | addToQueue as written: the old queue stays a prefix, and exactly the incoming tracks whose id is not already queued are appended, in input order. |
| Tracks.AppendNewBatchDuplicate | src/components/SpotifyClone/index.tsx:503-505 | Adding the batch `[X, X]` to an empty queue yields a queue with a repeated id. |
| Tracks.AppendNewDistinct | src/components/index.tsx:719-725 | Corrected add: each incoming track is checked against the queue built so far. The old queue stays a prefix, and everything appended is an incoming track whose id was not queued before. A single track is appended at the end exactly when its id is not queued, and an empty batch changes nothing. |
| Tracks.AppendNewDistinctSplit | src/components/index.tsx:719-725 | Adding a batch equals adding its first part and then the rest, so incoming tracks are appended in input order. |
| Tracks.AppendNewDistinctAgrees | src/components/SpotifyClone/index.tsx:500-508 | On a batch without repeated ids, the corrected add gives exactly the source's `[...prev, ...filtered]`. |
| Tracks.AppendNewDistinctUnique | src/components/index.tsx:719-725 | The corrected add keeps a duplicate-free queue duplicate-free and ends with every incoming id queued. |
| Tracks.AddToQueue | src/components/SpotifyClone/index.tsx:500-508 | `addToQueue` (identical at src/components/index.tsx:719-725), with the batch correction. Only the queue grows, by incoming tracks that were not queued. Afterwards every incoming id is queued, and a duplicate-free queue stays duplicate-free even for a batch that repeats an id. On a batch without repeated ids, including every single-track call, the result is the source's append. One track goes to the end exactly when its id is not queued. |
| Tracks.AddToQueueSplit | src/components/SpotifyClone/index.tsx:500-508 | Queueing a batch equals queueing its first part and then the rest, so input order is kept. |
| Tracks.RemoveFromQueue | src/components/SpotifyClone/index.tsx:510-512 | `removeFromQueue` (identical at src/components/index.tsx:727-729) drops exactly queue position `i`, keeps a duplicate-free queue duplicate-free, and changes nothing else in the player. |
| CloneQueue.PlayTrack | src/components/SpotifyClone/index.tsx:435-442 | Playing a track makes it current at the head of the queue, with no other copy of its id. History is left alone, and the current-at-head convention is preserved. |
| CloneQueue.PlayTrackIdempotent | src/components/SpotifyClone/index.tsx:435-442 | Playing the same track twice gives the same state as playing it once. |
| CloneQueue.PreviousTrack | src/components/SpotifyClone/index.tsx:457-468 | An empty history changes nothing. Otherwise the most recent history entry is popped, becomes current and heads the queue. |
| CloneQueue.SkipTrack | src/components/SpotifyClone/index.tsx:470-481 | The current track is always pushed onto the history, but the queue advances only when it holds more than one track. |
| CloneQueue.SkipThenPrevious | src/components/SpotifyClone/index.tsx:457-481 | With the current track at the head of a duplicate-free queue of two or more, skip then previous restores the state exactly. |
| CloneQueue.Abs | src/components/SpotifyClone/index.tsx:517 | `Math.abs` returns the argument or its negation, never negative. |
| CloneQueue.OnQueueItemClick | src/components/SpotifyClone/index.tsx:514-520 | The clicked track becomes current and the queue is untouched. A click on history entry `k` keeps only the `k` more recent entries. |
| CloneQueue.SyncQueueWithCurrent | src/components/SpotifyClone/index.tsx:1085-1088 | A current track missing from the queue is put at its head. Otherwise the state is unchanged. |
| CloneQueue.ClickThenSyncQueuesTrack | src/components/SpotifyClone/index.tsx:514-520 | After any click followed by the current-track effect, the clicked track is current and queued. |
| GuardedQueue.PlayTrack | src/components/index.tsx:302-313 | The replaced track goes onto the history and the new one heads the queue, with no other copy of its id, and is loaded. |
| GuardedQueue.PreviousTrack | src/components/index.tsx:329-341 | Without history or without an audio element it only alerts. Otherwise it pops the most recent entry, makes it current, puts it at the queue head and loads it. |
| GuardedQueue.SkipTrack | src/components/index.tsx:344-363 | Without a current track, a second queue entry or audio it only alerts. Otherwise the current track goes to the history and the next entry plays. |
| GuardedQueue.SkipThenPrevious | src/components/index.tsx:329-363 | With the current track at the head of a duplicate-free queue of two or more, skip then previous restores the player. |
| GuardedQueue.IsLastTrackAsWritten | src/components/index.tsx:388 | The as-written last-track test is true on an empty queue, where the current track is not found at all. |
| GuardedQueue.IsLastTrack | src/components/index.tsx:388 | Corrected test: true exactly when the current id occurs in the queue only at its last position. |
| GuardedQueue.HandleTrackEndAsWritten | src/components/index.tsx:378-408 | The end-of-track handler as written. With repeat all and an empty queue it makes the missing `queue[0]` current. |
| GuardedQueue.EmptyQueueWrapLosesCurrent | src/components/index.tsx:387-391 | With repeat all, the end of a track whose queue was emptied leaves no current track as written. The corrected handler only alerts. |
| GuardedQueue.HandleTrackEnd | src/components/index.tsx:378-408 | Corrected decision table: repeat one restarts, and repeat all wraps from the last queued track to the first. Otherwise it skips when more than one track is queued, or stops. The current track is never lost. |
| GuardedQueue.HandleTrackEndAgreesOnNonEmptyQueue | src/components/index.tsx:378-408 | The correction changes only the empty-queue case. |
| GuardedQueue.HandleTrackEndKeepsHistoryShape | src/components/index.tsx:378-408 | A natural end either leaves the history alone or pushes the current track onto it, and never grows the queue. |
| GuardedQueue.EndOfFirstOfThree | src/components/index.tsx:398-401 | With repeat off and queue A, B, C, the end of A moves A to history and plays B. |
| GuardedQueue.EndOfOnlyTrack | src/components/index.tsx:398-405 | With repeat off and a one-track queue, the end of it stops and keeps it current. |
| GuardedQueue.OnQueueItemClickAsWritten | src/components/index.tsx:732-743 | A history click removes that single entry and puts the track at the queue head, even when the queue already holds it. A queue click pushes the old current track onto the history and removes the entry. |
| GuardedQueue.HistoryClickDuplicates | src/components/index.tsx:733-737 | Queueing a history track and then clicking it in the history turns the duplicate-free queue `[B, A]` into `[A, B, A]`. |
| GuardedQueue.OnQueueItemClick | src/components/index.tsx:732-743 | Corrected click: a history click moves the track to the queue head and drops its other queued copies, as `previousTrackFunc` does. A queue click is as written. A duplicate-free queue stays duplicate-free. |
| GuardedQueue.OnQueueItemClickAgrees | src/components/index.tsx:732-743 | The correction equals the source for every queue click and for every history click on a track that is not queued. |
| Controls.QualityIndex | src/components/SpotifyClone/index.tsx:578-580 | `indexOf` in the fixed order finds the quality's position. |
| Controls.NextQuality | src/components/index.tsx:465-471 | One press of the quality button always changes the quality, in the order MAX, HIGH, NORMAL, DATA_SAVER and back to MAX. |
| Controls.QualityCyclePeriod | src/components/SpotifyClone/index.tsx:577-584 | Four presses return to the starting quality, and fewer never do. |
| Controls.QualityCycleVisitsAll | src/components/index.tsx:465-471 | From any quality, every quality is reached within three presses. |
| Controls.RepeatIndex | src/components/players/mobilePlayer.tsx:667-668 | `indexOf` in `["off", "all", "one"]` finds the mode's position. |
| Controls.NextRepeat | src/components/players/DesktopPlayer.tsx:458-461 | One press of the repeat button always changes the mode. |
| Controls.RepeatCyclePeriod | src/components/players/mobilePlayer.tsx:666-671 | The button cycles off, all, one. Three presses restore the mode, and fewer never do. |
| Controls.BackClick | src/components/players/mobilePlayer.tsx:555-559 | A single back click seeks to the start after five seconds of play, and otherwise goes to the previous track. |
| Controls.ForwardClick | src/components/players/mobilePlayer.tsx:575-580 | A single forward click skips when at most five seconds remain, and otherwise seeks to the end. |
| Controls.ClicksNeverBothChangeTrack | src/components/players/mobilePlayer.tsx:555-580 | In a track longer than ten seconds, at every position at least one of the two buttons only seeks. |
| Controls.Swipe | src/components/players/mobilePlayer.tsx:610-627 | A drag beyond 100 px right goes back, beyond 100 px left skips, and anything in between snaps back. |
| Controls.SwipeSymmetric | src/components/players/mobilePlayer.tsx:591-608 | Mirror-image drags have mirror-image effects. |
| Controls.ExpandsMiniPlayer | src/components/players/mobilePlayer.tsx:533-542 | The mini player expands exactly when a touch that started on it has risen more than 50 px. |
| Controls.ToggleMute | src/components/players/DesktopPlayer.tsx:269-275 | The mute button flips the muted state: a muted player goes to full volume and any other player goes to 0. |
| Controls.ToggleMuteTwice | src/components/players/DesktopPlayer.tsx:242-275 | Two presses end muted exactly when the player started muted. A muted player comes back to 0. |
| Controls.VolumeIcon | src/components/players/DesktopPlayer.tsx:277-281 | The icon is muted at volume 0, low below one half, and loud otherwise. |
| Controls.ToggleMuteIcon | src/components/players/DesktopPlayer.tsx:269-281 | After the mute button the icon is never the low one, and it is muted exactly when it was not before. |
| Sanitize.OrElse | src/components/index.tsx:645 | `x \|\| fallback`: a missing or empty string gives the fallback. |
| Sanitize.SanitizeTrack | src/components/index.tsx:643-658 | Every text field of the result is non-empty. Given fields are kept, and missing or empty ones get the "unknown" placeholders. Missing covers become empty strings. |
| Sanitize.SanitizeKeepsCompleteTrack | src/components/index.tsx:643-658 | A track whose text fields are all non-empty passes through unchanged. |
| Sanitize.SanitizeIdempotent | src/components/index.tsx:643-658 | Sanitizing a sanitized track changes nothing. |
| Library.RecentlyPlayed | src/components/SpotifyClone/index.tsx:486-495 | The played track comes first with no other copy, followed by the earlier entries in order, capped at four. Unique ids stay unique. |
| Library.RecentlyPlayedIdempotent | src/components/SpotifyClone/index.tsx:486-495 | Recording the same track twice in a row equals recording it once. |
| Library.RemoveQuery | src/components/SpotifyClone/index.tsx:1037 | The filter removes every copy of the query. Every other query keeps its number of occurrences, and an absent query leaves the list unchanged. |
| Library.RemoveQueryAppend | src/components/SpotifyClone/index.tsx:1037 | The filter distributes over concatenation, so the surviving queries keep their order. |
| Library.RecentSearches | src/components/SpotifyClone/index.tsx:1029-1042 | A blank query (after the full JavaScript `trim`) changes nothing. Any other query comes first, followed by the earlier queries without it. The list is cut to five entries, and is shorter only when fewer earlier queries remain. |
| Library.RecentSearchesIdempotent | src/components/SpotifyClone/index.tsx:1035-1042 | Searching the same query twice in a row records it once. |
| Library.ToggleIn | src/components/SpotifyClone/index.tsx:699-708 | One playlist gains the track at its end if its id was absent, or loses every entry with that id if present (the id filter). Other tracks and the playlist's fields are untouched. |
| Library.ToggleLike | src/components/SpotifyClone/index.tsx:691-718 | Without a track or a Liked Songs playlist nothing changes. Otherwise only the Liked Songs playlists change, each flipping the track's membership. |
| Library.ToggleLikeFlips | src/components/SpotifyClone/index.tsx:691-718 | With a single Liked Songs playlist, toggling flips whether the track is liked. |
| Library.ToggleLikeTwice | src/components/SpotifyClone/index.tsx:691-718 | Toggling twice restores membership of every track in every playlist. For a track that was not liked, it restores the library exactly. |
| Library.FindPlaylist | src/components/SpotifyClone/index.tsx:1373 | `findIndex` by name gives the first playlist so named, or -1 exactly when none is. |
| Library.ToggleLikeSanitized | src/components/index.tsx:663-695 | The raw track is sanitized. The add-or-remove decision is taken once, from the first Liked Songs playlist, and applied to each Liked Songs playlist. Other playlists are untouched. |
| Library.PinPlaylist | src/components/SpotifyClone/index.tsx:658-667 | The playlists of that name flip their pin flag. Nothing else changes. |
| Library.PinPlaylistInvolution | src/components/index.tsx:771-776 | Pinning twice is no change at all. |
| Library.DeletePlaylist | src/components/SpotifyClone/index.tsx:723-730 | No playlist of that name survives, and every other playlist does. Deleting an absent name changes nothing. |
| Library.DeletePlaylistAppend | src/components/SpotifyClone/index.tsx:723-730 | Deletion keeps the survivors in their order: it distributes over concatenation. |
| Library.DeletePlaylistIdempotent | src/components/SpotifyClone/index.tsx:723-730 | Deleting the same name twice is deleting it once. |
| Library.Move | src/components/SpotifyClone/index.tsx:1375-1376 | Taking an element out and re-inserting it puts it at the target position. Removing it from there gives the original minus that element. |
| Library.MovePermutes | src/components/SpotifyClone/index.tsx:1375-1376 | Moving one element is a permutation. |
| Library.MoveInPlace | src/components/SpotifyClone/index.tsx:1375-1376 | Moving an element to its own position changes nothing. |
| Library.DragSource | src/components/SpotifyClone/index.tsx:1372-1375 | The dragged playlist is taken from its first position by name. An unknown name takes the last playlist, because `splice(-1, 1)` counts from the end. |
| Library.DropReorder | src/components/SpotifyClone/index.tsx:1368-1378 | Dropping permutes the playlists. The dragged playlist lands at the target's old index and the others keep their relative order. Dropping onto itself changes nothing. |
| Library.DropUnknownMovesLast | src/components/SpotifyClone/index.tsx:1372-1375 | A dragged name that is not found moves the last playlist to the target, because `splice(-1, 1)` removes the last element. |
| Library.ToggleTrackSelection | src/components/index.tsx:873-877 | Selecting adds an unselected track at the end, and deselecting removes every copy of its id. Other tracks are untouched. |
| Library.ToggleTrackSelectionTwice | src/components/index.tsx:873-877 | Selecting and then deselecting an unselected track restores the selection exactly. |
| Library.EnsureLikedSongs | src/components/SpotifyClone/index.tsx:994-997 | After loading there is a Liked Songs playlist. An empty one is appended only when none exists. |
| Library.EnsureLikedSongsIdempotent | src/components/SpotifyClone/index.tsx:994-997 | Loading twice adds nothing the second time. |
| Library.RecordListen | src/components/SpotifyClone/index.tsx:527-530 | Without a current track nothing changes. Otherwise its count (0 when absent) goes up by one and every other count is unchanged. |
| Library.RecordListenMonotone | src/components/SpotifyClone/index.tsx:527-530 | Listen counts never decrease. |
| JsNumber.Div | src/components/players/mobilePlayer.tsx:124 | Division is NaN exactly for 0/0 and infinite for any other division by zero, signed by the dividend. |
| JsNumber.Clamp01 | src/components/players/DesktopPlayer.tsx:307 | `Math.min(Math.max(x, 0), 1)` is NaN exactly for NaN. Otherwise it lies in [0, 1], is the identity there, and maps the infinities to the ends. |
| JsNumber.Mul | src/components/players/DesktopPlayer.tsx:145 | `x * k` is NaN exactly when `x` is NaN, or when `x` is infinite and `k` is 0. Finite products are exact. |
| Decimal.NatToString | src/components/players/mobilePlayer.tsx:92 | A number renders as decimal digits without a leading zero, a single digit exactly below ten. |
| Decimal.NatToStringRoundTrip | src/components/players/mobilePlayer.tsx:92 | Reading the rendered digits back gives the number. |
| Decimal.NatToStringInjective | src/components/players/mobilePlayer.tsx:92 | Different numbers render differently. |
| TimeFormat.Pad2 | src/components/SpotifyClone/DesktopPlayer/utils.ts:6 | `padStart(2, "0")` left-pads short strings with zeros to length two and leaves longer ones alone. |
| TimeFormat.ClockFieldsSplit | src/components/players/mobilePlayer.tsx:90-91 | For a non-negative time, minutes are non-negative, seconds are in 0..59, and `mins * 60 + secs` is the whole number of seconds. |
| TimeFormat.FormatTime | src/components/players/mobilePlayer.tsx:88-93 | Zero, negative, NaN and minus infinity read "0:00", and plus infinity reads "Infinity:NaN". Otherwise the label is decimal minutes, a colon and two-digit seconds in 0..59. |
| TimeFormat.SecondsFieldTwoDigits | src/components/SpotifyClone/DesktopPlayer/utils.ts:5-6 | The padded seconds field is always two digits and reads back as the seconds. |
| TimeFormat.FormatTimeRoundTrip | src/components/players/DesktopPlayer.tsx:99-104 | Parsing any label of a finite non-negative time gives back its whole seconds. This includes the "0:00" label of time 0 (utils.ts line 3). |
| Seekbar.CalculateProgress | src/components/players/DesktopPlayer.tsx:120-125 | Unmounted gives 0. Mounted, the result is in [0, 1], or NaN exactly when the cursor is at the left edge of a zero-width bar. It is the exact fraction inside a bar of positive width, and 0 or 1 beyond its ends. |
| Seekbar.ClampOrderIrrelevant | src/components/players/mobilePlayer.tsx:121-125 | Clamping above first or below first gives the same value for every JavaScript number, NaN included. |
| Seekbar.DesktopProgress | src/components/players/DesktopPlayer.tsx:361 | The progress is finite and 0 unless the duration is positive. Otherwise, multiplied back by the duration, it gives the seek position, and it lies in [0, 1] for positions inside the track. |
| Seekbar.MobileProgress | src/components/players/mobilePlayer.tsx:790 | The mobile progress is NaN exactly at 0/0 and infinite for a positive position with zero duration. |
| Seekbar.Sync | src/components/players/mobilePlayer.tsx:115-119 | While not dragging, the bar takes the incoming progress. The mobile bar replaces NaN by 0; a drag in progress is never overwritten. |
| Seekbar.DragStart | src/components/players/mobilePlayer.tsx:127-130 | Pressing starts a drag at the cursor's progress. |
| Seekbar.DragMove | src/components/players/mobilePlayer.tsx:132-140 | Moves update the progress only during a drag. The mobile bar never stores NaN. |
| Seekbar.DragEnd | src/components/players/DesktopPlayer.tsx:143-147 | Release seeks only if a drag was in progress, to `local * duration`. That target is in [0, duration] for a clamped progress and a non-negative duration. |
| Seekbar.ClickSeeksWherePressed | src/components/players/DesktopPlayer.tsx:120-147 | A press and release on a bar of positive width seeks to the cursor's fraction of the track. The progress fed back for that position is that same fraction. |
| Seekbar.MobileNeverHoldsNaNAfterUpdate | src/components/players/mobilePlayer.tsx:117 | A sync or a drag move leaves the mobile bar's progress a number. |
| Lyrics.ActiveLine | src/components/SpotifyClone/index.tsx:264-268 | The lookup returns the first line whose interval contains the time (the last line's is unbounded), or -1 exactly when no line's does. |
| Lyrics.SyncIndex | src/components/SpotifyClone/index.tsx:271-273 | A found line replaces the current index, and -1 keeps it. |
| Lyrics.ActiveLineSorted | src/components/index.tsx:254-258 | On sorted lines the lookup finds nothing exactly before the first line's time. Otherwise it finds the last line whose time has been reached. |
| Lyrics.ActiveLineMonotone | src/components/SpotifyClone/index.tsx:264-268 | On sorted lines the active line never moves backwards as playback advances. |
| Lyrics.EndTime | src/components/players/mobilePlayer.tsx:487-492 | A line ends at the next line's time. The last line, or one followed by time 0, ends at the duration. |
| Lyrics.LyricProgress | src/components/players/DesktopPlayer.tsx:299-308 | An index naming no line gives 0. Otherwise the result is NaN exactly for a zero-length segment at its start. Else it is in [0, 1], and inside a positive segment it is the elapsed fraction. |
| Lyrics.ActiveLineProgress | src/components/players/mobilePlayer.tsx:494-503 | While playback is inside the track, the active line's segment has positive length and its sweep is the elapsed fraction, below 1. |
| PlaylistImport.FindPattern | src/components/onboarding/SpotifyToDeezer.tsx:56 | The substring search answers exactly whether the pattern occurs. |
| PlaylistImport.MarkedUrlIncluded | src/components/onboarding/SpotifyToDeezer.tsx:56-59 | Any URL containing "spotify.com/playlist/" passes the test. |
| PlaylistImport.HandleConversion | src/components/onboarding/SpotifyToDeezer.tsx:55-72 | The service is asked exactly when the URL has the marker. A rejected URL or a failed request leaves the state unchanged, and a successful answer becomes the converted playlist. |
| PlaylistImport.IdString | src/components/onboarding/SpotifyToDeezer.tsx:82 | A text id is kept, and a numeric id renders as digits that read back as the number. |
| PlaylistImport.ToTrack | src/components/onboarding/SpotifyToDeezer.tsx:81-92 | An imported track keeps the id (as text), title, artist name, album title and the four cover sizes. |
| PlaylistImport.ToTracks | src/components/onboarding/SpotifyToDeezer.tsx:81 | The track list is mapped one for one, in order. |
| PlaylistImport.Migrate | src/components/onboarding/SpotifyToDeezer.tsx:74-92 | Nothing happens without a converted playlist. Otherwise the name and image come from the playlist and its first track, with defaults for empty ones, and all tracks are kept in order. Distinct numeric ids stay distinct. |
| CoverGrid.Layout | src/components/index.tsx:833-839 | The first min(4, n) covers are drawn, each as a 128-pixel tile at column `i % 2` and row `i / 2`, inside the 256-pixel canvas. |
| CoverGrid.LayoutTilesDisjoint | src/components/index.tsx:836-838 | No two tiles overlap. |
| CoverGrid.FullLayoutCoversCanvas | src/components/index.tsx:827-839 | With four or more covers every canvas pixel is covered. |
| Greeting.PartOf | src/components/index.tsx:155-159 | Morning is 5-11, afternoon 12-16, evening 17-20, and night the remaining hours. |
| Greeting.SeasonOf | src/components/SpotifyClone/index.tsx:112-115 | December to February is winter, followed by three-month spring, summer and autumn. Every real month has a season. |
| Greeting.HolidayOf | src/components/SpotifyClone/index.tsx:117-120 | Christmas, New Year's Eve, Halloween and Valentine's Day are recognised by month and day. |
| Greeting.GuardedGreeting | src/components/index.tsx:153-160 | The guarded greeting is the salutation for the part of the day. |
| Greeting.CloneGreeting | src/components/SpotifyClone/index.tsx:106-155 | A holiday greeting wins over the time of day. Otherwise the greeting is the salutation followed by the sentence for the part of the day and season. |
| Greeting.GreetingsAgreeOffHolidays | src/components/SpotifyClone/index.tsx:130-154 | On an ordinary day the guarded greeting is a prefix of the clone greeting. |
| Greeting.HolidayIgnoresHour | src/components/SpotifyClone/index.tsx:122-129 | On a holiday the greeting does not depend on the hour. |
| Greeting.RealMonthsHaveASeason | src/components/SpotifyClone/index.tsx:130-135 | For a real month the seasonless fallback sentence is never chosen. |

## Left out

- I/O of every kind is not modelled: `localStorage`, IndexedDB, `fetch`, toasts, the audio element's playback, `requestAnimationFrame` and the lyric auto-scroll. The effects that persist state are modelled only by the state they compute.
- Shuffle, random songs and colour extraction are left out because they depend on randomness and the network.
- `parseLyrics` is not modelled. It uses `parseFloat` and `toFixed(1)` rounding. Lyric times are taken as given reals.
- Floating-point rounding is not modelled. Finite numbers are exact reals and negative zero is not distinguished from zero.
- The clone `handleTrackEnd` is modelled only for its listen-count update (`Library.RecordListen`). Its nested state-updater callbacks interleave React updates in a way a single-snapshot model cannot express.
- The guarded `skipTrack` branch for an empty rest of queue is left out. It is unreachable once `queue.length > 1` has been checked on the same snapshot.
- The double-click path of the back and forward buttons is left out, because it depends on a 300 ms timer. Only the single-click decision is modelled.
- `isPlaying`, the `resetToStart` flag, the download flags and the context-menu plumbing are left out; they only drive rendering or I/O.
- Deleting a playlist in the guarded variant goes through IndexedDB and is not modelled. The filter itself is `Library.DeletePlaylist`.
- The composite cover's missing-canvas-context fallback is left out, along with image loading and `toDataURL`. Only the quadrant placement is modelled.
- Deezer ids that are negative or fractional numbers are not modelled. `PlaylistImport.DeezerId` covers text and natural-number ids.
- Tracks.AddToQueue: uses the corrected append `Tracks.AppendNewDistinct` (see Findings). The as-written batch behaviour is `Tracks.AppendNew`.
- Decimal.NatToString: JavaScript writes integers from 10^21 up in exponent form; the model always writes plain digits. Only a minutes field for a time of 6·10^22 seconds or more, or a Deezer id of 10^21 or more, would render differently.
- The seekbar's DOM measurement (`getBoundingClientRect`) is replaced by the `left` and `width` parameters.
- Lyrics.SyncIndex: the clone reads `currentTime || 0` and the guarded variant reads `currentTime` as is. Both are modelled with a real playback time, so a NaN time is not covered.

## Findings

| source | as written | input that shows it | evidently intended | confidence | as-written member | corrected member |
|---|---|---|---|---|---|---|
| src/components/index.tsx:388 | With repeat mode "all", the last-track test is `findIndex(...) === queue.length - 1`. | With an empty queue and a current track, `findIndex` is -1, which equals `0 - 1`. The handler then makes `queue[0]`, which is undefined, current. | The wrap to the first track should happen only when the current track is found at the last position. | medium, not executed | GuardedQueue.HandleTrackEndAsWritten | GuardedQueue.HandleTrackEnd |
| src/components/SpotifyClone/index.tsx:503-505 | `addToQueue` filters incoming tracks only against the old queue. | Adding the batch `[X, X]` to an empty queue gives a queue holding X twice. `removeFromQueue`, `findIndex` and the id-keyed filters then disagree about X. | Each incoming track should also be checked against the tracks added before it in the same batch. The same code is at src/components/index.tsx:719-725. | medium, not executed | Tracks.AppendNew | Tracks.AppendNewDistinct |
| src/components/index.tsx:736 | A click on a history entry prepends the track to the queue without removing a queued entry with the same id. | History `[A]`, queue `[B]` with `B` playing. Queueing `A` gives `[B, A]`, and clicking `A` in the history gives `[A, B, A]`. | The history track should move to the queue head, as `previousTrackFunc` does at src/components/index.tsx:338. | medium, not executed | GuardedQueue.OnQueueItemClickAsWritten | GuardedQueue.OnQueueItemClick |
