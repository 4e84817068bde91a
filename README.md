# Timeline markers of the interactive-video editor

This project models, in Dafny, how the interactive-video editor adds timeline markers. It covers the bookmarks and endscreens an author places on a video. The editor keeps them in two lists of its saved parameters, `params.bookmarks` and `params.endscreens`. Each entry holds a raw time in seconds and a label.

Adding a marker works in four steps:

1. The editor scans the target list for the first entry whose time is strictly later than the new time.
2. It truncates the new time to a tenth-of-a-second slot and asks whether the player already holds a bookmark or an endscreen in that slot. If it does, the editor shows the matching message and stops.
3. It announces that the markers from the found index on move up by one.
4. It splices the new entry in at that index and hands the index and the slot to the player.

The model has two modules:

- `TimelineMarkers` (`markers.dfy`) holds the values:
  - the marker type and the slot function `Tenth`;
  - `InsertionIndex`, which defines the insertion point;
  - `FindInsertionIndex`, the scan loop, proved to compute that point;
  - `InsertAt`, the splice;
  - lemmas on sortedness and on keeping the slot maps consistent.
- `VideoEditor` (`editor.dfy`) holds the editor as the class `InteractiveVideoEditor`. Its fields are:
  - `freshVideo`;
  - the three lists of its parameters;
  - the player's two occupancy maps, read by the slot check and given the new slot by a successful add;
  - `log`, the ordered record of what the editor does to the outside world: messages shown, events triggered on the player, and marker calls to the player.

The constructor, `CheckMarkerSpace`, `AddBookmark` and `AddEndscreen` are methods of the class. Small client methods at the end of `editor.dfy` walk through concrete sessions using only the contracts.

A slot is keyed by the integer `Floor(time * 10)`. The editor itself uses `Math.floor(time * 10) / 10`, which is one tenth of that integer, so both name the same slot. Times are real numbers. The current playback time, the localised label texts and `humanizeTime` become method parameters.

Two points where the editor differs from a self-contained marker registry, followed here as the code has them:

- The slot check has a side effect: it shows the author a message.
- The occupancy maps belong to the player, which fills them inside `IV.addBookmark` / `IV.addEndscreen`; that code is not part of this model. The model makes an explicit assumption in its place: after the splice and the player call, a successful add stores the new slot in the target list's map, with the element the player keeps there passed in as the `element` parameter. Under that assumption both add operations preserve `SlotsRegistered`: every marker has its own slot, and no slot is shared within a list or between the two lists (lemma `InsertKeepsSlotsRegistered`). A second add in an occupied slot is therefore refused, as in the program.

## Model

| member | source | states |
|---|---|---|
| `TimelineMarkers.Tenth` | interactive-video.js:342 | the slot of a time is the integer k with k <= 10·time < k + 1, i.e. the time truncated down to a tenth of a second |
| `TimelineMarkers.InsertionIndex` | interactive-video.js:334-339 | the insertion point is at most the list length, every entry before it is no later than the new time, and the entry at it (if any) is strictly later |
| `TimelineMarkers.FindInsertionIndex` | interactive-video.js:388-393 | the ascending scan that breaks at the first strictly later entry stops exactly at the insertion point (both add operations use it) |
| `TimelineMarkers.InsertionIndexIsFirstGreater` | interactive-video.js:334-339 | converse: any index with "all before are no later, the one at it is later" is the insertion point, so the landing place is unique |
| `TimelineMarkers.LatestIsAppended` | interactive-video.js:334-339 | a marker no earlier than every existing entry is appended at the end |
| `TimelineMarkers.EarliestGoesFirst` | interactive-video.js:334-339 | a marker earlier than the first entry goes to index 0 |
| `TimelineMarkers.SortedTailIsLater` | interactive-video.js:334-339 | in a list sorted by time, every entry from the insertion point on is strictly later than the new time |
| `TimelineMarkers.InsertAt` | interactive-video.js:361-364 | `splice(i, 0, m)`: the list grows by one, `m` is at `i`, entries before `i` are unchanged, entries from `i` move to `i + 1` in the same order, and the multiset gains exactly `m` |
| `TimelineMarkers.InsertKeepsSorted` | interactive-video.js:334-364 | splicing a marker in at its insertion point keeps a list that is non-decreasing by time non-decreasing |
| `TimelineMarkers.SlotsOfInsertAt` | interactive-video.js:342-367 | after the splice, the slots of the list are the old slots plus the new marker's slot |
| `TimelineMarkers.InsertFreeSlotKeepsDistinct` | interactive-video.js:342-367 | splicing in a marker whose slot no entry uses keeps every slot of the list distinct |
| `TimelineMarkers.InsertKeepsSlotsRegistered` | interactive-video.js:415-421 | for a marker whose slot is in neither map: if each map's keys are exactly its list's slots, all slots are distinct and the maps are disjoint, then splicing the marker in at its insertion point and registering its slot in the target list's map keeps all of that |
| `VideoEditor.SlotConflict` | interactive-video.js:434-444 | no conflict iff neither map has the slot; a bookmark in the slot is reported even when an endscreen is there too; the endscreen conflict only when no bookmark holds the slot |
| `VideoEditor.InteractiveVideoEditor.constructor` | interactive-video.js:53-62 | `freshVideo` iff no saved parameters were given; missing interactions, bookmarks and endscreens default to empty lists, given ones are kept; a new video starts with lists and maps in step |
| `VideoEditor.InteractiveVideoEditor.CheckMarkerSpace` | interactive-video.js:434-444 | returns true iff neither map holds the slot; otherwise exactly one message is added to the log, the bookmark one taking precedence; only the log changes |
| `VideoEditor.InteractiveVideoEditor.AddBookmark` | interactive-video.js:329-370 | on a taken slot (checked against the maps as they were), the conflict message is the only effect: list, map and shift events are untouched. Otherwise the raw time and label are spliced in at the insertion point, the shift event `(i, 1)` comes before the player call with `(i, tenth)`, and the slot is registered in the bookmark map. A sorted list stays sorted, and lists and maps that were in step stay in step. Endscreens, their map and `freshVideo` are not modified. |
| `VideoEditor.InteractiveVideoEditor.AddEndscreen` | interactive-video.js:378-425 | a fresh-only add on a non-fresh editor changes nothing. Otherwise it works like AddBookmark at the given time, or the current time when that is absent or zero, with the label `humanizeTime(t) + " " + endscreen`; the slot goes into the endscreen map, and the player call records whether the endscreen is shown (not for fresh-only). Bookmarks and their map are not modified. |

## Left out

- The player bootstrap, DOM and jQuery work are not modelled: `setActive`, the focus handler, resize listeners, DragNBar creation, the add-bookmark and add-endscreen menu buttons, and the dialog-hiding clicks in both add operations. They act on host objects only.
- Field lookup and wiring are not modelled: `findField`, the `setVideo` / `setPoster` change listeners, `setValue` and the guided tour. They are asynchronous callbacks into the host editor.
- Interaction title placement is not modelled: `setInteractionTitles`, `showInteractionTitle` and `hideInteractionTitle`. They are pixel geometry read from the page.
- The player's side is not modelled: what `IV.addBookmark` / `IV.addEndscreen` do beyond registering the slot, and how listeners react to `bookmarksChanged` / `endscreensChanged`. The calls and events are recorded in `log`. The registration itself is the explicit assumption described above.
- What the editor does with the element the player returns is not modelled: `$bookmark.addClass('ivmedia-show')`, the click on the bookmark text, and `$endscreen.addClass`. The only trace is the `shown` flag of the endscreen call.
- `IV.video.getCurrentTime()`, `IV.humanizeTime` and the `t(...)` translations are method parameters.
- `displayMessage` is recorded as a `Displayed` entry in `log`.
- IEEE floating point is not modelled. Times are reals, and the slot is the exact floor of `time * 10`, so rounding of `time * 10` at slot boundaries is not reproduced.
- AddEndscreen: the `time || currentTime` fallback treats `undefined` and `0` as "use the current time", so an endscreen asked for at exactly 0 s is placed at the current time. The model keeps this behaviour. JavaScript's `NaN`, also falsy, has no counterpart among reals.
- AddBookmark, AddEndscreen: the contracts record the order of events in `log`, and the method bodies splice only after the shift event. What a listener of that event would see of the list at that moment is not stated, because the listeners are not part of the model.
- VideoEditor.InteractiveVideoEditor.constructor: `$.extend` keeps any further properties of the saved parameters. The model carries only the three lists.
- VideoEditor.InteractiveVideoEditor.constructor: a session opened from saved markers starts with empty maps, because the player builds its maps from the saved lists in code that is not part of this model. Lists and maps are in step at the start only for a new video. For saved markers, the add operations keep them in step only where a caller has set the maps to match.
- Sharing of the marker lists is not modelled. `$.extend` copies only one level deep (interactive-video.js:57-61), so `params.bookmarks` is the caller's own array, and the player is built on the same object (`assets: this.params`, interactive-video.js:163). The in-place `splice` is seen by all of them. Here each list is a `seq` field of the editor, so no other holder sees the change.
