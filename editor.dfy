/**
 * The interactive-video editor's handling of timeline markers: the defaults it
 * gives its saved parameters, the slot check, and the two add operations that
 * splice a new bookmark or endscreen into its list.
 *
 * The player (`IV`) is host state. Its two occupancy maps appear here as the
 * fields `bookmarksMap` and `endscreensMap`. The editor reads them in the slot
 * check; how the player fills them inside `IV.addBookmark` / `IV.addEndscreen`
 * is not part of this model, so the add operations register the new slot
 * themselves, with the element the player stores there passed in as a
 * parameter: an explicit assumption about the player. The player's events,
 * its marker calls and the messages shown to the author are appended to `log`
 * in the order the editor issues them.
 */
module VideoEditor {
  import opened TimelineMarkers

  /** A message the editor shows the author through `displayMessage`. */
  datatype Notice = BookmarkAlreadyExists | EndscreenAlreadyExists

  /** One outward effect of the editor, in the order it happens. */
  datatype Effect =
    | Displayed(notice: Notice)
      /** `IV.trigger('bookmarksChanged', {index, number})`: markers from `index` on move up by `number`. */
    | BookmarksChanged(index: nat, number: nat)
      /** `IV.trigger('endscreensChanged', {index, number})`. */
    | EndscreensChanged(index: nat, number: nat)
      /**
       * `IV.addBookmark(index, slot)`: the player draws the bookmark in slot
       * `tenth`, which is ten times the `Math.floor(time * 10) / 10` the
       * editor passes. Showing it afterwards is the editor's own work on the
       * returned element and is not recorded.
       */
    | PlayerAddedBookmark(index: nat, tenth: int)
      /** `IV.addEndscreen(index, slot)`, `tenth` scaled as above; `shown` says whether the editor then shows it. */
    | PlayerAddedEndscreen(index: nat, tenth: int, shown: bool)

  /** The saved parameters handed to the editor, each list possibly missing. */
  datatype SavedParams<Interaction> = SavedParams(
    interactions: Option<seq<Interaction>>,
    bookmarks: Option<seq<Marker>>,
    endscreens: Option<seq<Marker>>)

  /** A list that may be missing from the saved parameters, missing read as empty. */
  function OrEmpty<T>(list: Option<seq<T>>): seq<T>
  {
    if list.Some? then list.value else []
  }

  /**
   * Which conflict the slot check reports for slot `tenth`, if any: a
   * bookmark in the slot is reported before an endscreen in it.
   */
  function SlotConflict<Element>(bookmarksMap: map<int, Element>, endscreensMap: map<int, Element>, tenth: int): (c: Option<Notice>)
    ensures c.None? <==> tenth !in bookmarksMap && tenth !in endscreensMap
    ensures c == Some(BookmarkAlreadyExists) <==> tenth in bookmarksMap
    ensures c == Some(EndscreenAlreadyExists) <==> tenth !in bookmarksMap && tenth in endscreensMap
  {
    if tenth in bookmarksMap then Some(BookmarkAlreadyExists)
    else if tenth in endscreensMap then Some(EndscreenAlreadyExists)
    else None
  }

  /**
   * The time an endscreen is added at, `time || currentTime`: an absent time
   * and a time of zero both fall back to the current playback time.
   */
  function EffectiveTime(time: Option<real>, currentTime: real): real
  {
    if time.None? || time.value == 0.0 then currentTime else time.value
  }

  /**
   * The editor. `Interaction` stands for the saved parameters of one
   * interaction and `Element` for the player's marker element; the editor
   * looks inside neither.
   */
  class InteractiveVideoEditor<Interaction, Element> {
    /** True only when the editor was opened without saved parameters. */
    var freshVideo: bool
    var interactions: seq<Interaction>
    var bookmarks: seq<Marker>
    var endscreens: seq<Marker>
    /** The player's `bookmarksMap`: the slots the player holds a bookmark in. */
    var bookmarksMap: map<int, Element>
    /** The player's `endscreensMap`. */
    var endscreensMap: map<int, Element>
    var log: seq<Effect>

    /**
     * Opens the editor on `params`, absent for a new video. Missing lists
     * default to empty ones; no player exists yet, so its maps are empty.
     */
    constructor (params: Option<SavedParams<Interaction>>)
      ensures freshVideo <==> params.None?
      ensures params.None? ==> interactions == [] && bookmarks == [] && endscreens == []
      ensures params.Some? ==>
        && interactions == OrEmpty(params.value.interactions)
        && bookmarks == OrEmpty(params.value.bookmarks)
        && endscreens == OrEmpty(params.value.endscreens)
      ensures bookmarksMap == map[] && endscreensMap == map[] && log == []
      ensures params.None? ==> SlotsRegistered(bookmarks, endscreens, bookmarksMap, endscreensMap)
    {
      freshVideo := params.None?;
      if params.Some? {
        interactions := OrEmpty(params.value.interactions);
        bookmarks := OrEmpty(params.value.bookmarks);
        endscreens := OrEmpty(params.value.endscreens);
      } else {
        interactions, bookmarks, endscreens := [], [], [];
      }
      bookmarksMap, endscreensMap := map[], map[];
      log := [];
    }

    /**
     * Whether slot `tenth` is free of both bookmarks and endscreens; when it
     * is not, the conflict is shown to the author and nothing else happens.
     */
    method CheckMarkerSpace(tenth: int) returns (free: bool)
      modifies this`log
      ensures free <==> tenth !in bookmarksMap && tenth !in endscreensMap
      ensures var c := SlotConflict(bookmarksMap, endscreensMap, tenth);
        log == old(log) + if c.Some? then [Displayed(c.value)] else []
    {
      if tenth in bookmarksMap {
        log := log + [Displayed(BookmarkAlreadyExists)];
        return false;
      }
      if tenth in endscreensMap {
        log := log + [Displayed(EndscreenAlreadyExists)];
        return false;
      }
      return true;
    }

    /**
     * Adds a bookmark labelled `newBookmark` at the current playback time:
     * at the first entry later than that time, unless its slot is taken.
     * `element` is what the player stores for the new bookmark's slot.
     */
    method AddBookmark(currentTime: real, newBookmark: string, element: Element)
      modifies this`bookmarks, this`bookmarksMap, this`log
      ensures var tenth := Tenth(currentTime);
        var c := SlotConflict(old(bookmarksMap), endscreensMap, tenth);
        c.Some? ==>
          && bookmarks == old(bookmarks) && bookmarksMap == old(bookmarksMap)
          && log == old(log) + [Displayed(c.value)]
      ensures var tenth := Tenth(currentTime);
        var i := InsertionIndex(old(bookmarks), currentTime);
        SlotConflict(old(bookmarksMap), endscreensMap, tenth).None? ==>
          && bookmarks == InsertAt(old(bookmarks), i, Marker(currentTime, newBookmark))
          && bookmarksMap == old(bookmarksMap)[tenth := element]
          && log == old(log) + [BookmarksChanged(i, 1)] + [PlayerAddedBookmark(i, tenth)]
      ensures Sorted(old(bookmarks)) ==> Sorted(bookmarks)
      ensures SlotsRegistered(old(bookmarks), endscreens, old(bookmarksMap), endscreensMap) ==>
        SlotsRegistered(bookmarks, endscreens, bookmarksMap, endscreensMap)
    {
      ghost var before, beforeMap := bookmarks, bookmarksMap;
      var time := currentTime;
      var i := FindInsertionIndex(bookmarks, time);
      var tenth := Tenth(time);
      var free := CheckMarkerSpace(tenth);
      if !free {
        return;
      }
      assert log == old(log) && tenth !in beforeMap && tenth !in endscreensMap;
      var m := Marker(time, newBookmark);
      log := log + [BookmarksChanged(i, 1)];
      bookmarks := InsertAt(bookmarks, i, m);
      log := log + [PlayerAddedBookmark(i, tenth)];
      bookmarksMap := bookmarksMap[tenth := element];
      if Sorted(before) {
        InsertKeepsSorted(before, m);
      }
      InsertKeepsSlotsRegistered(before, endscreens, beforeMap, endscreensMap, m, element);
    }

    /**
     * Adds an endscreen at `time`, or at the current playback time when
     * `time` is absent or zero, labelled with the humanized time and the word
     * `endscreen`. With `freshOnly` it does nothing unless the video is fresh,
     * and the new endscreen is not shown. `element` is what the player stores
     * for the new endscreen's slot.
     */
    method AddEndscreen(time: Option<real>, freshOnly: bool, currentTime: real,
                        humanizeTime: real -> string, endscreen: string, element: Element)
      modifies this`endscreens, this`endscreensMap, this`log
      ensures !freshVideo && freshOnly ==>
        endscreens == old(endscreens) && endscreensMap == old(endscreensMap) && log == old(log)
      ensures freshVideo || !freshOnly ==>
        var t := EffectiveTime(time, currentTime);
        var c := SlotConflict(bookmarksMap, old(endscreensMap), Tenth(t));
        c.Some? ==>
          && endscreens == old(endscreens) && endscreensMap == old(endscreensMap)
          && log == old(log) + [Displayed(c.value)]
      ensures freshVideo || !freshOnly ==>
        var t := EffectiveTime(time, currentTime);
        var tenth := Tenth(t);
        var i := InsertionIndex(old(endscreens), t);
        SlotConflict(bookmarksMap, old(endscreensMap), tenth).None? ==>
          && endscreens == InsertAt(old(endscreens), i, Marker(t, humanizeTime(t) + " " + endscreen))
          && endscreensMap == old(endscreensMap)[tenth := element]
          && log == old(log) + [EndscreensChanged(i, 1)] + [PlayerAddedEndscreen(i, tenth, !freshOnly)]
      ensures Sorted(old(endscreens)) ==> Sorted(endscreens)
      ensures SlotsRegistered(old(endscreens), bookmarks, old(endscreensMap), bookmarksMap) ==>
        SlotsRegistered(endscreens, bookmarks, endscreensMap, bookmarksMap)
    {
      if !freshVideo && freshOnly {
        return;
      }
      ghost var before, beforeMap := endscreens, endscreensMap;
      var t := EffectiveTime(time, currentTime);
      var i := FindInsertionIndex(endscreens, t);
      var tenth := Tenth(t);
      var free := CheckMarkerSpace(tenth);
      if !free {
        return;
      }
      assert log == old(log) && tenth !in beforeMap && tenth !in bookmarksMap;
      var m := Marker(t, humanizeTime(t) + " " + endscreen);
      log := log + [EndscreensChanged(i, 1)];
      endscreens := InsertAt(endscreens, i, m);
      log := log + [PlayerAddedEndscreen(i, tenth, !freshOnly)];
      endscreensMap := endscreensMap[tenth := element];
      if Sorted(before) {
        InsertKeepsSorted(before, m);
      }
      InsertKeepsSlotsRegistered(before, bookmarks, beforeMap, bookmarksMap, m, element);
    }
  }

  /**
   * A first bookmark on a new video lands at index 0 and the player gets its
   * slot; a second click at the same time is refused with the bookmark message.
   */
  method ExampleFirstBookmark()
  {
    var editor := new InteractiveVideoEditor<string, nat>(None);
    assert editor.freshVideo;
    editor.AddBookmark(5.37, "A", 1);
    assert Tenth(5.37) == 53;
    assert InsertAt([], 0, Marker(5.37, "A")) == [Marker(5.37, "A")];
    assert editor.bookmarks == [Marker(5.37, "A")];
    assert editor.log == [BookmarksChanged(0, 1), PlayerAddedBookmark(0, 53)];
    editor.AddBookmark(5.37, "B", 2);
    assert editor.bookmarks == [Marker(5.37, "A")];
    assert editor.log[2..] == [Displayed(BookmarkAlreadyExists)];
  }

  /** A bookmark between two saved ones lands between them. */
  method ExampleBookmarkBetween()
  {
    var saved := [Marker(2.0, "a"), Marker(8.0, "c")];
    var editor := new InteractiveVideoEditor<string, nat>(Some(SavedParams(None, Some(saved), None)));
    assert !editor.freshVideo && editor.endscreens == [];
    assert InsertionIndex(saved, 5.0) == 1;
    editor.AddBookmark(5.0, "B", 1);
    assert editor.bookmarks == [Marker(2.0, "a"), Marker(5.0, "B"), Marker(8.0, "c")];
  }

  /** An endscreen is refused, with the bookmark message, in the slot of an added bookmark. */
  method ExampleSlotTaken()
  {
    var editor := new InteractiveVideoEditor<string, nat>(None);
    editor.AddBookmark(3.12, "A", 1);
    assert Tenth(3.12) == 31 && Tenth(3.14) == 31;
    editor.log := [];
    editor.AddEndscreen(Some(3.14), false, 0.0, (t: real) => "0:03", "Endscreen", 2);
    assert editor.endscreens == [];
    assert editor.log == [Displayed(BookmarkAlreadyExists)];
  }

  /** A fresh-only endscreen is skipped for a video opened from saved parameters. */
  method ExampleFreshOnlySkipped()
  {
    var editor := new InteractiveVideoEditor<string, nat>(Some(SavedParams(None, None, None)));
    editor.AddEndscreen(Some(60.0), true, 12.5, (t: real) => "1:00", "Endscreen", 1);
    assert editor.endscreens == [] && editor.log == [];
  }
}
