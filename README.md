# Camera monitoring app: the patched Dart core, modelled in Dafny

The repository is a Flutter camera-monitoring client whose screens were repaired by
Python patch scripts. The behaviour lives in the Dart code that those scripts write,
plus a few scripts whose own text processing has real logic. This project models that
Dart code and that script logic, and proves properties of the model:

- `slot_controller.dfy` (module `MultiLiveView`) covers the multi-camera live view's
  slot controller. It keeps a fixed page of 20 slots. Four index-aligned per-slot lists
  hold the assigned camera, the player (with its video controller), the buffering flag
  and the error flag. The arrays are created once and written by index. Players are
  objects that count `open`, `stop` and `dispose` calls and hold their playlist. Also
  modelled: loading, streaming, the player listeners, the column rule, the
  layout-change and refresh handling, `dispose`, and which cell the grid draws for
  each slot.
- `grid_geometry.dfy` (module `GridGeometry`) covers the grid arithmetic, over exact
  reals:
  - the LayoutBuilder sizing, where rows are `ceil(20 / columns)` and the cells
    divide the container exactly;
  - the earlier fixed-five-row aspect ratio, which is a finding below;
  - the paged layout's pagination allowance, available height, container height and
    cell height, together with the earlier double subtraction;
  - the row-count policies.
- `record_view_patch.dfy` (module `RecordViewPatch`) covers two repairs of a recordings
  screen whose `_downloadRecording` method appears twice. One is a one-pass line
  filter, written as a loop method and proved equal to a recursive specification. The
  other is a find-and-slice removal of the second definition.
- `websocket_provider.dfy` (module `WebSocketLog`) covers the WebSocket provider's log
  bookkeeping: tagged log lines, sent and received counters, log listeners and the
  last message. It also covers the `upTime` coercion of `sysinfo` messages.
- `recordings.dfy` (module `Recordings`) covers `_fetchRecordings` on the recordings
  screen: the guard clauses, the recordings URL, and the extraction of date folders
  into the recordings-by-date map. It also covers the script guard that decides
  whether the damaged method is replaced.
- `text.dfy` (module `Text`) and `dart_int.dfy` (module `DartInt`) hold the library
  behaviour these rely on:
  - Python's `str.find`, slicing and `strip`;
  - Dart's `split` and `join` on one character;
  - Dart's `int.tryParse`/`int.parse` and `toString` on 64-bit integers.

The abstractions:

- The socket is reduced to three facts: whether it exists, whether it is connected,
  and the error `add` throws, if any.
- The player's error and buffering streams become explicit method calls.
- The device lookup and the HTTP response are inputs to the fetch.
- The regular-expression matches of the directory listing are an input sequence.

## Model

| member | source | states |
|---|---|---|
| `MultiLiveView.ColumnsForWidth` | fix_fill.py:99-112 | Below 900 logical pixels the grid has 2 or 3 columns whatever the layout asks for; from 900 on it has exactly the layout's columns |
| `MultiLiveView.ColumnsMonotoneInWidth` | fix_fill.py:99-112 | For a layout of at least 3 columns, a wider screen never gets fewer columns |
| `MultiLiveView.SlotsHoldRosterPrefix` | fix_fill.py:127-133 | After a load, slot i (i < 20) is filled exactly when i < the roster length, and then holds roster camera i; an empty roster leaves every slot empty |
| `MultiLiveView.VideoCellsAreStreamedSlots` | simpler_fix.py:236-238 | With all players created, a slot's cell shows video exactly when the load handed that slot's camera to `_streamCamera` (filled and connected) |
| `MultiLiveView.Player.constructor` | fix_fill.py:45 | A new player has an empty playlist and has not been opened, stopped or disposed |
| `MultiLiveView.Player.Open` | fix_fill.py:153-155 | Opening makes the given URI the whole playlist and counts one open; stop and dispose counts are unchanged |
| `MultiLiveView.Player.Stop` | fix_fill.py:120-122 | Stopping unloads the playlist and counts one stop; open and dispose counts are unchanged |
| `MultiLiveView.Player.Dispose` | fix_fill.py:165-167 | Disposing counts one dispose and changes nothing else |
| `MultiLiveView.VideoController.constructor` | fix_fill.py:46 | A controller is bound to the player it was built for |
| `MultiLiveView.MultiLiveViewState.constructor` | fix_fill.py:28-34 | Three fresh 20-entry slot lists: all slots empty, not loading, no error; no players yet; 4 columns and the default layout |
| `MultiLiveView.MultiLiveViewState.InitializePlayers` | fix_fill.py:42-70 | Afterwards there are exactly 20 fresh, untouched players and 20 controllers, index-aligned (controller i drives player i), no player shared by two slots; roster, columns and layout unchanged |
| `MultiLiveView.MultiLiveViewState.OnPlayerError` | fix_fill.py:52-59 | An error on player i raises error flag i and leaves every other error flag as it was |
| `MultiLiveView.MultiLiveViewState.OnPlayerBuffering` | fix_fill.py:62-68 | A buffering event on player i copies its value into loading flag i only |
| `MultiLiveView.MultiLiveViewState.UpdateGridColumnsBasedOnScreenSize` | fix_fill.py:99-112 | The column count becomes the width rule's value for the current layout |
| `MultiLiveView.MultiLiveViewState.StreamCamera` | fix_fill.py:143-160 | The slot's error flag ends true exactly when a player exists and the URI is empty; the player is opened (once, with the URI) exactly when the URI is non-empty and its playlist was empty; no other flag changes and no player is stopped or disposed |
| `MultiLiveView.MultiLiveViewState.LoadCamerasForCurrentPage` | fix_fill.py:115-140 | Slot i ends holding roster camera i for i < min(20, roster length) and empty otherwise. Every player is stopped exactly once. A player is opened exactly when its slot's camera is connected with a URI. Error flags change only for streamed slots. Loading flags, players, controllers and dispose counts are untouched |
| `MultiLiveView.MultiLiveViewState.ClearAndStopSlots` | fix_fill.py:116-124 | Every one of the 20 slots is emptied and every player is stopped exactly once before anything is assigned |
| `MultiLiveView.MultiLiveViewState.AssignSlots` | fix_fill.py:127-139 | On cleared slots and stopped players, slot i gets roster camera i up to min(20, roster length). Only connected cameras are streamed: a disconnected camera is assigned, but its player is not opened and its error flag is untouched |
| `MultiLiveView.MultiLiveViewState.AssignSlot` | fix_fill.py:131-137 | One pass of the loop: slot i gets roster camera i and nothing else is reassigned. Its player is opened with the URI exactly when the camera is connected, has a URI and the slot has a player. Error flag i is rewritten only for a connected camera with a player |
| `MultiLiveView.MultiLiveViewState.Refresh` | simpler_fix.py:200-205 | Refreshing always reloads the slots from the roster already held, with the load outcome above |
| `MultiLiveView.MultiLiveViewState.DidChangeDependencies` | fix_fill.py:73-96 | The provider's layout (when present) and roster are taken over, the slots are loaded from that roster, and the columns fit the screen width |
| `MultiLiveView.MultiLiveViewState.OnBuild` | simpler_fix.py:180-191 | A provider layout with a different id replaces the current one and recomputes the columns; an equal id changes neither. The slots are reloaded only when the held roster is empty and the provider has cameras; otherwise slots, flags and players are untouched |
| `MultiLiveView.MultiLiveViewState.Dispose` | fix_fill.py:163-170 | Every player is disposed exactly once and nothing else about it changes |
| `MultiLiveView.MultiLiveViewState.Grid` | simpler_fix.py:233-238 | The grid always has exactly 20 cells, however many cameras are assigned; cell i shows video exactly when slot i holds a connected camera, and the "No Camera" placeholder otherwise |
| `GridGeometry.RowsFor` | simpler_fix.py:219 | The row count is the ceiling of 20 / columns: rows·columns ≥ 20 and (rows−1)·columns < 20 |
| `GridGeometry.LayoutGeometry` | simpler_fix.py:215-229 | There is a geometry exactly when the column count is positive. Then the cells tile the box exactly: itemWidth·columns = width and itemHeight·rows = height, with the ceiling row count. The aspect ratio exists exactly when the height is non-zero, and it is itemWidth / itemHeight |
| `GridGeometry.CellsFillBody` | simpler_fix.py:211-223 | With the container sized to the screen less the app bar and top inset, the rows of cells plus the app bar and inset make up the whole screen height and the columns the whole width, with room for all 20 slots |
| `GridGeometry.FixedRowHeight` | fix_fill.py:225 | Under the fixed-row aspect ratio every row is a fifth of the full screen height, whatever the column count |
| `GridGeometry.FixedRowGridOverflows` | fix_fill.py:194-225 | With at most four columns the fixed-row grid is at least as tall as the whole screen, so taller than the body below the app bar |
| `GridGeometry.FixedRowCounterexample` | fix_fill.py:225 | A 1200×800 screen with 4 columns gets an 800-high grid in a 744-high body; a 400×800 screen with 2 columns gets a 1600-high grid |
| `GridGeometry.PaginationControlsHeight` | fix_multiview3.py:11 | The page controls take a positive height exactly when there is more than one page, and never a negative one |
| `GridGeometry.AvailableHeight` | fix_multiview3.py:15 | For every pagination height, the available height equals the earlier available height of fix_multiview.py:10 (which still subtracted the pagination controls) with that height given back and the half-pixel margin taken |
| `GridGeometry.GridContainerHeight` | fix_multiview3.py:21 | The container and the page controls add up to the available height; with one page the container is the whole available height |
| `GridGeometry.CellHeight` | fix_multiview3.py:27 | The cell height times the number of rows is exactly the container height |
| `GridGeometry.PaginationSubtractedOnce` | fix_multiview3.py:11-27 | The screen splits exactly into chrome, page controls (48 only with more than one page), the half-pixel margin and the grid container, so the allowance is taken once. The cell rows fill the container exactly. With one page the container is the whole available height |
| `GridGeometry.TwoPageExample` | fix_multiview3.py:15-27 | On an 800-high screen with a 56 app bar and two pages: available 743.5, container 695.5, cells 139.1 high over five rows |
| `GridGeometry.LegacyDoubleSubtraction` | file_updater2.py:16-17 | The earlier formulas subtracted the pagination height inside `availableHeight` (fix_multiview.py:10) and again for the cells, so the rows end exactly one pagination height short |
| `GridGeometry.LayoutActiveRows` | fix_layout_fill.py:14 | The layout-rows policy always gives a positive row count, so the cell height is defined: the layout's own rows when positive, and otherwise the five rows that fix_final.py:16 later fixes for every layout |
| `GridGeometry.OccupancyRows` | fix_layout_fill.py:10 | The first policy is the ceiling of active cameras / columns: rows·columns ≥ count and (rows−1)·columns < count. It is zero exactly when no camera is active, so the cell height then divides by zero |
| `GridGeometry.OccupancyWithinPage` | fix_layout_fill.py:10 | For at most 20 active cameras the occupancy rows never exceed the rows of a full page, and 20 active cameras need exactly those rows |
| `RecordViewPatch.RemoveDuplicateDefinitions` | fix_record_view2.py:19-39 | The loop with its `method_found`/`skip_current` flags produces exactly the line filter's result |
| `RecordViewPatch.CommentIsNotHeader` | fix_record_view2.py:21-25 | The inserted comment line is never itself taken for a header |
| `RecordViewPatch.FilterKeepsOneHeader` | fix_record_view2.py:21-31 | The output contains exactly one header line when the input has any, and none otherwise |
| `RecordViewPatch.FilterLength` | fix_record_view2.py:19-39 | The output has at most one line more than the input |
| `RecordViewPatch.FilterOutputFromInput` | fix_record_view2.py:19-39 | Every output line is the inserted comment or a line of the input |
| `RecordViewPatch.FilterCopiesHeaderFree` | fix_record_view2.py:38-39 | Outside a skipped block, header-free lines are copied unchanged and in order |
| `RecordViewPatch.NoHeaderUnchanged` | fix_record_view2.py:19-39 | An input without a header line comes back unchanged |
| `RecordViewPatch.FirstHeaderKept` | fix_record_view2.py:21-26 | The first header is kept, preceded by exactly one inserted comment line, after the unchanged lines before it |
| `RecordViewPatch.BlockEndIsNotHeader` | fix_record_view2.py:21-34 | A line that strips to a lone `}` is never taken for a header |
| `RecordViewPatch.DuplicateBlockDropped` | fix_record_view2.py:27-36 | A later header, its body and the first lone `}` after it are all dropped, and copying resumes behind that brace |
| `RecordViewPatch.SkippedBodyDropped` | fix_record_view2.py:34-36 | While skipping, every line that is not a lone `}` or a header is dropped |
| `RecordViewPatch.BlockEndAfterHeader` | fix_record_view.py:13 | The block end found after a header cannot end inside that header |
| `RecordViewPatch.HeaderAfterBlockEnd` | fix_record_view.py:18 | The second header is searched from the first block end, so it starts after that block end and is never the first occurrence |
| `RecordViewPatch.RemoveSecond` | fix_record_view.py:8-28 | The removal happens exactly when all four searches succeed, each from where the previous one matched, and then the result is the content with the text from 25 characters before the second header through 4 characters past the start of its block end cut out; otherwise a not-found message is returned and the content is left as it was |
| `RecordViewPatch.RemovalShape` | fix_record_view.py:28 | The second header starts at least 50 characters after the first, so the cut starts at a real index (≥ 25). The result is the content before the cut plus the content after it, both verbatim. The removed span is (end+4) − (start−25), clipped at the end of the content |
| `WebSocketLog.LogLine` | fix_websocket_provider.py:46 | Every printed log line parses back to the entry it was printed from |
| `WebSocketLog.PrintParsed` | fix_websocket_provider.py:101 | Every line that parses is the printed form of what it parses to |
| `WebSocketLog.LogLinesDistinct` | fix_websocket_provider.py:46 | Two entries print the same line exactly when they are equal; no sent line reads as a received one |
| `WebSocketLog.AppendLogLine` | fix_websocket_provider.py:101 | Appending a line keeps every line tagged and adds one to the count of its own direction only |
| `WebSocketLog.RemoveFirst` | fix_websocket_provider.py:73-75 | Removing a listener that is not registered changes nothing; removing a registered one leaves a list one shorter |
| `WebSocketLog.RemoveFirstRemovesOne` | fix_websocket_provider.py:73-75 | Removing a registered listener takes out exactly its first registration: the result is the list before that position followed by the list after it, so the order of the others is kept and the multiset loses one copy of the listener |
| `WebSocketLog.AddThenRemove` | fix_websocket_provider.py:68-75 | Adding a new listener and then removing it restores the listener list |
| `WebSocketLog.WebSocketProvider.constructor` | fix_websocket_provider.py:21 | A new provider has empty logs, zero counters, no listeners, no last message and no error |
| `WebSocketLog.WebSocketProvider.NotifyLogListeners` | fix_websocket_provider.py:78-82 | Each registered listener is handed the current log once per registration, and no listener is handed anything else |
| `WebSocketLog.WebSocketProvider.SendMessage` | fix_websocket_provider.py:41-58 | With a connected socket whose `add` succeeds, the frame is sent, the sent counter goes up by 1, "➡️ " + message is appended and the listeners are notified. If `add` throws, only the error message changes, to "Failed to send message: " + the error. Without a connected socket the error message is "WebSocket not connected" and logs and counters are unchanged. Every path notifies once and keeps the log invariant |
| `WebSocketLog.WebSocketProvider.RecordSent` | fix_websocket_provider.py:43-48 | After a successful add: one more frame, one more sent count, one more sent line, listeners handed the new log |
| `WebSocketLog.WebSocketProvider.ClearLogs` | fix_websocket_provider.py:61-65 | The log becomes empty, both counters stay, the listeners are handed the empty log |
| `WebSocketLog.WebSocketProvider.AddLogListener` | fix_websocket_provider.py:68-70 | The listener is appended, one more registration of it |
| `WebSocketLog.WebSocketProvider.RemoveLogListener` | fix_websocket_provider.py:73-75 | The first registration of the listener is removed, if any |
| `WebSocketLog.WebSocketProvider.HandleMessage` | fix_websocket_provider.py:97-103 | The message becomes the last message, the received counter goes up by 1, "⬅️ " + message is appended and the listeners are notified; the sent side is untouched |
| `WebSocketLog.CoerceSysinfo` | fix_websocket_provider.py:106-112 | In a `sysinfo` message a string `upTime` becomes `int.tryParse(upTime)`, or 0 when that fails. No key is added or removed, no other entry changes, other messages are untouched, and a coerced message never has a string uptime |
| `WebSocketLog.CoerceIdempotent` | fix_websocket_provider.py:106-112 | Coercing twice is the same as coercing once |
| `WebSocketLog.CoercePrintedUptime` | fix_websocket_provider.py:111 | An uptime sent as the decimal text of a 64-bit integer arrives as that integer |
| `WebSocketLog.UpTimeField` | fix_sysinfo_uptime.py:17-21 | `fromJson` reads an integer uptime as itself, and a string or null without failing; any other value makes it throw |
| `WebSocketLog.CoercionAgreesWithFromJson` | fix_sysinfo_uptime.py:20 | `fromJson` reads the same uptime from a coerced message as from the message as received |
| `Recordings.RecordingsUrl` | fix_device_ip.py:41 | The URL is 'http://', then the device IP, then ':8080/Rec/', then the camera name, then '/'. Its length is the sum of those parts, and it always ends in '/' |
| `Recordings.UrlIdentifiesCamera` | fix_device_ip.py:41 | For one device, two camera names give the same URL exactly when they are equal |
| `Recordings.UrlIdentifiesDevice` | fix_device_ip.py:41 | For one camera, two device IPs give the same URL exactly when they are equal |
| `Recordings.ClassifyMatch` | fix_device_ip.py:77-87 | A match is skipped exactly when it does not split into three parts at '_' |
| `Recordings.DatesFrom` | fix_device_ip.py:73-88 | Every key of the built map carries an empty recordings list |
| `Recordings.DatesFromFails` | fix_device_ip.py:76-87 | The extraction fails exactly when some three-part match has a part `int.parse` rejects |
| `Recordings.DatesFromKeys` | fix_device_ip.py:76-87 | After a successful extraction, a day is a key exactly when some match names it |
| `Recordings.DatesFromFirstError` | fix_device_ip.py:76-87 | A failed extraction reports the first match that has an unparsable part |
| `Recordings.ExtractDates` | fix_device_ip.py:73-88 | The loop over the matches gives exactly the specified map, or the first parse error |
| `Recordings.DuplicateMatchCollapses` | fix_device_ip.py:86 | A folder listed twice gives the same map as listing it once |
| `Recordings.ParsePadded` | fix_device_ip.py:80-82 | `int.parse` reads a zero-padded decimal number as its value |
| `Recordings.FolderNameRoundTrip` | fix_device_ip.py:70-87 | The `YYYY_MM_DD` folder name of any day is read back as exactly that day |
| `Recordings.FetchOutcome` | fix_device_ip.py:26-111 | The fetch succeeds exactly when a parent device with a non-empty IP exists, the response is 200 and every match parses. Success yields the extracted map. Otherwise the error is, in this order: the missing device, the empty IP, the status code |
| `Recordings.RecordViewState.FetchRecordings` | fix_device_ip.py:11-112 | Without a camera, the recordings are emptied and nothing is fetched or flagged. Otherwise loading always ends with `isLoadingDates` false and the URL set whenever the device has an IP. On success the map is replaced wholesale by the extracted days, the error stays empty and the selected day is updated. On failure the old map stays and the error reads 'Failed to load recordings: ' followed by the error |
| `Recordings.RecordViewState.LoadDates` | fix_device_ip.py:26-111 | With a camera selected: loading ends, the URL is set when the device has an IP, and the map and error follow the fetch outcome (success replaces the map and clears the error, failure keeps the map and records the message) |
| `Recordings.RepairFetch` | fix_device_ip.py:7-57 | The file is rewritten exactly when the damaged-method marker and a later `  void _update` are both present |
| `Recordings.RepairShape` | fix_device_ip.py:7-57 | A rewrite keeps the text before the marker (which holds no marker) and the text from the next method on verbatim, with the repaired text between them |
| `Text.Find` | fix_record_view.py:8 | `str.find` returns −1 exactly when the pattern does not occur at or after the start, and otherwise the first such occurrence |
| `Text.NothingBeforeFirst` | fix_device_ip.py:44 | The text before the first occurrence of a non-empty pattern does not contain it |
| `Text.Strip` | fix_record_view2.py:34 | `strip()` yields a string with no surrounding whitespace that is no longer than the input |
| `Text.StripKeepsMiddle` | fix_record_view2.py:34 | `strip()` yields a contiguous slice of the input; everything before and after that slice is whitespace |
| `Text.Split` | fix_device_ip.py:78 | `split` gives at least one piece, and no piece contains the separator |
| `Text.JoinSplit` | fix_device_ip.py:78 | Joining the pieces of a split restores the string |
| `Text.SplitJoin` | fix_device_ip.py:78 | Splitting a join of separator-free pieces restores the pieces |
| `DartInt.TryParse` | fix_websocket_provider.py:111 | `int.tryParse` yields only 64-bit values, and gives null for empty or all-whitespace text |
| `DartInt.ParsePrinted` | fix_websocket_provider.py:111 | `int.tryParse(n.toString()) == n` for every 64-bit integer |

## Left out

- Widget trees and rendering (Scaffold, GridView, Stack, overlays, theming) are not modelled. The cell model keeps only which kind of cell a slot shows and its overlay flags.
- media_kit is foreign code, so the player is an object with a playlist and call counters. `stop()` is taken to unload the playlist, so that a reloaded slot can be opened again. The error and buffering streams become method calls. Player listener closures are assumed not to throw.
- `WebSocketLog.WebSocketProvider.SendMessage`: log listeners and change listeners are assumed not to throw. In Dart, a throwing listener inside the `try` of `sendMessage` (fix_websocket_provider.py:43-53) would take the `catch` path after `_sentCount` and `_logs` had already changed. That path is not modelled.
- Async and framework mechanics (`mounted`, `setState`, `await`, stream scheduling) are not modelled. `mounted` is taken as true and each handler runs to completion.
- Page navigation and stale-event filtering are not modelled because the code has neither. The patched screen has no page index: loading always takes cameras 0 to 19. It has no assignment-generation check: every player event is applied.
- `initState` only calls `_initializePlayers` (fix_fill.py:36-40), which `MultiLiveViewState.InitializePlayers` models.
- Regular expressions are not modelled. The date-folder matches of the directory listing are an input sequence, and the regex-based scripts' own rewriting is not modelled.
- File and network I/O are not modelled. This covers the scripts' reads and writes of the Dart sources, the backup file, `print`, the HTTP request (an input outcome) and `getDeviceForCamera` (an input).
- The scripts' own find-and-replace plumbing is not modelled. This covers the insertions in fix_websocket_provider.py:9-24 and 26-94, and the line-rewriting loops of fix_multiview3.py:9-28. The loops at fix_multiview3.py:19-28 replace each matching line with identical text. The loops at lines 9-16 change text: 60.0 becomes 48.0 at line 11, and line 15 appends `- 0.5`. Idempotence of the rewriting is not stated. The formulas those loops write are modelled.
- fix_layout_final.py is not part of this model. Its insertion loop never fires, and its row policy is superseded by fix_final.py:16.
- Floating point is not modelled: geometry is over exact reals, and the rounding gaps behind the −0.5 margin are out of scope.
- Integer width is not modelled for counters and slot indices. They are unbounded, whereas Dart's 64-bit integers would wrap after 2^63 messages.
- `DateTime(year, month, day)` normalisation is not modelled: days stay plain triples, so out-of-range months or days are not rolled over.
- `DartInt.TryParse`: hexadecimal (`0x…`) input and non-ASCII whitespace are not modelled. The model accepts an optional sign, decimal digits and surrounding ASCII whitespace.
- `Text.Strip`: strips only space, tab, newline, carriage return, vertical tab and form feed. Python also strips `\x1c`–`\x1f` and Unicode spaces.
- `Recordings.FetchRecordings`: the text of a `FormatException` is approximated as "FormatException: " followed by the rejected part. Dart's message carries more detail.
- `_updateRecordingsForSelectedDay` is only counted; its body is not part of this model. Neither is the rest of `_handleMessage` beyond its logging.
- Log listeners receive the log list itself in Dart, so they see later changes to it. The model hands each listener a snapshot, so that aliasing is not captured.
- The repaired `_fetchRecordings` text that fix_device_ip.py:11-41 and 60-112 splices in is a parameter of `Recordings.RepairFetch`. Its behaviour is modelled by `Recordings.RecordViewState.FetchRecordings`.
- `GridGeometry.OccupancyRows`: requires a positive column count. In Dart, 0 columns throws (`Infinity.ceil()`, or `NaN.ceil()` when no camera is active), and a negative count gives zero or negative rows. Those inputs are not modelled.
- `GridGeometry.LayoutGeometry`: a non-positive column count gives no geometry (`None`). In Dart, 0 columns throws on the ceiling of an infinite quotient, and a negative count gives a negative row count (-5 for -4 columns). The model maps both cases to `None`.

## Findings

| source | as written | input that shows it | evidently intended | confidence | as-written member | corrected member |
|---|---|---|---|---|---|---|
| fix_fill.py:194-225 | The non-scrolling grid's aspect ratio assumes 5 rows over the full screen height. But 20 slots need ceil(20 / columns) rows, and the grid sits in the body below the app bar | 1200×800 screen, 4 columns: grid 800 high in a 744 body, so the last row is cut off. 400×800, 2 columns: grid 1600 high, so half the slots are never visible | Rows of ceil(20 / columns) dividing the body height exactly, as simpler_fix.py:211-229 does | high (not executed) | `GridGeometry.FixedRowCounterexample` | `GridGeometry.CellsFillBody` |
