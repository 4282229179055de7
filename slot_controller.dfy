/** The multi-camera live view: a page of 20 display slots, each with one long-lived
    stream player. Four index-aligned per-slot lists hold the assigned camera, the
    player (with its video controller), the buffering flag and the error flag; loading
    clears and stops every slot and then assigns the first cameras of the roster. */
module MultiLiveView {
  import opened Text

  /** `maxCamerasPerPage`: the number of slots, fixed for the life of the screen. */
  const MaxCamerasPerPage: nat := 20

  /** A camera as the live view reads it (an immutable snapshot from the roster). */
  datatype Camera = Camera(id: string, name: string, connected: bool, rtspUri: string, recording: bool)

  datatype CameraLayout = CameraLayout(name: string, id: int, rows: int, columns: int, slots: int, description: string)

  /** The layout the screen starts with, until a layout provider supplies one. */
  const DefaultLayout: CameraLayout := CameraLayout("Default", 4, 5, 4, 20, "Default layout")

  /** The grid columns for a screen width: 2 below 600 logical pixels, 3 below 900,
      otherwise the current layout's own column count. */
  function ColumnsForWidth(width: real, layoutColumns: int): (columns: int)
    ensures width < 900.0 ==> 2 <= columns <= 3
    ensures width >= 900.0 ==> columns == layoutColumns
  {
    if width < 600.0 then 2
    else if width < 900.0 then 3
    else layoutColumns
  }

  /** A wider screen never gets fewer columns, as long as the layout has at least three. */
  lemma ColumnsMonotoneInWidth(w1: real, w2: real, layoutColumns: int)
    requires w1 <= w2 && layoutColumns >= 3
    ensures ColumnsForWidth(w1, layoutColumns) <= ColumnsForWidth(w2, layoutColumns)
  {
  }

  /** `math.min(maxCamerasPerPage, roster.length)`: how many slots a load fills. */
  function LoadCount(roster: seq<Camera>): nat
  {
    if |roster| < MaxCamerasPerPage then |roster| else MaxCamerasPerPage
  }

  /** The camera slot `i` holds after a load from `roster`. */
  function SlotCamera(roster: seq<Camera>, i: nat): Option<Camera>
  {
    if i < LoadCount(roster) then Some(roster[i]) else None
  }

  /** Slot `i` is handed to `_streamCamera` by a load: it is filled, its camera is
      connected and a player exists for it. */
  predicate StreamsSlot(roster: seq<Camera>, i: nat, playerCount: nat)
  {
    i < LoadCount(roster) && roster[i].connected && i < playerCount
  }

  /** Slot `i`'s player is asked to open a stream by a load. */
  predicate OpensSlot(roster: seq<Camera>, i: nat, playerCount: nat)
  {
    StreamsSlot(roster, i, playerCount) && roster[i].rtspUri != ""
  }

  /** A load fills exactly the first `min(20, |roster|)` slots, in roster order; an empty
      roster leaves every slot empty. */
  lemma SlotsHoldRosterPrefix(roster: seq<Camera>)
    ensures forall i: nat :: i < MaxCamerasPerPage ==> (SlotCamera(roster, i).Some? <==> i < |roster|)
    ensures forall i: nat :: i < MaxCamerasPerPage && i < |roster| ==> SlotCamera(roster, i) == Some(roster[i])
    ensures |roster| == 0 ==> forall i: nat :: SlotCamera(roster, i) == None
  {
  }

  /** What a grid cell shows. */
  datatype Cell =
    | VideoCell(camera: Camera, hasPlayer: bool, showsSpinner: bool, showsError: bool)
    | NoCameraCell

  /** The cell for one slot: video (with its overlays) only for a connected camera,
      the "No Camera" placeholder otherwise. */
  function CellFor(slot: Option<Camera>, hasPlayer: bool, loading: bool, error: bool): Cell
  {
    if slot.Some? && slot.value.connected then VideoCell(slot.value, hasPlayer, loading, error)
    else NoCameraCell
  }

  /** After a load with all players created, the cells that show video are exactly the
      slots whose camera was handed to `_streamCamera`. */
  lemma VideoCellsAreStreamedSlots(roster: seq<Camera>, i: nat, loading: bool, error: bool)
    requires i < MaxCamerasPerPage
    ensures CellFor(SlotCamera(roster, i), true, loading, error).VideoCell?
        <==> StreamsSlot(roster, i, MaxCamerasPerPage)
  {
  }

  /** A media_kit player, seen from outside: its playlist and how often it was asked to
      open, stop and dispose. */
  class Player {
    var playlist: seq<string>
    var openCount: nat
    var stopCount: nat
    var disposeCount: nat

    constructor ()
      ensures playlist == [] && openCount == 0 && stopCount == 0 && disposeCount == 0
    {
      playlist := [];
      openCount, stopCount, disposeCount := 0, 0, 0;
    }

    /** `open(Media(uri))`: the playlist becomes that one media. */
    method Open(uri: string)
      modifies this
      ensures playlist == [uri] && openCount == old(openCount) + 1
      ensures stopCount == old(stopCount) && disposeCount == old(disposeCount)
    {
      playlist := [uri];
      openCount := openCount + 1;
    }

    /** `stop()`: the current media is unloaded, the player stays usable. */
    method Stop()
      modifies this
      ensures playlist == [] && stopCount == old(stopCount) + 1
      ensures openCount == old(openCount) && disposeCount == old(disposeCount)
    {
      playlist := [];
      stopCount := stopCount + 1;
    }

    method Dispose()
      modifies this
      ensures disposeCount == old(disposeCount) + 1
      ensures playlist == old(playlist) && openCount == old(openCount) && stopCount == old(stopCount)
    {
      disposeCount := disposeCount + 1;
    }
  }

  /** A video controller renders the frames of the one player it was built for. */
  class VideoController {
    const player: Player

    constructor (player: Player)
      ensures this.player == player
    {
      this.player := player;
    }
  }

  /** The state of the multi live view screen. */
  class MultiLiveViewState {
    var availableCameras: seq<Camera>
    const selectedCameras: array<Option<Camera>>
    var players: seq<Player>
    var controllers: seq<VideoController>
    const loadingStates: array<bool>
    const errorStates: array<bool>
    var gridColumns: int
    var currentLayout: CameraLayout

    /** Three fixed 20-entry slot lists, and players and controllers index-aligned:
        controller `i` drives player `i`, and no player serves two slots. */
    ghost predicate Valid()
      reads this
    {
      && selectedCameras.Length == MaxCamerasPerPage
      && loadingStates.Length == MaxCamerasPerPage
      && errorStates.Length == MaxCamerasPerPage
      && loadingStates != errorStates
      && |players| == |controllers| <= MaxCamerasPerPage
      && (forall i :: 0 <= i < |controllers| ==> controllers[i].player == players[i])
      && (forall i, j :: 0 <= i < j < |players| ==> players[i] != players[j])
    }

    /** The field initialisers: every slot empty and idle, no player yet. */
    constructor ()
      ensures Valid() && fresh(selectedCameras) && fresh(loadingStates) && fresh(errorStates)
      ensures availableCameras == [] && players == [] && controllers == []
      ensures forall i :: 0 <= i < MaxCamerasPerPage ==> selectedCameras[i] == None
      ensures forall i :: 0 <= i < MaxCamerasPerPage ==> !loadingStates[i] && !errorStates[i]
      ensures gridColumns == 4 && currentLayout == DefaultLayout
    {
      availableCameras := [];
      selectedCameras := new Option<Camera>[MaxCamerasPerPage](_ => None);
      players := [];
      controllers := [];
      loadingStates := new bool[MaxCamerasPerPage](_ => false);
      errorStates := new bool[MaxCamerasPerPage](_ => false);
      gridColumns := 4;
      currentLayout := DefaultLayout;
    }

    /** `_initializePlayers`, run once from `initState`: one new player and one
        controller for it per slot. */
    method InitializePlayers()
      requires Valid() && players == []
      modifies this
      ensures Valid() && |players| == MaxCamerasPerPage
      ensures forall i :: 0 <= i < |players| ==> fresh(players[i]) && fresh(controllers[i])
      ensures forall i :: 0 <= i < |players| ==>
        players[i].playlist == [] && players[i].openCount == 0
        && players[i].stopCount == 0 && players[i].disposeCount == 0
      ensures availableCameras == old(availableCameras)
      ensures gridColumns == old(gridColumns) && currentLayout == old(currentLayout)
    {
      var i := 0;
      while i < MaxCamerasPerPage
        invariant 0 <= i <= MaxCamerasPerPage
        invariant Valid() && |players| == i
        invariant forall k :: 0 <= k < i ==> fresh(players[k]) && fresh(controllers[k])
        invariant forall k :: 0 <= k < i ==>
          players[k].playlist == [] && players[k].openCount == 0
          && players[k].stopCount == 0 && players[k].disposeCount == 0
        invariant availableCameras == old(availableCameras)
        invariant gridColumns == old(gridColumns) && currentLayout == old(currentLayout)
      {
        var player := new Player();
        var controller := new VideoController(player);
        players := players + [player];
        controllers := controllers + [controller];
        i := i + 1;
      }
    }

    /** The error listener of player `slot`: the slot's error flag is raised. */
    method OnPlayerError(slot: nat)
      requires Valid() && slot < |players|
      modifies errorStates
      ensures errorStates[..] == old(errorStates[..])[slot := true]
    {
      errorStates[slot] := true;
    }

    /** The buffering listener of player `slot`: the slot's loading flag follows it. */
    method OnPlayerBuffering(slot: nat, buffering: bool)
      requires Valid() && slot < |players|
      modifies loadingStates
      ensures loadingStates[..] == old(loadingStates[..])[slot := buffering]
    {
      loadingStates[slot] := buffering;
    }

    /** `_updateGridColumnsBasedOnScreenSize` for the current screen width. */
    method UpdateGridColumnsBasedOnScreenSize(screenWidth: real)
      modifies this`gridColumns
      ensures gridColumns == ColumnsForWidth(screenWidth, currentLayout.columns)
    {
      if screenWidth < 600.0 {
        gridColumns := 2;
      } else if screenWidth < 900.0 {
        gridColumns := 3;
      } else {
        gridColumns := currentLayout.columns;
      }
    }

    /** `_streamCamera`: clear the slot's error flag; with a stream URI, open it unless
        the player already has media; without one, raise the error flag instead. */
    method StreamCamera(slot: nat, camera: Camera)
      requires Valid() && slot < MaxCamerasPerPage
      modifies errorStates, if slot < |players| then {players[slot]} else {}
      ensures errorStates[..] == old(errorStates[..])[slot := slot < |players| && camera.rtspUri == ""]
      ensures slot < |players| ==>
        var opens := camera.rtspUri != "" && old(players[slot].playlist) == [];
        && players[slot].playlist == (if opens then [camera.rtspUri] else old(players[slot].playlist))
        && players[slot].openCount == old(players[slot].openCount) + (if opens then 1 else 0)
        && players[slot].stopCount == old(players[slot].stopCount)
        && players[slot].disposeCount == old(players[slot].disposeCount)
    {
      errorStates[slot] := false;
      if slot < |players| {
        var player := players[slot];
        if camera.rtspUri != "" {
          if player.playlist == [] {
            player.Open(camera.rtspUri);
          }
        } else {
          errorStates[slot] := true;
        }
      }
    }

    /** The outcome of loading the slots from `roster`, against the state before: slot
        `i` holds `SlotCamera(roster, i)`; every player was stopped once; a player was
        opened (once) exactly when its slot's camera is connected and has a URI; the error
        flag was rewritten only for the slots handed to `_streamCamera`; the loading flags,
        the players and controllers themselves, and dispose counts are untouched. */
    twostate predicate ReloadedFrom(roster: seq<Camera>)
      reads this, selectedCameras, loadingStates, errorStates, players
    {
      && players == old(players) && controllers == old(controllers)
      && selectedCameras.Length == MaxCamerasPerPage
      && loadingStates.Length == MaxCamerasPerPage
      && errorStates.Length == MaxCamerasPerPage
      && (forall i :: 0 <= i < MaxCamerasPerPage ==> selectedCameras[i] == SlotCamera(roster, i))
      && (forall i :: 0 <= i < |players| ==>
            && players[i].stopCount == old(players[i].stopCount) + 1
            && players[i].disposeCount == old(players[i].disposeCount)
            && players[i].openCount == old(players[i].openCount) + (if OpensSlot(roster, i, |players|) then 1 else 0)
            && players[i].playlist == (if OpensSlot(roster, i, |players|) then [roster[i].rtspUri] else []))
      && (forall i :: 0 <= i < MaxCamerasPerPage ==>
            errorStates[i] == if StreamsSlot(roster, i, |players|) then roster[i].rtspUri == "" else old(errorStates[i]))
      && loadingStates[..] == old(loadingStates[..])
    }

    /** `_loadCamerasForCurrentPage`: clear and stop every slot, then assign the first
        cameras of the roster and start the connected ones. */
    method LoadCamerasForCurrentPage()
      requires Valid()
      modifies selectedCameras, errorStates, players
      ensures Valid() && ReloadedFrom(availableCameras)
    {
      ClearAndStopSlots();
      if |availableCameras| > 0 {
        AssignSlots();
      }
    }

    /** The first loop of `_loadCamerasForCurrentPage`: every slot loses its camera and
        every player is stopped once. */
    method ClearAndStopSlots()
      requires Valid()
      modifies selectedCameras, players
      ensures forall k :: 0 <= k < MaxCamerasPerPage ==> selectedCameras[k] == None
      ensures forall k :: 0 <= k < |players| ==>
        && players[k].stopCount == old(players[k].stopCount) + 1
        && players[k].playlist == []
        && players[k].openCount == old(players[k].openCount)
        && players[k].disposeCount == old(players[k].disposeCount)
    {
      var i := 0;
      while i < MaxCamerasPerPage
        invariant 0 <= i <= MaxCamerasPerPage
        invariant forall k :: 0 <= k < i ==> selectedCameras[k] == None
        invariant forall k :: 0 <= k < |players| ==>
          && players[k].stopCount == old(players[k].stopCount) + (if k < i then 1 else 0)
          && players[k].playlist == (if k < i then [] else old(players[k].playlist))
          && players[k].openCount == old(players[k].openCount)
          && players[k].disposeCount == old(players[k].disposeCount)
      {
        selectedCameras[i] := None;
        if |players| > 0 && i < |players| {
          players[i].Stop();
        }
        i := i + 1;
      }
    }

    /** The second loop of `_loadCamerasForCurrentPage`, on cleared slots and stopped
        players: slot `i` gets roster camera `i`, and connected ones are streamed. */
    method AssignSlots()
      requires Valid()
      requires forall k :: 0 <= k < MaxCamerasPerPage ==> selectedCameras[k] == None
      requires forall k :: 0 <= k < |players| ==> players[k].playlist == []
      modifies selectedCameras, errorStates, players
      ensures forall k :: 0 <= k < MaxCamerasPerPage ==> selectedCameras[k] == SlotCamera(availableCameras, k)
      ensures forall k :: 0 <= k < |players| ==>
        && players[k].stopCount == old(players[k].stopCount)
        && players[k].disposeCount == old(players[k].disposeCount)
        && players[k].openCount == old(players[k].openCount) + (if OpensSlot(availableCameras, k, |players|) then 1 else 0)
        && players[k].playlist == (if OpensSlot(availableCameras, k, |players|) then [availableCameras[k].rtspUri] else [])
      ensures forall k :: 0 <= k < MaxCamerasPerPage ==>
        errorStates[k] == if StreamsSlot(availableCameras, k, |players|)
                          then availableCameras[k].rtspUri == "" else old(errorStates[k])
    {
      var maxToLoad := LoadCount(availableCameras);
      var i := 0;
      while i < maxToLoad
        invariant 0 <= i <= maxToLoad
        invariant forall k :: 0 <= k < MaxCamerasPerPage ==>
          selectedCameras[k] == if k < i then Some(availableCameras[k]) else None
        invariant forall k :: 0 <= k < |players| ==>
          && players[k].stopCount == old(players[k].stopCount)
          && players[k].disposeCount == old(players[k].disposeCount)
          && players[k].openCount == old(players[k].openCount)
               + (if k < i && OpensSlot(availableCameras, k, |players|) then 1 else 0)
          && players[k].playlist ==
               (if k < i && OpensSlot(availableCameras, k, |players|) then [availableCameras[k].rtspUri] else [])
        invariant forall k :: 0 <= k < MaxCamerasPerPage ==>
          errorStates[k] == if k < i && StreamsSlot(availableCameras, k, |players|)
                            then availableCameras[k].rtspUri == "" else old(errorStates[k])
      {
        label before:
        AssignSlot(i);
        forall k | 0 <= k < |players| && k != i
          ensures players[k].stopCount == old@before(players[k].stopCount)
          ensures players[k].disposeCount == old@before(players[k].disposeCount)
          ensures players[k].openCount == old@before(players[k].openCount)
          ensures players[k].playlist == old@before(players[k].playlist)
        {
          assert i < |players| ==> players[k] != players[i];
        }
        i := i + 1;
      }
    }

    /** One pass of the assignment loop: slot `i` gets roster camera `i`, which is
        streamed when it is connected and the slot has a player. */
    method AssignSlot(i: nat)
      requires Valid() && i < LoadCount(availableCameras)
      requires i < |players| ==> players[i].playlist == []
      modifies selectedCameras, errorStates, if i < |players| then {players[i]} else {}
      ensures selectedCameras[i] == Some(availableCameras[i])
      ensures errorStates[i] == if StreamsSlot(availableCameras, i, |players|)
        then availableCameras[i].rtspUri == "" else old(errorStates[i])
      ensures forall k :: 0 <= k < MaxCamerasPerPage && k != i ==>
        selectedCameras[k] == old(selectedCameras[k]) && errorStates[k] == old(errorStates[k])
      ensures i < |players| ==>
        && players[i].stopCount == old(players[i].stopCount)
        && players[i].disposeCount == old(players[i].disposeCount)
        && players[i].openCount == old(players[i].openCount) + (if OpensSlot(availableCameras, i, |players|) then 1 else 0)
        && players[i].playlist == (if OpensSlot(availableCameras, i, |players|) then [availableCameras[i].rtspUri] else [])
    {
      var camera := availableCameras[i];
      selectedCameras[i] := Some(camera);
      if camera.connected && |players| > 0 && i < |players| {
        StreamCamera(i, camera);
      }
    }

    /** The refresh button: reload the slots from the roster already held. */
    method Refresh()
      requires Valid()
      modifies selectedCameras, errorStates, players
      ensures Valid() && ReloadedFrom(availableCameras)
    {
      LoadCamerasForCurrentPage();
    }

    /** `didChangeDependencies`: take the provider's layout (when it has one) and its
        roster, load the slots, then fit the column count to the screen width. */
    method DidChangeDependencies(cameras: seq<Camera>, providerLayout: Option<CameraLayout>, screenWidth: real)
      requires Valid()
      modifies this, selectedCameras, errorStates, players
      ensures Valid() && ReloadedFrom(cameras)
      ensures availableCameras == cameras
      ensures currentLayout == if providerLayout.Some? then providerLayout.value else old(currentLayout)
      ensures gridColumns == ColumnsForWidth(screenWidth, currentLayout.columns)
    {
      if providerLayout.Some? {
        currentLayout := providerLayout.value;
        gridColumns := currentLayout.columns;
      }
      availableCameras := cameras;
      LoadCamerasForCurrentPage();
      UpdateGridColumnsBasedOnScreenSize(screenWidth);
    }

    /** The state updates `build` makes before drawing: a provider layout with a new id
        replaces the current one and recomputes the columns; an empty roster is filled
        from the provider (and the slots loaded) when the provider has cameras. */
    method OnBuild(providerLayout: Option<CameraLayout>, providerCameras: seq<Camera>, screenWidth: real)
      requires Valid()
      modifies this, selectedCameras, errorStates, players
      ensures Valid()
      ensures var changed := providerLayout.Some? && providerLayout.value.id != old(currentLayout.id);
        && currentLayout == (if changed then providerLayout.value else old(currentLayout))
        && gridColumns == (if changed then ColumnsForWidth(screenWidth, currentLayout.columns) else old(gridColumns))
      ensures var reload := old(availableCameras) == [] && providerCameras != [];
        && availableCameras == (if reload then providerCameras else old(availableCameras))
        && (reload ==> ReloadedFrom(providerCameras))
        && (!reload ==> players == old(players) && unchanged(selectedCameras, errorStates)
                        && unchanged(players))
      ensures controllers == old(controllers)
    {
      if providerLayout.Some? && providerLayout.value.id != currentLayout.id {
        currentLayout := providerLayout.value;
        gridColumns := currentLayout.columns;
        UpdateGridColumnsBasedOnScreenSize(screenWidth);
      }
      if availableCameras == [] && providerCameras != [] {
        availableCameras := providerCameras;
        LoadCamerasForCurrentPage();
      }
    }

    /** `dispose`: every player is disposed, once. */
    method Dispose()
      requires Valid()
      modifies players
      ensures forall i :: 0 <= i < |players| ==>
        && players[i].disposeCount == old(players[i].disposeCount) + 1
        && players[i].playlist == old(players[i].playlist)
        && players[i].openCount == old(players[i].openCount)
        && players[i].stopCount == old(players[i].stopCount)
    {
      var i := 0;
      while i < |players|
        invariant 0 <= i <= |players|
        invariant forall k :: 0 <= k < |players| ==>
          && players[k].disposeCount == old(players[k].disposeCount) + (if k < i then 1 else 0)
          && players[k].playlist == old(players[k].playlist)
          && players[k].openCount == old(players[k].openCount)
          && players[k].stopCount == old(players[k].stopCount)
      {
        players[i].Dispose();
        i := i + 1;
      }
    }

    /** The cell the grid draws at `index`. */
    function CellAt(index: nat): Cell
      requires index < selectedCameras.Length && index < loadingStates.Length && index < errorStates.Length
      reads this, selectedCameras, loadingStates, errorStates
    {
      CellFor(selectedCameras[index], index < |controllers|, loadingStates[index], errorStates[index])
    }

    /** The grid: always `maxCamerasPerPage` cells, however many cameras are assigned. */
    function Grid(): (cells: seq<Cell>)
      requires Valid()
      reads this, selectedCameras, loadingStates, errorStates
      ensures |cells| == MaxCamerasPerPage
      ensures forall i :: 0 <= i < MaxCamerasPerPage ==>
        (cells[i].VideoCell? <==> selectedCameras[i].Some? && selectedCameras[i].value.connected)
    {
      seq(MaxCamerasPerPage, i requires 0 <= i < selectedCameras.Length && i < loadingStates.Length
                                          && i < errorStates.Length
                               reads this, selectedCameras, loadingStates, errorStates => CellAt(i))
    }
  }
}
