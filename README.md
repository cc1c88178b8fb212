# gbwm window-placement engine in Dafny

gbwm is a grid tiling window manager for X. It divides the screen into a fixed
grid of labelled cells and places each newly mapped window in the first free
cell. The user can resize the focused window to any rectangle of cells by
typing two cell labels on an overlay. Windows live on nine workspaces; the
user switches between them, moves windows from one to another, cycles the
focus and toggles fullscreen through a key table.

This project models the state engine of `gbwm.c`, built with the default
configuration `default.config.h`:

- `types.dfy` (module `Types`): the client record, rectangles, the bound
  actions, the key table entries, the configuration (grid size, padding,
  border width, the label rows, the key table) and the screen size.
- `grid.dfy` (module `Grid`): the cell-size arithmetic (C's truncating
  division is written out as `CDiv`), the corner of a cell, the
  separating-axis overlap test of `is_cell_free`, and the three-stage search
  of `find_next_free_cell`. The search is given both as a specification
  function (`FreeCell`) and as the nested loops of the source
  (`FindNextFreeCell`).
- `overlay.dfy` (module `Overlay`): folding a key to a label character, the
  label lookup (the last match wins, as in the source's loops), the rectangle
  the two picks commit to, and the highlight predicate of `draw_overlay`.
- `keys.dfy` (module `Keys`): the key-table dispatch. Caps Lock and Num Lock
  are stripped from the modifier state, and the first entry whose keysym and
  modifiers match is run.
- `engine.dfy` (module `Engine`): the whole state as a value, and one
  transition function per handler: `maprequest`, `removeclient`, `focus`,
  `resize`, `arrange`, `switchws`, `movewin_to_ws`, `cycle_focus`,
  `buttonpress`, `enternotify`, `setfullscreen`, `toggle_fullscreen`,
  `clientmessage`, `enter_overlay`, `hide_overlay`, `process_overlay_input`,
  `keypress`, and the event loop's dispatch. It also defines the registry
  invariant: every client is in exactly one list, once; its `workspace`
  field names that list; and the focused client is on the current
  workspace.
- `engine_props.dfy`, `handler_props.dfy` and `fullscreen_props.dfy`: every
  event keeps the invariant, and each handler's effect on the lists, the
  focus, the records and the overlay buffer is stated.
- `wm.dfy` (module `Manager`): the class `WM`. Its fields are the nine
  lists, the client records, the current workspace, the focus, the overlay
  mode, the two-slot input buffer (a `char` array in which `'\0'` marks an
  empty slot) and the last pointer-warp target. Each handler is a method
  that updates those fields in place with the source's loops. Each is proved
  to produce exactly the state the corresponding function of `Engine`
  describes. The event handlers (`MapRequest`, `RemoveClient`, `SwitchWs`,
  `MoveWinToWs`, `ButtonPress`, `EnterNotify`, `ToggleFullscreen`,
  `ClientMessage`, `EnterOverlay`, `RunAction`, `KeyPress`, `HandleEvent`)
  also keep the invariant. The inner steps they share (`Focus`, `Resize`,
  `Arrange`, `CycleFocus`, `SetFullscreen`, `HideOverlay`,
  `ProcessOverlayInput`, `OverlayKey`) state only the new state. The
  invariant for those steps is proved about the `Engine` function they
  produce.
- `default_config.dfy` (module `DefaultConfig`): the default key table and
  grid, and worked sessions on a 1920 x 1080 screen.

A client is identified by a fresh number handed out when it is mapped,
standing for the C pointer. The window handle is a field, so two clients may
carry the same handle, as in the source.

Some behaviour of `gbwm.c` worth knowing, which the model keeps:

- There is a single screen of `sw` x `sh` pixels. There is no monitor
  registry.
- `switchws` focuses the head of the target list. There is no per-workspace
  memory of the last focused client.
- `cycle_focus` only goes forward. Since `maprequest` adds at the head,
  mapping A, B, C gives the list C, B, A, and cycling from C reaches B.
- `movewin_to_ws` puts the window at the head of the target list, not at its
  tail. It clears the fullscreen flag without restoring the saved geometry.
- `clientmessage` reacts to a message whose type is the `WM_STATE` atom (the
  atom it interned under that name), not `_NET_WM_STATE`.
- `maprequest` focuses, and so warps the pointer, before `arrange` gives the
  new window its cell. The warp therefore goes to the corner of a zero-size
  window, clamped to (0, 0).
- Committing an overlay selection resizes a fullscreen window and leaves it
  flagged as fullscreen. Every other event keeps fullscreen windows covering
  the screen (`FullscreenProps.HandleCovers`,
  `FullscreenProps.OverlayResizesFullscreen`).

## Model

| member | source | states |
|---|---|---|
| Grid.GridOf | gbwm.c:291-292 | the grid's cell size: (screen - padding*(n+1)) / n with C's truncating division; its fit is stated by Grid.GridFitsScreen and Grid.CellOnScreen |
| Grid.CellX | gbwm.c:267-268 | a column's left edge, padding + c*(cell_w+padding); with Grid.CellY and Grid.CellRect its placement is stated by Grid.CellOnScreen and Grid.CellsDisjoint |
| Grid.CellY | gbwm.c:267-268 | a row's top edge, padding + r*(cell_h+padding); stated by Grid.CellOnScreen and Grid.CellsDisjoint |
| Grid.CellRect | gbwm.c:267-268 | the rectangle of one cell; it lies on the screen (Grid.CellOnScreen), two different cells never overlap (Grid.CellsDisjoint), and picking it twice commits it (Overlay.SpanSingleCell) |
| Grid.Overlaps | gbwm.c:272-284 | the separating-axis overlap test with touching edges allowed; stated by Grid.CellsDisjoint and, through Grid.Blocks, by Grid.IsCellFree |
| Grid.Blocks | gbwm.c:272-284 | a client occupies a cell exactly when it is not fullscreen and overlaps the cell; stated by Grid.IsCellFree |
| Grid.CDiv | gbwm.c:291-292 | C's truncating division: for a non-negative numerator the quotient is the largest q with b*q <= a; for a negative one it rounds toward zero |
| Grid.GridFitsScreen | gbwm.c:291-292 | when the paddings fit, the cells and the cols+1 paddings fit across the screen, and fewer than `cols` pixels are left over; likewise down the screen |
| Grid.CellOnScreen | gbwm.c:267-268 | every cell of the grid, at padding + c*(cell_w+padding), lies inside the screen |
| Grid.CellsDisjoint | gbwm.c:267-268 | two different cells never overlap in the separating-axis sense |
| Grid.IsCellFree | gbwm.c:266-288 | the loop answers true exactly when no non-fullscreen client of the list overlaps the cell, touching edges allowed |
| Grid.HasExactClient | gbwm.c:319-327 | the loop answers true exactly when some non-fullscreen client has exactly the cell's rectangle |
| Grid.Scan | gbwm.c:294-337 | the row-major search shared by the free-cell pass and the fallback pass; stated by Grid.ScanFound and Grid.ScanMissing |
| Grid.ScanFound | gbwm.c:295-303 | a row-major scan that finds a cell returns an in-grid accepted cell, no earlier one from the start point accepted |
| Grid.ScanMissing | gbwm.c:295-303 | a row-major scan that finds nothing means no cell from the start point on is accepted |
| Grid.FreeCell | gbwm.c:290-343 | find_next_free_cell's choice as a value; characterised by Grid.FreeCellInGrid, Grid.FreeCellIsFirstFree, Grid.FreeCellFallback and Grid.FreeCellDefault, and computed by Grid.FindNextFreeCell |
| Grid.FreeCellInGrid | gbwm.c:290-343 | the chosen cell is always inside [0,rows) x [0,cols) |
| Grid.FreeCellIsFirstFree | gbwm.c:294-303 | when some cell is free, the chosen cell is free and no free cell comes before it in row-major order |
| Grid.FreeCellFallback | gbwm.c:305-337 | with no free cell and a client exactly at cell (0,0), the chosen cell is the first one not exactly covered |
| Grid.FreeCellDefault | gbwm.c:340-342 | with no free cell and no exact client at (0,0), or every cell exactly covered, the choice is (0,0) |
| Grid.FindNextFreeCell | gbwm.c:290-343 | the nested loops return exactly the cell `FreeCell` chooses |
| Overlay.FoldKey | gbwm.c:191-195 | a key gives a character exactly for 0-9, a-z and A-Z; upper case folds to lower case, and the result is never empty |
| Overlay.IsLabel | gbwm.c:197-200 | a character is one of the grid labels; the loop deciding it is Overlay.FindLabel, and Overlay.LabelPosCorrect ties it to the existence of a position |
| Overlay.LabelScan | gbwm.c:494-500 | the row-major label search as a recursion from a given cell; stated by Overlay.LabelScanSound |
| Overlay.FindLabel | gbwm.c:197-200 | the loop finds the character exactly when it is one of the grid labels |
| Overlay.LabelScanSound | gbwm.c:494-500 | the scan's position, if any, carries the label; no position means no later cell carries it |
| Overlay.LabelPos | gbwm.c:494-501 | the cell carrying a label, the last match in row-major order; stated by Overlay.LabelPosCorrect and computed by Overlay.LabelPosition |
| Overlay.LabelPosCorrect | gbwm.c:494-501 | a label's position is in the grid and carries that label, and there is a position exactly when the character is a label |
| Overlay.LabelPosition | gbwm.c:494-500 | the loops return the position LabelPos gives, or -1 when there is none |
| Overlay.SpanRect | gbwm.c:503-515 | the rectangle two picks commit to; stated by Overlay.SpanCommutes, Overlay.SpanSingleCell and Overlay.SpanIsBoundingBox |
| Overlay.SpanCommutes | gbwm.c:503-504 | the committed rectangle does not depend on the order of the two picks |
| Overlay.SpanSingleCell | gbwm.c:506-515 | picking the same cell twice commits exactly that cell's rectangle |
| Overlay.SpanIsBoundingBox | gbwm.c:506-515 | the committed rectangle starts at the upper-left picked corner and ends at the far edges of the lower-right cell |
| Overlay.IsSelected | gbwm.c:396-408 | draw_overlay's highlight test; stated by Overlay.HighlightMatchesCommit and Overlay.HighlightSingle |
| Overlay.HighlightMatchesCommit | gbwm.c:396-408 | with two picks, a cell is highlighted exactly when its rectangle lies inside the rectangle the selection commits to |
| Overlay.HighlightSingle | gbwm.c:405-407 | with one pick, or the same pick twice, only that cell is highlighted |
| Keys.FirstMatch | gbwm.c:221-226 | the scan stops at an index between its start and the table's end |
| Keys.CleanMask | gbwm.c:220 | the modifier state with Caps Lock and Num Lock cleared; stated by Keys.LockBitsCleared |
| Keys.FirstMatchIsFirst | gbwm.c:221-226 | the index found matches, and no entry before it matches |
| Keys.Lookup | gbwm.c:219-227 | the action of the first entry matching the keysym and cleaned modifiers; stated by Keys.LookupFirst, Keys.LookupAt and Keys.LookupIgnoresLocks, computed by Keys.FindBinding |
| Keys.LookupFirst | gbwm.c:221-226 | some action is bound exactly when some entry matches, and it is the first matching entry's action |
| Keys.LookupAt | gbwm.c:221-226 | if entry j matches and none before does, the bound action is entry j's |
| Keys.LockBitsCleared | gbwm.c:220 | Caps Lock and Num Lock do not change the cleaned modifier state |
| Keys.FirstMatchSameMask | gbwm.c:220-226 | two states with the same cleaned mask find the same entry |
| Keys.LookupIgnoresLocks | gbwm.c:220-226 | adding Caps Lock or Num Lock to the state does not change the bound action |
| Keys.FindBinding | gbwm.c:219-227 | the loop returns the index of the first matching entry, or the table length |
| Types.NewClient | gbwm.c:110-117 | the record a map request allocates: zero geometry, not fullscreen, the given window and workspace; its use is stated by HandlerProps.MapRequestEffect |
| Engine.FocusS | gbwm.c:240-264 | focus as a state change; stated by EngineProps.FocusFacts and HandlerProps.WarpOnScreen |
| Engine.ResizeS | gbwm.c:231-234 | resize as a state change; stated by EngineProps.ResizeFacts |
| Engine.ArrangeS | gbwm.c:345-369 | arrange as a state change; stated by EngineProps.ArrangeFacts, EngineProps.ArrangePlacement and FullscreenProps.ArrangeCovers |
| Engine.MapRequestS | gbwm.c:108-130 | maprequest as a state change; stated by HandlerProps.MapRequestEffect and EngineProps.MapRequestInv |
| Engine.RemoveClientS | gbwm.c:132-147 | removeclient as a state change; stated by HandlerProps.RemoveClientEffect and EngineProps.RemoveClientInv |
| Engine.UnlinkS | gbwm.c:134-141 | removeclient's unlink and refocus before arrange; stated by EngineProps.UnlinkFacts and EngineProps.UnlinkKeepsWf |
| Engine.SwitchWsS | gbwm.c:522-543 | switchws as a state change; stated by HandlerProps.SwitchWsEffect and EngineProps.SwitchWsInv |
| Engine.ShowWsS | gbwm.c:526-541 | switchws before arrange; stated by EngineProps.ShowWsFacts |
| Engine.MoveWinToWsS | gbwm.c:545-579 | movewin_to_ws as a state change; stated by HandlerProps.MoveWinToWsLists, HandlerProps.MoveWinToWsRecord and EngineProps.MoveWinToWsInv |
| Engine.MoveOutS | gbwm.c:549-575 | movewin_to_ws before arrange; stated by HandlerProps.MoveOutFacts and EngineProps.MoveOutKeepsWf |
| Engine.CycleFocusS | gbwm.c:675-687 | cycle_focus as a state change; stated by HandlerProps.CycleFocusEffect and EngineProps.CycleFocusInv |
| Engine.ButtonPressS | gbwm.c:86-92 | buttonpress as a state change; stated by HandlerProps.ButtonPressEffect and EngineProps.ButtonPressInv |
| Engine.EnterNotifyS | gbwm.c:157-165 | enternotify as a state change; stated by HandlerProps.EnterNotifyEffect and EngineProps.EnterNotifyInv |
| Engine.SetFullscreenS | gbwm.c:616-642 | setfullscreen as a state change; stated by HandlerProps.FullscreenRoundTrip, HandlerProps.FullscreenSameStateNoop and FullscreenProps.SetFullscreenCovers |
| Engine.SetFullscreenClient | gbwm.c:616-642 | setfullscreen on one record: entering saves the geometry and covers the screen, leaving restores it, asking for the current state changes nothing; stated by HandlerProps.FullscreenRoundTrip and HandlerProps.FullscreenSameStateNoop |
| Engine.FullscreenRequest | gbwm.c:103-105 | the fullscreen argument derived from a request's action code: 1 sets, 2 toggles, any other code clears; stated by HandlerProps.FullscreenRequestCodes |
| Engine.ToggleFullscreenS | gbwm.c:656-659 | toggle_fullscreen as a state change; stated by HandlerProps.ToggleTwiceRestores and EngineProps.ToggleFullscreenInv |
| Engine.ClientMessageS | gbwm.c:94-106 | clientmessage as a state change; stated by HandlerProps.ClientMessageEffect, HandlerProps.FullscreenRequestCodes and EngineProps.ClientMessageInv |
| Engine.EnterOverlayS | gbwm.c:447-451 | enter_overlay as a state change; stated by HandlerProps.EnterOverlayEffect |
| Engine.HideOverlayS | gbwm.c:480-482 | hide_overlay as a state change; stated by HandlerProps.OverlayEscape and EngineProps.HideInv |
| Engine.ProcessOverlayS | gbwm.c:491-519 | process_overlay_input as a state change; stated by EngineProps.ProcessOverlayFacts, HandlerProps.ProcessOverlayNoop, HandlerProps.OverlaySecondPick and FullscreenProps.OverlayResizesFullscreen |
| Engine.OverlayKeyS | gbwm.c:174-217 | keypress in overlay mode; stated by HandlerProps.OverlayEscape, OverlayBackspace, OverlayFoldsCase, OverlayIgnores, OverlayFirstPick, OverlaySecondPick, TwoPicksCommute and EngineProps.OverlayKeyInv |
| Engine.OverlayCharS | gbwm.c:191-215 | a typed character in overlay mode; stated by HandlerProps.OverlayFirstPick, HandlerProps.OverlaySecondPick and EngineProps.OverlayCharInv |
| Engine.RunAction | gbwm.c:221-226 | the effect of a bound action; each action's function is stated by its own lemmas above |
| Engine.KeyPressS | gbwm.c:173-227 | keypress as a state change; stated by HandlerProps.KeyPressEffect and EngineProps.KeyPressInv |
| Engine.Handle | gbwm.c:793-805 | one turn of the event loop; stated by EngineProps.HandleInv and FullscreenProps.HandleCovers |
| Engine.WinIndex | gbwm.c:134-135 | the index of the first client of the list with that window, or the list length when there is none |
| Engine.IndexOf | gbwm.c:553-558 | the index of the first occurrence, which is within the list exactly when the id is in it |
| Engine.RemoveAtFacts | gbwm.c:134-136 | unlinking one entry of a duplicate-free list keeps it duplicate-free and removes exactly that entry |
| Engine.WarpPoint | gbwm.c:252-259 | the warp target is 16 pixels in from the bottom-right corner, clamped to [0,sw) x [0,sh) |
| Engine.AddClientS | gbwm.c:110-117 | the new client's id is in the current list afterwards |
| Engine.NextAfter | gbwm.c:683-684 | the client after the focused one, or the head after the tail, is in the list |
| EngineProps.FocusFacts | gbwm.c:240-264 | focus changes only the focus and the pointer, keeps the invariant and focuses the given client |
| EngineProps.ResizeFacts | gbwm.c:231-234 | resize gives the client exactly the rectangle, keeps its flag and changes no other client or list |
| EngineProps.ArrangeFacts | gbwm.c:345-369 | arrange changes no list and keeps the invariant; it focuses the head when nothing is focused and keeps an existing focus; an empty workspace is left as it is; only the focused client's record can change: a fullscreen or sized client keeps it, one without a size gets the first free cell's rectangle |
| EngineProps.ArrangePlacement | gbwm.c:347-368 | on a non-empty workspace the existing focus, or else the head, is focused; a fullscreen or sized client changes no record; a zero-size one gets CellRect of FreeCell over the current clients |
| EngineProps.ArrangeFrame | gbwm.c:345-369 | arrange changes no list, no ownership, no overlay field and no pointer warp; it keeps an existing focus and leaves an empty workspace as it is |
| EngineProps.ArrangeOthers | gbwm.c:354-368 | arrange changes no record except the focused client's |
| EngineProps.ArrangeKeepsWf | gbwm.c:345-369 | arrange keeps the registry invariant and leaves a focus whenever the current list is non-empty |
| EngineProps.ArrangeInv | gbwm.c:345-369 | arrange after any registry-preserving step restores the full invariant, including the focus-on-non-empty part |
| EngineProps.AddClientWf | gbwm.c:110-117 | the new client's id is unused, the record set grows by exactly that id, and the invariant holds |
| EngineProps.MapRequestInv | gbwm.c:108-130 | maprequest keeps the registry and overlay invariant |
| EngineProps.UnlinkWf | gbwm.c:134-141 | removing an entry of the current list, and its record, keeps the invariant |
| EngineProps.UnlinkFacts | gbwm.c:134-142 | the current list loses exactly that entry, the record is freed, and focus moves to the new head (or nothing) only if the removed client had it |
| EngineProps.UnlinkKeepsWf | gbwm.c:134-141 | unlinking and freeing an entry of the current list keeps the registry invariant |
| EngineProps.RemoveClientInv | gbwm.c:132-147 | removeclient keeps the invariant |
| EngineProps.SwitchWsInv | gbwm.c:522-543 | switchws keeps the invariant |
| EngineProps.ShowHeadWf | gbwm.c:526-540 | making another workspace current with its head, or nothing, focused keeps the registry invariant |
| EngineProps.ShowWsFacts | gbwm.c:526-541 | the part of switchws before arrange keeps the invariant, changes no list and no record, makes the workspace current and focuses its head or nothing |
| EngineProps.MoveWf | gbwm.c:549-565 | moving the focused client to the head of another list, with that list's number, keeps the invariant |
| EngineProps.MovedNoDup | gbwm.c:553-565 | after the move every list is still free of duplicates |
| EngineProps.MovedOwned | gbwm.c:553-565 | after the move every listed client has a record naming the list it is in, the moved one the target |
| EngineProps.MovedListed | gbwm.c:553-565 | after the move every record's workspace is valid and lists the client |
| EngineProps.MoveOutMoved | gbwm.c:549-575 | the step before arrange is the move followed by focusing the current list's new head, without a warp |
| EngineProps.MoveOutKeepsWf | gbwm.c:549-575 | the step before arrange keeps the registry invariant |
| EngineProps.MoveWinToWsInv | gbwm.c:545-579 | movewin_to_ws keeps the invariant |
| EngineProps.CycleFocusInv | gbwm.c:675-687 | cycle_focus keeps the invariant |
| EngineProps.ToggleFullscreenInv | gbwm.c:656-659 | toggle_fullscreen keeps the invariant |
| EngineProps.ClientMessageInv | gbwm.c:94-106 | clientmessage keeps the invariant |
| EngineProps.OverlayKeyInv | gbwm.c:174-217 | every key in overlay mode keeps the invariant, including the buffer's shape |
| EngineProps.OverlayCharInv | gbwm.c:191-215 | a typed character in overlay mode keeps the invariant |
| EngineProps.OverlayOnlyInv | gbwm.c:180-204 | a step that changes only the overlay buffer keeps the invariant when it leaves a consistent buffer |
| EngineProps.HideInv | gbwm.c:480-482 | leaving overlay mode from a well-formed state restores the full invariant |
| EngineProps.ProcessOverlayFacts | gbwm.c:491-519 | committing a selection changes no list, no focus and no overlay buffer |
| EngineProps.KeyPressInv | gbwm.c:173-227 | every key press keeps the invariant |
| EngineProps.HandleInv | gbwm.c:793-805 | every event the loop dispatches keeps the invariant |
| EngineProps.HandlePointerInv | gbwm.c:796-803 | button presses, pointer entries and exposes keep the invariant |
| EngineProps.HandleRequestInv | gbwm.c:797-798 | client messages and map requests keep the invariant |
| EngineProps.HandleRemoveInv | gbwm.c:799-800 | unmap and destroy notifications keep the invariant |
| EngineProps.FocusInv | gbwm.c:240-264 | focusing a client of the current workspace keeps the invariant |
| EngineProps.ButtonPressInv | gbwm.c:86-92 | a click keeps the invariant |
| EngineProps.EnterNotifyInv | gbwm.c:157-165 | a pointer entry keeps the invariant |
| EngineProps.InitialInv | gbwm.c:45-50 | the initial state (nine empty lists, no focus, overlay off) satisfies the invariant |
| HandlerProps.IndexOfDistinct | gbwm.c:553-558 | in a duplicate-free list the search finds an entry at its own index |
| HandlerProps.SwitchWsEffect | gbwm.c:522-543 | out of range or current: no change; otherwise the workspace becomes current, its head (or nothing) is focused, and no list or ownership changes |
| HandlerProps.MoveOutFacts | gbwm.c:549-574 | before arrange, the client has left the current list (in order), heads the target list, records the target and no fullscreen flag, and focus is the current list's new head or nothing |
| HandlerProps.MoveWinToWsLists | gbwm.c:545-579 | no focus, out of range or current: no change; otherwise the client leaves the current list in order, heads the target list, and other lists are unchanged |
| HandlerProps.MoveWinToWsRecord | gbwm.c:562-574 | the moved client records the target workspace, loses its fullscreen flag but keeps its geometry; no client is created or lost; focus goes to the new head or nothing |
| HandlerProps.ClientsOfPush | gbwm.c:113-117 | pushing a client on a list pushes its record on the list of records |
| HandlerProps.MapRequestEffect | gbwm.c:108-130 | a refused window changes nothing; otherwise a zero-size non-fullscreen record heads the current list, is focused, the pointer goes to (0,0), it gets the first free cell, and no other record changes |
| HandlerProps.RemoveClientEffect | gbwm.c:132-147 | only the first current-workspace client with the window is removed; otherwise nothing changes; focus moves to the new head only if the removed client had it |
| HandlerProps.NextAfterAt | gbwm.c:683-684 | in a duplicate-free list the client after position k is the one at k+1, or the head after the tail |
| HandlerProps.CycleFocusEffect | gbwm.c:675-687 | empty list: no change; no focus: the head; otherwise the next client, the tail wrapping to the head; only focus and the pointer change |
| HandlerProps.ButtonPressEffect | gbwm.c:86-92 | a click on a window no current client carries changes nothing; otherwise the first current client carrying it is focused with a warp, and no list or record changes |
| HandlerProps.EnterNotifyEffect | gbwm.c:157-165 | a non-normal or inferior crossing, or one into a window of no current client, changes nothing; otherwise the first current client carrying it is focused; never a warp, no list or record change |
| HandlerProps.KeyPressEffect | gbwm.c:173-227 | in overlay mode a key takes the overlay branch; outside it a bound key runs its action, an unbound key changes nothing, and Caps Lock or Num Lock make no difference |
| HandlerProps.WarpOnScreen | gbwm.c:250-262 | a warp lands on the screen, and a fullscreen client is focused without a warp |
| HandlerProps.FullscreenRoundTrip | gbwm.c:616-642 | going fullscreen covers (0,0,sw,sh); leaving it again restores the geometry exactly |
| HandlerProps.FullscreenSameStateNoop | gbwm.c:619-642 | a request for the state the client is already in changes nothing, so the saved geometry survives a second request |
| HandlerProps.ToggleTwiceRestores | gbwm.c:656-659 | toggling the focused client twice covers the screen, then restores its geometry |
| HandlerProps.FullscreenRequestCodes | gbwm.c:103-105 | action code 1 turns fullscreen on, 2 toggles it, any other value turns it off |
| HandlerProps.ClientMessageEffect | gbwm.c:94-106 | a message for a window outside the current list, or of another type, changes nothing; a fullscreen request sets the flag as the code says |
| HandlerProps.OverlayEscape | gbwm.c:176-179 | Escape leaves overlay mode with an empty buffer and changes nothing else |
| HandlerProps.OverlayBackspace | gbwm.c:180-188 | Backspace clears the second slot if set, else the first, and stays in overlay mode |
| HandlerProps.OverlayFoldsCase | gbwm.c:193 | an upper-case letter acts as its lower-case letter |
| HandlerProps.OverlayIgnores | gbwm.c:191-200 | a key that is not a digit or letter, or not a grid label, changes nothing |
| HandlerProps.OverlayFirstPick | gbwm.c:202-204 | the first label fills the first slot and nothing else changes |
| HandlerProps.OverlaySecondPick | gbwm.c:205-215 | the second label commits the span of the two picks to the focused client and leaves overlay mode with an empty buffer |
| HandlerProps.TwoPicksCommute | gbwm.c:503-504 | entering the overlay and picking two labels gives the same state in either order |
| HandlerProps.TwoPicksSameLabel | gbwm.c:506-515 | picking one label twice gives the focused client exactly that label's cell |
| HandlerProps.ProcessOverlayNoop | gbwm.c:492 | without focus or with an empty slot, the commit changes nothing |
| HandlerProps.EnterOverlayEffect | gbwm.c:447-451 | entering needs a focused client, then sets overlay mode with an empty buffer |
| FullscreenProps.ArrangeKeepsFullscreen | gbwm.c:350-352 | arrange leaves a fullscreen focused client's record alone and changes no flag |
| FullscreenProps.ArrangeCovers | gbwm.c:345-369 | arrange keeps every fullscreen client covering the screen |
| FullscreenProps.SetFullscreenCovers | gbwm.c:616-642 | setfullscreen keeps every fullscreen client covering the screen |
| FullscreenProps.MapRequestCovers | gbwm.c:108-130 | maprequest keeps every fullscreen client covering the screen |
| FullscreenProps.RemoveClientCovers | gbwm.c:132-147 | removeclient keeps every fullscreen client covering the screen |
| FullscreenProps.SwitchWsCovers | gbwm.c:522-543 | switchws keeps every fullscreen client covering the screen |
| FullscreenProps.MoveWinToWsCovers | gbwm.c:545-579 | movewin_to_ws keeps every fullscreen client covering the screen |
| FullscreenProps.HandleCovers | gbwm.c:793-805 | every event except a key in overlay mode keeps fullscreen clients covering the screen |
| FullscreenProps.OverlayResizesFullscreen | gbwm.c:491-519 | a commit on a fullscreen client gives it the span and keeps its fullscreen flag |
| Manager.WM.constructor | gbwm.c:45-50 | the fresh manager holds the initial state and satisfies the invariant |
| Manager.WM.Focus | gbwm.c:240-264 | the fields become the state focus describes |
| Manager.WM.Resize | gbwm.c:231-234 | the client's record gets the rectangle, in place |
| Manager.WM.Arrange | gbwm.c:345-369 | the fields become the state arrange describes |
| Manager.WM.FindClient | gbwm.c:134-135 | the loop finds the first client of the current list with the window |
| Manager.WM.MapRequest | gbwm.c:108-130 | the fields become the state maprequest describes, and the invariant holds |
| Manager.WM.AddClient | gbwm.c:110-117 | a zeroed record under the fresh id heads the current list, and the registry invariant holds |
| Manager.WM.RemoveClient | gbwm.c:132-147 | the fields become the state removeclient describes, and the invariant holds |
| Manager.WM.Unlink | gbwm.c:134-142 | the entry is unlinked and freed, and focus moves as removeclient does |
| Manager.WM.SwitchWs | gbwm.c:522-543 | the fields become the state switchws describes, and the invariant holds |
| Manager.WM.MoveWinToWs | gbwm.c:545-579 | the fields become the state movewin_to_ws describes, and the invariant holds |
| Manager.WM.MoveOut | gbwm.c:549-574 | the focused client is unlinked from the current list and pushed on the target list, as MoveOutS describes |
| Manager.WM.Locate | gbwm.c:553-558 | the walk stops at the first occurrence of the client, or at the end |
| Manager.WM.CycleFocus | gbwm.c:675-687 | the fields become the state cycle_focus describes |
| Manager.WM.ButtonPress | gbwm.c:86-92 | a click focuses the clicked client of the current list, with a warp |
| Manager.WM.EnterNotify | gbwm.c:157-165 | a normal, non-inferior crossing focuses the entered client without a warp |
| Manager.WM.SetFullscreen | gbwm.c:616-642 | the record becomes the one setfullscreen describes |
| Manager.WM.ToggleFullscreen | gbwm.c:656-659 | the fields become the state toggle_fullscreen describes, and the invariant holds |
| Manager.WM.ClientMessage | gbwm.c:94-106 | the fields become the state clientmessage describes, and the invariant holds |
| Manager.WM.EnterOverlay | gbwm.c:447-451 | the fields become the state enter_overlay describes |
| Manager.WM.HideOverlay | gbwm.c:480-482 | overlay mode is off and both buffer slots are empty |
| Manager.WM.ProcessOverlayInput | gbwm.c:491-519 | the loops and swaps give the focused client the span of the two picks, as ProcessOverlayS describes |
| Manager.WM.OverlayKey | gbwm.c:174-217 | the buffer and mode change as the overlay branch describes |
| Manager.WM.RunAction | gbwm.c:221-226 | the bound action's effect on the state |
| Manager.WM.KeyPress | gbwm.c:173-227 | the fields become the state keypress describes, and the invariant holds |
| Manager.WM.HandleEvent | gbwm.c:793-805 | one turn of the event loop, keeping the invariant |
| DefaultConfig.HdGrid | default.config.h:11-22 | on 1920 x 1080 with the default grid (the constant `Default`: 4 rows, 7 columns, padding 8, border 2), cells are 265 x 260 |
| DefaultConfig.DefaultKeys | default.config.h:37-69 | the default key table; stated by DefaultConfig.DefaultCycleKey, DefaultConfig.DefaultQuitKeys, DefaultConfig.DefaultMoveKey, DefaultConfig.DefaultSwitchKey and DefaultConfig.DefaultPlainTab |
| DefaultConfig.DefaultCycleKey | default.config.h:45 | Super+Tab cycles focus, with Caps Lock and Num Lock on |
| DefaultConfig.DefaultQuitKeys | default.config.h:43-46 | Super+q closes the window and Super+Shift+q quits |
| DefaultConfig.DefaultMoveKey | default.config.h:60 | Super+Shift+1 moves the window to workspace 0 |
| DefaultConfig.DefaultSwitchKey | default.config.h:57 | Super+9 switches to workspace 8 |
| DefaultConfig.DefaultPlainTab | default.config.h:37-69 | Tab without a modifier is not bound |
| DefaultConfig.Map | gbwm.c:108-130 | mapping a window on workspace 0 pushes a fresh id at the head and focuses it |
| DefaultConfig.FirstWindow | gbwm.c:290-343 | the first window on 1920 x 1080 gets (8, 8, 265, 260), with the pointer sent to (0, 0) |
| DefaultConfig.SecondWindow | gbwm.c:108-130 | after a second window the list is [second, first], the second is focused, and the first keeps (8, 8, 265, 260) |
| DefaultConfig.SecondWindowCell | gbwm.c:290-343 | the second window gets (281, 8, 265, 260) |
| DefaultConfig.NextToFirst | gbwm.c:294-303 | with one window exactly at cell (0,0) and a zero-size newcomer, the first free cell is (0,1) |
| DefaultConfig.ThreeWindows | gbwm.c:113-117 | mapping A, B, C gives the list C, B, A with C focused |
| DefaultConfig.CycleThree | gbwm.c:675-687 | on the list C, B, A, cycling from C reaches B and cycling from A wraps to C |
| DefaultConfig.MoveSoleWindow | gbwm.c:545-579 | moving the only window away leaves its workspace empty and unfocused, and the window heads the target list without the fullscreen flag |

## Left out

- X server calls (window mapping, borders, raising, input focus, `WM_TAKE_FOCUS`, the `_NET_WM_STATE` broadcast, `XGetWindowAttributes`) are foreign calls. The attribute query's outcome is a parameter of `MapRequestS`. A pointer warp is recorded as `lastWarp`.
- `spawn`, `killclient` and `quit` act on processes and the server, not on the state. Their key bindings are modelled and leave the state as it was.
- Overlay rendering (fonts, text extents, the status line, window opacity) and `expose`, which only redraws.
- The 150 ms `nanosleep` before the commit is a timing effect only.
- `main`, command-line handling, colours, `grabkeys`, `setup_icccm`, the root background, the X error handler and `sigchld` are startup and signal wiring.
- The UnmapNotify events the server sends back after `switchws` unmaps windows depend on the server's event order. The model treats each event as it arrives.
- `int` overflow of the geometry arithmetic is not modelled. Integers are unbounded, which matches the source for any real screen size.
- A key table entry with a NULL function is skipped by the source. Every `Action` in the model is a real action, so that case does not arise.
- Multiple monitors, backward cycling and per-workspace focus memory are not part of `gbwm.c`, so they are not part of this model.
- HandlerProps.MoveWinToWsRecord: does not state the total client count as a number. It states that the set of client ids is unchanged, which implies it.
- FullscreenProps.HandleCovers: excludes key presses in overlay mode, because the overlay commit resizes a fullscreen client (`FullscreenProps.OverlayResizesFullscreen`).
