/*
 * The window manager's state as a value, and one transition function per
 * handler of gbwm.c: map request, client removal, focus, arrange,
 * workspace switch and move, focus cycling, fullscreen, the overlay keys
 * and the key table.  The class in wm.dfy performs the same steps in place
 * and is proved against these functions.
 */
module Engine {
  import opened Types
  import opened Grid
  import opened Overlay
  import opened Keys

  /** Workspaces are numbered 0 to 8. */
  const WorkspaceCount: int := 9

  // Crossing modes and details of an EnterNotify event
  const NotifyNormal: int := 0
  const NotifyInferior: int := 2

  /** Everything the handlers read and write.  `workspaces[i]` is the list
      of workspace i, head first; `clients` holds the record of every
      managed window; `input0`/`input1` are the selection buffer ('\0' when
      empty); `lastWarp` is where the pointer was last warped to. */
  datatype State = State(
    workspaces: seq<seq<Id>>,
    clients: map<Id, Client>,
    currentWs: int,
    focused: Option<Id>,
    overlayMode: bool,
    input0: char,
    input1: char,
    lastWarp: Option<Point>,
    nextId: Id)

  /** The state before the first event: nine empty workspaces. */
  function Initial(): State {
    State(seq(WorkspaceCount, _ => []), map[], 0, None, false, Empty, Empty, None, 0)
  }

  predicate NoDup(l: seq<Id>) {
    forall j, k :: 0 <= j < k < |l| ==> l[j] != l[k]
  }

  /** What the handlers need in order to be defined: nine lists, a current
      one, and every id they look up has a record. */
  ghost predicate Shaped(s: State) {
    && |s.workspaces| == WorkspaceCount
    && 0 <= s.currentWs < WorkspaceCount
    && (forall id :: id in s.workspaces[s.currentWs] ==> id in s.clients)
    && (s.focused.Some? ==> s.focused.value in s.clients)
  }

  /** The registry invariant: each client sits in exactly one list, once,
      and records that list's index; the focused client belongs to the
      current workspace. */
  ghost predicate Wf(e: Env, s: State) {
    && e.Valid()
    && |s.workspaces| == WorkspaceCount
    && 0 <= s.currentWs < WorkspaceCount
    && (forall i :: 0 <= i < WorkspaceCount ==> NoDup(s.workspaces[i]))
    && (forall i, id :: 0 <= i < WorkspaceCount && id in s.workspaces[i] ==>
          id in s.clients && s.clients[id].workspace == i)
    && (forall id :: id in s.clients ==>
          0 <= s.clients[id].workspace < WorkspaceCount
          && id in s.workspaces[s.clients[id].workspace]
          && id < s.nextId)
    && (s.focused.Some? ==> s.focused.value in s.workspaces[s.currentWs])
  }

  /** The selection buffer never rests holding two picks, is empty outside
      overlay mode and holds only grid labels. */
  ghost predicate OverlayInv(e: Env, s: State)
    requires e.Valid()
  {
    && s.input1 == Empty
    && (!s.overlayMode ==> s.input0 == Empty)
    && (s.input0 != Empty ==> IsLabel(e.cfg, s.input0))
  }

  /** The full invariant: well-formed registry, focus set whenever the
      current workspace has a client, and a consistent overlay buffer. */
  ghost predicate Inv(e: Env, s: State) {
    && Wf(e, s)
    && (s.workspaces[s.currentWs] != [] ==> s.focused.Some?)
    && OverlayInv(e, s)
  }

  /** The records of a list of ids, in list order. */
  function ClientsOf(ids: seq<Id>, m: map<Id, Client>): (cs: seq<Client>)
    requires forall id :: id in ids ==> id in m
    ensures |cs| == |ids| && forall i :: 0 <= i < |ids| ==> cs[i] == m[ids[i]]
  {
    seq(|ids|, i requires 0 <= i < |ids| => m[ids[i]])
  }

  /** The clients of the current workspace, head first. */
  function CurrentClients(s: State): seq<Client>
    requires Shaped(s)
  {
    ClientsOf(s.workspaces[s.currentWs], s.clients)
  }

  /** Index of the first client of `ids` whose window is `win`, or |ids|. */
  function WinIndex(ids: seq<Id>, m: map<Id, Client>, win: Window): (i: nat)
    requires forall id :: id in ids ==> id in m
    ensures i <= |ids|
    ensures i < |ids| ==> m[ids[i]].win == win
    ensures forall j :: 0 <= j < i ==> m[ids[j]].win != win
  {
    if ids == [] then 0
    else if m[ids[0]].win == win then 0
    else 1 + WinIndex(ids[1..], m, win)
  }

  /** Index of the first occurrence of `id` in `ids`, or |ids|. */
  function IndexOf(ids: seq<Id>, id: Id): (i: nat)
    ensures i <= |ids|
    ensures i < |ids| <==> id in ids
    ensures i < |ids| ==> ids[i] == id
    ensures forall j :: 0 <= j < i ==> ids[j] != id
  {
    if ids == [] then 0
    else if ids[0] == id then 0
    else 1 + IndexOf(ids[1..], id)
  }

  function RemoveAt(l: seq<Id>, i: nat): seq<Id>
    requires i < |l|
  {
    l[..i] + l[i + 1..]
  }

  lemma RemoveAtFacts(l: seq<Id>, i: nat)
    requires i < |l| && NoDup(l)
    ensures |RemoveAt(l, i)| == |l| - 1
    ensures NoDup(RemoveAt(l, i))
    ensures forall x :: x in RemoveAt(l, i) <==> x in l && x != l[i]
  {
    var r := RemoveAt(l, i);
    forall x | x in l && x != l[i] ensures x in r {
      var j :| 0 <= j < |l| && l[j] == x;
      if j < i { assert r[j] == x; } else { assert r[j - 1] == x; }
    }
    forall x | x in r ensures x in l && x != l[i] {
      var j :| 0 <= j < |r| && r[j] == x;
      if j < i { assert l[j] == x; } else { assert l[j + 1] == x; }
    }
  }

  // ---------------------------------------------------------------------
  // Focus, resize and arrange

  /** Where focusing a client warps the pointer: 16 pixels in from its
      bottom-right corner, clamped to the screen. */
  function WarpPoint(e: Env, c: Client): (p: Point)
    requires e.Valid()
    ensures 0 <= p.x < e.sw && 0 <= p.y < e.sh
    ensures 0 <= c.x + c.w - 16 < e.sw ==> p.x == c.x + c.w - 16
    ensures 0 <= c.y + c.h - 16 < e.sh ==> p.y == c.y + c.h - 16
    ensures c.x + c.w - 16 < 0 ==> p.x == 0
    ensures c.x + c.w - 16 >= e.sw ==> p.x == e.sw - 1
    ensures c.y + c.h - 16 < 0 ==> p.y == 0
    ensures c.y + c.h - 16 >= e.sh ==> p.y == e.sh - 1
  {
    var cursorX := c.x + c.w - 16;
    var cursorY := c.y + c.h - 16;
    var x1 := if cursorX < 0 then 0 else cursorX;
    var y1 := if cursorY < 0 then 0 else cursorY;
    Point(if x1 >= e.sw then e.sw - 1 else x1, if y1 >= e.sh then e.sh - 1 else y1)
  }

  /** focus: the client becomes the focused one; with `warp`, and unless it
      is fullscreen, the pointer goes to its WarpPoint. */
  function FocusS(e: Env, s: State, id: Id, warp: bool): State
    requires e.Valid() && id in s.clients
  {
    var c := s.clients[id];
    s.(focused := Some(id),
       lastWarp := if warp && !c.isFullscreen then Some(WarpPoint(e, c)) else s.lastWarp)
  }

  /** The state part of resize: the client's geometry becomes `r`. */
  function ResizeS(s: State, id: Id, r: Rect): State
    requires id in s.clients
  {
    s.(clients := s.clients[id := s.clients[id].(x := r.x, y := r.y, w := r.w, h := r.h)])
  }

  /** arrange: on a non-empty current workspace, focus falls back to the
      head; a focused client that is not fullscreen and has no size yet is
      placed on FreeCell. */
  function ArrangeS(e: Env, s: State): State
    requires e.Valid() && Shaped(s)
  {
    var list := s.workspaces[s.currentWs];
    if list == [] then s
    else
      var f := if s.focused.Some? then s.focused.value else list[0];
      var s1 := s.(focused := Some(f));
      var c := s1.clients[f];
      if c.isFullscreen then s1
      else if c.w == 0 || c.h == 0 then
        var g := GridOf(e);
        ResizeS(s1, f, CellRect(g, FreeCell(g, CurrentClients(s1))))
      else s1
  }

  // ---------------------------------------------------------------------
  // The client registry

  /** maprequest: a window that can be queried and is not override-redirect
      gets a zeroed record at the head of the current list, is focused
      (with a warp) and arranged. */
  function MapRequestS(e: Env, s: State, win: Window, attributesOk: bool, overrideRedirect: bool): State
    requires Wf(e, s)
  {
    if !attributesOk || overrideRedirect then s
    else ArrangeS(e, FocusS(e, AddClientS(s, win), s.nextId, true))
  }

  /** A zeroed record for `win` under a fresh id, at the head of the
      current list. */
  function AddClientS(s: State, win: Window): (s1: State)
    requires Shaped(s)
    ensures Shaped(s1) && s.nextId in s1.workspaces[s1.currentWs]
  {
    var id := s.nextId;
    s.(clients := s.clients[id := NewClient(win, s.currentWs)],
       workspaces := s.workspaces[s.currentWs := [id] + s.workspaces[s.currentWs]],
       nextId := id + 1)
  }

  /** removeclient: the first client of the CURRENT list with this window is
      unlinked and freed; if it had focus, the new head is focused (with a
      warp); then arrange.  A window in another workspace is not found. */
  function RemoveClientS(e: Env, s: State, win: Window): State
    requires Wf(e, s)
  {
    var list := s.workspaces[s.currentWs];
    var i := WinIndex(list, s.clients, win);
    if i == |list| then s else ArrangeS(e, UnlinkS(e, s, i))
  }

  /** The part of removeclient before arrange, for the client at index i
      of the current list. */
  function UnlinkS(e: Env, s: State, i: nat): (s2: State)
    requires Wf(e, s) && i < |s.workspaces[s.currentWs]|
    ensures Shaped(s2)
  {
    var list := s.workspaces[s.currentWs];
    var id := list[i];
    var rest := RemoveAt(list, i);
    RemoveAtFacts(list, i);
    var s1 := s.(workspaces := s.workspaces[s.currentWs := rest], clients := s.clients - {id});
    assert forall x :: x in rest ==> x in s1.clients;
    if s.focused == Some(id) then
      if rest == [] then s1.(focused := None) else FocusS(e, s1.(focused := Some(rest[0])), rest[0], true)
    else s1
  }

  /** switchws: a valid other workspace becomes current and its head is
      focused (with a warp), or nothing is; then arrange. */
  function SwitchWsS(e: Env, s: State, ws: int): State
    requires Wf(e, s)
  {
    if ws < 0 || ws >= WorkspaceCount || ws == s.currentWs then s
    else ArrangeS(e, ShowWsS(e, s, ws))
  }

  /** The part of switchws before arrange. */
  function ShowWsS(e: Env, s: State, ws: int): (s2: State)
    requires Wf(e, s) && 0 <= ws < WorkspaceCount
    ensures Shaped(s2)
  {
    var list := s.workspaces[ws];
    var s1 := s.(currentWs := ws, focused := if list == [] then None else Some(list[0]));
    if list == [] then s1 else FocusS(e, s1, list[0], true)
  }

  /** movewin_to_ws: the focused client leaves the current list, goes to the
      head of the target list with that workspace's index and fullscreen
      cleared; the current list's head is focused (no warp); then arrange. */
  function MoveWinToWsS(e: Env, s: State, ws: int): State
    requires Wf(e, s)
  {
    if s.focused.None? || ws < 0 || ws >= WorkspaceCount || ws == s.currentWs then s
    else ArrangeS(e, MoveOutS(e, s, ws))
  }

  /** The part of movewin_to_ws before arrange. */
  function MoveOutS(e: Env, s: State, ws: int): (s2: State)
    requires Wf(e, s) && s.focused.Some? && 0 <= ws < WorkspaceCount && ws != s.currentWs
    ensures Shaped(s2)
  {
    var m := s.focused.value;
    var list := s.workspaces[s.currentWs];
    var i := IndexOf(list, m);
    var rest := RemoveAt(list, i);
    RemoveAtFacts(list, i);
    var moved := s.clients[m].(workspace := ws, isFullscreen := false);
    var s1 := s.(workspaces := s.workspaces[s.currentWs := rest][ws := [m] + s.workspaces[ws]],
                 clients := s.clients[m := moved],
                 focused := if rest == [] then None else Some(rest[0]));
    if rest == [] then s1 else FocusS(e, s1, rest[0], false)
  }

  /** The client after `id` in `list`, wrapping to the head after the tail. */
  function NextAfter(list: seq<Id>, id: Id): (n: Id)
    requires id in list
    ensures n in list
  {
    var i := IndexOf(list, id);
    if i + 1 < |list| then list[i + 1] else list[0]
  }

  /** cycle_focus: forward only, wrapping; with no focus, the head. */
  function CycleFocusS(e: Env, s: State): State
    requires Wf(e, s)
  {
    var list := s.workspaces[s.currentWs];
    if list == [] then s
    else if s.focused.None? then FocusS(e, s, list[0], true)
    else FocusS(e, s, NextAfter(list, s.focused.value), true)
  }

  /** buttonpress: a click on a window of the current workspace focuses it
      (with a warp). */
  function ButtonPressS(e: Env, s: State, subwindow: Window): State
    requires Wf(e, s)
  {
    var list := s.workspaces[s.currentWs];
    var i := WinIndex(list, s.clients, subwindow);
    if i == |list| then s else FocusS(e, s, list[i], true)
  }

  /** enternotify: a normal pointer entry (not from an inferior) into a
      window of the current workspace focuses it, without a warp. */
  function EnterNotifyS(e: Env, s: State, win: Window, mode: int, detail: int): State
    requires Wf(e, s)
  {
    if mode != NotifyNormal || detail == NotifyInferior then s
    else
      var list := s.workspaces[s.currentWs];
      var i := WinIndex(list, s.clients, win);
      if i == |list| then s else FocusS(e, s, list[i], false)
  }

  // ---------------------------------------------------------------------
  // Fullscreen

  /** setfullscreen on one record: entering saves the geometry and covers
      the screen; leaving restores the saved geometry; asking for the state
      the client is already in changes nothing. */
  function SetFullscreenClient(e: Env, c: Client, on: bool): Client {
    if on && !c.isFullscreen then
      c.(savedX := c.x, savedY := c.y, savedW := c.w, savedH := c.h,
         isFullscreen := true, x := 0, y := 0, w := e.sw, h := e.sh)
    else if !on && c.isFullscreen then
      c.(isFullscreen := false, x := c.savedX, y := c.savedY, w := c.savedW, h := c.savedH)
    else c
  }

  function SetFullscreenS(e: Env, s: State, id: Id, on: bool): State
    requires id in s.clients
  {
    s.(clients := s.clients[id := SetFullscreenClient(e, s.clients[id], on)])
  }

  /** toggle_fullscreen: flips the focused client, if any. */
  function ToggleFullscreenS(e: Env, s: State): State
    requires Shaped(s)
  {
    if s.focused.None? then s
    else SetFullscreenS(e, s, s.focused.value, !s.clients[s.focused.value].isFullscreen)
  }

  /** The fullscreen argument the client-message handler derives from the
      request's action code: 1 sets, 2 toggles, anything else clears. */
  function FullscreenRequest(action: int, isFullscreen: bool): bool {
    action == 1 || (action == 2 && !isFullscreen)
  }

  /** clientmessage: a fullscreen state request for a window of the current
      workspace; the message type is compared with the WM_STATE atom. */
  function ClientMessageS(e: Env, s: State, win: Window, messageType: Atom, action: int, property: Atom): State
    requires Wf(e, s)
  {
    var list := s.workspaces[s.currentWs];
    var i := WinIndex(list, s.clients, win);
    if i == |list| then s
    else if messageType == WmState && property == NetWmStateFullscreen then
      SetFullscreenS(e, s, list[i], FullscreenRequest(action, s.clients[list[i]].isFullscreen))
    else s
  }

  // ---------------------------------------------------------------------
  // The overlay

  /** enter_overlay: needs a focused client; clears the buffer. */
  function EnterOverlayS(s: State): State {
    if s.focused.None? then s else s.(overlayMode := true, input0 := Empty, input1 := Empty)
  }

  /** hide_overlay: leaves overlay mode and clears the buffer. */
  function HideOverlayS(s: State): State {
    s.(overlayMode := false, input0 := Empty, input1 := Empty)
  }

  /** process_overlay_input: with a focused client and both slots filled,
      resize it to the span of the two labels and focus it (with a warp). */
  function ProcessOverlayS(e: Env, s: State): State
    requires e.Valid() && Shaped(s)
  {
    if s.focused.None? || s.input0 == Empty || s.input1 == Empty then s
    else
      var p1 := LabelPos(e.cfg, s.input0);
      var p2 := LabelPos(e.cfg, s.input1);
      if p1.None? || p2.None? then s
      else
        var f := s.focused.value;
        FocusS(e, ResizeS(s, f, SpanRect(GridOf(e), p1.value, p2.value)), f, true)
  }

  /** The overlay branch of keypress. */
  function OverlayKeyS(e: Env, s: State, k: KeySym): State
    requires e.Valid() && Shaped(s)
  {
    if k == XK_Escape then HideOverlayS(s)
    else if k == XK_BackSpace then
      if s.input1 != Empty then s.(input1 := Empty)
      else if s.input0 != Empty then s.(input0 := Empty)
      else s
    else
      match FoldKey(k)
      case None => s
      case Some(ch) => OverlayCharS(e, s, ch)
  }

  /** A typed character: a label fills the first empty slot, and filling
      the second commits the selection and leaves overlay mode. */
  function OverlayCharS(e: Env, s: State, ch: char): State
    requires e.Valid() && Shaped(s)
  {
    if !IsLabel(e.cfg, ch) then s
    else if s.input0 == Empty then s.(input0 := ch)
    else if s.input1 == Empty then HideOverlayS(ProcessOverlayS(e, s.(input1 := ch)))
    else s
  }

  // ---------------------------------------------------------------------
  // Key dispatch and the event loop

  /** The effect of a bound action on the state.  Spawning, closing a window
      and quitting only act outside the state. */
  function RunAction(e: Env, s: State, a: Action): State
    requires Wf(e, s)
  {
    match a
    case EnterOverlay => EnterOverlayS(s)
    case Spawn(_) => s
    case KillClient => s
    case ToggleFullscreen => ToggleFullscreenS(e, s)
    case CycleFocus => CycleFocusS(e, s)
    case Quit => s
    case SwitchWs(ws) => SwitchWsS(e, s, ws)
    case MoveWinToWs(ws) => MoveWinToWsS(e, s, ws)
  }

  /** keypress: the overlay branch in overlay mode, else the first binding. */
  function KeyPressS(e: Env, s: State, k: KeySym, state: bv32): State
    requires Wf(e, s)
  {
    if s.overlayMode then OverlayKeyS(e, s, k)
    else
      match Lookup(e.cfg.keys, k, state)
      case None => s
      case Some(a) => RunAction(e, s, a)
  }

  /** The inbound events the main loop dispatches. */
  datatype Event =
    | ButtonPress(subwindow: Window)
    | ClientMessage(window: Window, messageType: Atom, action: int, property: Atom)
    | MapRequest(window: Window, attributesOk: bool, overrideRedirect: bool)
    | UnmapNotify(window: Window)
    | DestroyNotify(window: Window)
    | EnterNotify(window: Window, mode: int, detail: int)
    | KeyPress(keysym: KeySym, state: bv32)
    | Expose(window: Window)

  /** One turn of the event loop. */
  function Handle(e: Env, s: State, ev: Event): State
    requires Wf(e, s)
  {
    match ev
    case ButtonPress(sub) => ButtonPressS(e, s, sub)
    case ClientMessage(win, t, a, p) => ClientMessageS(e, s, win, t, a, p)
    case MapRequest(win, ok, redirect) => MapRequestS(e, s, win, ok, redirect)
    case UnmapNotify(win) => RemoveClientS(e, s, win)
    case DestroyNotify(win) => RemoveClientS(e, s, win)
    case EnterNotify(win, mode, detail) => EnterNotifyS(e, s, win, mode, detail)
    case KeyPress(k, state) => KeyPressS(e, s, k, state)
    case Expose(_) => s
  }
}
