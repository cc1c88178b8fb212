/*
 * The window manager as gbwm.c runs it: global variables updated in place
 * by the event handlers.  Each method performs the source's steps on the
 * fields and is proved to produce exactly the state the matching transition
 * function of Engine computes, so everything proved about Engine holds of
 * these methods too.
 */
module Manager {
  import opened Types
  import opened Grid
  import opened Overlay
  import opened Keys
  import opened Engine
  import opened EngineProps

  class WM {
    /** The configuration and the screen size. */
    const env: Env
    /** The selection buffer: two characters, '\0' when empty. */
    const overlayInput: array<char>

    var workspaces: seq<seq<Id>>
    var clients: map<Id, Client>
    var currentWs: int
    var focused: Option<Id>
    var overlayMode: bool
    var lastWarp: Option<Point>
    var nextId: Id

    /** The fields as an Engine state. */
    ghost function Abs(): State
      reads this, overlayInput
      requires overlayInput.Length == 2
    {
      State(workspaces, clients, currentWs, focused, overlayMode,
            overlayInput[0], overlayInput[1], lastWarp, nextId)
    }

    /** Enough for the helper steps: the environment and the buffer. */
    ghost predicate Shape()
      reads this
    {
      env.Valid() && overlayInput.Length == 2
    }

    /** The registry invariant, which the helper steps need in between. */
    ghost predicate WellFormed()
      reads this, overlayInput
    {
      overlayInput.Length == 2 && Wf(env, Abs())
    }

    /** The invariant every handler keeps. */
    ghost predicate Valid()
      reads this, overlayInput
    {
      overlayInput.Length == 2 && Inv(env, Abs())
    }

    /** setup: nine empty workspaces, workspace 0 current. */
    constructor (e: Env)
      requires e.Valid()
      ensures env == e && Valid() && Abs() == Initial()
    {
      env := e;
      var buffer := new char[2];
      buffer[0], buffer[1] := Empty, Empty;
      overlayInput := buffer;
      workspaces := seq(WorkspaceCount, _ => []);
      clients := map[];
      currentWs := 0;
      focused := None;
      overlayMode := false;
      lastWarp := None;
      nextId := 0;
      new;
      InitialInv(e);
    }

    // -------------------------------------------------------------------
    // Focus, resize and arrange

    /** focus: the client becomes the focused one; with `warp`, and unless
        it is fullscreen, the pointer goes 16 pixels in from its bottom-right
        corner, clamped to the screen. */
    method Focus(id: Id, warp: bool)
      requires Shape() && id in clients
      modifies this
      ensures Abs() == FocusS(env, old(Abs()), id, warp)
    {
      focused := Some(id);
      var c := clients[id];
      if warp && !c.isFullscreen {
        var cursorX := c.x + c.w - 16;
        var cursorY := c.y + c.h - 16;
        if cursorX < 0 { cursorX := 0; }
        if cursorY < 0 { cursorY := 0; }
        if cursorX >= env.sw { cursorX := env.sw - 1; }
        if cursorY >= env.sh { cursorY := env.sh - 1; }
        lastWarp := Some(Point(cursorX, cursorY));
      }
    }

    /** resize: the client's recorded geometry becomes `r`. */
    method Resize(id: Id, r: Rect)
      requires overlayInput.Length == 2 && id in clients
      modifies this
      ensures Abs() == ResizeS(old(Abs()), id, r)
    {
      var c := clients[id];
      clients := clients[id := c.(x := r.x, y := r.y, w := r.w, h := r.h)];
    }

    /** arrange: focus falls back to the head; a focused client without a
        size that is not fullscreen goes to the next free cell. */
    method Arrange()
      requires WellFormed()
      modifies this
      ensures Abs() == ArrangeS(env, old(Abs()))
    {
      var list := workspaces[currentWs];
      if list == [] {
        return;
      }
      if focused.None? {
        focused := Some(list[0]);
      }
      var f := focused.value;
      var c := clients[f];
      if c.isFullscreen {
        return;
      }
      if c.w == 0 || c.h == 0 {
        var r, col := FindNextFreeCell(env, ClientsOf(list, clients));
        Resize(f, CellRect(GridOf(env), Cell(r, col)));
      }
    }

    /** The loop the handlers use to find a window in the current list: the
        index of the first client with this window, or the list's length. */
    method FindClient(win: Window) returns (i: nat)
      requires WellFormed()
      ensures i == WinIndex(workspaces[currentWs], clients, win)
    {
      var list := workspaces[currentWs];
      i := 0;
      while i < |list| && clients[list[i]].win != win
        invariant i <= |list|
        invariant forall j :: 0 <= j < i ==> clients[list[j]].win != win
      {
        i := i + 1;
      }
    }

    // -------------------------------------------------------------------
    // The client registry

    /** maprequest */
    method MapRequest(win: Window, attributesOk: bool, overrideRedirect: bool)
      requires Valid()
      modifies this
      ensures Valid()
      ensures Abs() == MapRequestS(env, old(Abs()), win, attributesOk, overrideRedirect)
    {
      if !attributesOk || overrideRedirect {
        return;
      }
      ghost var s := Abs();
      var id := AddClient(win);
      ghost var s1 := Abs();
      Focus(id, true);
      FocusFacts(env, s1, id, true);
      Arrange();
      MapRequestInv(env, s, win, attributesOk, overrideRedirect);
    }

    /** The allocation part of maprequest: a zeroed record for `win` under
        a fresh id, pushed on the current list. */
    method AddClient(win: Window) returns (id: Id)
      requires WellFormed()
      modifies this
      ensures WellFormed() && id == old(nextId) && id in workspaces[currentWs]
      ensures Abs() == AddClientS(old(Abs()), win)
    {
      ghost var s := Abs();
      id := nextId;
      clients := clients[id := NewClient(win, currentWs)];
      workspaces := workspaces[currentWs := [id] + workspaces[currentWs]];
      nextId := id + 1;
      assert Abs() == AddClientS(s, win);
      AddClientWf(env, s, win);
    }

    /** removeclient, for UnmapNotify and DestroyNotify. */
    method RemoveClient(win: Window)
      requires Valid()
      modifies this
      ensures Valid()
      ensures Abs() == RemoveClientS(env, old(Abs()), win)
    {
      ghost var s := Abs();
      var i := FindClient(win);
      if i == |workspaces[currentWs]| {
        return;
      }
      Unlink(i);
      UnlinkKeepsWf(env, s, i);
      Arrange();
      RemoveClientInv(env, s, win);
    }

    /** The body of removeclient's loop once the client is found: unlink
        it, free its record, and refocus the new head if it had focus. */
    method Unlink(i: nat)
      requires WellFormed() && i < |workspaces[currentWs]|
      modifies this
      ensures Abs() == UnlinkS(env, old(Abs()), i)
    {
      var list := workspaces[currentWs];
      var id := list[i];
      var rest := list[..i] + list[i + 1..];
      RemoveAtFacts(list, i);
      workspaces := workspaces[currentWs := rest];
      clients := clients - {id};
      if focused == Some(id) {
        if rest == [] {
          focused := None;
        } else {
          focused := Some(rest[0]);
          Focus(rest[0], true);
        }
      }
    }

    // -------------------------------------------------------------------
    // Workspaces

    /** switchws */
    method SwitchWs(ws: int)
      requires Valid()
      modifies this
      ensures Valid()
      ensures Abs() == SwitchWsS(env, old(Abs()), ws)
    {
      if ws < 0 || ws >= WorkspaceCount || ws == currentWs {
        return;
      }
      ghost var s := Abs();
      currentWs := ws;
      var list := workspaces[ws];
      focused := if list == [] then None else Some(list[0]);
      ShowHeadWf(env, s, ws);
      assert Abs() == s.(currentWs := ws, focused := if list == [] then None else Some(list[0]));
      if list != [] {
        Focus(list[0], true);
      }
      assert Abs() == ShowWsS(env, s, ws);
      ShowWsFacts(env, s, ws);
      Arrange();
      SwitchWsInv(env, s, ws);
    }

    /** movewin_to_ws */
    method MoveWinToWs(ws: int)
      requires Valid()
      modifies this
      ensures Valid()
      ensures Abs() == MoveWinToWsS(env, old(Abs()), ws)
    {
      if focused.None? || ws < 0 || ws >= WorkspaceCount || ws == currentWs {
        return;
      }
      ghost var s := Abs();
      MoveOut(ws);
      MoveWf(env, s, ws, focused);
      Arrange();
      MoveWinToWsInv(env, s, ws);
    }

    /** The walk along a list to the position of `id` (its length when
        `id` is absent). */
    static method Locate(list: seq<Id>, id: Id) returns (i: nat)
      ensures i == IndexOf(list, id)
    {
      i := 0;
      while i < |list| && list[i] != id
        invariant i <= |list|
        invariant forall j :: 0 <= j < i ==> list[j] != id
      {
        i := i + 1;
      }
    }

    /** movewin_to_ws up to arrange: unlink the focused client, push it on
        the target list, and focus the current list's new head. */
    method MoveOut(ws: int)
      requires WellFormed() && focused.Some? && 0 <= ws < WorkspaceCount && ws != currentWs
      modifies this
      ensures Abs() == MoveOutS(env, old(Abs()), ws)
      ensures var list := old(workspaces[currentWs]);
        focused.Some? ==> focused.value in RemoveAt(list, IndexOf(list, old(focused).value))
    {
      ghost var s := Abs();
      var moving := focused.value;
      var list := workspaces[currentWs];
      var i := Locate(list, moving);
      var rest := list[..i] + list[i + 1..];
      workspaces := workspaces[currentWs := rest];
      clients := clients[moving := clients[moving].(workspace := ws, isFullscreen := false)];
      workspaces := workspaces[ws := [moving] + workspaces[ws]];
      focused := if rest == [] then None else Some(rest[0]);
      RemoveAtFacts(list, i);
      assert Abs() == Moved(env, s, ws, focused);
      if rest != [] {
        Focus(rest[0], false);
      }
      MoveOutMoved(env, s, ws);
    }

    // -------------------------------------------------------------------
    // Focus changes

    /** cycle_focus */
    method CycleFocus()
      requires WellFormed()
      modifies this
      ensures Abs() == CycleFocusS(env, old(Abs()))
    {
      var list := workspaces[currentWs];
      if list == [] {
        return;
      }
      if focused.None? {
        Focus(list[0], true);
      } else {
        Focus(NextAfter(list, focused.value), true);
      }
    }

    /** buttonpress */
    method ButtonPress(subwindow: Window)
      requires Valid()
      modifies this
      ensures Valid()
      ensures Abs() == ButtonPressS(env, old(Abs()), subwindow)
    {
      var i := FindClient(subwindow);
      var list := workspaces[currentWs];
      if i < |list| {
        Focus(list[i], true);
      }
    }

    /** enternotify */
    method EnterNotify(win: Window, mode: int, detail: int)
      requires Valid()
      modifies this
      ensures Valid()
      ensures Abs() == EnterNotifyS(env, old(Abs()), win, mode, detail)
    {
      if mode != NotifyNormal || detail == NotifyInferior {
        return;
      }
      var i := FindClient(win);
      var list := workspaces[currentWs];
      if i < |list| {
        Focus(list[i], false);
      }
    }

    // -------------------------------------------------------------------
    // Fullscreen

    /** setfullscreen */
    method SetFullscreen(id: Id, on: bool)
      requires overlayInput.Length == 2 && id in clients
      modifies this
      ensures Abs() == SetFullscreenS(env, old(Abs()), id, on)
    {
      var c := clients[id];
      if on && !c.isFullscreen {
        c := c.(savedX := c.x, savedY := c.y, savedW := c.w, savedH := c.h, isFullscreen := true);
        clients := clients[id := c];
        Resize(id, Rect(0, 0, env.sw, env.sh));
      } else if !on && c.isFullscreen {
        c := c.(isFullscreen := false);
        clients := clients[id := c];
        Resize(id, Rect(c.savedX, c.savedY, c.savedW, c.savedH));
      }
    }

    /** toggle_fullscreen */
    method ToggleFullscreen()
      requires Valid()
      modifies this
      ensures Valid()
      ensures Abs() == ToggleFullscreenS(env, old(Abs()))
    {
      ghost var s := Abs();
      if focused.Some? {
        SetFullscreen(focused.value, !clients[focused.value].isFullscreen);
      }
      ToggleFullscreenInv(env, s);
    }

    /** clientmessage */
    method ClientMessage(win: Window, messageType: Atom, action: int, property: Atom)
      requires Valid()
      modifies this
      ensures Valid()
      ensures Abs() == ClientMessageS(env, old(Abs()), win, messageType, action, property)
    {
      ghost var s := Abs();
      var i := FindClient(win);
      var list := workspaces[currentWs];
      if i == |list| {
        return;
      }
      var c := list[i];
      if messageType == WmState && property == NetWmStateFullscreen {
        SetFullscreen(c, action == 1 || (action == 2 && !clients[c].isFullscreen));
      }
      ClientMessageInv(env, s, win, messageType, action, property);
    }

    // -------------------------------------------------------------------
    // The overlay

    /** enter_overlay */
    method EnterOverlay()
      requires Valid()
      modifies this, overlayInput
      ensures Valid()
      ensures Abs() == EnterOverlayS(old(Abs()))
    {
      if focused.None? {
        return;
      }
      overlayMode := true;
      overlayInput[0], overlayInput[1] := Empty, Empty;
    }

    /** hide_overlay */
    method HideOverlay()
      requires overlayInput.Length == 2
      modifies this, overlayInput
      ensures Abs() == HideOverlayS(old(Abs()))
    {
      overlayMode := false;
      overlayInput[0], overlayInput[1] := Empty, Empty;
    }

    /** process_overlay_input: with both labels picked, the focused client
        takes the rectangle the two cells span, then is focused again. */
    method ProcessOverlayInput()
      requires WellFormed()
      modifies this
      ensures Abs() == ProcessOverlayS(env, old(Abs()))
    {
      if focused.None? || overlayInput[0] == Empty || overlayInput[1] == Empty {
        return;
      }
      var r1, c1 := LabelPosition(env.cfg, overlayInput[0]);
      var r2, c2 := LabelPosition(env.cfg, overlayInput[1]);
      if r1 == -1 || r2 == -1 {
        return;
      }
      ghost var span := SpanRect(GridOf(env), Cell(r1, c1), Cell(r2, c2));
      if r1 > r2 {
        r1, r2 := r2, r1;
      }
      if c1 > c2 {
        c1, c2 := c2, c1;
      }
      var colsSpan := c2 - c1 + 1;
      var rowsSpan := r2 - r1 + 1;
      var g := GridOf(env);
      var x := env.cfg.padding + c1 * (g.cellW + env.cfg.padding);
      var y := env.cfg.padding + r1 * (g.cellH + env.cfg.padding);
      var w := colsSpan * g.cellW + (colsSpan - 1) * env.cfg.padding;
      var h := rowsSpan * g.cellH + (rowsSpan - 1) * env.cfg.padding;
      assert Rect(x, y, w, h) == span;
      var f := focused.value;
      Resize(f, Rect(x, y, w, h));
      Focus(f, true);
    }

    // -------------------------------------------------------------------
    // Keys and the event loop

    /** The function a key binding calls. */
    method RunAction(a: Action)
      requires Valid()
      modifies this, overlayInput
      ensures Valid()
      ensures Abs() == Engine.RunAction(env, old(Abs()), a)
    {
      match a
      case EnterOverlay => EnterOverlay();
      case Spawn(_) =>
      case KillClient =>
      case ToggleFullscreen => ToggleFullscreen();
      case CycleFocus =>
        ghost var s := Abs();
        CycleFocus();
        CycleFocusInv(env, s);
      case Quit =>
      case SwitchWs(ws) => SwitchWs(ws);
      case MoveWinToWs(ws) => MoveWinToWs(ws);
    }

    /** keypress */
    method KeyPress(k: KeySym, state: bv32)
      requires Valid()
      modifies this, overlayInput
      ensures Valid()
      ensures Abs() == KeyPressS(env, old(Abs()), k, state)
    {
      if overlayMode {
        ghost var s := Abs();
        OverlayKey(k);
        OverlayKeyInv(env, s, k);
        return;
      }
      var j := FindBinding(env.cfg.keys, k, state);
      if j < |env.cfg.keys| {
        RunAction(env.cfg.keys[j].action);
      }
    }

    /** The overlay branch of keypress: Escape leaves, Backspace clears the
        last pick, a grid label is recorded, and the second one commits. */
    method OverlayKey(k: KeySym)
      requires WellFormed()
      modifies this, overlayInput
      ensures Abs() == OverlayKeyS(env, old(Abs()), k)
    {
      if k == XK_Escape {
        HideOverlay();
        return;
      }
      if k == XK_BackSpace {
        if overlayInput[1] != Empty {
          overlayInput[1] := Empty;
        } else if overlayInput[0] != Empty {
          overlayInput[0] := Empty;
        }
        return;
      }
      var ch := FoldKey(k);
      if ch.None? {
        return;
      }
      var found := FindLabel(env.cfg, ch.value);
      if !found {
        return;
      }
      if overlayInput[0] == Empty {
        overlayInput[0] := ch.value;
      } else if overlayInput[1] == Empty {
        overlayInput[1] := ch.value;
        ProcessOverlayInput();
        HideOverlay();
      }
    }

    /** One turn of the event loop. */
    method HandleEvent(ev: Event)
      requires Valid()
      modifies this, overlayInput
      ensures Valid()
      ensures Abs() == Handle(env, old(Abs()), ev)
    {
      ghost var s := Abs();
      match ev
      case ButtonPress(sub) =>
        assert Handle(env, s, ev) == ButtonPressS(env, s, sub);
        ButtonPress(sub);
      case ClientMessage(win, t, a, p) =>
        assert Handle(env, s, ev) == ClientMessageS(env, s, win, t, a, p);
        ClientMessage(win, t, a, p);
      case MapRequest(win, ok, redirect) =>
        assert Handle(env, s, ev) == MapRequestS(env, s, win, ok, redirect);
        MapRequest(win, ok, redirect);
      case UnmapNotify(win) =>
        assert Handle(env, s, ev) == RemoveClientS(env, s, win);
        RemoveClient(win);
      case DestroyNotify(win) =>
        assert Handle(env, s, ev) == RemoveClientS(env, s, win);
        RemoveClient(win);
      case EnterNotify(win, mode, detail) =>
        assert Handle(env, s, ev) == EnterNotifyS(env, s, win, mode, detail);
        EnterNotify(win, mode, detail);
      case KeyPress(k, state) =>
        assert Handle(env, s, ev) == KeyPressS(env, s, k, state);
        KeyPress(k, state);
      case Expose(_) =>
    }
  }
}
