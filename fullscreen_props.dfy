/*
 * "A fullscreen client covers the screen": every event except a key in
 * overlay mode keeps it, and the overlay commit is the one step that can
 * resize a client while it stays fullscreen.
 */
module FullscreenProps {
  import opened Types
  import opened Grid
  import opened Overlay
  import opened Keys
  import opened Engine
  import opened EngineProps

  /** Every fullscreen client has the geometry (0, 0, sw, sh). */
  ghost predicate FullscreenCovers(e: Env, s: State) {
    forall id :: id in s.clients && s.clients[id].isFullscreen ==>
      s.clients[id].Geometry() == Rect(0, 0, e.sw, e.sh)
  }

  /** arrange never touches a fullscreen client. */
  lemma ArrangeKeepsFullscreen(e: Env, s: State)
    requires e.Valid() && Shaped(s)
    ensures var t := ArrangeS(e, s);
      && t.clients.Keys == s.clients.Keys
      && (forall id :: id in s.clients && s.clients[id].isFullscreen ==> t.clients[id] == s.clients[id])
      && (forall id :: id in s.clients ==> t.clients[id].isFullscreen == s.clients[id].isFullscreen)
  {
  }

  lemma ArrangeCovers(e: Env, s: State)
    requires e.Valid() && Shaped(s) && FullscreenCovers(e, s)
    ensures FullscreenCovers(e, ArrangeS(e, s))
  {
    ArrangeKeepsFullscreen(e, s);
  }

  lemma SetFullscreenCovers(e: Env, s: State, id: Id, on: bool)
    requires id in s.clients && FullscreenCovers(e, s)
    ensures FullscreenCovers(e, SetFullscreenS(e, s, id, on))
  {
  }

  lemma MapRequestCovers(e: Env, s: State, win: Window, ok: bool, redirect: bool)
    requires Inv(e, s) && FullscreenCovers(e, s)
    ensures FullscreenCovers(e, MapRequestS(e, s, win, ok, redirect))
  {
    if ok && !redirect {
      var s1 := AddClientS(s, win);
      AddClientWf(e, s, win);
      var s2 := FocusS(e, s1, s.nextId, true);
      assert FullscreenCovers(e, s2);
      ArrangeCovers(e, s2);
    }
  }

  lemma RemoveClientCovers(e: Env, s: State, win: Window)
    requires Inv(e, s) && FullscreenCovers(e, s)
    ensures FullscreenCovers(e, RemoveClientS(e, s, win))
  {
    var list := s.workspaces[s.currentWs];
    var i := WinIndex(list, s.clients, win);
    if i < |list| {
      UnlinkFacts(e, s, i);
      ArrangeCovers(e, UnlinkS(e, s, i));
    }
  }

  lemma SwitchWsCovers(e: Env, s: State, ws: int)
    requires Inv(e, s) && FullscreenCovers(e, s)
    ensures FullscreenCovers(e, SwitchWsS(e, s, ws))
  {
    if 0 <= ws < WorkspaceCount && ws != s.currentWs {
      ShowWsFacts(e, s, ws);
      ArrangeCovers(e, ShowWsS(e, s, ws));
    }
  }

  lemma MoveWinToWsCovers(e: Env, s: State, ws: int)
    requires Inv(e, s) && FullscreenCovers(e, s)
    ensures FullscreenCovers(e, MoveWinToWsS(e, s, ws))
  {
    if s.focused.Some? && 0 <= ws < WorkspaceCount && ws != s.currentWs {
      var s2 := MoveOutS(e, s, ws);
      assert FullscreenCovers(e, s2);
      ArrangeCovers(e, s2);
    }
  }

  /** The fullscreen invariant survives every event except a key pressed
      in overlay mode. */
  lemma HandleCovers(e: Env, s: State, ev: Event)
    requires Inv(e, s) && FullscreenCovers(e, s)
    requires !(ev.KeyPress? && s.overlayMode)
    ensures FullscreenCovers(e, Handle(e, s, ev))
  {
    match ev
    case ClientMessage(win, t, a, p) =>
      var list := s.workspaces[s.currentWs];
      var i := WinIndex(list, s.clients, win);
      if i < |list| && t == WmState && p == NetWmStateFullscreen {
        SetFullscreenCovers(e, s, list[i], FullscreenRequest(a, s.clients[list[i]].isFullscreen));
      }
    case MapRequest(win, ok, redirect) => MapRequestCovers(e, s, win, ok, redirect);
    case UnmapNotify(win) => RemoveClientCovers(e, s, win);
    case DestroyNotify(win) => RemoveClientCovers(e, s, win);
    case KeyPress(k, state) =>
      var act := Lookup(e.cfg.keys, k, state);
      if act == Some(ToggleFullscreen) && s.focused.Some? {
        SetFullscreenCovers(e, s, s.focused.value, !s.clients[s.focused.value].isFullscreen);
      } else if act.Some? && act.value.SwitchWs? {
        SwitchWsCovers(e, s, act.value.ws);
      } else if act.Some? && act.value.MoveWinToWs? {
        MoveWinToWsCovers(e, s, act.value.ws);
      }
    case ButtonPress(_) =>
    case EnterNotify(_, _, _) =>
    case Expose(_) =>
  }

  /** The exception: committing a selection resizes the focused client to
      the span even when it is fullscreen, and it stays marked fullscreen. */
  lemma OverlayResizesFullscreen(e: Env, s: State)
    requires e.Valid() && Shaped(s) && s.focused.Some?
    requires s.clients[s.focused.value].isFullscreen
    requires s.input0 != Empty && s.input1 != Empty
    requires IsLabel(e.cfg, s.input0) && IsLabel(e.cfg, s.input1)
    ensures var f := s.focused.value;
      var t := ProcessOverlayS(e, s);
      var a := LabelPos(e.cfg, s.input0);
      var b := LabelPos(e.cfg, s.input1);
      && a.Some? && b.Some?
      && t.clients[f].isFullscreen
      && t.clients[f].Geometry() == SpanRect(GridOf(e), a.value, b.value)
  {
    LabelPosCorrect(e.cfg, s.input0);
    LabelPosCorrect(e.cfg, s.input1);
  }
}
