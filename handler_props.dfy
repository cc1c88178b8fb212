/*
 * What each handler of gbwm.c does, stated over all inputs: the no-op
 * cases, the lists it changes and how, whom it focuses, where it places a
 * new window, the fullscreen round trip and the overlay key protocol.
 */
module HandlerProps {
  import opened Types
  import opened Grid
  import opened Overlay
  import opened Keys
  import opened Engine
  import opened EngineProps

  lemma IndexOfDistinct(l: seq<Id>, k: nat)
    requires NoDup(l) && k < |l|
    ensures IndexOf(l, l[k]) == k
  {
  }

  // ---------------------------------------------------------------------
  // Workspaces

  /** switchws: an index outside 0..8 or the current one changes nothing;
      any other makes that workspace current, focuses its head (or nothing)
      and leaves every list and every record's ownership as it was. */
  lemma SwitchWsEffect(e: Env, s: State, ws: int)
    requires Inv(e, s)
    ensures var t := SwitchWsS(e, s, ws);
      if ws < 0 || ws >= WorkspaceCount || ws == s.currentWs then t == s
      else
        && t.currentWs == ws
        && t.workspaces == s.workspaces
        && t.clients.Keys == s.clients.Keys
        && (forall id :: id in s.clients ==> t.clients[id].workspace == s.clients[id].workspace)
        && t.focused == (if s.workspaces[ws] == [] then None else Some(s.workspaces[ws][0]))
        && t.overlayMode == s.overlayMode
  {
    if 0 <= ws < WorkspaceCount && ws != s.currentWs {
      var s2 := ShowWsS(e, s, ws);
      ShowWsFacts(e, s, ws);
      ArrangeFrame(e, s2);
    }
  }

  lemma MoveOutFacts(e: Env, s: State, ws: int)
    requires Wf(e, s) && s.focused.Some? && 0 <= ws < WorkspaceCount && ws != s.currentWs
    ensures var s2 := MoveOutS(e, s, ws);
      var m := s.focused.value;
      var list := s.workspaces[s.currentWs];
      var rest := RemoveAt(list, IndexOf(list, m));
      && m !in rest
      && s2.currentWs == s.currentWs
      && s2.workspaces == s.workspaces[s.currentWs := rest][ws := [m] + s.workspaces[ws]]
      && s2.clients == s.clients[m := s.clients[m].(workspace := ws, isFullscreen := false)]
      && s2.focused == (if rest == [] then None else Some(rest[0]))
  {
    var m := s.focused.value;
    var list := s.workspaces[s.currentWs];
    var rest := RemoveAt(list, IndexOf(list, m));
    RemoveAtFacts(list, IndexOf(list, m));
  }

  /** movewin_to_ws: without focus, with an index outside 0..8 or with the
      current index nothing changes.  Otherwise the focused client leaves
      the current list (the others keep their order) and becomes the head
      of the target list; no other list changes. */
  lemma MoveWinToWsLists(e: Env, s: State, ws: int)
    requires Wf(e, s)
    ensures var t := MoveWinToWsS(e, s, ws);
      if s.focused.None? || ws < 0 || ws >= WorkspaceCount || ws == s.currentWs then t == s
      else
        var m := s.focused.value;
        var list := s.workspaces[s.currentWs];
        var i := IndexOf(list, m);
        && i < |list| && list[i] == m
        && t.currentWs == s.currentWs
        && t.workspaces[s.currentWs] == list[..i] + list[i + 1..]
        && m !in t.workspaces[s.currentWs]
        && t.workspaces[ws] == [m] + s.workspaces[ws]
        && (forall j :: 0 <= j < WorkspaceCount && j != ws && j != s.currentWs ==> t.workspaces[j] == s.workspaces[j])
  {
    if s.focused.Some? && 0 <= ws < WorkspaceCount && ws != s.currentWs {
      MoveOutFacts(e, s, ws);
      ArrangeFrame(e, MoveOutS(e, s, ws));
    }
  }

  /** movewin_to_ws, the records: the moved client takes the target index,
      leaves fullscreen and keeps its geometry; the current list's new head
      gets focus; no record is created or freed. */
  lemma MoveWinToWsRecord(e: Env, s: State, ws: int)
    requires Wf(e, s) && s.focused.Some? && 0 <= ws < WorkspaceCount && ws != s.currentWs
    ensures var t := MoveWinToWsS(e, s, ws);
      var m := s.focused.value;
      var list := s.workspaces[s.currentWs];
      var rest := RemoveAt(list, IndexOf(list, m));
      && t.clients.Keys == s.clients.Keys
      && t.clients[m].workspace == ws
      && !t.clients[m].isFullscreen
      && t.clients[m].Geometry() == s.clients[m].Geometry()
      && t.focused == (if rest == [] then None else Some(rest[0]))
  {
    var m := s.focused.value;
    var s2 := MoveOutS(e, s, ws);
    MoveOutFacts(e, s, ws);
    ArrangeFrame(e, s2);
    ArrangeOthers(e, s2);
    var t := ArrangeS(e, s2);
    assert t.focused == s2.focused by {
      if s2.focused.None? { assert s2.workspaces[s2.currentWs] == []; }
    }
    var list := s.workspaces[s.currentWs];
    var rest := RemoveAt(list, IndexOf(list, m));
    if rest != [] {
      assert rest[0] in rest;
      assert t.focused != Some(m);
    }
    assert t.clients[m] == s2.clients[m];
  }

  // ---------------------------------------------------------------------
  // The client registry

  lemma ClientsOfPush(id: Id, list: seq<Id>, m: map<Id, Client>, c: Client)
    requires id !in list && forall x :: x in list ==> x in m
    ensures ClientsOf([id] + list, m[id := c]) == [c] + ClientsOf(list, m)
  {
  }

  /** maprequest: a window whose attributes cannot be read, or that is
      override-redirect, changes nothing.  Otherwise a fresh record heads
      the current list and gets focus; it is placed on FreeCell of the
      current clients (itself first, still zero-sized); the pointer is
      warped before the placement, so to the clamped corner (0, 0); every
      other record is untouched. */
  lemma MapRequestEffect(e: Env, s: State, win: Window, ok: bool, redirect: bool)
    requires Inv(e, s)
    ensures var t := MapRequestS(e, s, win, ok, redirect);
      if !ok || redirect then t == s
      else
        var id := s.nextId;
        var g := GridOf(e);
        && id !in s.clients
        && t.workspaces == s.workspaces[s.currentWs := [id] + s.workspaces[s.currentWs]]
        && t.currentWs == s.currentWs
        && t.focused == Some(id)
        && t.clients.Keys == s.clients.Keys + {id}
        && t.clients[id].win == win && t.clients[id].workspace == s.currentWs && !t.clients[id].isFullscreen
        && t.clients[id].Geometry()
           == CellRect(g, FreeCell(g, [NewClient(win, s.currentWs)] + CurrentClients(s)))
        && t.lastWarp == Some(Point(0, 0))
        && t.nextId == s.nextId + 1
        && (forall other :: other in s.clients ==> t.clients[other] == s.clients[other])
  {
    if ok && !redirect {
      var id := s.nextId;
      var cur := s.currentWs;
      var s1 := AddClientS(s, win);
      AddClientWf(e, s, win);
      var s2 := FocusS(e, s1, id, true);
      FocusFacts(e, s1, id, true);
      ArrangeFrame(e, s2);
      assert id !in s.workspaces[cur];
      ClientsOfPush(id, s.workspaces[cur], s.clients, NewClient(win, cur));
      assert CurrentClients(s2) == [NewClient(win, cur)] + CurrentClients(s);
    }
  }

  /** removeclient: only the current list is searched.  When no client
      there has the window, nothing changes; otherwise the first one that
      has it is unlinked and its record freed, and if it had focus the new
      head (or nothing) is focused. */
  lemma RemoveClientEffect(e: Env, s: State, win: Window)
    requires Inv(e, s)
    ensures var t := RemoveClientS(e, s, win);
      var list := s.workspaces[s.currentWs];
      var i := WinIndex(list, s.clients, win);
      if i == |list| then t == s
      else
        var id := list[i];
        var rest := list[..i] + list[i + 1..];
        && s.clients[id].win == win
        && (forall j :: 0 <= j < i ==> s.clients[list[j]].win != win)
        && t.workspaces == s.workspaces[s.currentWs := rest]
        && t.clients.Keys == s.clients.Keys - {id}
        && t.focused == (if s.focused != Some(id) then s.focused
                         else if rest == [] then None else Some(rest[0]))
  {
    var list := s.workspaces[s.currentWs];
    var i := WinIndex(list, s.clients, win);
    if i < |list| {
      var s2 := UnlinkS(e, s, i);
      UnlinkFacts(e, s, i);
      ArrangeFrame(e, s2);
      assert RemoveClientS(e, s, win) == ArrangeS(e, s2);
      if s2.focused.None? {
        assert s2.workspaces[s2.currentWs] == [];
      }
    }
  }

  // ---------------------------------------------------------------------
  // Focus

  /** cycle_focus: on an empty workspace nothing changes; with no focus
      the head is focused; otherwise the client after the focused one, the
      tail wrapping to the head.  Only focus and the pointer change. */
  lemma CycleFocusEffect(e: Env, s: State, k: nat)
    requires Wf(e, s)
    ensures var t := CycleFocusS(e, s);
      var list := s.workspaces[s.currentWs];
      && (list == [] ==> t == s)
      && (list != [] && s.focused.None? ==> t.focused == Some(list[0]))
      && (k < |list| && s.focused == Some(list[k]) ==>
            t.focused == Some(if k + 1 < |list| then list[k + 1] else list[0]))
      && (list != [] ==> t.focused.Some? && t.focused.value in s.clients
                         && (s.clients[t.focused.value].isFullscreen
                             || t.lastWarp == Some(WarpPoint(e, s.clients[t.focused.value]))))
      && t.workspaces == s.workspaces && t.clients == s.clients
  {
    var list := s.workspaces[s.currentWs];
    if list != [] {
      var n := if s.focused.None? then list[0] else NextAfter(list, s.focused.value);
      assert n in s.clients;
      assert CycleFocusS(e, s) == FocusS(e, s, n, true);
      if k < |list| && s.focused == Some(list[k]) {
        NextAfterAt(list, k);
      }
    }
  }

  /** In a list without repeats, the client after the k-th is the
      (k+1)-th, the tail wrapping to the head. */
  lemma NextAfterAt(list: seq<Id>, k: nat)
    requires NoDup(list) && k < |list|
    ensures NextAfter(list, list[k]) == if k + 1 < |list| then list[k + 1] else list[0]
  {
    IndexOfDistinct(list, k);
  }

  // ---------------------------------------------------------------------
  // Pointer and key events

  /** A window the current workspace holds: the first client of the current
      list carrying it. */
  ghost predicate FirstWithWin(s: State, win: Window, id: Id)
    requires Shaped(s)
  {
    var list := s.workspaces[s.currentWs];
    exists j :: 0 <= j < |list| && list[j] == id && s.clients[id].win == win
      && forall k :: 0 <= k < j ==> s.clients[list[k]].win != win
  }

  /** buttonpress: a click on a window no client of the current workspace
      carries changes nothing; otherwise the first client carrying it is
      focused, with a warp, and no list or record changes. */
  lemma ButtonPressEffect(e: Env, s: State, sub: Window)
    requires Wf(e, s)
    ensures var t := ButtonPressS(e, s, sub);
      var list := s.workspaces[s.currentWs];
      && t.workspaces == s.workspaces && t.clients == s.clients
      && ((forall id :: id in list ==> s.clients[id].win != sub) ==> t == s)
      && ((exists id :: id in list && s.clients[id].win == sub) ==>
            && t.focused.Some? && FirstWithWin(s, sub, t.focused.value)
            && t == FocusS(e, s, t.focused.value, true))
  {
    var list := s.workspaces[s.currentWs];
    var i := WinIndex(list, s.clients, sub);
    if i < |list| {
      assert FirstWithWin(s, sub, list[i]);
    } else {
      forall id | id in list ensures s.clients[id].win != sub {
        var j :| 0 <= j < |list| && list[j] == id;
      }
    }
  }

  /** enternotify: only a normal crossing that is not from an inferior
      window, into a window of the current workspace, changes anything; it
      focuses the first client carrying that window and does not warp. */
  lemma EnterNotifyEffect(e: Env, s: State, win: Window, mode: int, detail: int)
    requires Wf(e, s)
    ensures var t := EnterNotifyS(e, s, win, mode, detail);
      var list := s.workspaces[s.currentWs];
      && t.workspaces == s.workspaces && t.clients == s.clients && t.lastWarp == s.lastWarp
      && ((mode != NotifyNormal || detail == NotifyInferior
           || (forall id :: id in list ==> s.clients[id].win != win)) ==> t == s)
      && (mode == NotifyNormal && detail != NotifyInferior
          && (exists id :: id in list && s.clients[id].win == win) ==>
            t.focused.Some? && FirstWithWin(s, win, t.focused.value))
  {
    var list := s.workspaces[s.currentWs];
    var i := WinIndex(list, s.clients, win);
    if i < |list| {
      assert FirstWithWin(s, win, list[i]);
    } else {
      forall id | id in list ensures s.clients[id].win != win {
        var j :| 0 <= j < |list| && list[j] == id;
      }
    }
  }

  /** keypress: in overlay mode the overlay branch; outside it a bound key
      runs its action, an unbound key changes nothing, and Caps Lock or Num
      Lock held down makes no difference. */
  lemma KeyPressEffect(e: Env, s: State, k: KeySym, state: bv32)
    requires Wf(e, s)
    ensures var t := KeyPressS(e, s, k, state);
      && (s.overlayMode ==> t == OverlayKeyS(e, s, k))
      && (!s.overlayMode && Lookup(e.cfg.keys, k, state).None? ==> t == s)
      && (!s.overlayMode && Lookup(e.cfg.keys, k, state).Some? ==>
            t == RunAction(e, s, Lookup(e.cfg.keys, k, state).value))
      && KeyPressS(e, s, k, state | LockMask) == t
      && KeyPressS(e, s, k, state | Mod2Mask) == t
  {
    LookupIgnoresLocks(e.cfg.keys, k, state);
  }

  /** The pointer warp of focus stays on the screen. */
  lemma WarpOnScreen(e: Env, s: State, id: Id)
    requires e.Valid() && id in s.clients
    ensures var t := FocusS(e, s, id, true);
      t.focused == Some(id)
      && (s.clients[id].isFullscreen ==> t.lastWarp == s.lastWarp)
      && (!s.clients[id].isFullscreen ==>
            t.lastWarp.Some? && 0 <= t.lastWarp.value.x < e.sw && 0 <= t.lastWarp.value.y < e.sh)
  {
  }

  // ---------------------------------------------------------------------
  // Fullscreen

  /** Entering fullscreen saves the geometry and covers the screen; leaving
      it again restores the saved geometry exactly. */
  lemma FullscreenRoundTrip(e: Env, c: Client)
    requires !c.isFullscreen
    ensures var on := SetFullscreenClient(e, c, true);
      && on.isFullscreen && on.Geometry() == Rect(0, 0, e.sw, e.sh)
      && SetFullscreenClient(e, on, false).Geometry() == c.Geometry()
      && !SetFullscreenClient(e, on, false).isFullscreen
      && SetFullscreenClient(e, on, false).win == c.win
  {
  }

  /** Asking for the state a client is already in changes nothing; in
      particular a second fullscreen request does not overwrite the saved
      geometry. */
  lemma FullscreenSameStateNoop(e: Env, c: Client, on: bool)
    requires on == c.isFullscreen
    ensures SetFullscreenClient(e, c, on) == c
  {
  }

  /** toggle_fullscreen twice restores the focused client's geometry when
      it starts out of fullscreen. */
  lemma ToggleTwiceRestores(e: Env, s: State)
    requires Inv(e, s) && s.focused.Some? && !s.clients[s.focused.value].isFullscreen
    ensures var f := s.focused.value;
      var once := ToggleFullscreenS(e, s);
      var twice := ToggleFullscreenS(e, once);
      && once.clients[f].isFullscreen && once.clients[f].Geometry() == Rect(0, 0, e.sw, e.sh)
      && !twice.clients[f].isFullscreen && twice.clients[f].Geometry() == s.clients[f].Geometry()
      && twice.workspaces == s.workspaces && twice.clients.Keys == s.clients.Keys
  {
  }

  /** The action code of a fullscreen request: 1 turns it on, 2 toggles,
      any other value turns it off. */
  lemma FullscreenRequestCodes(action: int, isFullscreen: bool)
    ensures action == 1 ==> FullscreenRequest(action, isFullscreen)
    ensures action == 2 ==> FullscreenRequest(action, isFullscreen) == !isFullscreen
    ensures action != 1 && action != 2 ==> !FullscreenRequest(action, isFullscreen)
  {
  }

  /** clientmessage: a request for a window outside the current workspace,
      or of another type, changes nothing; a fullscreen request for one
      inside sets its fullscreen flag as the action code says. */
  lemma ClientMessageEffect(e: Env, s: State, win: Window, t: Atom, action: int, p: Atom)
    requires Wf(e, s)
    ensures var list := s.workspaces[s.currentWs];
      var i := WinIndex(list, s.clients, win);
      var u := ClientMessageS(e, s, win, t, action, p);
      if i == |list| || t != WmState || p != NetWmStateFullscreen then u == s
      else
        var id := list[i];
        && u.clients[id].isFullscreen == (action == 1 || (action == 2 && !s.clients[id].isFullscreen))
        && u.workspaces == s.workspaces && u.focused == s.focused
        && (forall other :: other in s.clients && other != id ==> u.clients[other] == s.clients[other])
  {
  }

  // ---------------------------------------------------------------------
  // The overlay key protocol

  /** Escape leaves overlay mode with an empty buffer. */
  lemma OverlayEscape(e: Env, s: State)
    requires e.Valid() && Shaped(s)
    ensures OverlayKeyS(e, s, XK_Escape) == s.(overlayMode := false, input0 := Empty, input1 := Empty)
  {
  }

  /** Backspace clears the second slot if set, else the first, and stays in
      overlay mode. */
  lemma OverlayBackspace(e: Env, s: State)
    requires e.Valid() && Shaped(s)
    ensures var t := OverlayKeyS(e, s, XK_BackSpace);
      && t.overlayMode == s.overlayMode
      && (s.input1 != Empty ==> t == s.(input1 := Empty))
      && (s.input1 == Empty ==> t == s.(input0 := Empty))
  {
  }

  /** Upper-case letters act as their lower-case forms. */
  lemma OverlayFoldsCase(e: Env, s: State, k: KeySym)
    requires e.Valid() && Shaped(s)
    requires 65 <= k <= 90
    ensures OverlayKeyS(e, s, k) == OverlayKeyS(e, s, k + 32)
  {
    assert FoldKey(k) == FoldKey(k + 32);
  }

  /** A key that is not a digit or letter, or whose character is not a
      grid label, changes nothing. */
  lemma OverlayIgnores(e: Env, s: State, k: KeySym)
    requires e.Valid() && Shaped(s)
    requires k != XK_Escape && k != XK_BackSpace
    requires FoldKey(k).None? || !IsLabel(e.cfg, FoldKey(k).value)
    ensures OverlayKeyS(e, s, k) == s
  {
  }

  /** The first label fills slot 0. */
  lemma OverlayFirstPick(e: Env, s: State, k: KeySym)
    requires e.Valid() && Shaped(s)
    requires k != XK_Escape && k != XK_BackSpace
    requires FoldKey(k).Some? && IsLabel(e.cfg, FoldKey(k).value)
    requires s.input0 == Empty
    ensures OverlayKeyS(e, s, k) == s.(input0 := FoldKey(k).value)
  {
  }

  /** The second label commits: the focused client takes the span of the
      two labels, and overlay mode ends with an empty buffer. */
  lemma OverlaySecondPick(e: Env, s: State, k: KeySym)
    requires Wf(e, s)
    requires k != XK_Escape && k != XK_BackSpace
    requires FoldKey(k).Some? && IsLabel(e.cfg, FoldKey(k).value)
    requires s.input0 != Empty && s.input1 == Empty && IsLabel(e.cfg, s.input0)
    ensures var t := OverlayKeyS(e, s, k);
      && !t.overlayMode && t.input0 == Empty && t.input1 == Empty
      && t.workspaces == s.workspaces && t.focused == s.focused
      && (s.focused.Some? ==>
            var a := LabelPos(e.cfg, s.input0);
            var b := LabelPos(e.cfg, FoldKey(k).value);
            a.Some? && b.Some? && t.clients[s.focused.value].Geometry() == SpanRect(GridOf(e), a.value, b.value))
      && (s.focused.None? ==> t.clients == s.clients)
  {
    LabelPosCorrect(e.cfg, s.input0);
    LabelPosCorrect(e.cfg, FoldKey(k).value);
  }

  /** Entering overlay mode and picking two labels. */
  function TwoPicks(e: Env, s: State, k1: KeySym, k2: KeySym): State
    requires Wf(e, s)
  {
    var u := EnterOverlayS(s);
    assert Shaped(u);
    var v := OverlayKeyS(e, u, k1);
    assert Shaped(v);
    OverlayKeyS(e, v, k2)
  }

  /** The order of the two picks does not matter: the whole resulting state
      is the same. */
  lemma TwoPicksCommute(e: Env, s: State, k1: KeySym, k2: KeySym)
    requires Inv(e, s) && s.focused.Some?
    requires k1 != XK_Escape && k1 != XK_BackSpace && k2 != XK_Escape && k2 != XK_BackSpace
    requires FoldKey(k1).Some? && IsLabel(e.cfg, FoldKey(k1).value)
    requires FoldKey(k2).Some? && IsLabel(e.cfg, FoldKey(k2).value)
    ensures TwoPicks(e, s, k1, k2) == TwoPicks(e, s, k2, k1)
  {
    var f := s.focused.value;
    var a := FoldKey(k1).value;
    var b := FoldKey(k2).value;
    LabelPosCorrect(e.cfg, a);
    LabelPosCorrect(e.cfg, b);
    SpanCommutes(GridOf(e), LabelPos(e.cfg, a).value, LabelPos(e.cfg, b).value);
  }

  /** Picking the same label twice gives the focused client exactly the
      geometry of that label's cell. */
  lemma TwoPicksSameLabel(e: Env, s: State, k: KeySym)
    requires Inv(e, s) && s.focused.Some?
    requires k != XK_Escape && k != XK_BackSpace
    requires FoldKey(k).Some? && IsLabel(e.cfg, FoldKey(k).value)
    ensures var t := TwoPicks(e, s, k, k);
      && !t.overlayMode
      && var p := LabelPos(e.cfg, FoldKey(k).value);
         p.Some? && t.clients[s.focused.value].Geometry() == CellRect(GridOf(e), p.value)
  {
    var ch := FoldKey(k).value;
    LabelPosCorrect(e.cfg, ch);
    SpanSingleCell(GridOf(e), LabelPos(e.cfg, ch).value);
  }

  /** The span commit does nothing without focus or with an empty slot. */
  lemma ProcessOverlayNoop(e: Env, s: State)
    requires e.Valid() && Shaped(s)
    requires s.focused.None? || s.input0 == Empty || s.input1 == Empty
    ensures ProcessOverlayS(e, s) == s
  {
  }

  /** Entering the overlay needs a focused client and clears the buffer. */
  lemma EnterOverlayEffect(s: State)
    ensures var t := EnterOverlayS(s);
      && (s.focused.None? ==> t == s)
      && (s.focused.Some? ==> t.overlayMode && t.input0 == Empty && t.input1 == Empty
                              && t.clients == s.clients && t.focused == s.focused)
  {
  }
}
