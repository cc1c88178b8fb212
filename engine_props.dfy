/*
 * What the handlers of gbwm.c guarantee: every event keeps the registry
 * and focus invariant, and each handler does what the window manager
 * promises (no-op cases, list order, focus choice, placement, fullscreen
 * round trip, the overlay protocol).
 */
module EngineProps {
  import opened Types
  import opened Grid
  import opened Overlay
  import opened Keys
  import opened Engine

  /** t has the same lists, the same records (up to geometry, fullscreen
      state and saved geometry) and the same current workspace as s. */
  ghost predicate SameRegistry(s: State, t: State) {
    && t.workspaces == s.workspaces
    && t.currentWs == s.currentWs
    && t.nextId == s.nextId
    && t.clients.Keys == s.clients.Keys
    && (forall id :: id in s.clients ==> t.clients[id].workspace == s.clients[id].workspace
                                          && t.clients[id].win == s.clients[id].win)
  }

  lemma SameRegistryWf(e: Env, s: State, t: State)
    requires Wf(e, s) && SameRegistry(s, t)
    requires t.focused.Some? ==> t.focused.value in t.workspaces[t.currentWs]
    ensures Wf(e, t)
  {
  }

  lemma FocusFacts(e: Env, s: State, id: Id, warp: bool)
    requires Wf(e, s) && id in s.workspaces[s.currentWs]
    ensures var t := FocusS(e, s, id, warp);
      SameRegistry(s, t) && t.clients == s.clients && Wf(e, t) && t.focused == Some(id)
  {
  }

  /** arrange changes no list and no ownership; it sets focus to the head
      when the current workspace has clients and nothing is focused, and
      only the focused client's geometry can change: a fullscreen or
      already sized client keeps its record, one without a size is placed
      on the first free cell. */
  lemma ArrangeFacts(e: Env, s: State)
    requires Wf(e, s)
    ensures var t := ArrangeS(e, s);
      && SameRegistry(s, t) && Wf(e, t)
      && t.overlayMode == s.overlayMode && t.input0 == s.input0 && t.input1 == s.input1
      && t.lastWarp == s.lastWarp
      && (s.workspaces[s.currentWs] != [] ==> t.focused.Some?)
      && (s.focused.Some? ==> t.focused == s.focused)
      && (s.workspaces[s.currentWs] == [] ==> t == s)
      && (forall id :: id in s.clients && Some(id) != t.focused ==> t.clients[id] == s.clients[id])
    ensures var t := ArrangeS(e, s);
      var list := s.workspaces[s.currentWs];
      list != [] ==>
        var f := if s.focused.Some? then s.focused.value else list[0];
        var c := s.clients[f];
        && t.focused == Some(f)
        && (c.isFullscreen || (c.w != 0 && c.h != 0) ==> t.clients == s.clients)
        && (!c.isFullscreen && (c.w == 0 || c.h == 0) ==>
              t.clients[f].Geometry() == CellRect(GridOf(e), FreeCell(GridOf(e), CurrentClients(s))))
  {
    ArrangeFrame(e, s);
    ArrangeOthers(e, s);
    ArrangePlacement(e, s);
    ArrangeKeepsWf(e, s);
  }

  /** arrange's placement rule, without the registry invariant. */
  lemma ArrangePlacement(e: Env, s: State)
    requires e.Valid() && Shaped(s)
    ensures var t := ArrangeS(e, s);
      var list := s.workspaces[s.currentWs];
      list != [] ==>
        var f := if s.focused.Some? then s.focused.value else list[0];
        var c := s.clients[f];
        && t.focused == Some(f)
        && (c.isFullscreen || (c.w != 0 && c.h != 0) ==> t.clients == s.clients)
        && (!c.isFullscreen && (c.w == 0 || c.h == 0) ==>
              t.clients[f].Geometry() == CellRect(GridOf(e), FreeCell(GridOf(e), CurrentClients(s))))
  {
  }

  /** What arrange leaves alone, without the registry invariant: the lists,
      the set of records and their ownership, an existing focus and an
      empty workspace. */
  lemma ArrangeFrame(e: Env, s: State)
    requires e.Valid() && Shaped(s)
    ensures var t := ArrangeS(e, s);
      && t.workspaces == s.workspaces && t.currentWs == s.currentWs && t.nextId == s.nextId
      && t.clients.Keys == s.clients.Keys
      && (forall id :: id in s.clients ==> t.clients[id].workspace == s.clients[id].workspace
                                            && t.clients[id].win == s.clients[id].win)
      && t.overlayMode == s.overlayMode && t.input0 == s.input0 && t.input1 == s.input1
      && t.lastWarp == s.lastWarp
      && (s.focused.Some? ==> t.focused == s.focused)
      && (s.workspaces[s.currentWs] == [] ==> t == s)
  {
  }

  /** arrange changes no record but the focused client's. */
  lemma ArrangeOthers(e: Env, s: State)
    requires e.Valid() && Shaped(s)
    ensures var t := ArrangeS(e, s);
      forall id :: id in s.clients && Some(id) != t.focused ==> t.clients[id] == s.clients[id]
  {
  }

  /** arrange keeps the registry invariant, and leaves a client focused
      whenever the current workspace has one. */
  lemma ArrangeKeepsWf(e: Env, s: State)
    requires Wf(e, s)
    ensures Wf(e, ArrangeS(e, s))
    ensures s.workspaces[s.currentWs] != [] ==> ArrangeS(e, s).focused.Some?
  {
    ArrangeFrame(e, s);
    var list := s.workspaces[s.currentWs];
    if list != [] {
      var f := if s.focused.Some? then s.focused.value else list[0];
      assert f in list;
      SameRegistryWf(e, s, ArrangeS(e, s));
    }
  }

  /** arrange keeps the full invariant. */
  lemma ArrangeInv(e: Env, s: State)
    requires Wf(e, s) && OverlayInv(e, s)
    ensures Inv(e, ArrangeS(e, s))
  {
    ArrangeFrame(e, s);
    ArrangeKeepsWf(e, s);
  }

  lemma ResizeFacts(e: Env, s: State, id: Id, r: Rect)
    requires Wf(e, s) && id in s.clients
    ensures var t := ResizeS(s, id, r);
      && SameRegistry(s, t) && Wf(e, t) && t.focused == s.focused
      && t.clients[id].Geometry() == r
      && t.clients[id].isFullscreen == s.clients[id].isFullscreen
      && (forall other :: other in s.clients && other != id ==> t.clients[other] == s.clients[other])
  {
    var t := ResizeS(s, id, r);
    SameRegistryWf(e, s, t);
  }

  // ---------------------------------------------------------------------
  // Every event keeps the invariant

  lemma AddClientWf(e: Env, s: State, win: Window)
    requires Wf(e, s)
    ensures var s1 := AddClientS(s, win);
      Wf(e, s1) && s.nextId !in s.clients && s1.clients.Keys == s.clients.Keys + {s.nextId}
  {
    var id := s.nextId;
    var s1 := AddClientS(s, win);
    assert id !in s.clients;
    forall i | 0 <= i < WorkspaceCount ensures NoDup(s1.workspaces[i]) {
      if i == s.currentWs {
        assert id !in s.workspaces[i];
      }
    }
  }

  lemma MapRequestInv(e: Env, s: State, win: Window, ok: bool, redirect: bool)
    requires Inv(e, s)
    ensures Inv(e, MapRequestS(e, s, win, ok, redirect))
  {
    if ok && !redirect {
      var s1 := AddClientS(s, win);
      AddClientWf(e, s, win);
      var s2 := FocusS(e, s1, s.nextId, true);
      FocusFacts(e, s1, s.nextId, true);
      assert OverlayInv(e, s2);
      ArrangeInv(e, s2);
    }
  }

  /** Unlinking the i-th client of the current list and freeing its record
      keeps the registry well formed, whatever remaining client is focused. */
  lemma UnlinkWf(e: Env, s: State, i: nat, f: Option<Id>)
    requires Wf(e, s) && i < |s.workspaces[s.currentWs]|
    requires f.Some? ==> f.value in RemoveAt(s.workspaces[s.currentWs], i)
    ensures Wf(e, s.(workspaces := s.workspaces[s.currentWs := RemoveAt(s.workspaces[s.currentWs], i)],
                     clients := s.clients - {s.workspaces[s.currentWs][i]},
                     focused := f))
  {
    var list := s.workspaces[s.currentWs];
    var id := list[i];
    var rest := RemoveAt(list, i);
    RemoveAtFacts(list, i);
    var t := s.(workspaces := s.workspaces[s.currentWs := rest], clients := s.clients - {id}, focused := f);
    forall j | 0 <= j < WorkspaceCount ensures NoDup(t.workspaces[j]) {
    }
    forall j, x | 0 <= j < WorkspaceCount && x in t.workspaces[j]
      ensures x in t.clients && t.clients[x].workspace == j
    {
      if j == s.currentWs {
        assert x in list && x != id;
      } else {
        assert x in s.workspaces[j];
        assert s.clients[id].workspace == s.currentWs;
      }
    }
    forall x | x in t.clients
      ensures 0 <= t.clients[x].workspace < WorkspaceCount && x in t.workspaces[t.clients[x].workspace] && x < t.nextId
    {
      assert x in s.clients && x != id;
    }
  }

  /** The state removeclient arranges: the client at index i is unlinked
      and freed; if it had focus, the new head (or nothing) is focused. */
  lemma UnlinkFacts(e: Env, s: State, i: nat)
    requires Wf(e, s) && i < |s.workspaces[s.currentWs]|
    ensures var s2 := UnlinkS(e, s, i);
      var list := s.workspaces[s.currentWs];
      var id := list[i];
      var rest := RemoveAt(list, i);
      && s2.workspaces == s.workspaces[s.currentWs := rest]
      && s2.currentWs == s.currentWs
      && s2.clients == s.clients - {id}
      && s2.focused == (if s.focused != Some(id) then s.focused
                        else if rest == [] then None else Some(rest[0]))
  {
  }

  /** Unlinking keeps the registry well formed. */
  lemma UnlinkKeepsWf(e: Env, s: State, i: nat)
    requires Wf(e, s) && i < |s.workspaces[s.currentWs]|
    ensures Wf(e, UnlinkS(e, s, i))
  {
    var list := s.workspaces[s.currentWs];
    var id := list[i];
    var rest := RemoveAt(list, i);
    RemoveAtFacts(list, i);
    var s1 := s.(workspaces := s.workspaces[s.currentWs := rest], clients := s.clients - {id});
    if s.focused == Some(id) {
      if rest == [] {
        UnlinkWf(e, s, i, None);
      } else {
        UnlinkWf(e, s, i, Some(rest[0]));
        FocusFacts(e, s1.(focused := Some(rest[0])), rest[0], true);
      }
    } else {
      UnlinkWf(e, s, i, s.focused);
      assert s1 == s1.(focused := s.focused);
    }
  }

  lemma RemoveClientInv(e: Env, s: State, win: Window)
    requires Inv(e, s)
    ensures Inv(e, RemoveClientS(e, s, win))
  {
    var list := s.workspaces[s.currentWs];
    var i := WinIndex(list, s.clients, win);
    if i < |list| {
      var s2 := UnlinkS(e, s, i);
      UnlinkKeepsWf(e, s, i);
      assert OverlayInv(e, s2);
      ArrangeInv(e, s2);
    }
  }

  /** The part of switchws before arrange keeps the registry well formed
      and changes no list, no record and no overlay field. */
  lemma ShowWsFacts(e: Env, s: State, ws: int)
    requires Wf(e, s) && 0 <= ws < WorkspaceCount
    ensures var s2 := ShowWsS(e, s, ws);
      && Wf(e, s2)
      && s2.workspaces == s.workspaces && s2.clients == s.clients && s2.currentWs == ws
      && s2.focused == (if s.workspaces[ws] == [] then None else Some(s.workspaces[ws][0]))
      && s2.overlayMode == s.overlayMode && s2.input0 == s.input0 && s2.input1 == s.input1
  {
    var list := s.workspaces[ws];
    var s1 := s.(currentWs := ws, focused := if list == [] then None else Some(list[0]));
    ShowHeadWf(e, s, ws);
    if list != [] {
      FocusFacts(e, s1, list[0], true);
    }
  }

  /** Making workspace ws current with its head (or nothing) focused keeps
      the registry well formed. */
  lemma ShowHeadWf(e: Env, s: State, ws: int)
    requires Wf(e, s) && 0 <= ws < WorkspaceCount
    ensures var list := s.workspaces[ws];
      Wf(e, s.(currentWs := ws, focused := if list == [] then None else Some(list[0])))
  {
  }

  lemma SwitchWsInv(e: Env, s: State, ws: int)
    requires Inv(e, s)
    ensures Inv(e, SwitchWsS(e, s, ws))
  {
    if 0 <= ws < WorkspaceCount && ws != s.currentWs {
      var s2 := ShowWsS(e, s, ws);
      ShowWsFacts(e, s, ws);
      assert OverlayInv(e, s2);
      ArrangeInv(e, s2);
      assert SwitchWsS(e, s, ws) == ArrangeS(e, s2);
    }
  }

  /** Moving the focused client m from the current list to the head of list
      ws keeps the registry well formed. */
  lemma MoveWf(e: Env, s: State, ws: int, f: Option<Id>)
    requires Wf(e, s) && s.focused.Some? && 0 <= ws < WorkspaceCount && ws != s.currentWs
    requires var list := s.workspaces[s.currentWs];
      f.Some? ==> f.value in RemoveAt(list, IndexOf(list, s.focused.value))
    ensures Wf(e, Moved(e, s, ws, f))
  {
    var m := s.focused.value;
    var list := s.workspaces[s.currentWs];
    RemoveAtFacts(list, IndexOf(list, m));
    MovedNoDup(e, s, ws, f);
    MovedOwned(e, s, ws, f);
    MovedListed(e, s, ws, f);
  }

  /** The state after the focused client m is unlinked from the current
      list and pushed on list ws, with `f` focused. */
  ghost function Moved(e: Env, s: State, ws: int, f: Option<Id>): State
    requires Wf(e, s) && s.focused.Some? && 0 <= ws < WorkspaceCount
  {
    var m := s.focused.value;
    var list := s.workspaces[s.currentWs];
    s.(workspaces := s.workspaces[s.currentWs := RemoveAt(list, IndexOf(list, m))][ws := [m] + s.workspaces[ws]],
       clients := s.clients[m := s.clients[m].(workspace := ws, isFullscreen := false)],
       focused := f)
  }

  /** MoveOutS is Moved with the current list's new head focused. */
  lemma MoveOutMoved(e: Env, s: State, ws: int)
    requires Wf(e, s) && s.focused.Some? && 0 <= ws < WorkspaceCount && ws != s.currentWs
    ensures var list := s.workspaces[s.currentWs];
      var rest := RemoveAt(list, IndexOf(list, s.focused.value));
      var s1 := Moved(e, s, ws, if rest == [] then None else Some(rest[0]));
      && (rest != [] ==> rest[0] in s1.clients)
      && MoveOutS(e, s, ws) == if rest == [] then s1 else FocusS(e, s1, rest[0], false)
  {
    var list := s.workspaces[s.currentWs];
    RemoveAtFacts(list, IndexOf(list, s.focused.value));
  }

  lemma MovedNoDup(e: Env, s: State, ws: int, f: Option<Id>)
    requires Wf(e, s) && s.focused.Some? && 0 <= ws < WorkspaceCount && ws != s.currentWs
    ensures var t := Moved(e, s, ws, f);
      forall j :: 0 <= j < WorkspaceCount ==> NoDup(t.workspaces[j])
  {
    var m := s.focused.value;
    var list := s.workspaces[s.currentWs];
    RemoveAtFacts(list, IndexOf(list, m));
    var t := Moved(e, s, ws, f);
    assert m !in s.workspaces[ws];
    forall j | 0 <= j < WorkspaceCount ensures NoDup(t.workspaces[j]) {
      if j == ws {
        var l := t.workspaces[j];
        assert l == [m] + s.workspaces[ws];
        forall a, b | 0 <= a < b < |l| ensures l[a] != l[b] {
          if a == 0 { assert l[b] == s.workspaces[ws][b - 1]; }
        }
      }
    }
  }

  lemma MovedOwned(e: Env, s: State, ws: int, f: Option<Id>)
    requires Wf(e, s) && s.focused.Some? && 0 <= ws < WorkspaceCount && ws != s.currentWs
    ensures var t := Moved(e, s, ws, f);
      forall j, x :: 0 <= j < WorkspaceCount && x in t.workspaces[j] ==>
        x in t.clients && t.clients[x].workspace == j
  {
    var m := s.focused.value;
    var list := s.workspaces[s.currentWs];
    RemoveAtFacts(list, IndexOf(list, m));
    var t := Moved(e, s, ws, f);
    forall j, x | 0 <= j < WorkspaceCount && x in t.workspaces[j]
      ensures x in t.clients && t.clients[x].workspace == j
    {
      if j == s.currentWs {
        assert x in list && x != m;
      } else if j == ws {
        if x != m { assert x in s.workspaces[ws]; }
      } else {
        assert x in s.workspaces[j];
        assert s.clients[m].workspace == s.currentWs;
      }
    }
  }

  lemma MovedListed(e: Env, s: State, ws: int, f: Option<Id>)
    requires Wf(e, s) && s.focused.Some? && 0 <= ws < WorkspaceCount && ws != s.currentWs
    ensures var t := Moved(e, s, ws, f);
      forall x :: x in t.clients ==>
        0 <= t.clients[x].workspace < WorkspaceCount && x in t.workspaces[t.clients[x].workspace] && x < t.nextId
  {
    var m := s.focused.value;
    var list := s.workspaces[s.currentWs];
    var rest := RemoveAt(list, IndexOf(list, m));
    RemoveAtFacts(list, IndexOf(list, m));
    var t := Moved(e, s, ws, f);
    forall x | x in t.clients
      ensures 0 <= t.clients[x].workspace < WorkspaceCount && x in t.workspaces[t.clients[x].workspace] && x < t.nextId
    {
      if x != m {
        var w := s.clients[x].workspace;
        if w == s.currentWs { assert x in rest; }
      }
    }
  }

  /** The part of movewin_to_ws before arrange keeps the registry well
      formed. */
  lemma MoveOutKeepsWf(e: Env, s: State, ws: int)
    requires Wf(e, s) && s.focused.Some? && 0 <= ws < WorkspaceCount && ws != s.currentWs
    ensures Wf(e, MoveOutS(e, s, ws))
  {
    var m := s.focused.value;
    var list := s.workspaces[s.currentWs];
    var i := IndexOf(list, m);
    var rest := RemoveAt(list, i);
    RemoveAtFacts(list, i);
    var moved := s.clients[m].(workspace := ws, isFullscreen := false);
    var s1 := s.(workspaces := s.workspaces[s.currentWs := rest][ws := [m] + s.workspaces[ws]],
                 clients := s.clients[m := moved],
                 focused := if rest == [] then None else Some(rest[0]));
    MoveWf(e, s, ws, s1.focused);
    assert s1 == Moved(e, s, ws, s1.focused);
    if rest != [] {
      FocusFacts(e, s1, rest[0], false);
    }
  }

  lemma MoveWinToWsInv(e: Env, s: State, ws: int)
    requires Inv(e, s)
    ensures Inv(e, MoveWinToWsS(e, s, ws))
  {
    if s.focused.Some? && 0 <= ws < WorkspaceCount && ws != s.currentWs {
      var s2 := MoveOutS(e, s, ws);
      MoveOutKeepsWf(e, s, ws);
      assert OverlayInv(e, s2);
      ArrangeInv(e, s2);
      assert MoveWinToWsS(e, s, ws) == ArrangeS(e, s2);
    }
  }

  lemma CycleFocusInv(e: Env, s: State)
    requires Inv(e, s)
    ensures Inv(e, CycleFocusS(e, s))
  {
  }

  lemma ToggleFullscreenInv(e: Env, s: State)
    requires Inv(e, s)
    ensures Inv(e, ToggleFullscreenS(e, s))
  {
  }

  lemma ClientMessageInv(e: Env, s: State, win: Window, t: Atom, action: int, p: Atom)
    requires Inv(e, s)
    ensures Inv(e, ClientMessageS(e, s, win, t, action, p))
  {
  }

  lemma OverlayKeyInv(e: Env, s: State, k: KeySym)
    requires Inv(e, s) && s.overlayMode
    ensures Inv(e, OverlayKeyS(e, s, k))
  {
    if k == XK_Escape {
      HideInv(e, s);
    } else if k == XK_BackSpace {
      var t := if s.input1 != Empty then s.(input1 := Empty)
               else if s.input0 != Empty then s.(input0 := Empty)
               else s;
      OverlayOnlyInv(e, s, t);
      assert OverlayKeyS(e, s, k) == t;
    } else if FoldKey(k).Some? {
      OverlayCharInv(e, s, FoldKey(k).value);
    }
  }

  lemma OverlayCharInv(e: Env, s: State, ch: char)
    requires Inv(e, s) && s.overlayMode
    ensures Inv(e, OverlayCharS(e, s, ch))
  {
    if IsLabel(e.cfg, ch) && s.input0 != Empty && s.input1 == Empty {
      var s1 := s.(input1 := ch);
      var p := ProcessOverlayS(e, s1);
      ProcessOverlayFacts(e, s1);
      HideInv(e, p);
    } else {
      OverlayOnlyInv(e, s, OverlayCharS(e, s, ch));
    }
  }

  /** Leaving overlay mode from a well-formed state with a focus whenever
      the current list is non-empty gives the full invariant. */
  lemma HideInv(e: Env, s: State)
    requires Wf(e, s) && (s.workspaces[s.currentWs] != [] ==> s.focused.Some?)
    ensures Inv(e, HideOverlayS(s))
  {
    var t := HideOverlayS(s);
    assert SameRegistry(s, t);
    SameRegistryWf(e, s, t);
  }

  /** A step that changes only the overlay fields keeps the invariant when
      it leaves a consistent buffer. */
  lemma OverlayOnlyInv(e: Env, s: State, t: State)
    requires Inv(e, s)
    requires t.workspaces == s.workspaces && t.clients == s.clients && t.currentWs == s.currentWs
    requires t.focused == s.focused && t.nextId == s.nextId
    requires OverlayInv(e, t)
    ensures Inv(e, t)
  {
  }

  /** Committing a selection changes only the focused client's geometry
      and the pointer. */
  lemma ProcessOverlayFacts(e: Env, s: State)
    requires Wf(e, s)
    ensures var t := ProcessOverlayS(e, s);
      && SameRegistry(s, t) && Wf(e, t) && t.focused == s.focused
      && t.overlayMode == s.overlayMode && t.input0 == s.input0 && t.input1 == s.input1
  {
    var p1 := LabelPos(e.cfg, s.input0);
    var p2 := LabelPos(e.cfg, s.input1);
    if s.focused.Some? && s.input0 != Empty && s.input1 != Empty && p1.Some? && p2.Some? {
      var f := s.focused.value;
      var r := SpanRect(GridOf(e), p1.value, p2.value);
      var t := FocusS(e, ResizeS(s, f, r), f, true);
      assert ProcessOverlayS(e, s) == t;
      assert SameRegistry(s, t);
      SameRegistryWf(e, s, t);
    } else {
      assert ProcessOverlayS(e, s) == s;
    }
  }

  lemma KeyPressInv(e: Env, s: State, k: KeySym, state: bv32)
    requires Inv(e, s)
    ensures Inv(e, KeyPressS(e, s, k, state))
  {
    if s.overlayMode {
      OverlayKeyInv(e, s, k);
    } else {
      match Lookup(e.cfg.keys, k, state)
      case None =>
      case Some(a) =>
        match a
        case EnterOverlay =>
        case Spawn(_) =>
        case KillClient =>
        case ToggleFullscreen => ToggleFullscreenInv(e, s);
        case CycleFocus => CycleFocusInv(e, s);
        case Quit =>
        case SwitchWs(ws) => SwitchWsInv(e, s, ws);
        case MoveWinToWs(ws) => MoveWinToWsInv(e, s, ws);
    }
  }

  /** Every turn of the event loop keeps the invariant. */
  lemma HandleInv(e: Env, s: State, ev: Event)
    requires Inv(e, s)
    ensures Inv(e, Handle(e, s, ev))
  {
    if ev.ButtonPress? || ev.EnterNotify? || ev.Expose? {
      HandlePointerInv(e, s, ev);
    } else if ev.ClientMessage? || ev.MapRequest? {
      HandleRequestInv(e, s, ev);
    } else if ev.UnmapNotify? || ev.DestroyNotify? {
      HandleRemoveInv(e, s, ev);
    } else {
      KeyPressInv(e, s, ev.keysym, ev.state);
      assert Handle(e, s, ev) == KeyPressS(e, s, ev.keysym, ev.state);
    }
  }

  lemma HandlePointerInv(e: Env, s: State, ev: Event)
    requires Inv(e, s) && (ev.ButtonPress? || ev.EnterNotify? || ev.Expose?)
    ensures Inv(e, Handle(e, s, ev))
  {
    match ev
    case ButtonPress(sub) => ButtonPressInv(e, s, sub);
    case EnterNotify(win, mode, detail) => EnterNotifyInv(e, s, win, mode, detail);
    case Expose(_) =>
  }

  lemma HandleRequestInv(e: Env, s: State, ev: Event)
    requires Inv(e, s) && (ev.ClientMessage? || ev.MapRequest?)
    ensures Inv(e, Handle(e, s, ev))
  {
    match ev
    case ClientMessage(win, ty, a, p) => ClientMessageInv(e, s, win, ty, a, p);
    case MapRequest(win, ok, redirect) => MapRequestInv(e, s, win, ok, redirect);
  }

  lemma HandleRemoveInv(e: Env, s: State, ev: Event)
    requires Inv(e, s) && (ev.UnmapNotify? || ev.DestroyNotify?)
    ensures Inv(e, Handle(e, s, ev))
  {
    RemoveClientInv(e, s, ev.window);
    assert Handle(e, s, ev) == RemoveClientS(e, s, ev.window);
  }

  /** Focusing a client of the current workspace keeps the invariant. */
  lemma FocusInv(e: Env, s: State, id: Id, warp: bool)
    requires Inv(e, s) && id in s.workspaces[s.currentWs]
    ensures Inv(e, FocusS(e, s, id, warp))
  {
    FocusFacts(e, s, id, warp);
  }

  lemma ButtonPressInv(e: Env, s: State, sub: Window)
    requires Inv(e, s)
    ensures Inv(e, ButtonPressS(e, s, sub))
  {
    var list := s.workspaces[s.currentWs];
    var i := WinIndex(list, s.clients, sub);
    if i < |list| {
      FocusInv(e, s, list[i], true);
    }
  }

  lemma EnterNotifyInv(e: Env, s: State, win: Window, mode: int, detail: int)
    requires Inv(e, s)
    ensures Inv(e, EnterNotifyS(e, s, win, mode, detail))
  {
    var list := s.workspaces[s.currentWs];
    var i := WinIndex(list, s.clients, win);
    if mode == NotifyNormal && detail != NotifyInferior && i < |list| {
      FocusInv(e, s, list[i], false);
    }
  }

  lemma InitialInv(e: Env)
    requires e.Valid()
    ensures Inv(e, Initial())
  {
  }
}
