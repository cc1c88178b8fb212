/*
 * The configuration gbwm.c is built with (default.config.h): a 4 x 7 grid
 * labelled 1234567 / qwertyu / asdfghj / zxcvbnm, padding 8, border width
 * 2, and the key table bound to the Super modifier.  The lemmas work the
 * model through concrete sessions on a 1920 x 1080 screen.
 */
module DefaultConfig {
  import opened Types
  import opened Grid
  import opened Overlay
  import opened Keys
  import opened Engine
  import opened EngineProps
  import opened HandlerProps

  /** MOD: the Super key. */
  const Mod: bv32 := Mod4Mask

  // Key symbols of the Latin-1 keys the table uses
  const XK_a: KeySym := 0x61
  const XK_f: KeySym := 0x66
  const XK_p: KeySym := 0x70
  const XK_q: KeySym := 0x71
  const XK_1: KeySym := 0x31

  /** The key table, in table order. */
  function DefaultKeys(): (keys: seq<Key>) {
    [ Key(Mod, XK_a, EnterOverlay),
      Key(Mod, XK_Return, Spawn(["st"])),
      Key(Mod, XK_p, Spawn(["dmenu_run"])),
      Key(0, XK_Print, Spawn(["scrot"])),
      Key(Mod, XK_q, KillClient),
      Key(Mod, XK_f, ToggleFullscreen),
      Key(Mod, XK_Tab, CycleFocus),
      Key(Mod | ShiftMask, XK_q, Quit),
      Key(Mod, XK_1, SwitchWs(0)),
      Key(Mod, XK_1 + 1, SwitchWs(1)),
      Key(Mod, XK_1 + 2, SwitchWs(2)),
      Key(Mod, XK_1 + 3, SwitchWs(3)),
      Key(Mod, XK_1 + 4, SwitchWs(4)),
      Key(Mod, XK_1 + 5, SwitchWs(5)),
      Key(Mod, XK_1 + 6, SwitchWs(6)),
      Key(Mod, XK_1 + 7, SwitchWs(7)),
      Key(Mod, XK_1 + 8, SwitchWs(8)),
      Key(Mod | ShiftMask, XK_1, MoveWinToWs(0)),
      Key(Mod | ShiftMask, XK_1 + 1, MoveWinToWs(1)),
      Key(Mod | ShiftMask, XK_1 + 2, MoveWinToWs(2)),
      Key(Mod | ShiftMask, XK_1 + 3, MoveWinToWs(3)),
      Key(Mod | ShiftMask, XK_1 + 4, MoveWinToWs(4)),
      Key(Mod | ShiftMask, XK_1 + 5, MoveWinToWs(5)),
      Key(Mod | ShiftMask, XK_1 + 6, MoveWinToWs(6)),
      Key(Mod | ShiftMask, XK_1 + 7, MoveWinToWs(7)),
      Key(Mod | ShiftMask, XK_1 + 8, MoveWinToWs(8)) ]
  }

  const Default: Config :=
    Config(4, 7, 8, 2, ["1234567", "qwertyu", "asdfghj", "zxcvbnm"], DefaultKeys())

  /** A 1920 x 1080 screen with the default configuration. */
  const Hd: Env := Env(Default, 1920, 1080)

  /** Cells are 265 by 260 pixels on this screen. */
  lemma HdGrid()
    ensures Hd.Valid()
    ensures GridOf(Hd) == Grid(4, 7, 8, 265, 260)
  {
    assert CDiv(1920 - 8 * 8, 7) == 265;
    assert CDiv(1080 - 8 * 5, 4) == 260;
  }

  /** Caps Lock and Num Lock do not stop Super+Tab from cycling focus. */
  lemma DefaultCycleKey()
    ensures Lookup(DefaultKeys(), XK_Tab, Mod4Mask | LockMask | Mod2Mask) == Some(CycleFocus)
  {
    LookupAt(DefaultKeys(), XK_Tab, Mod4Mask | LockMask | Mod2Mask, 6);
  }

  /** Super+q closes the window; Super+Shift+q quits. */
  lemma DefaultQuitKeys()
    ensures Lookup(DefaultKeys(), XK_q, Mod4Mask) == Some(KillClient)
    ensures Lookup(DefaultKeys(), XK_q, Mod4Mask | ShiftMask) == Some(Quit)
  {
    LookupAt(DefaultKeys(), XK_q, Mod4Mask, 4);
    LookupAt(DefaultKeys(), XK_q, Mod4Mask | ShiftMask, 7);
  }

  /** Super+Shift+1 moves the focused window to workspace 0. */
  lemma DefaultMoveKey()
    ensures Lookup(DefaultKeys(), XK_1, Mod4Mask | ShiftMask) == Some(MoveWinToWs(0))
  {
    LookupAt(DefaultKeys(), XK_1, Mod4Mask | ShiftMask, 17);
  }

  /** Super+9 switches to workspace 8. */
  lemma DefaultSwitchKey()
    ensures Lookup(DefaultKeys(), XK_1 + 8, Mod4Mask) == Some(SwitchWs(8))
  {
    LookupAt(DefaultKeys(), XK_1 + 8, Mod4Mask, 16);
  }

  /** Tab without the modifier is not bound. */
  lemma DefaultPlainTab()
    ensures Lookup(DefaultKeys(), XK_Tab, 0) == None
  {
    LookupAt(DefaultKeys(), XK_Tab, 0, 26);
  }

  // ---------------------------------------------------------------------
  // A session: map three windows, cycle focus, move one away

  /** Mapping one more window on workspace 0. */
  function Map(e: Env, s: State, win: Window): (t: State)
    requires Inv(e, s) && s.currentWs == 0
    ensures Inv(e, t) && t.currentWs == 0 && t.nextId == s.nextId + 1
    ensures t.workspaces[0] == [s.nextId] + s.workspaces[0]
    ensures t.focused == Some(s.nextId)
  {
    MapRequestInv(e, s, win, true, false);
    MapRequestEffect(e, s, win, true, false);
    MapRequestS(e, s, win, true, false)
  }

  /** The first window goes to the top-left cell; the pointer is warped
      before it is placed, so to the screen's corner. */
  lemma FirstWindow()
    ensures Inv(Hd, Initial())
    ensures var s1 := Map(Hd, Initial(), 100);
      && s1.workspaces[0] == [0] && s1.focused == Some(0)
      && s1.clients[0].Geometry() == Rect(8, 8, 265, 260) && !s1.clients[0].isFullscreen
      && s1.lastWarp == Some(Point(0, 0))
  {
    HdGrid();
    InitialInv(Hd);
    MapRequestEffect(Hd, Initial(), 100, true, false);
    var g := GridOf(Hd);
    var cs := [NewClient(100, 0)] + CurrentClients(Initial());
    assert cs == [NewClient(100, 0)];
    assert CellFree(g, cs, Cell(0, 0));
    FreeCellIsFirstFree(g, cs, Cell(0, 0));
  }

  /** The second window heads the list and takes the focus; the first one
      keeps its cell. */
  lemma SecondWindow()
    ensures var s2 := Map(Hd, Map(Hd, Initial(), 100), 200);
      && s2.workspaces[0] == [1, 0] && s2.focused == Some(1)
      && s2.clients[0].Geometry() == Rect(8, 8, 265, 260)
  {
    FirstWindow();
    MapRequestEffect(Hd, Map(Hd, Initial(), 100), 200, true, false);
  }

  /** The second window goes one cell to the right: 8 + 265 + 8 = 281. */
  lemma SecondWindowCell()
    ensures Map(Hd, Map(Hd, Initial(), 100), 200).clients[1].Geometry() == Rect(281, 8, 265, 260)
  {
    FirstWindow();
    var s1 := Map(Hd, Initial(), 100);
    MapRequestEffect(Hd, s1, 200, true, false);
    HdGrid();
    var g := GridOf(Hd);
    var cs := [NewClient(200, 0)] + CurrentClients(s1);
    assert cs == [NewClient(200, 0), s1.clients[0]];
    NextToFirst(g, NewClient(200, 0), s1.clients[0]);
    assert CellRect(g, FreeCell(g, cs)) == Rect(281, 8, 265, 260);
  }

  /** Beside a client on cell (0, 0), a zero-size client is placed on
      cell (0, 1). */
  lemma NextToFirst(g: Grid, zero: Client, first: Client)
    requires g.cols >= 2 && g.rows >= 1 && g.cellW > 0 && g.cellH > 0 && g.padding >= 0
    requires zero.Geometry() == Rect(0, 0, 0, 0)
    requires ExactlyAt(first, CellRect(g, Cell(0, 0)))
    ensures FreeCell(g, [zero, first]) == Cell(0, 1)
  {
    var cs := [zero, first];
    assert !CellFree(g, cs, Cell(0, 0)) by {
      assert Blocks(cs[1], CellRect(g, Cell(0, 0)));
    }
    assert CellFree(g, cs, Cell(0, 1));
    FreeCellIsFirstFree(g, cs, Cell(0, 1));
    FreeCellInGrid(g, cs);
  }

  /** Windows A, B and C mapped, in that order, on a fresh session. */
  function ThreeMapped(): State {
    InitialInv(Hd);
    Map(Hd, Map(Hd, Map(Hd, Initial(), 10), 20), 30)
  }

  /** Mapping A, B and C leaves the list C, B, A with C focused. */
  lemma ThreeWindows()
    ensures Inv(Hd, ThreeMapped())
    ensures ThreeMapped().workspaces[0] == [2, 1, 0] && ThreeMapped().focused == Some(2)
  {
  }

  /** On a workspace listing C, B, A with C focused, cycling reaches B, and
      cycling from A, the tail, wraps to C. */
  lemma CycleThree(e: Env, t: State)
    requires Wf(e, t) && |t.workspaces[t.currentWs]| == 3
    requires t.focused == Some(t.workspaces[t.currentWs][0])
    ensures var list := t.workspaces[t.currentWs];
      && CycleFocusS(e, t).focused == Some(list[1])
      && CycleFocusS(e, t.(focused := Some(list[2]))).focused == Some(list[0])
  {
    var list := t.workspaces[t.currentWs];
    CycleFocusEffect(e, t, 0);
    var u := t.(focused := Some(list[2]));
    SameRegistryWf(e, t, u);
    CycleFocusEffect(e, u, 2);
  }

  /** Moving the only window of workspace 0 to workspace 1 leaves
      workspace 0 empty and unfocused, and the window heads workspace 1
      without the fullscreen flag. */
  lemma MoveSoleWindow()
    ensures var s := MoveWinToWsS(Hd, Map(Hd, Initial(), 10), 1);
      && s.workspaces[0] == [] && s.workspaces[1] == [0]
      && s.focused == None && s.currentWs == 0
      && s.clients[0].workspace == 1 && !s.clients[0].isFullscreen
  {
    InitialInv(Hd);
    var s1 := Map(Hd, Initial(), 10);
    MoveWinToWsLists(Hd, s1, 1);
    MoveWinToWsRecord(Hd, s1, 1);
  }
}
