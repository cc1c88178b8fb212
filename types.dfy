/*
 * The value types of the grid window manager: clients, rectangles, the
 * configuration (grid shape, labels, padding, key table) and the X11
 * constants the core compares against.
 */
module Types {

  datatype Option<+T> = None | Some(value: T)

  /** Identity of one Client record (the address of the C struct). */
  type Id = nat
  /** An X window handle. */
  type Window = nat
  /** An X key symbol. */
  type KeySym = nat

  datatype Rect = Rect(x: int, y: int, w: int, h: int)
  datatype Point = Point(x: int, y: int)

  /** A grid cell, as (row, column). */
  datatype Cell = Cell(r: int, c: int)

  /** One managed window: geometry, geometry saved before fullscreen, the
      fullscreen flag and the workspace whose list holds it. */
  datatype Client = Client(
    win: Window,
    x: int, y: int, w: int, h: int,
    savedX: int, savedY: int, savedW: int, savedH: int,
    isFullscreen: bool,
    workspace: int)
  {
    function Geometry(): Rect { Rect(x, y, w, h) }
  }

  /** The record a map request allocates: zero-filled except for the
      window handle and the owning workspace. */
  function NewClient(win: Window, ws: int): (c: Client)
    ensures c.Geometry() == Rect(0, 0, 0, 0) && !c.isFullscreen
    ensures c.win == win && c.workspace == ws
  {
    Client(win, 0, 0, 0, 0, 0, 0, 0, 0, false, ws)
  }

  /** The functions a key binding can run, each with its argument. */
  datatype Action =
    | EnterOverlay
    | Spawn(command: seq<string>)
    | KillClient
    | ToggleFullscreen
    | CycleFocus
    | Quit
    | SwitchWs(ws: int)
    | MoveWinToWs(ws: int)

  datatype Key = Key(mods: bv32, keysym: KeySym, action: Action)

  datatype Config = Config(
    rows: int,
    cols: int,
    padding: int,
    borderWidth: int,
    labels: seq<string>,
    keys: seq<Key>)
  {
    /** The label table has one string of `cols` characters per row. */
    predicate Valid() {
      && rows > 0
      && cols > 0
      && |labels| == rows
      && forall r :: 0 <= r < rows ==> |labels[r]| == cols
    }
  }

  /** The configuration together with the screen size. */
  datatype Env = Env(cfg: Config, sw: int, sh: int)
  {
    predicate Valid() { cfg.Valid() && sw > 0 && sh > 0 }
  }

  /** The atoms the client-message handler compares. */
  datatype Atom = WmState | NetWmState | NetWmStateFullscreen | OtherAtom(n: nat)

  // X11 modifier masks
  const ShiftMask: bv32 := 1
  const LockMask: bv32 := 2
  const ControlMask: bv32 := 4
  const Mod1Mask: bv32 := 8
  const Mod2Mask: bv32 := 16
  const Mod4Mask: bv32 := 64

  // X11 key symbols
  const XK_BackSpace: KeySym := 0xff08
  const XK_Tab: KeySym := 0xff09
  const XK_Return: KeySym := 0xff0d
  const XK_Escape: KeySym := 0xff1b
  const XK_Print: KeySym := 0xff61
}
