/**
 * The controller mapping of n64_input.c: the player's key flags that
 * read_input fills from a controller snapshot, the key press
 * poll_for_key_press reports for menus, and the command key tables.
 * The controller is read by the caller; a snapshot is a parameter here.
 */
module Input {

  /** What libdragon reports for controller 0: the error bit, the buttons,
   *  the d-pad and the analogue stick. */
  datatype Controller = Controller(
    err: bool,
    start: bool, a: bool, b: bool, l: bool, r: bool,
    up: bool, down: bool, left: bool, right: bool,
    x: int, y: int)

  /** The SDL key codes the port hands to the game. */
  datatype Keycode = Unknown | Return | Escape | PageUp | Up | Down | Left | Right | KeyA | KeyB

  /** The configurable commands; Unlisted stands for any other value of
   *  the enumeration. */
  datatype InputCommand = CmdUp | CmdDown | CmdLeft | CmdRight | CmdJump | CmdBomb | CmdOther | Unlisted

  datatype InputState = Continue | Quit

  /** The stick counts as pushed only beyond this distance from centre. */
  const StickThreshold: int := 20

  /** The help dialog result that quits the game. */
  const HelpQuit: int := 2

  /** The configured key of each command. */
  const CfgUpKey: Keycode := Up
  const CfgDownKey: Keycode := Down
  const CfgLeftKey: Keycode := Left
  const CfgRightKey: Keycode := Right
  const CfgJumpKey: Keycode := KeyA
  const CfgBombKey: Keycode := KeyB

  /** An unsigned 8-bit value. */
  type Byte = x: int | 0 <= x < 256

  /** The seven key flags: up, the player's own up (which the hover board
   *  logic does not touch), down, left, right, jump and bomb. */
  datatype Flags = Flags(up: Byte, inputUp: Byte, down: Byte, left: Byte, right: Byte, jump: Byte, bomb: Byte)

  const Cleared: Flags := Flags(0, 0, 0, 0, 0, 0, 0)

  /** A one-bit controller field stored in a byte flag. */
  function Flag(b: bool): Byte
  {
    if b then 1 else 0
  }

  /** The flags copied from the d-pad and the A and B buttons. */
  function Digital(c: Controller): Flags
  {
    Flags(Flag(c.up), Flag(c.up), Flag(c.down), Flag(c.left), Flag(c.right), Flag(c.a), Flag(c.b))
  }

  /** The flags after the stick has been applied: a push beyond the
   *  threshold sets the flag of its direction, and nothing is cleared. */
  function Stick(f: Flags, x: int, y: int): Flags
  {
    var f := if x > StickThreshold then f.(right := 1) else f;
    var f := if x < -StickThreshold then f.(left := 1) else f;
    var f := if y > StickThreshold then f.(up := 1) else f;
    var f := if y > StickThreshold then f.(inputUp := 1) else f;
    if y < -StickThreshold then f.(down := 1) else f
  }

  /** The flags read_input leaves for a snapshot it accepts. */
  function Held(c: Controller): Flags
  {
    Stick(Digital(c), c.x, c.y)
  }

  /** Every flag read_input sets is 0 or 1. */
  predicate Binary(f: Flags)
  {
    && f.up <= 1 && f.inputUp <= 1 && f.down <= 1 && f.left <= 1
    && f.right <= 1 && f.jump <= 1 && f.bomb <= 1
  }

  /** Each flag is set exactly when its button is held or the stick is
   *  pushed past the threshold its way; both up flags agree; jump and
   *  bomb follow A and B alone. */
  lemma HeldFlags(c: Controller)
    ensures var f := Held(c);
      && Binary(f)
      && (f.up == 1 <==> c.up || c.y > StickThreshold)
      && f.inputUp == f.up
      && (f.down == 1 <==> c.down || c.y < -StickThreshold)
      && (f.left == 1 <==> c.left || c.x < -StickThreshold)
      && (f.right == 1 <==> c.right || c.x > StickThreshold)
      && (f.jump == 1 <==> c.a) && (f.bomb == 1 <==> c.b)
  {
  }

  /** Within the dead zone (up to and including the threshold) the stick
   *  changes nothing. */
  lemma StickDeadZone(c: Controller)
    requires -StickThreshold <= c.x <= StickThreshold && -StickThreshold <= c.y <= StickThreshold
    ensures Held(c) == Digital(c)
  {
  }

  /** The stick only ever sets flags: a flag the buttons set stays set. */
  lemma StickOnlySets(f: Flags, x: int, y: int)
    ensures var g := Stick(f, x, y);
      && (f.up == 1 ==> g.up == 1) && (f.inputUp == 1 ==> g.inputUp == 1)
      && (f.down == 1 ==> g.down == 1) && (f.left == 1 ==> g.left == 1)
      && (f.right == 1 ==> g.right == 1) && g.jump == f.jump && g.bomb == f.bomb
  {
  }

  /** The player's key flags, as the globals of n64_input.c hold them. */
  class InputFlags {
    var up: Byte
    var inputUp: Byte
    var down: Byte
    var left: Byte
    var right: Byte
    var jump: Byte
    var bomb: Byte

    function Snapshot(): Flags
      reads this
    {
      Flags(up, inputUp, down, left, right, jump, bomb)
    }

    /** The globals start out zero. */
    constructor ()
      ensures Snapshot() == Cleared
    {
      up, inputUp, down, left, right, jump, bomb := 0, 0, 0, 0, 0, 0, 0;
    }

    /** reset_player_control_inputs: every flag to 0. */
    method Reset()
      modifies this
      ensures Snapshot() == Cleared
    {
      up := 0;
      inputUp := 0;
      down := 0;
      left := 0;
      right := 0;
      bomb := 0;
      jump := 0;
    }

    /** The flags read_input copies from the d-pad and the A and B buttons. */
    method CopyButtons(pressed: Controller)
      modifies this
      ensures Snapshot() == Digital(pressed)
    {
      up := Flag(pressed.up);
      inputUp := Flag(pressed.up);
      down := Flag(pressed.down);
      left := Flag(pressed.left);
      right := Flag(pressed.right);
      jump := Flag(pressed.a);
      bomb := Flag(pressed.b);
    }

    /** The stick step of read_input, one axis direction at a time. */
    method ApplyStick(x: int, y: int)
      modifies this
      ensures Snapshot() == Stick(old(Snapshot()), x, y)
    {
      if x > StickThreshold {
        right := 1;
      }
      if x < -StickThreshold {
        left := 1;
      }
      if y > StickThreshold {
        up := 1;
      }
      if y > StickThreshold {
        inputUp := 1;
      }
      if y < -StickThreshold {
        down := 1;
      }
    }

    /**
     * read_input outside demo play. `pressed` is the held-keys snapshot,
     * `newlyDown` the keys-down snapshot taken after it and `helpResult`
     * what help_menu_dialog returns when Start was just pressed;
     * `helpShown` tells whether the dialog was opened. A controller error
     * gives CONTINUE and L with R gives QUIT, both before any flag is
     * written. Otherwise the flags become Held(pressed) and the result is
     * QUIT exactly when the dialog was opened and answered 2.
     */
    method ReadInput(pressed: Controller, newlyDown: Controller, helpResult: int)
      returns (state: InputState, helpShown: bool)
      modifies this
      ensures pressed.err ==> state == Continue && !helpShown && Snapshot() == old(Snapshot())
      ensures !pressed.err && pressed.l && pressed.r ==>
        state == Quit && !helpShown && Snapshot() == old(Snapshot())
      ensures !pressed.err && !(pressed.l && pressed.r) ==>
        && Snapshot() == Held(pressed)
        && helpShown == newlyDown.start
        && (state == Quit <==> newlyDown.start && helpResult == HelpQuit)
    {
      helpShown := false;
      if pressed.err {
        return Continue, helpShown;
      }
      if pressed.l && pressed.r {
        return Quit, helpShown;
      }
      CopyButtons(pressed);
      ApplyStick(pressed.x, pressed.y);
      if newlyDown.start {
        helpShown := true;
        if helpResult == HelpQuit {
          return Quit, helpShown;
        }
      }
      state := Continue;
    }
  }

  /** Whether the snapshot shows any of the buttons poll_for_key_press
   *  tests before the d-pad. */
  predicate AnyButton(c: Controller)
  {
    c.start || c.a || c.b || c.r
  }

  /** Whether the snapshot shows any d-pad direction. */
  predicate AnyPad(c: Controller)
  {
    c.up || c.down || c.left || c.right
  }

  /**
   * poll_for_key_press on a keys-down snapshot: nothing on an error;
   * otherwise the first of Start or A (Return), B (Escape), R (PageUp),
   * the d-pad directions, then the stick along x and then along y beyond
   * the threshold; Unknown when nothing applies.
   */
  function PollKey(c: Controller): (k: Keycode)
    ensures c.err ==> k == Unknown
    ensures k == Return <==> !c.err && (c.start || c.a)
    ensures k == Escape <==> !c.err && !c.start && !c.a && c.b
    ensures k == PageUp <==> !c.err && !c.start && !c.a && !c.b && c.r
    ensures k !in {KeyA, KeyB}
    ensures !c.err && !AnyButton(c) && AnyPad(c) ==>
      k == (if c.up then Up else if c.down then Down else if c.left then Left else Right)
    ensures k == Unknown <==> (c.err ||
      (!AnyButton(c) && !AnyPad(c) && -StickThreshold <= c.x <= StickThreshold && -StickThreshold <= c.y <= StickThreshold))
  {
    if c.err then Unknown
    else if c.start then Return
    else if c.a then Return
    else if c.b then Escape
    else if c.r then PageUp
    else if c.up then Up
    else if c.down then Down
    else if c.left then Left
    else if c.right then Right
    else if c.x > StickThreshold then Right
    else if c.x < -StickThreshold then Left
    else if c.y > StickThreshold then Up
    else if c.y < -StickThreshold then Down
    else Unknown
  }

  /** With no button or d-pad held, the stick decides: x before y. */
  lemma PollStick(c: Controller)
    requires !c.err && !AnyButton(c) && !AnyPad(c)
    ensures c.x > StickThreshold ==> PollKey(c) == Right
    ensures c.x < -StickThreshold ==> PollKey(c) == Left
    ensures -StickThreshold <= c.x <= StickThreshold && c.y > StickThreshold ==> PollKey(c) == Up
    ensures -StickThreshold <= c.x <= StickThreshold && c.y < -StickThreshold ==> PollKey(c) == Down
  {
  }

  /** is_return_key. */
  function IsReturnKey(key: Keycode): bool
  {
    key == Return
  }

  /** A polled key confirms a menu exactly when Start or A was pressed on
   *  a controller without error. */
  lemma PollReturn(c: Controller)
    ensures IsReturnKey(PollKey(c)) <==> !c.err && (c.start || c.a)
  {
  }

  /** get_input_command_key: the configured key of a command; Unknown for
   *  CMD_KEY_OTHER and any other value. */
  function InputCommandKey(command: InputCommand): (k: Keycode)
    ensures k == Unknown <==> command == CmdOther || command == Unlisted
  {
    match command
    case CmdUp => CfgUpKey
    case CmdDown => CfgDownKey
    case CmdLeft => CfgLeftKey
    case CmdRight => CfgRightKey
    case CmdJump => CfgJumpKey
    case CmdBomb => CfgBombKey
    case _ => Unknown
  }

  /** get_command_key_string: the name shown for a command's key; empty
   *  for CMD_KEY_OTHER and any other value. */
  function CommandKeyString(command: InputCommand): (s: string)
    ensures s == "" <==> command == CmdOther || command == Unlisted
  {
    match command
    case CmdUp => "UP"
    case CmdDown => "DOWN"
    case CmdLeft => "LEFT"
    case CmdRight => "RIGHT"
    case CmdJump => "A"
    case CmdBomb => "B"
    case _ => ""
  }

  /** A command has a name exactly when it has a key, and the six
   *  commands with a key have six different keys and six different
   *  names. */
  lemma CommandTables(c1: InputCommand, c2: InputCommand)
    ensures CommandKeyString(c1) == "" <==> InputCommandKey(c1) == Unknown
    ensures InputCommandKey(c1) != Unknown && InputCommandKey(c1) == InputCommandKey(c2) ==> c1 == c2
    ensures CommandKeyString(c1) != "" && CommandKeyString(c1) == CommandKeyString(c2) ==> c1 == c2
  {
  }
}
