/**
 The desktop app's input injector (desktop/src/inject.rs): whether a control session is armed,
 what it holds down, and what that leaves held down in the operating system.
 */
module Injector {
  import opened Wrappers

  /** A scan code with its extended flag. */
  datatype Key = Key(scan: nat, extended: bool)

  datatype Button = LeftButton | MiddleButton | RightButton

  /** A button as the web numbers it. */
  datatype WebButton = WebButton(id: int)

  /** One decoded frame; `t` tells what it asks for. */
  datatype Frame = Frame(t: string, x: real, y: real, b: WebButton, dx: real, dy: real, c: string)

  datatype Edge = Edge(button: Button, down: bool)

  /** What is handed to SendInput. */
  datatype OsEvent =
    | KeyEvent(key: Key, down: bool)
    | MouseAt(x: real, y: real, edge: Option<Edge>)
    | MouseHere(edge: Option<Edge>)
    | WheelAt(x: real, y: real, vertical: bool, delta: real)

  /** Web button ids outside 0, 1, 2 press nothing. */
  function ButtonFlags(b: WebButton, down: bool): Option<Edge> {
    match b.id
    case 0 => Some(Edge(LeftButton, down))
    case 1 => Some(Edge(MiddleButton, down))
    case 2 => Some(Edge(RightButton, down))
    case _ => None
  }

  // ----- the operating system: what is down after a list of events -----

  datatype Os = Os(keys: set<Key>, buttons: set<Button>)

  function AfterEdge(os: Os, edge: Option<Edge>): Os {
    match edge
    case None => os
    case Some(Edge(button, down)) =>
      os.(buttons := if down then os.buttons + {button} else os.buttons - {button})
  }

  function AfterEvent(os: Os, e: OsEvent): Os {
    match e
    case KeyEvent(key, down) => os.(keys := if down then os.keys + {key} else os.keys - {key})
    case MouseAt(_, _, edge) => AfterEdge(os, edge)
    case MouseHere(edge) => AfterEdge(os, edge)
    case WheelAt(_, _, _, _) => os
  }

  function OsAfter(log: seq<OsEvent>): Os {
    if log == [] then Os({}, {}) else AfterEvent(OsAfter(log[..|log| - 1]), log[|log| - 1])
  }

  lemma OsAppend(log: seq<OsEvent>, e: OsEvent)
    ensures OsAfter(log + [e]) == AfterEvent(OsAfter(log), e)
  {
    assert (log + [e])[..|log|] == log;
  }

  // ----- the injector and the operating system together -----

  datatype Rig = Rig(active: bool, heldKeys: set<Key>, heldButtons: set<WebButton>, os: Os)

  function Pressed(held: set<WebButton>): set<Button> {
    (if WebButton(0) in held then {LeftButton} else {}) +
    (if WebButton(1) in held then {MiddleButton} else {}) +
    (if WebButton(2) in held then {RightButton} else {})
  }

  function Session(r: Rig, active: bool): Rig {
    Rig(active, {}, {}, Os(r.os.keys - r.heldKeys, r.os.buttons - Pressed(r.heldButtons)))
  }

  function Kill(r: Rig): Rig {
    Session(r, false)
  }

  function Inject(r: Rig, f: Frame, scan: string -> Option<Key>): Rig {
    if f.t == "d" then
      r.(heldButtons := r.heldButtons + {f.b}, os := AfterEdge(r.os, ButtonFlags(f.b, true)))
    else if f.t == "u" then
      r.(heldButtons := r.heldButtons - {f.b}, os := AfterEdge(r.os, ButtonFlags(f.b, false)))
    else if f.t == "k" && scan(f.c).Some? then
      r.(heldKeys := r.heldKeys + {scan(f.c).value}, os := r.os.(keys := r.os.keys + {scan(f.c).value}))
    else if f.t == "K" && scan(f.c).Some? then
      r.(heldKeys := r.heldKeys - {scan(f.c).value}, os := r.os.(keys := r.os.keys - {scan(f.c).value}))
    else r
  }

  function Input(r: Rig, f: Option<Frame>, scan: string -> Option<Key>): Rig {
    if f.None? || !r.active then r else Inject(r, f.value, scan)
  }

  /** What the injector believes to be held is what the OS has down, and nothing when disarmed. */
  predicate RigValid(r: Rig) {
    && r.os.keys == r.heldKeys
    && r.os.buttons == Pressed(r.heldButtons)
    && (!r.active ==> r.heldKeys == {} && r.heldButtons == {})
  }

  datatype Command = SessionCommand(active: bool) | KillCommand | InputCommand(frame: Option<Frame>)

  function Apply(r: Rig, c: Command, scan: string -> Option<Key>): Rig {
    match c
    case SessionCommand(active) => Session(r, active)
    case KillCommand => Kill(r)
    case InputCommand(f) => Input(r, f, scan)
  }

  function ApplyAll(r: Rig, commands: seq<Command>, scan: string -> Option<Key>): Rig {
    if commands == [] then r
    else Apply(ApplyAll(r, commands[..|commands| - 1], scan), commands[|commands| - 1], scan)
  }

  lemma PressedAdd(held: set<WebButton>, b: WebButton)
    ensures Pressed(held + {b}) == Pressed(held) + if 0 <= b.id <= 2 then {ButtonFlags(b, true).value.button} else {}
    ensures Pressed(held - {b}) == Pressed(held) - if 0 <= b.id <= 2 then {ButtonFlags(b, true).value.button} else {}
  {
  }

  lemma ReleaseStep(os: Os, done: set<WebButton>, b: WebButton)
    ensures AfterEdge(os.(buttons := os.buttons - Pressed(done)), ButtonFlags(b, false)) ==
            os.(buttons := os.buttons - Pressed(done + {b}))
  {
    PressedAdd(done, b);
  }

  lemma ApplyKeepsValid(r: Rig, c: Command, scan: string -> Option<Key>)
    requires RigValid(r)
    ensures RigValid(Apply(r, c, scan))
    ensures !c.InputCommand? ==> Apply(r, c, scan).os == Os({}, {})
    ensures c.InputCommand? && !r.active ==> Apply(r, c, scan) == r
  {
    assert Pressed({}) == {};
    if c.InputCommand? && c.frame.Some? {
      PressedAdd(r.heldButtons, c.frame.value.b);
    }
  }

  const Fresh := Rig(false, {}, {}, Os({}, {}))

  /**
   Whatever was armed, disarmed, killed and sent: the keys down in the OS are exactly the held keys,
   the buttons down exactly the held ones among 0, 1, 2, and nothing is down while disarmed.
   */
  lemma {:induction false} HeldIsWhatIsDown(commands: seq<Command>, scan: string -> Option<Key>)
    ensures RigValid(ApplyAll(Fresh, commands, scan))
  {
    if commands == [] {
      assert Pressed({}) == {};
    } else {
      HeldIsWhatIsDown(commands[..|commands| - 1], scan);
      ApplyKeepsValid(ApplyAll(Fresh, commands[..|commands| - 1], scan), commands[|commands| - 1], scan);
    }
  }

  /** Right after an arm, a disarm or a kill nothing is held down. */
  lemma SessionReleasesAll(commands: seq<Command>, c: Command, scan: string -> Option<Key>)
    requires !c.InputCommand?
    ensures ApplyAll(Fresh, commands + [c], scan).os == Os({}, {})
    ensures ApplyAll(Fresh, commands + [c], scan).active <==> c == SessionCommand(true)
  {
    HeldIsWhatIsDown(commands, scan);
    assert (commands + [c])[..|commands|] == commands;
    ApplyKeepsValid(ApplyAll(Fresh, commands, scan), c, scan);
  }

  // ----- the state behind the mutex -----

  class ControlState {
    var active: bool
    var heldKeys: set<Key>
    var heldButtons: set<WebButton>
    /** Everything sent to the OS so far. */
    ghost var log: seq<OsEvent>

    ghost function ToRig(): Rig
      reads this
    {
      Rig(active, heldKeys, heldButtons, OsAfter(log))
    }

    constructor ()
      ensures ToRig() == Fresh && log == []
    {
      active, heldKeys, heldButtons, log := false, {}, {}, [];
    }

    ghost method Send(e: OsEvent)
      modifies this`log
      ensures log == old(log) + [e] && OsAfter(log) == AfterEvent(OsAfter(old(log)), e)
    {
      OsAppend(log, e);
      log := log + [e];
    }

    /** Only releases, in whatever order the hash sets yield what is held. */
    static ghost predicate AllReleases(events: seq<OsEvent>) {
      forall e :: e in events ==>
        (e.KeyEvent? && !e.down) || (e.MouseHere? && (e.edge.Some? ==> !e.edge.value.down))
    }

    method ReleaseKeys()
      modifies this`log, this`heldKeys
      ensures heldKeys == {} && old(log) <= log
      ensures OsAfter(log) == OsAfter(old(log)).(keys := OsAfter(old(log)).keys - old(heldKeys))
      ensures AllReleases(log[|old(log)|..])
    {
      var rest := heldKeys;
      while rest != {}
        invariant rest <= heldKeys && heldKeys == old(heldKeys) && old(log) <= log
        invariant OsAfter(log) == OsAfter(old(log)).(keys := OsAfter(old(log)).keys - (heldKeys - rest))
        invariant AllReleases(log[|old(log)|..])
      {
        var key :| key in rest;
        Send(KeyEvent(key, false));
        rest := rest - {key};
      }
      heldKeys := {};
    }

    method ReleaseButtons()
      modifies this`log, this`heldButtons
      ensures heldButtons == {} && old(log) <= log
      ensures OsAfter(log) == OsAfter(old(log)).(buttons := OsAfter(old(log)).buttons - Pressed(old(heldButtons)))
      ensures AllReleases(log[|old(log)|..])
    {
      var rest := heldButtons;
      ghost var done := {};
      while rest != {}
        invariant done + rest == heldButtons && done * rest == {}
        invariant heldButtons == old(heldButtons) && old(log) <= log
        invariant OsAfter(log) == OsAfter(old(log)).(buttons := OsAfter(old(log)).buttons - Pressed(done))
        invariant AllReleases(log[|old(log)|..])
        decreases rest
      {
        var b :| b in rest;
        // The button goes up where the cursor is, without a move.
        ReleaseStep(OsAfter(old(log)), done, b);
        Send(MouseHere(ButtonFlags(b, false)));
        done, rest := done + {b}, rest - {b};
      }
      heldButtons := {};
    }

    method ReleaseAll()
      modifies this`log, this`heldKeys, this`heldButtons
      ensures ToRig() == Session(old(ToRig()), active)
      ensures old(log) <= log && AllReleases(log[|old(log)|..])
    {
      ReleaseKeys();
      ghost var middle := log;
      ReleaseButtons();
      assert log[|old(log)|..] == middle[|old(log)|..] + log[|middle|..];
    }

    method KillNow()
      modifies this
      ensures ToRig() == Kill(old(ToRig()))
    {
      ReleaseAll();
      active := false;
    }

    method RcSession(active: bool)
      modifies this
      ensures ToRig() == Session(old(ToRig()), active)
    {
      if active {
        ReleaseAll();
        this.active := true;
      } else {
        ReleaseAll();
        this.active := false;
      }
    }

    /** `frame` is None when the text is not a frame. */
    method RcInput(frame: Option<Frame>, scan: string -> Option<Key>)
      modifies this
      ensures ToRig() == Input(old(ToRig()), frame, scan)
      ensures !old(active) ==> log == old(log)
    {
      if frame.None? {
        return;
      }
      var f := frame.value;
      if !active {
        return;
      }
      match f.t {
        case "m" =>
          Send(MouseAt(f.x, f.y, None));
        case "d" =>
          Send(MouseAt(f.x, f.y, ButtonFlags(f.b, true)));
          heldButtons := heldButtons + {f.b};
        case "u" =>
          Send(MouseAt(f.x, f.y, ButtonFlags(f.b, false)));
          heldButtons := heldButtons - {f.b};
        case "w" =>
          if f.dy != 0.0 {
            Send(WheelAt(f.x, f.y, true, -f.dy / 100.0 * 120.0));
          }
          if f.dx != 0.0 {
            Send(WheelAt(f.x, f.y, false, f.dx / 100.0 * 120.0));
          }
        case "k" =>
          var key := scan(f.c);
          if key.Some? {
            Send(KeyEvent(key.value, true));
            heldKeys := heldKeys + {key.value};
          }
        case "K" =>
          var key := scan(f.c);
          if key.Some? {
            Send(KeyEvent(key.value, false));
            heldKeys := heldKeys - {key.value};
          }
        case _ =>
      }
    }
  }
}
