/**
 Who may drive the sharer's machine: the consent state of the 1:1 call (server/assets/call.js) and
 of the huddle (server/assets/huddle_control.js) on the sharer's page, and the DOM events with
 which both arm, feed and disarm the one native injector.
 */
module Consent {
  import opened Wrappers
  import Injector

  type User = nat

  /** A data-channel message: a capability announcement, or text the injector may decode as a frame. */
  datatype Payload = Payload(cap: bool, frame: Option<Injector.Frame>)

  datatype Source = FromCall | FromHuddle(controller: User)

  /** The lc:control-* events dispatched by the page. */
  datatype DomEvent = Start | End | Input(source: Source, payload: Payload)

  datatype Signal = RequestSignal | GrantSignal | DenySignal | RevokeSignal

  // ----- the 1:1 call -----

  datatype Call = Call(granted: bool, signals: seq<Signal>, out: seq<DomEvent>)

  function CallGrant(c: Call): Call {
    Call(true, c.signals + [GrantSignal], c.out + [Start])
  }

  function CallDeny(c: Call): Call {
    c.(signals := c.signals + [DenySignal])
  }

  function CallEndGrant(c: Call): Call {
    if c.granted then Call(false, c.signals, c.out + [End]) else c
  }

  function CallRevoke(c: Call): Call {
    if c.granted then CallEndGrant(c.(signals := c.signals + [RevokeSignal])) else c
  }

  function CallMessage(c: Call, m: Payload): Call {
    if c.granted then c.(out := c.out + [Input(FromCall, m)]) else c
  }

  class CallControl {
    var granted: bool
    var signals: seq<Signal>
    var out: seq<DomEvent>

    function ToCall(): Call
      reads this
    {
      Call(granted, signals, out)
    }

    constructor ()
      ensures ToCall() == Call(false, [], [])
    {
      granted, signals, out := false, [], [];
    }

    method GrantControl()
      modifies this
      ensures ToCall() == CallGrant(old(ToCall()))
    {
      granted := true;
      signals := signals + [GrantSignal];
      out := out + [Start];
    }

    method DenyControl()
      modifies this
      ensures ToCall() == CallDeny(old(ToCall()))
    {
      signals := signals + [DenySignal];
    }

    method EndGrant()
      modifies this
      ensures ToCall() == CallEndGrant(old(ToCall()))
    {
      if !granted {
        return;
      }
      granted := false;
      out := out + [End];
    }

    method RevokeAsSharer()
      modifies this
      ensures ToCall() == CallRevoke(old(ToCall()))
    {
      if !granted {
        return;
      }
      signals := signals + [RevokeSignal];
      EndGrant();
    }

    method OnMessage(m: Payload)
      modifies this
      ensures ToCall() == CallMessage(old(ToCall()), m)
    {
      if granted {
        out := out + [Input(FromCall, m)];
      }
    }

    /** The control part of ending a call. */
    method Teardown()
      modifies this
      ensures ToCall() == CallRevoke(old(ToCall()))
    {
      RevokeAsSharer();
      granted := false;
    }
  }

  // ----- the huddle -----

  datatype Phase = Idle | Requesting | Controlling

  /** The one callback huddle_sfu.js hands data-channel messages to. */
  datatype Sink = NoSink | SharerSink | ControllerSink(sharer: User)

  datatype Huddle = Huddle(
    self: User,
    sfu: bool,                              // huddle_sfu.js is loaded
    phase: Phase,
    controllingSharer: Option<User>,
    capturing: bool,
    grantedTo: Option<User>,
    pendingFrom: Option<User>,
    sharers: map<User, bool>,
    sink: Sink,
    signals: seq<Signal>,
    out: seq<DomEvent>)

  function NewHuddle(self: User, sfu: bool): Huddle {
    Huddle(self, sfu, Idle, None, false, None, None, map[], NoSink, [], [])
  }

  datatype ControlKind = OnRequest | OnGrant | OnDeny | OnBusy | OnUnavailable | OnRevoke

  predicate Shares(sharers: map<User, bool>, u: User) {
    u in sharers && sharers[u]
  }

  /** Exactly one participant shares, and it is somebody else. */
  predicate CanRequest(sharers: map<User, bool>, self: User) {
    var ids := set u | u in sharers && sharers[u];
    |ids| == 1 && self !in ids
  }

  function Say(h: Huddle, s: Signal): Huddle {
    h.(signals := h.signals + [s])
  }

  function StopCapture(h: Huddle): Huddle {
    h.(capturing := false, sink := if h.sfu then NoSink else h.sink, controllingSharer := None)
  }

  function EndControlling(h: Huddle): Huddle {
    StopCapture(h).(phase := Idle)
  }

  function StartCapture(h: Huddle, sharer: User): Huddle {
    if h.capturing || !h.sfu then h
    else h.(controllingSharer := Some(sharer), sink := ControllerSink(sharer), capturing := true)
  }

  function ClickRequest(h: Huddle, joined: bool): Huddle {
    if h.phase == Controlling then EndControlling(Say(h, RevokeSignal))
    else if h.phase == Requesting || !joined then h
    else Say(h.(phase := Requesting), RequestSignal)
  }

  function RequestTimeout(h: Huddle): Huddle {
    if h.phase == Requesting then EndControlling(h) else h
  }

  function HidePrompt(h: Huddle): Huddle {
    h.(pendingFrom := None)
  }

  function DenyPending(h: Huddle): Huddle {
    if h.pendingFrom.None? then h else HidePrompt(Say(h, DenySignal))
  }

  function ArmInjection(h: Huddle): Huddle {
    if !h.sfu then h else h.(out := h.out + [Start], sink := SharerSink)
  }

  function DisarmInjection(h: Huddle): Huddle {
    h.(sink := if h.sfu then NoSink else h.sink, out := h.out + [End])
  }

  function GrantPending(h: Huddle): Huddle {
    if h.pendingFrom.None? then h
    else ArmInjection(Say(HidePrompt(h.(grantedTo := h.pendingFrom)), GrantSignal))
  }

  function EndGrant(h: Huddle): Huddle {
    if h.grantedTo.None? then h else DisarmInjection(h.(grantedTo := None))
  }

  function OnControl(h: Huddle, kind: ControlKind, from: User): Huddle {
    match kind
    case OnRequest => if Shares(h.sharers, h.self) then h.(pendingFrom := Some(from)) else h
    case OnGrant => if h.phase == Requesting then StartCapture(h.(phase := Controlling), from) else h
    case OnDeny => if h.phase == Requesting then EndControlling(h) else h
    case OnBusy => if h.phase == Requesting then EndControlling(h) else h
    case OnUnavailable => EndGrant(if h.phase == Requesting then EndControlling(h) else h)
    case OnRevoke =>
      var h1 := HidePrompt(h);
      EndGrant(if h1.phase != Idle then EndControlling(h1) else h1)
  }

  function OnScreen(h: Huddle, user: User, on: bool): Huddle {
    var h1 := h.(sharers := h.sharers[user := on]);
    if on then h1
    else if user == h.self then EndGrant(HidePrompt(h1))
    else if h1.phase == Requesting && !CanRequest(h1.sharers, h1.self) then EndControlling(h1)
    else h1
  }

  function OnLeft(h: Huddle, user: User): Huddle {
    if user == h.self then
      EndControlling(EndGrant(HidePrompt(h.(sharers := map[]))))
    else
      var h1 := h.(sharers := h.sharers - {user});
      var h2 := if h1.grantedTo == Some(user) then EndGrant(h1) else h1;
      var h3 := if h2.controllingSharer == Some(user) then EndControlling(h2) else h2;
      if h3.pendingFrom == Some(user) then HidePrompt(h3) else h3
  }

  function StopClick(h: Huddle): Huddle {
    EndGrant(Say(h, RevokeSignal))
  }

  function OnData(h: Huddle, from: User, m: Payload): Huddle {
    if h.sink.SharerSink? && h.grantedTo == Some(from) && !m.cap
    then h.(out := h.out + [Input(FromHuddle(from), m)])
    else h
  }

  class HuddleControl {
    const self: User
    const sfu: bool
    var phase: Phase
    var controllingSharer: Option<User>
    var capturing: bool
    var grantedTo: Option<User>
    var pendingFrom: Option<User>
    var sharers: map<User, bool>
    var sink: Sink
    var signals: seq<Signal>
    var out: seq<DomEvent>

    function ToHuddle(): Huddle
      reads this
    {
      Huddle(self, sfu, phase, controllingSharer, capturing, grantedTo, pendingFrom, sharers, sink, signals, out)
    }

    constructor (self: User, sfu: bool)
      ensures this.self == self && this.sfu == sfu && ToHuddle() == NewHuddle(self, sfu)
    {
      this.self, this.sfu := self, sfu;
      phase, controllingSharer, capturing := Idle, None, false;
      grantedTo, pendingFrom, sharers, sink := None, None, map[], NoSink;
      signals, out := [], [];
    }

    method Send(s: Signal)
      modifies this`signals
      ensures ToHuddle() == Say(old(ToHuddle()), s)
    {
      signals := signals + [s];
    }

    method Begin(sharer: User)
      modifies this
      ensures ToHuddle() == StartCapture(old(ToHuddle()), sharer)
    {
      if capturing || !sfu {
        return;
      }
      controllingSharer := Some(sharer);
      sink := ControllerSink(sharer);
      capturing := true;
    }

    method EndControl()
      modifies this
      ensures ToHuddle() == EndControlling(old(ToHuddle()))
    {
      capturing := false;
      if sfu {
        sink := NoSink;
      }
      controllingSharer := None;
      phase := Idle;
    }

    method OnRequestClick(joined: bool)
      modifies this
      ensures ToHuddle() == ClickRequest(old(ToHuddle()), joined)
    {
      if phase == Controlling {
        Send(RevokeSignal);
        EndControl();
        return;
      }
      if phase == Requesting || !joined {
        return;
      }
      phase := Requesting;
      Send(RequestSignal);
    }

    method Deny()
      modifies this
      ensures ToHuddle() == DenyPending(old(ToHuddle()))
    {
      if pendingFrom == None {
        return;
      }
      Send(DenySignal);
      pendingFrom := None;
    }

    method Arm()
      modifies this`sink, this`out
      ensures ToHuddle() == ArmInjection(old(ToHuddle()))
    {
      if !sfu {
        return;
      }
      out := out + [Start];
      sink := SharerSink;
    }

    method Grant()
      modifies this
      ensures ToHuddle() == GrantPending(old(ToHuddle()))
    {
      if pendingFrom == None {
        return;
      }
      grantedTo := pendingFrom;
      pendingFrom := None;
      Send(GrantSignal);
      Arm();
    }

    method Finish()
      modifies this
      ensures ToHuddle() == EndGrant(old(ToHuddle()))
    {
      if grantedTo == None {
        return;
      }
      grantedTo := None;
      if sfu {
        sink := NoSink;
      }
      out := out + [End];
    }

    method OnControlEvent(kind: ControlKind, from: User)
      modifies this
      ensures ToHuddle() == OnControl(old(ToHuddle()), kind, from)
    {
      match kind {
        case OnRequest =>
          if !Shares(sharers, self) {
            return;
          }
          pendingFrom := Some(from);
        case OnGrant =>
          if phase != Requesting {
            return;
          }
          phase := Controlling;
          Begin(from);
        case OnDeny =>
          if phase == Requesting {
            EndControl();
          }
        case OnBusy =>
          if phase == Requesting {
            EndControl();
          }
        case OnUnavailable =>
          if phase == Requesting {
            EndControl();
          }
          if grantedTo != None {
            Finish();
          }
        case OnRevoke =>
          pendingFrom := None;
          if phase != Idle {
            EndControl();
          }
          Finish();
      }
    }

    method OnScreenEvent(user: User, on: bool)
      modifies this
      ensures ToHuddle() == OnScreen(old(ToHuddle()), user, on)
    {
      sharers := sharers[user := on];
      if !on {
        if user == self {
          pendingFrom := None;
          Finish();
        } else if phase == Requesting && !CanRequest(sharers, self) {
          EndControl();
        }
      }
    }

    method OnLeftEvent(user: User)
      modifies this
      ensures ToHuddle() == OnLeft(old(ToHuddle()), user)
    {
      sharers := sharers - {user};
      if user == self {
        sharers := map[];
        pendingFrom := None;
        Finish();
        EndControl();
      } else {
        if grantedTo == Some(user) {
          Finish();
        }
        if controllingSharer == Some(user) {
          EndControl();
        }
        if pendingFrom == Some(user) {
          pendingFrom := None;
        }
      }
    }

    method Stop()
      modifies this
      ensures ToHuddle() == StopClick(old(ToHuddle()))
    {
      Send(RevokeSignal);
      Finish();
    }

    method OnControlData(from: User, m: Payload)
      modifies this`out
      ensures ToHuddle() == OnData(old(ToHuddle()), from, m)
    {
      if sink != SharerSink {
        return;
      }
      if grantedTo != Some(from) || m.cap {
        return;
      }
      out := out + [Input(FromHuddle(from), m)];
    }
  }
}

/**
 The page, the bridge that forwards its events over IPC, and the injector. The bridge delivers in
 order but not at once; the kill hotkey reaches the injector directly and the page afterwards.
 */
module ControlRuns {
  import opened Wrappers
  import Injector
  import opened Consent

  /** What the page held when it dispatched an event; kept for the theorems only. */
  datatype Holders = Holders(call: bool, huddle: Option<User>)

  datatype Entry = Entry(event: DomEvent, held: Holders)

  /**
   `sent` is everything the bridge was given, `done` how much of it the injector has seen, `kills`
   how many presses of the hotkey the page has yet to be told of.
   */
  datatype World = World(
    call: Call,
    huddle: Huddle,
    sent: seq<Entry>,
    done: nat,
    kills: nat,
    rig: Injector.Rig)

  datatype PageEvent =
    | CallGrantClick | CallDenyClick | CallStopClick | CallShareEnd | CallChannelDrop | CallEnd
    | CallRevoked | CallData(payload: Payload)
    | HuddleRequestClick(joined: bool) | HuddleRequestTimeout | HuddleDenyClick | HuddleGrantClick | HuddleStopClick
    | HuddleControl(kind: ControlKind, from: User)
    | HuddleScreen(user: User, on: bool) | HuddleLeft(user: User)
    | HuddleData(from: User, payload: Payload)

  datatype Step = Page(e: PageEvent) | Forward | KillHotkey | PageKill | Reload

  predicate IsGrantClick(step: Step) {
    step.Page? && (step.e.CallGrantClick? || step.e.HuddleGrantClick?)
  }

  function Holding(w: World): Holders {
    Holders(w.call.granted, w.huddle.grantedTo)
  }

  predicate HoldsAny(h: Holders) {
    h.call || h.huddle.Some?
  }

  predicate Allows(h: Holders, source: Source) {
    match source
    case FromCall => h.call
    case FromHuddle(u) => h.huddle == Some(u)
  }

  function Stamp(out: seq<DomEvent>, held: Holders): seq<Entry> {
    seq(|out|, k requires 0 <= k < |out| => Entry(out[k], held))
  }

  function CallStep(c: Call, e: PageEvent): Call {
    match e
    case CallGrantClick => CallGrant(c)
    case CallDenyClick => CallDeny(c)
    case CallStopClick => CallRevoke(c)
    case CallShareEnd => CallRevoke(c)
    case CallChannelDrop => CallRevoke(c)
    case CallEnd => CallRevoke(c)
    case CallRevoked => CallEndGrant(c)
    case CallData(m) => CallMessage(c, m)
    case _ => c
  }

  function HuddleStep(h: Huddle, e: PageEvent): Huddle {
    match e
    case HuddleRequestClick(joined) => ClickRequest(h, joined)
    case HuddleRequestTimeout => RequestTimeout(h)
    case HuddleDenyClick => DenyPending(h)
    case HuddleGrantClick => GrantPending(h)
    case HuddleStopClick => StopClick(h)
    case HuddleControl(kind, from) => OnControl(h, kind, from)
    case HuddleScreen(u, on) => OnScreen(h, u, on)
    case HuddleLeft(u) => OnLeft(h, u)
    case HuddleData(from, m) => OnData(h, from, m)
    case _ => h
  }

  /** Hands what both surfaces dispatched to the bridge. */
  function Flush(w: World, call: Call, huddle: Huddle): World {
    w.(call := call.(out := []), huddle := huddle.(out := []),
       sent := w.sent + Stamp(call.out + huddle.out, Holding(w)))
  }

  predicate Enabled(w: World, step: Step) {
    match step
    case Forward => w.done < |w.sent|
    case PageKill => w.kills > 0
    case _ => true
  }

  function Obey(r: Injector.Rig, e: DomEvent, scan: string -> Option<Injector.Key>): Injector.Rig {
    match e
    case Start => Injector.Session(r, true)
    case End => Injector.Session(r, false)
    case Input(_, m) => Injector.Input(r, m.frame, scan)
  }

  function Next(w: World, step: Step, scan: string -> Option<Injector.Key>): World
    requires Enabled(w, step)
  {
    match step
    case Page(e) => Flush(w, CallStep(w.call, e), HuddleStep(w.huddle, e))
    case Forward => w.(rig := Obey(w.rig, w.sent[w.done].event, scan), done := w.done + 1)
    case KillHotkey => w.(rig := Injector.Kill(w.rig), kills := w.kills + 1)
    case PageKill => Flush(w, CallRevoke(w.call), StopClick(w.huddle)).(kills := w.kills - 1)
    // A page load starts with no grant, and the bridge script disarms the injector first.
    case Reload =>
      w.(call := Call(false, [], []), huddle := NewHuddle(w.huddle.self, w.huddle.sfu), kills := 0,
         sent := w.sent + [Entry(End, Holding(w))])
  }

  function Init(self: User, sfu: bool): World {
    World(Call(false, [], []), NewHuddle(self, sfu), [], 0, 0, Injector.Fresh)
  }

  function Exec(w: World, steps: seq<Step>, scan: string -> Option<Injector.Key>): World
    decreases |steps|
  {
    if steps == [] then w
    else if Enabled(w, steps[0]) then Exec(Next(w, steps[0], scan), steps[1..], scan)
    else Exec(w, steps[1..], scan)
  }

  /** Whether the injector would be armed once it has seen all of `sent`. */
  function ArmedAfter(armed: bool, sent: seq<Entry>): bool {
    if sent == [] then armed
    else
      var last := sent[|sent| - 1].event;
      if last.Start? then true else if last.End? then false else ArmedAfter(armed, sent[..|sent| - 1])
  }

  predicate Inv(w: World) {
    && w.done <= |w.sent|
    && w.call.out == [] && w.huddle.out == []
    && Injector.RigValid(w.rig)
    && (w.rig.active ==> ArmedAfter(false, w.sent[..w.done]))
    && (ArmedAfter(false, w.sent) ==> HoldsAny(Holding(w)))
    && (forall k :: 0 <= k < |w.sent| && w.sent[k].event.Input? ==> Allows(w.sent[k].held, w.sent[k].event.source))
  }

  lemma {:induction false} ArmedConcat(armed: bool, a: seq<Entry>, b: seq<Entry>)
    ensures ArmedAfter(armed, a + b) == ArmedAfter(ArmedAfter(armed, a), b)
  {
    if b == [] {
      assert a + b == a;
    } else {
      assert (a + b)[..|a + b| - 1] == a + b[..|b| - 1];
      ArmedConcat(armed, a, b[..|b| - 1]);
    }
  }

  // ----- every step keeps the invariant -----

  /** What the page may dispatch in one step, given what it held before and holds after. */
  predicate Disciplined(out: seq<DomEvent>, before: Holders, after: Holders) {
    || (out == [] && (HoldsAny(before) ==> HoldsAny(after)))
    || out == [End]
    || out == [End, End]
    || (out == [Start] && HoldsAny(after))
    || (|out| == 1 && out[0].Input? && Allows(before, out[0].source) && after == before)
  }

  lemma CallDisciplined(c: Call, huddle: Option<User>, e: PageEvent)
    requires c.out == []
    ensures Disciplined(CallStep(c, e).out, Holders(c.granted, huddle), Holders(CallStep(c, e).granted, huddle))
    ensures CallStep(c, e).out != [] ==> HuddleIgnores(e)
  {
  }

  /** A signal or a departure either ends the grant, saying so once, or leaves it alone. */
  predicate EndsOrKeeps(h: Huddle, h': Huddle) {
    || (h'.grantedTo == h.grantedTo && h'.out == h.out)
    || (h'.grantedTo == None && h'.out == h.out + [End])
  }

  lemma SignalDisciplined(h: Huddle, kind: ControlKind, from: User)
    ensures EndsOrKeeps(h, OnControl(h, kind, from))
  {
  }

  lemma LeftDisciplined(h: Huddle, user: User)
    ensures EndsOrKeeps(h, OnLeft(h, user))
  {
  }

  lemma HuddleDisciplined(h: Huddle, call: bool, e: PageEvent)
    requires h.out == []
    ensures Disciplined(HuddleStep(h, e).out, Holders(call, h.grantedTo), Holders(call, HuddleStep(h, e).grantedTo))
  {
    match e
    case HuddleControl(kind, from) => SignalDisciplined(h, kind, from);
    case HuddleLeft(u) => LeftDisciplined(h, u);
    case _ =>
  }

  /** The event belongs to the 1:1 call. */
  predicate HuddleIgnores(e: PageEvent) {
    || e.CallGrantClick? || e.CallDenyClick? || e.CallStopClick? || e.CallShareEnd? || e.CallChannelDrop?
    || e.CallEnd? || e.CallRevoked? || e.CallData?
  }

  /** What the page dispatches in one step arms only under a grant it holds afterwards. */
  lemma FlushArms(armed: bool, out: seq<DomEvent>, before: Holders, after: Holders)
    requires Disciplined(out, before, after) && (armed ==> HoldsAny(before))
    ensures ArmedAfter(armed, Stamp(out, before)) ==> HoldsAny(after)
  {
    var more := Stamp(out, before);
    if out == [End, End] {
      assert more[..1] == [more[0]];
    } else if |out| == 1 {
      assert more[..0] == [];
    }
  }

  lemma FlushAllows(out: seq<DomEvent>, before: Holders, after: Holders, k: nat)
    requires Disciplined(out, before, after) && k < |out| && out[k].Input?
    ensures Allows(before, out[k].source)
  {
  }

  lemma FlushKeepsInv(w: World, call: Call, huddle: Huddle)
    requires Inv(w)
    requires Disciplined(call.out + huddle.out, Holding(w), Holders(call.granted, huddle.grantedTo))
    ensures Inv(Flush(w, call, huddle))
  {
    var out := call.out + huddle.out;
    var more := Stamp(out, Holding(w));
    ArmedConcat(false, w.sent, more);
    FlushArms(ArmedAfter(false, w.sent), out, Holding(w), Holders(call.granted, huddle.grantedTo));
    assert (w.sent + more)[..w.done] == w.sent[..w.done];
    forall k | 0 <= k < |out| && out[k].Input?
      ensures Allows(Holding(w), out[k].source)
    {
      FlushAllows(out, Holding(w), Holders(call.granted, huddle.grantedTo), k);
    }
    hide Disciplined, ArmedAfter, Allows;
  }

  lemma PageKeepsInv(w: World, e: PageEvent)
    requires Inv(w)
    ensures Inv(Flush(w, CallStep(w.call, e), HuddleStep(w.huddle, e)))
  {
    var call, huddle := CallStep(w.call, e), HuddleStep(w.huddle, e);
    if HuddleIgnores(e) {
      assert huddle == w.huddle && call.out + huddle.out == call.out;
      CallDisciplined(w.call, w.huddle.grantedTo, e);
    } else {
      assert call == w.call && call.out + huddle.out == huddle.out;
      HuddleDisciplined(w.huddle, w.call.granted, e);
    }
    FlushKeepsInv(w, call, huddle);
  }

  lemma ForwardKeepsInv(w: World, scan: string -> Option<Injector.Key>)
    requires Inv(w) && Enabled(w, Forward)
    ensures Inv(Next(w, Forward, scan))
  {
    var seen := w.sent[..w.done + 1];
    assert seen[..|seen| - 1] == w.sent[..w.done];
    match w.sent[w.done].event
    case Start => Injector.ApplyKeepsValid(w.rig, Injector.SessionCommand(true), scan);
    case End => Injector.ApplyKeepsValid(w.rig, Injector.SessionCommand(false), scan);
    case Input(_, m) => Injector.ApplyKeepsValid(w.rig, Injector.InputCommand(m.frame), scan);
  }

  lemma StepKeepsInv(w: World, step: Step, scan: string -> Option<Injector.Key>)
    requires Inv(w) && Enabled(w, step)
    ensures Inv(Next(w, step, scan))
  {
    match step
    case Page(e) => PageKeepsInv(w, e);
    case Forward => ForwardKeepsInv(w, scan);
    case KillHotkey => Injector.ApplyKeepsValid(w.rig, Injector.KillCommand, scan);
    case PageKill => FlushKeepsInv(w, CallRevoke(w.call), StopClick(w.huddle));
    case Reload =>
      assert (w.sent + [Entry(End, Holding(w))])[..w.done] == w.sent[..w.done];
  }

  lemma {:induction false} RunKeepsInv(w: World, steps: seq<Step>, scan: string -> Option<Injector.Key>)
    requires Inv(w)
    ensures Inv(Exec(w, steps, scan))
    decreases |steps|
  {
    if steps != [] {
      if Enabled(w, steps[0]) {
        StepKeepsInv(w, steps[0], scan);
        RunKeepsInv(Next(w, steps[0], scan), steps[1..], scan);
      } else {
        RunKeepsInv(w, steps[1..], scan);
      }
    }
  }

  lemma InitInv(self: User, sfu: bool)
    ensures Inv(Init(self, sfu))
  {
    Injector.HeldIsWhatIsDown([], c => None);
  }

  // ----- main results -----

  /**
   Over every interleaving of both surfaces, the bridge and the hotkey: the injector is armed
   without a grant only while the disarming event is still on its way, and with nothing on its way
   an armed injector means a grant, a disarmed one a machine with nothing held down.
   */
  lemma ArmedOnlyUnderGrant(self: User, sfu: bool, steps: seq<Step>, scan: string -> Option<Injector.Key>)
    ensures var w := Exec(Init(self, sfu), steps, scan);
            && w.done <= |w.sent|
            && (w.rig.active && !HoldsAny(Holding(w)) ==>
                  exists k :: w.done <= k < |w.sent| && w.sent[k].event == End)
            && (w.done == |w.sent| && w.rig.active ==> HoldsAny(Holding(w)))
            && (!w.rig.active ==> w.rig.os == Injector.Os({}, {}))
  {
    InitInv(self, sfu);
    RunKeepsInv(Init(self, sfu), steps, scan);
    var w := Exec(Init(self, sfu), steps, scan);
    assert w.sent[..w.done] + w.sent[w.done..] == w.sent;
    ArmedConcat(false, w.sent[..w.done], w.sent[w.done..]);
    if w.rig.active && !HoldsAny(Holding(w)) {
      var k := EndAmong(w.sent[w.done..]);
      assert w.sent[w.done + k].event == End;
    }
    assert w.sent[..|w.sent|] == w.sent;
    assert Injector.Pressed({}) == {};
  }

  lemma {:induction false} EndAmong(sent: seq<Entry>) returns (k: nat)
    requires !ArmedAfter(true, sent)
    ensures k < |sent| && sent[k].event == End
  {
    k := |sent| - 1;
    if !sent[k].event.End? {
      k := EndAmong(sent[..k]);
    }
  }

  /** The injector's latest order, among those seen, was to arm. */
  lemma {:induction false} ArmedSince(seen: seq<Entry>) returns (k: nat)
    requires ArmedAfter(false, seen)
    ensures k < |seen| && seen[k].event == Start
    ensures forall i :: k < i < |seen| ==> seen[i].event.Input?
  {
    k := |seen| - 1;
    if !seen[k].event.Start? {
      k := ArmedSince(seen[..k]);
    }
  }

  /**
   A frame is injected only after an arming event with no disarming event in
   between, and it was passed on while its source held the grant: in a huddle only the user the
   grant was given to, not one who merely holds the data channel.
   */
  lemma FramesOnlyUnderGrant(self: User, sfu: bool, steps: seq<Step>, scan: string -> Option<Injector.Key>)
    requires var w := Exec(Init(self, sfu), steps, scan);
             && w.done < |w.sent| && w.sent[w.done].event.Input?
             && w.rig.active
    ensures var w := Exec(Init(self, sfu), steps, scan);
            && Allows(w.sent[w.done].held, w.sent[w.done].event.source)
            && exists k :: 0 <= k < w.done && w.sent[k].event == Start &&
                 (forall i :: k < i < w.done ==> w.sent[i].event != End)
  {
    InitInv(self, sfu);
    RunKeepsInv(Init(self, sfu), steps, scan);
    var w := Exec(Init(self, sfu), steps, scan);
    var k := ArmedSince(w.sent[..w.done]);
    assert w.sent[k].event == Start;
  }

  /** No grant is clicked in `steps`. */
  predicate NoGrant(steps: seq<Step>) {
    forall s :: s in steps ==> !IsGrantClick(s)
  }

  predicate ArmOnItsWay(w: World) {
    exists k :: w.done <= k < |w.sent| && w.sent[k].event == Start
  }

  /** Disarmed, with nothing on its way that would arm. */
  predicate Severed(w: World) {
    !w.rig.active && !ArmOnItsWay(w)
  }

  lemma StepKeepsSevered(w: World, step: Step, scan: string -> Option<Injector.Key>)
    requires Inv(w) && Enabled(w, step) && Severed(w) && !IsGrantClick(step)
    ensures Severed(Next(w, step, scan)) && (!step.Forward? || w.sent[w.done].event.Input? ==> Next(w, step, scan).rig.os == w.rig.os)
  {
    var w' := Next(w, step, scan);
    Injector.ApplyKeepsValid(w.rig, Injector.KillCommand, scan);
    assert Injector.Pressed({}) == {};
    match step {
      case Page(e) =>
        NoStartWithoutGrant(w, e);
        forall k | w'.done <= k < |w'.sent|
          ensures w'.sent[k].event != Start
        {
          if k < |w.sent| {
            assert w'.sent[k] == w.sent[k];
          }
        }
      case Forward =>
      case KillHotkey =>
      case PageKill =>
        var out := CallRevoke(w.call).out + StopClick(w.huddle).out;
        forall k | w'.done <= k < |w'.sent|
          ensures w'.sent[k].event != Start
        {
          if k < |w.sent| {
            assert w'.sent[k] == w.sent[k];
          } else {
            assert w'.sent[k].event == out[k - |w.sent|];
          }
        }
      case Reload =>
    }
  }

  lemma CallStartsByGrant(c: Call, e: PageEvent)
    requires c.out == [] && !e.CallGrantClick?
    ensures Start !in CallStep(c, e).out
  {
  }

  lemma HuddleStartsByGrant(h: Huddle, e: PageEvent)
    requires h.out == [] && !e.HuddleGrantClick?
    ensures Start !in HuddleStep(h, e).out
  {
    match e
    case HuddleControl(kind, from) =>
      SignalDisciplined(h, kind, from);
      hide OnControl;
    case HuddleLeft(u) =>
      LeftDisciplined(h, u);
      hide OnLeft;
    case _ =>
  }

  lemma NoStartWithoutGrant(w: World, e: PageEvent)
    requires Inv(w) && !e.CallGrantClick? && !e.HuddleGrantClick?
    ensures forall k :: 0 <= k < |(CallStep(w.call, e).out + HuddleStep(w.huddle, e).out)| ==>
              (CallStep(w.call, e).out + HuddleStep(w.huddle, e).out)[k] != Start
  {
    CallStartsByGrant(w.call, e);
    HuddleStartsByGrant(w.huddle, e);
    hide CallStep, HuddleStep;
  }

  /** Once severed, nothing reaches the machine until somebody clicks a grant again. */
  lemma {:induction false} SeveredStaysQuiet(w: World, steps: seq<Step>, scan: string -> Option<Injector.Key>)
    requires Inv(w) && Severed(w) && NoGrant(steps)
    ensures Severed(Exec(w, steps, scan)) && Exec(w, steps, scan).rig.os == Injector.Os({}, {})
    decreases |steps|
  {
    assert Injector.Pressed({}) == {};
    if steps != [] {
      assert steps[0] in steps && (forall s :: s in steps[1..] ==> s in steps);
      if Enabled(w, steps[0]) {
        StepKeepsInv(w, steps[0], scan);
        StepKeepsSevered(w, steps[0], scan);
        SeveredStaysQuiet(Next(w, steps[0], scan), steps[1..], scan);
      } else {
        SeveredStaysQuiet(w, steps[1..], scan);
      }
    }
  }

  /** All that is on its way reaches the injector. */
  function Drain(w: World, scan: string -> Option<Injector.Key>): World
    decreases |w.sent| - w.done
  {
    if w.done < |w.sent| then Drain(Next(w, Forward, scan), scan) else w
  }

  lemma {:induction false} DrainArms(w: World, scan: string -> Option<Injector.Key>)
    requires w.done <= |w.sent|
    ensures Drain(w, scan).rig.active == ArmedAfter(w.rig.active, w.sent[w.done..])
    decreases |w.sent| - w.done
  {
    if w.done < |w.sent| {
      var w' := Next(w, Forward, scan);
      DrainArms(w', scan);
      assert w.sent[w.done..] == [w.sent[w.done]] + w'.sent[w'.done..];
      ArmedConcat(w.rig.active, [w.sent[w.done]], w'.sent[w'.done..]);
      assert [w.sent[w.done]][..0] == [];
    }
  }

  /** Events reach the injector one by one; the first arming one among them arms it. */
  lemma {:induction false} ArmArrives(w: World, scan: string -> Option<Injector.Key>) returns (steps: seq<Step>)
    requires ArmOnItsWay(w)
    ensures NoGrant(steps) && Exec(w, steps, scan).rig.active
    decreases |w.sent| - w.done
  {
    var w1 := Next(w, Forward, scan);
    if w.sent[w.done].event == Start {
      steps := [Forward];
      assert steps[1..] == [] && Exec(w, steps, scan) == Exec(w1, [], scan);
    } else {
      var k :| w.done <= k < |w.sent| && w.sent[k].event == Start;
      assert w1.done <= k && w1.sent[k].event == Start;
      var rest := ArmArrives(w1, scan);
      steps := [Forward] + rest;
      assert steps[1..] == rest;
    }
  }

  /** Without a new grant a disarmed injector can become armed if and only if an arming event is on its way, followed by a disarming one or not. */
  lemma ArmedAgainExactly(w: World, scan: string -> Option<Injector.Key>)
    requires Inv(w) && !w.rig.active
    ensures ArmOnItsWay(w) <==> exists more :: NoGrant(more) && Exec(w, more, scan).rig.active
  {
    if ArmOnItsWay(w) {
      var more := ArmArrives(w, scan);
      assert NoGrant(more) && Exec(w, more, scan).rig.active;
    } else {
      forall more | NoGrant(more)
        ensures !Exec(w, more, scan).rig.active
      {
        SeveredStaysQuiet(w, more, scan);
      }
    }
  }

  /**
   The kill hotkey disarms at once. Without a new grant the injector stays disarmed if and only if no
   arming event was still on its way; otherwise it is armed again when that event arrives, for good
   if no disarming event follows it, and for a while if one does. It ends disarmed in any case once
   the page has been told and what it then sends has arrived.
   */
  lemma KillHotkeyEffect(self: User, sfu: bool, steps: seq<Step>, scan: string -> Option<Injector.Key>)
    ensures var w := Next(Exec(Init(self, sfu), steps, scan), KillHotkey, scan);
            && !w.rig.active && w.rig.os == Injector.Os({}, {})
            && w.done <= |w.sent|
            && (ArmOnItsWay(w) <==> exists more :: NoGrant(more) && Exec(w, more, scan).rig.active)
            && (Drain(w, scan).rig.active <==> ArmedAfter(false, w.sent[w.done..]))
            && (!ArmOnItsWay(w) ==> Severed(w))
            && !Drain(Next(w, PageKill, scan), scan).rig.active
  {
    InitInv(self, sfu);
    RunKeepsInv(Init(self, sfu), steps, scan);
    var w0 := Exec(Init(self, sfu), steps, scan);
    StepKeepsInv(w0, KillHotkey, scan);
    Injector.ApplyKeepsValid(w0.rig, Injector.KillCommand, scan);
    var w := Next(w0, KillHotkey, scan);
    ArmedAgainExactly(w, scan);
    DrainArms(w, scan);
    StepKeepsInv(w, PageKill, scan);
    PageKillDisarms(w, scan);
  }

  /** The page's answer to the hotkey disarms for good. */
  lemma PageKillDisarms(w: World, scan: string -> Option<Injector.Key>)
    requires Inv(w) && w.kills > 0 && Inv(Next(w, PageKill, scan))
    ensures !Drain(Next(w, PageKill, scan), scan).rig.active
  {
    var w1 := Next(w, PageKill, scan);
    DrainArms(w1, scan);
    assert w1.sent == w1.sent[..w1.done] + w1.sent[w1.done..];
    ArmedConcat(false, w1.sent[..w1.done], w1.sent[w1.done..]);
    ArmedMonotone(ArmedAfter(false, w1.sent[..w1.done]), w1.sent[w1.done..]);
  }

  /** Starting disarmed never ends more armed than starting armed. */
  lemma {:induction false} ArmedMonotone(armed: bool, sent: seq<Entry>)
    ensures ArmedAfter(false, sent) ==> ArmedAfter(armed, sent)
  {
    if sent != [] {
      ArmedMonotone(armed, sent[..|sent| - 1]);
    }
  }

  /** A grant whose arming event is still on its way when the hotkey is pressed: the injector is armed after the kill. */
  lemma KillCanBeOvertaken(scan: string -> Option<Injector.Key>)
    ensures Exec(Init(0, true), [Page(CallGrantClick), KillHotkey, Forward], scan).rig.active
  {
    var w1 := Next(Init(0, true), Page(CallGrantClick), scan);
    var w2 := Next(w1, KillHotkey, scan);
    assert w1.sent == [Entry(Start, Holders(false, None))];
    assert Exec(w2, [Forward], scan) == Exec(Next(w2, Forward, scan), [], scan);
    assert [KillHotkey, Forward][1..] == [Forward];
    assert Exec(w1, [KillHotkey, Forward], scan) == Exec(w2, [Forward], scan);
    assert [Page(CallGrantClick), KillHotkey, Forward][1..] == [KillHotkey, Forward];
  }

  /** Granted and stopped before the hotkey, with both events still on their way: armed for a while after the kill. */
  lemma KillCanBeOvertakenForAWhile(scan: string -> Option<Injector.Key>)
    ensures var w := Exec(Init(0, true), [Page(CallGrantClick), Page(CallStopClick), KillHotkey], scan);
            && !ArmedAfter(false, w.sent[w.done..]) && !w.rig.active
            && Next(w, Forward, scan).rig.active
  {
    var w1 := Next(Init(0, true), Page(CallGrantClick), scan);
    var w2 := Next(w1, Page(CallStopClick), scan);
    var w3 := Next(w2, KillHotkey, scan);
    assert w1.sent == [Entry(Start, Holders(false, None))];
    assert w2.sent == w1.sent + [Entry(End, Holders(true, None))];
    assert w2.sent[w2.done..] == w2.sent;
    assert [KillHotkey][1..] == [];
    assert Exec(w2, [KillHotkey], scan) == Exec(w3, [], scan);
    assert [Page(CallStopClick), KillHotkey][1..] == [KillHotkey];
    assert Exec(w1, [Page(CallStopClick), KillHotkey], scan) == Exec(w2, [KillHotkey], scan);
    assert [Page(CallGrantClick), Page(CallStopClick), KillHotkey][1..] == [Page(CallStopClick), KillHotkey];
  }
}
