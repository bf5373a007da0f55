/**
 Signals carry no session: when a user leaves a voice room and joins again, what was meant for the
 earlier session can reach the records of the later one (server/src/routes/ws.rs, server/assets/voice.js).
 */
module Rejoins {
  import opened Wrappers
  import opened PeerModel
  import opened Mesh
  import opened Links

  // ----- when nothing goes astray -----

  /** An event that could make or feed a record of `c`. */
  predicate About(e: Event, c: UserId) {
    match e
    case Roster(users, _) => c in users
    case Joined(u) => u == c
    case Left(u) => u == c
    case Signal(u, _, _) => u == c
  }

  predicate SignalTo(f: Frame, c: UserId) {
    f.SignalFrame? && f.to == c
  }

  predicate SignalFrom(e: Event, x: UserId) {
    e.Signal? && e.user == x
  }

  /** `x` knows nothing of `c`, who is out of the call, and nothing of an earlier session is on its way between them. */
  ghost predicate Unheard(r: Room, c: UserId, x: UserId)
    requires WellFormed(r) && c in r.clients && x in r.clients
  {
    && c !in r.members && c !in r.clients[x].peers
    && (forall e :: e in r.down[x] ==> !About(e, c))
    && (forall e :: e in r.down[c] ==> !e.Roster? && !SignalFrom(e, x))
    && (forall f :: f in r.up[x] ==> !SignalTo(f, c))
  }

  /** `c` may join again without anything of an earlier session coming between it and `x`. */
  ghost predicate Quiet(r: Room, c: UserId, x: UserId)
    requires WellFormed(r) && c in r.clients && x in r.clients
  {
    Unheard(r, c, x) && JoinFrame !in r.up[c] && LeaveFrame !in r.up[c]
  }

  /** All that is on its way from `x` to `c` is meant for the session `c` is in. */
  ghost predicate Aimed(r: Room, c: UserId, x: UserId)
    requires WellFormed(r) && c in r.clients && x in r.clients
  {
    && InSession(r, c) && Left(c) !in r.down[x]
    && (forall e :: e in r.down[c] && e.Roster? ==> e.session == r.members[c])
    && (forall e :: e in r.down[c] && SignalFrom(e, x) ==> e.sessions.Some? && e.sessions.value.1 == r.members[c])
    && (forall f :: f in r.up[x] && SignalTo(f, c) ==> f.sessions.Some? && f.sessions.value.1 == r.members[c])
  }

  ghost predicate Calm(r: Room, c: UserId, x: UserId)
    requires WellFormed(r) && c in r.clients && x in r.clients
  {
    && (c, x) !in r.stray
    && (r.clients[c].joined ==> Aimed(r, c, x) || (Unheard(r, c, x) && LeaveFrame !in r.up[c]))
  }

  /** What a step may rely on about the two. */
  ghost predicate CalmReady(r: Room, step: Step, c: UserId, x: UserId) {
    && Fits(r, step)
    && c in r.clients && x in r.clients && c != x
    && FreshValid(r, x, c) && Calm(r, c, x) && (x, c) !in r.stray
    && (forall d :: d in r.clients && !r.clients[d].joined ==> r.clients[d].peers == map[])
  }

  lemma JoinKeepsUnheard(r: Room, d: UserId, c: UserId, x: UserId)
    requires Fits(r, Serve(d)) && Serves(r, d, JoinFrame) && d != c && c in r.clients && x in r.clients && c != x
    requires Unheard(r, c, x)
    ensures var r' := Next(r, Serve(d)); c in r'.clients && x in r'.clients && Unheard(r', c, x)
  {
    var r' := JoinEffect(r, d);
    hide Next, RoleAhead;
    forall f | f in r'.up[x]
      ensures !SignalTo(f, c)
    {
      assert f in r.up[x];
    }
  }

  lemma LeaveKeepsUnheard(r: Room, d: UserId, c: UserId, x: UserId)
    requires Fits(r, Serve(d)) && Serves(r, d, LeaveFrame) && c in r.clients && x in r.clients && c != x
    requires Unheard(r, c, x)
    ensures var r' := Next(r, Serve(d)); c in r'.clients && x in r'.clients && Unheard(r', c, x)
  {
    var r' := LeaveEffect(r, d);
    hide Next, RoleAhead;
    forall f | f in r'.up[x]
      ensures !SignalTo(f, c)
    {
      assert f in r.up[x];
    }
  }

  lemma SignalKeepsUnheard(r: Room, d: UserId, f: Frame, c: UserId, x: UserId)
    requires Fits(r, Serve(d)) && Serves(r, d, f) && f.SignalFrame? && c in r.clients && x in r.clients && c != x
    requires Unheard(r, c, x)
    ensures var r' := Next(r, Serve(d)); c in r'.clients && x in r'.clients && Unheard(r', c, x)
  {
    var r' := SignalEffect(r, d, f);
    hide Next;
    forall g | g in r'.up[x]
      ensures !SignalTo(g, c)
    {
      assert g in r.up[x];
    }
  }

  lemma SeeKeepsUnheard(r: Room, d: UserId, c: UserId, x: UserId)
    requires Fits(r, See(d))
    requires c in r.clients && x in r.clients && c != x && Unheard(r, c, x)
    ensures Unheard(Next(r, See(d)), c, x)
  {
    var r' := SeeEffect(r, d);
    hide Next;
    assert r.down[d] == [r.down[d][0]] + r'.down[d];
    assert r.down[d][0] in r.down[d];
  }

  lemma ServeKeepsUnheard(r: Room, d: UserId, c: UserId, x: UserId)
    requires Fits(r, Serve(d)) && c in r.clients && x in r.clients && c != x
    requires Unheard(r, c, x) && !(d == c && r.up[d][0] == JoinFrame)
    ensures var r' := Next(r, Serve(d)); c in r'.clients && x in r'.clients && Unheard(r', c, x)
  {
    hide Next, Unheard;
    var f := r.up[d][0];
    match f
    case JoinFrame => JoinKeepsUnheard(r, d, c, x);
    case LeaveFrame => LeaveKeepsUnheard(r, d, c, x);
    case SignalFrame(_, _, _) => SignalKeepsUnheard(r, d, f, c, x);
  }

  lemma RecordKeepsUnheard(r: Room, step: Step, c: UserId, x: UserId)
    requires WellFormed(r) && Enabled(r, step) && (step.Need? || step.Run?)
    requires c in r.clients && x in r.clients && c != x && Unheard(r, c, x)
    ensures var r' := Next(r, step); c in r'.clients && x in r'.clients && Unheard(r', c, x)
  {
    var r' := RecordEffect(r, step);
    hide Next, RunOperation, NegotiationNeeded, Sessions;
  }

  lemma ClickKeepsUnheard(r: Room, step: Step, c: UserId, x: UserId)
    requires WellFormed(r) && Enabled(r, step) && (step.ClickJoin? || step.ClickLeave?)
    requires c in r.clients && x in r.clients && c != x && Unheard(r, c, x)
    ensures var r' := Next(r, step); c in r'.clients && x in r'.clients && Unheard(r', c, x)
  {
  }

  /** Only its own joining ends it. */
  lemma StepKeepsUnheard(r: Room, step: Step, c: UserId, x: UserId)
    requires Fits(r, step)
    requires c in r.clients && x in r.clients && c != x && Unheard(r, c, x)
    requires !(step == Serve(c) && r.up[c][0] == JoinFrame)
    ensures Unheard(Next(r, step), c, x)
  {
    hide Next, Unheard;
    match step
    case Serve(d) => ServeKeepsUnheard(r, d, c, x);
    case See(d) => SeeKeepsUnheard(r, d, c, x);
    case Need(_, _) => RecordKeepsUnheard(r, step, c, x);
    case Run(_, _) => RecordKeepsUnheard(r, step, c, x);
    case ClickJoin(_) => ClickKeepsUnheard(r, step, c, x);
    case ClickLeave(_) => ClickKeepsUnheard(r, step, c, x);
  }

  // ----- a calm step -----

  lemma CalmAfterJoin(r: Room, c: UserId, x: UserId)
    requires Fits(r, Serve(c)) && Serves(r, c, JoinFrame) && x in r.clients && c != x
    requires Unheard(r, c, x) && LeaveFrame !in r.up[c]
    ensures var r' := Next(r, Serve(c)); c in r'.clients && x in r'.clients && Aimed(r', c, x)
  {
    var r' := JoinEffect(r, c);
    hide Next, RoleAhead;
    assert r.up[c] == [JoinFrame] + r'.up[c];
  }

  lemma JoinKeepsAimed(r: Room, d: UserId, c: UserId, x: UserId)
    requires Fits(r, Serve(d)) && Serves(r, d, JoinFrame) && c in r.clients && x in r.clients && c != x
    requires Aimed(r, c, x)
    ensures var r' := Next(r, Serve(d)); c in r'.clients && x in r'.clients && Aimed(r', c, x)
  {
    var r' := JoinEffect(r, d);
    hide Next, RoleAhead;
    forall f | f in r'.up[x]
      ensures f in r.up[x]
    {
    }
  }

  lemma LeaveKeepsAimed(r: Room, d: UserId, c: UserId, x: UserId)
    requires Fits(r, Serve(d)) && Serves(r, d, LeaveFrame) && c in r.clients && x in r.clients && c != x
    requires Aimed(r, c, x)
    ensures var r' := Next(r, Serve(d)); c in r'.clients && x in r'.clients && Aimed(r', c, x)
  {
    var r' := LeaveEffect(r, d);
    hide Next, RoleAhead;
    forall f | f in r'.up[x]
      ensures f in r.up[x]
    {
    }
  }

  lemma SignalKeepsAimed(r: Room, d: UserId, f: Frame, c: UserId, x: UserId)
    requires Fits(r, Serve(d)) && Serves(r, d, f) && f.SignalFrame? && c in r.clients && x in r.clients && c != x
    requires Aimed(r, c, x)
    ensures var r' := Next(r, Serve(d)); c in r'.clients && x in r'.clients && Aimed(r', c, x)
  {
    hide Next;
    var r' := SignalEffect(r, d, f);
    FewerFrames(r, r', d);
    assert f in r.up[d];
  }

  lemma FewerFrames(r: Room, r': Room, d: UserId)
    requires WellFormed(r) && WellFormed(r') && r'.clients == r.clients && d in r.clients && r.up[d] != []
    requires forall c :: c in r.clients ==> r'.up[c] == if c == d then r.up[c][1..] else r.up[c]
    ensures forall c, f :: c in r.clients && f in r'.up[c] ==> f in r.up[c]
  {
    assert r.up[d] == [r.up[d][0]] + r'.up[d];
  }

  lemma SeeKeepsAimed(r: Room, d: UserId, c: UserId, x: UserId)
    requires WellFormed(r) && Enabled(r, See(d)) && c in r.clients && x in r.clients && c != x
    requires Aimed(r, c, x)
    ensures var r' := Next(r, See(d)); c in r'.clients && x in r'.clients && Aimed(r', c, x)
  {
    var r' := SeeEffect(r, d);
    hide Next;
    assert r.down[d] == [r.down[d][0]] + r'.down[d];
  }

  /** What `x` sends in its session is meant for the session that `c` is in. */
  lemma RecordKeepsAimed(r: Room, step: Step, c: UserId, x: UserId)
    requires WellFormed(r) && Enabled(r, step) && (step.Need? || step.Run?)
    requires c in r.clients && x in r.clients && c != x && Aimed(r, c, x)
    requires step == Run(x, c) ==> InSession(r, x)
    ensures var r' := Next(r, step); c in r'.clients && x in r'.clients && Aimed(r', c, x)
  {
    var r' := RecordEffect(r, step);
    hide Next, RunOperation, NegotiationNeeded;
    if step == Run(x, c) && Output(r, x, c) != [] {
      assert Output(r, x, c)[0].sessions == Some((r.members[x], r.members[c]));
    }
  }

  /** Nothing stray reaches the record of `x`. */
  lemma SeeKeepsStraight(r: Room, d: UserId, c: UserId, x: UserId)
    requires CalmReady(r, See(d), c, x)
    ensures (c, x) !in Next(r, See(d)).stray
  {
    var r' := SeeEffect(r, d);
    hide Next;
    if d == c {
      assert r.down[c][0] in r.down[c];
    }
  }

  lemma ServeKeepsCalm(r: Room, d: UserId, c: UserId, x: UserId)
    requires CalmReady(r, Serve(d), c, x)
    ensures var r' := Next(r, Serve(d)); Calm(r', c, x)
  {
    var f := r.up[d][0];
    hide Aimed, Unheard, Next;
    match f {
      case JoinFrame =>
        var r' := JoinEffect(r, d);
        if r.clients[c].joined {
          if Aimed(r, c, x) {
            JoinKeepsAimed(r, d, c, x);
          } else if d == c {
            CalmAfterJoin(r, c, x);
          } else {
            JoinKeepsUnheard(r, d, c, x);
          }
        }
      case LeaveFrame =>
        var r' := LeaveEffect(r, d);
        if r.clients[c].joined {
          if Aimed(r, c, x) {
            LeaveKeepsAimed(r, d, c, x);
          } else {
            LeaveKeepsUnheard(r, d, c, x);
          }
        }
      case SignalFrame(_, _, _) =>
        var r' := SignalEffect(r, d, f);
        if r.clients[c].joined {
          if Aimed(r, c, x) {
            SignalKeepsAimed(r, d, f, c, x);
          } else {
            SignalKeepsUnheard(r, d, f, c, x);
          }
        }
    }
  }

  lemma SeeKeepsCalm(r: Room, d: UserId, c: UserId, x: UserId)
    requires CalmReady(r, See(d), c, x)
    ensures Calm(Next(r, See(d)), c, x)
  {
    var r' := SeeEffect(r, d);
    SeeKeepsStraight(r, d, c, x);
    hide Aimed, Unheard, Next;
    if r.clients[c].joined {
      if Aimed(r, c, x) {
        SeeKeepsAimed(r, d, c, x);
      } else {
        SeeKeepsUnheard(r, d, c, x);
      }
    }
  }

  /** Outside its session a straight record has nothing to run. */
  lemma SendsInSession(r: Room, step: Step, c: UserId, x: UserId)
    requires CalmReady(r, step, c, x)
    ensures step == Run(x, c) ==> InSession(r, x)
  {
    hide Next, Calm;
  }

  lemma RecordKeepsCalm(r: Room, step: Step, c: UserId, x: UserId)
    requires CalmReady(r, step, c, x) && (step.Need? || step.Run?)
    ensures Calm(Next(r, step), c, x)
  {
    var r' := RecordEffect(r, step);
    hide Aimed, Unheard, Next;
    if r.clients[c].joined {
      if Aimed(r, c, x) {
        SendsInSession(r, step, c, x);
        RecordKeepsAimed(r, step, c, x);
      } else {
        StepKeepsUnheard(r, step, c, x);
      }
    }
  }

  lemma ClickKeepsCalm(r: Room, step: Step, c: UserId, x: UserId)
    requires CalmReady(r, step, c, x) && (step.ClickJoin? || step.ClickLeave?) && (step == ClickJoin(c) ==> Quiet(r, c, x))
    ensures Calm(Next(r, step), c, x)
  {
  }

  lemma StepKeepsCalm(r: Room, step: Step, c: UserId, x: UserId)
    requires CalmReady(r, step, c, x) && (step == ClickJoin(c) ==> Quiet(r, c, x))
    ensures Calm(Next(r, step), c, x)
  {
    match step
    case Serve(d) => ServeKeepsCalm(r, d, c, x);
    case See(d) => SeeKeepsCalm(r, d, c, x);
    case Need(_, _) => RecordKeepsCalm(r, step, c, x);
    case Run(_, _) => RecordKeepsCalm(r, step, c, x);
    case ClickJoin(_) => ClickKeepsCalm(r, step, c, x);
    case ClickLeave(_) => ClickKeepsCalm(r, step, c, x);
  }

  // ----- calm runs -----

  ghost predicate BothCalm(r: Room, c: UserId, x: UserId) {
    LinksInv(r) && c in r.clients && x in r.clients && c != x && Calm(r, c, x) && Calm(r, x, c)
  }

  /** Of the two, each joins only when nothing of an earlier session is left between them. */
  ghost predicate CalmRun(r: Room, steps: seq<Step>, c: UserId, x: UserId)
    requires WellFormed(r) && c in r.clients && x in r.clients
    decreases |steps|
  {
    steps == []
    || (if Enabled(r, steps[0]) then
          && (steps[0] == ClickJoin(c) ==> Quiet(r, c, x))
          && (steps[0] == ClickJoin(x) ==> Quiet(r, x, c))
          && CalmRun(Next(r, steps[0]), steps[1..], c, x)
        else CalmRun(r, steps[1..], c, x))
  }

  lemma RoomFits(r: Room, step: Step)
    requires LinksInv(r) && Enabled(r, step)
    ensures Fits(r, step)
  {
    StepFits(r, step);
  }

  lemma ReadyForStep(r: Room, step: Step, c: UserId, x: UserId)
    requires LinksInv(r) && Enabled(r, step) && c in r.clients && x in r.clients && c != x
    requires Calm(r, c, x) && (x, c) !in r.stray
    ensures CalmReady(r, step, c, x)
  {
    hide Next, LinksInv, Inv, Calm, FreshValid, Fits;
    RoomFits(r, step);
    InvOf(r);
    PairTagsOf(r, x, c);
    NoRecordsOutside(r);
  }

  lemma InvOf(r: Room)
    requires LinksInv(r)
    ensures Inv(r) && WellFormed(r)
  {
  }

  lemma StepKeepsBothCalm(r: Room, step: Step, c: UserId, x: UserId)
    requires BothCalm(r, c, x) && Enabled(r, step)
    requires step == ClickJoin(c) ==> Quiet(r, c, x)
    requires step == ClickJoin(x) ==> Quiet(r, x, c)
    ensures BothCalm(Next(r, step), c, x)
  {
    hide Next, LinksInv, Inv, Quiet, Calm, CalmReady, Enabled;
    RoomFits(r, step);
    CalmIsStraight(r, c, x);
    CalmIsStraight(r, x, c);
    ReadyForStep(r, step, c, x);
    ReadyForStep(r, step, x, c);
    StepKeepsLinks(r, step);
    StepKeepsCalm(r, step, c, x);
    StepKeepsCalm(r, step, x, c);
  }

  lemma CalmIsStraight(r: Room, c: UserId, x: UserId)
    requires WellFormed(r) && c in r.clients && x in r.clients && Calm(r, c, x)
    ensures (c, x) !in r.stray
  {
  }

  /** From any room in which all that is on its way between the two is meant for their sessions, nothing goes astray in a calm run. */
  lemma {:induction false} CalmRunsGoStraight(r: Room, steps: seq<Step>, c: UserId, x: UserId)
    requires BothCalm(r, c, x) && CalmRun(r, steps, c, x)
    ensures BothCalm(Exec(r, steps), c, x)
    decreases |steps|
  {
    if steps != [] {
      if Enabled(r, steps[0]) {
        StepKeepsBothCalm(r, steps[0], c, x);
        CalmRunsGoStraight(Next(r, steps[0]), steps[1..], c, x);
      } else {
        CalmRunsGoStraight(r, steps[1..], c, x);
      }
    }
  }

  lemma AtFirst(users: set<UserId>, c: UserId, x: UserId)
    requires c in users && x in users && c != x
    ensures BothCalm(Init(users), c, x) && Quiet(Init(users), c, x) && Quiet(Init(users), x, c)
    ensures !Init(users).clients[c].joined && !Init(users).clients[x].joined
  {
    InitLinks(users);
    hide LinksInv;
  }

  /** Users who rejoin only when nothing of an earlier session is left between them are linked as if they had joined once. */
  lemma CalmRejoinsNegotiate(users: set<UserId>, steps: seq<Step>, c: UserId, x: UserId)
    requires c in users && x in users && CalmRun(Init(users), steps, c, x)
    requires Linked(Exec(Init(users), steps), c, x)
    requires Exec(Init(users), steps).members[x] < Exec(Init(users), steps).members[c]
    ensures Negotiates(Exec(Init(users), steps), c, x)
  {
    hide LinksInv, CalmRun, Linked, Negotiates;
    AtFirst(users, c, x);
    CalmRunsGoStraight(Init(users), steps, c, x);
    LinksNegotiate(users, steps, c, x);
  }

  /** The user presses join no more than once. */
  predicate JoinsOnce(steps: seq<Step>, c: UserId) {
    forall i, j :: 0 <= i < j < |steps| ==> !(steps[i] == ClickJoin(c) && steps[j] == ClickJoin(c))
  }

  /** Joining for the first time, or never again. */
  ghost predicate FirstOrNever(r: Room, steps: seq<Step>, c: UserId, x: UserId)
    requires WellFormed(r) && c in r.clients && x in r.clients
  {
    ClickJoin(c) !in steps || (Quiet(r, c, x) && !r.clients[c].joined)
  }

  /** Neither joining nor leaving is on its way from `c`, who is not in the call. */
  predicate Away(r: Room, c: UserId)
    requires WellFormed(r) && c in r.clients
  {
    JoinFrame !in r.up[c] && LeaveFrame !in r.up[c] && !r.clients[c].joined && r.clients[c].peers == map[]
  }

  lemma ServeKeepsAway(r: Room, d: UserId, c: UserId)
    requires Fits(r, Serve(d)) && c in r.clients && Away(r, c)
    ensures Away(Next(r, Serve(d)), c)
  {
    hide Next, RoleAhead;
    var f := r.up[d][0];
    match f
    case JoinFrame => var r' := JoinEffect(r, d);
    case LeaveFrame => var r' := LeaveEffect(r, d);
    case SignalFrame(_, _, _) => var r' := SignalEffect(r, d, f);
  }

  lemma StaysAway(r: Room, step: Step, c: UserId)
    requires Fits(r, step) && c in r.clients && Away(r, c) && step != ClickJoin(c)
    ensures Away(Next(r, step), c)
  {
    match step
    case Serve(d) => ServeKeepsAway(r, d, c);
    case See(d) =>
      hide Next, Fits;
      var r' := SeeEffect(r, d);
    case Need(_, _) =>
      hide Next, Fits, RunOperation;
      var r' := RecordEffect(r, step);
    case Run(_, _) =>
      hide Next, Fits, RunOperation;
      var r' := RecordEffect(r, step);
    case ClickJoin(_) =>
    case ClickLeave(_) =>
  }

  lemma StaysQuiet(r: Room, step: Step, c: UserId, x: UserId)
    requires Fits(r, step)
    requires c in r.clients && x in r.clients && c != x && step != ClickJoin(c)
    requires Quiet(r, c, x) && !r.clients[c].joined && r.clients[c].peers == map[]
    ensures Quiet(Next(r, step), c, x) && !Next(r, step).clients[c].joined
  {
    assert step == Serve(c) ==> r.up[c][0] in r.up[c];
    hide Next, Unheard, Fits;
    StepKeepsUnheard(r, step, c, x);
    StaysAway(r, step, c);
  }

  lemma StepKeepsFirst(r: Room, steps: seq<Step>, c: UserId, x: UserId)
    requires steps != [] && LinksInv(r) && c in r.clients && x in r.clients && c != x && Enabled(r, steps[0])
    requires JoinsOnce(steps, c) && FirstOrNever(r, steps, c, x)
    ensures var r' := Next(r, steps[0]);
            WellFormed(r') && r'.clients.Keys == r.clients.Keys && FirstOrNever(r', steps[1..], c, x)
    ensures steps[0] == ClickJoin(c) ==> Quiet(r, c, x)
  {
    hide Next, Inv, Quiet;
    RoomFits(r, steps[0]);
    assert forall s :: s in steps[1..] ==> s in steps;
    if steps[0] == ClickJoin(c) {
      NotAgain(steps, c);
    } else if ClickJoin(c) in steps {
      NoRecordsOutside(r);
      StaysQuiet(r, steps[0], c, x);
    }
  }

  lemma NoRecordsOutside(r: Room)
    requires LinksInv(r)
    ensures forall d :: d in r.clients && !r.clients[d].joined ==> r.clients[d].peers == map[]
  {
    assert forall d :: d in r.clients ==> ClientValid(r, d);
  }

  lemma NotAgain(steps: seq<Step>, c: UserId)
    requires steps != [] && JoinsOnce(steps, c) && steps[0] == ClickJoin(c)
    ensures ClickJoin(c) !in steps[1..]
  {
    assert forall j :: 0 <= j < |steps| - 1 ==> steps[1..][j] == steps[j + 1];
  }

  lemma {:induction false} OnceIsCalm(r: Room, steps: seq<Step>, c: UserId, x: UserId)
    requires BothCalm(r, c, x) && JoinsOnce(steps, c) && JoinsOnce(steps, x)
    requires FirstOrNever(r, steps, c, x) && FirstOrNever(r, steps, x, c)
    ensures CalmRun(r, steps, c, x)
    decreases |steps|
  {
    if steps != [] {
      assert JoinsOnce(steps[1..], c) && JoinsOnce(steps[1..], x);
      if Enabled(r, steps[0]) {
        StepKeepsFirst(r, steps, c, x);
        StepKeepsFirst(r, steps, x, c);
        StepKeepsBothCalm(r, steps[0], c, x);
        OnceIsCalm(Next(r, steps[0]), steps[1..], c, x);
      } else {
        assert forall s :: s in steps[1..] ==> s in steps;
        OnceIsCalm(r, steps[1..], c, x);
      }
    }
  }

  /** If the two join no more than once, nothing goes astray between them, whoever else comes and goes. */
  lemma JoiningOnceNegotiates(users: set<UserId>, steps: seq<Step>, c: UserId, x: UserId)
    requires c in users && x in users && JoinsOnce(steps, c) && JoinsOnce(steps, x)
    requires Linked(Exec(Init(users), steps), c, x)
    requires Exec(Init(users), steps).members[x] < Exec(Init(users), steps).members[c]
    ensures Negotiates(Exec(Init(users), steps), c, x)
  {
    hide LinksInv, CalmRun, Linked, Exec, Negotiates;
    AtFirst(users, c, x);
    OnceIsCalm(Init(users), steps, c, x);
    CalmRejoinsNegotiate(users, steps, c, x);
  }

  // ----- exactly when something stray can be heard -----

  /** What `c` hears next is a roster or a signal of `x`, meant for another session. */
  ghost predicate HearsStray(r: Room, c: UserId, x: UserId)
    requires WellFormed(r) && c in r.clients
  {
    r.down[c] != [] && (r.down[c][0].Roster? || SignalFrom(r.down[c][0], x)) && Stray(r, c, r.down[c][0])
  }

  /** Neither of the two joins or leaves. */
  predicate Stays(step: Step, c: UserId) {
    step != ClickJoin(c) && step != ClickLeave(c)
  }

  predicate BothStay(steps: seq<Step>, c: UserId, x: UserId) {
    forall s :: s in steps ==> Stays(s, c) && Stays(s, x)
  }

  ghost predicate AimedAndIn(r: Room, c: UserId, x: UserId)
    requires WellFormed(r) && c in r.clients && x in r.clients
  {
    Aimed(r, c, x) && InSession(r, x)
  }

  lemma StaysIn(r: Room, step: Step, x: UserId)
    requires Fits(r, step) && x in r.clients && InSession(r, x) && Stays(step, x)
    ensures InSession(Next(r, step), x)
  {
    match step
    case Serve(d) =>
      var f := r.up[d][0];
      match f {
        case JoinFrame => var r' := JoinEffect(r, d);
        case LeaveFrame => var r' := LeaveEffect(r, d);
        case SignalFrame(_, _, _) => var r' := SignalEffect(r, d, f);
      }
    case See(d) => var r' := SeeEffect(r, d);
    case Need(_, _) => var r' := RecordEffect(r, step);
    case Run(_, _) => var r' := RecordEffect(r, step);
    case ClickJoin(_) =>
    case ClickLeave(_) =>
  }

  lemma StepKeepsAimed(r: Room, step: Step, c: UserId, x: UserId)
    requires Fits(r, step) && c in r.clients && x in r.clients && c != x
    requires AimedAndIn(r, c, x) && Stays(step, c) && Stays(step, x)
    ensures var r' := Next(r, step); c in r'.clients && x in r'.clients && AimedAndIn(r', c, x)
  {
    StaysIn(r, step, x);
    hide Next, Fits;
    match step
    case Serve(d) =>
      var f := r.up[d][0];
      match f {
        case JoinFrame => JoinKeepsAimed(r, d, c, x);
        case LeaveFrame => LeaveKeepsAimed(r, d, c, x);
        case SignalFrame(_, _, _) => SignalKeepsAimed(r, d, f, c, x);
      }
    case See(d) => SeeKeepsAimed(r, d, c, x);
    case Need(_, _) => RecordKeepsAimed(r, step, c, x);
    case Run(_, _) => RecordKeepsAimed(r, step, c, x);
    case ClickJoin(d) => OtherClicks(r, step, c, x);
    case ClickLeave(d) => OtherClicks(r, step, c, x);
  }

  lemma OtherClicks(r: Room, step: Step, c: UserId, x: UserId)
    requires WellFormed(r) && Enabled(r, step) && (step.ClickJoin? || step.ClickLeave?)
    requires c in r.clients && x in r.clients && Aimed(r, c, x) && Stays(step, c) && Stays(step, x)
    ensures var r' := Next(r, step); c in r'.clients && x in r'.clients && Aimed(r', c, x)
  {
  }

  lemma {:induction false} AimedStays(r: Room, steps: seq<Step>, c: UserId, x: UserId)
    requires LinksInv(r) && c in r.clients && x in r.clients && c != x && AimedAndIn(r, c, x) && BothStay(steps, c, x)
    ensures AimedAndIn(Exec(r, steps), c, x)
    decreases |steps|
  {
    if steps != [] {
      assert forall s :: s in steps[1..] ==> s in steps;
      if Enabled(r, steps[0]) {
        RoomFits(r, steps[0]);
        StepKeepsAimed(r, steps[0], c, x);
        StepKeepsLinks(r, steps[0]);
        AimedStays(Next(r, steps[0]), steps[1..], c, x);
      } else {
        AimedStays(r, steps[1..], c, x);
      }
    }
  }

  /** `c` hears what is on its way to it, one event after the other. */
  lemma {:induction false} HearsInTime(r: Room, c: UserId, x: UserId, k: nat) returns (steps: seq<Step>)
    requires WellFormed(r) && c in r.clients && x in r.clients && c != x && InSession(r, c) && k < |r.down[c]|
    requires (r.down[c][k].Roster? || SignalFrom(r.down[c][k], x)) && Stray(r, c, r.down[c][k])
    ensures BothStay(steps, c, x) && HearsStray(Exec(r, steps), c, x)
    decreases k
  {
    if k == 0 {
      steps := [];
    } else {
      var r' := SeeEffect(r, c);
      hide Next;
      var rest := HearsInTime(r', c, x, k - 1);
      steps := [See(c)] + rest;
      assert steps[1..] == rest;
    }
  }

  lemma RelayStep(r: Room, c: UserId, x: UserId) returns (r': Room)
    requires WellFormed(r) && c in r.clients && x in r.clients && c != x && InSession(r, c) && InSession(r, x)
    requires JoinFrame !in r.up[x] && r.up[x] != []
    ensures Enabled(r, Serve(x)) && r' == Next(r, Serve(x)) && WellFormed(r')
    ensures r'.clients.Keys == r.clients.Keys && r'.members == r.members && r'.up[c] == r.up[c]
    ensures r'.up[x] == r.up[x][1..]
    ensures InSession(r', c) && InSession(r', x) && JoinFrame !in r'.up[x]
    ensures SignalTo(r.up[x][0], c) ==> r'.down[c] == r.down[c] + [Signal(x, r.up[x][0].message, r.up[x][0].sessions)]
  {
    var f := r.up[x][0];
    assert f in r.up[x] && f.SignalFrame?;
    r' := SignalEffect(r, x, f);
    hide Next;
    assert r.up[x] == [f] + r'.up[x];
  }

  /** The server relays what `x` has sent, one frame after the other. */
  lemma {:induction false} RelayedInTime(r: Room, c: UserId, x: UserId, k: nat) returns (steps: seq<Step>)
    requires WellFormed(r) && c in r.clients && x in r.clients && c != x && InSession(r, c) && InSession(r, x)
    requires JoinFrame !in r.up[x] && k < |r.up[x]| && SignalTo(r.up[x][k], c)
    requires !(r.up[x][k].sessions.Some? && r.up[x][k].sessions.value.1 == r.members[c])
    ensures BothStay(steps, c, x) && HearsStray(Exec(r, steps), c, x)
    decreases k
  {
    var r' := RelayStep(r, c, x);
    hide Next, InSession;
    var rest;
    if k == 0 {
      rest := HearsInTime(r', c, x, |r.down[c]|);
    } else {
      rest := RelayedInTime(r', c, x, k - 1);
    }
    steps := [Serve(x)] + rest;
    assert steps[1..] == rest;
  }

  /**
   In any reachable room, of two linked users who both stay, one can yet hear something of the other's
   that was meant for another of its sessions, or such a roster, if and only if it is already on its way.
   */
  lemma StrayHeardExactly(users: set<UserId>, before: seq<Step>, c: UserId, x: UserId)
    requires Linked(Exec(Init(users), before), c, x)
    ensures var r := Exec(Init(users), before);
            !Aimed(r, c, x) <==> exists more :: BothStay(more, c, x) && HearsStray(Exec(r, more), c, x)
  {
    var r := Exec(Init(users), before);
    InitLinks(users);
    RunKeepsLinks(Init(users), before);
    InSessionJoined(r, x);
    hide LinksInv;
    if Aimed(r, c, x) {
      forall more | BothStay(more, c, x)
        ensures !HearsStray(Exec(r, more), c, x)
      {
        AimedStays(r, more, c, x);
        AimedHearsNone(Exec(r, more), c, x);
      }
    } else {
      var more := StrayComes(r, c, x);
      assert BothStay(more, c, x) && HearsStray(Exec(r, more), c, x);
    }
  }

  lemma AimedHearsNone(r: Room, c: UserId, x: UserId)
    requires WellFormed(r) && c in r.clients && x in r.clients && Aimed(r, c, x)
    ensures !HearsStray(r, c, x)
  {
    if r.down[c] != [] {
      assert r.down[c][0] in r.down[c];
    }
  }

  lemma StrayComes(r: Room, c: UserId, x: UserId) returns (more: seq<Step>)
    requires WellFormed(r) && c in r.clients && x in r.clients && Linked(r, c, x) && JoinFrame !in r.up[x]
    requires !Aimed(r, c, x)
    ensures BothStay(more, c, x) && HearsStray(Exec(r, more), c, x)
  {
    if k :| 0 <= k < |r.down[c]| && (r.down[c][k].Roster? || SignalFrom(r.down[c][k], x)) && Stray(r, c, r.down[c][k]) {
      more := HearsInTime(r, c, x, k);
    } else {
      var k :| 0 <= k < |r.up[x]| && SignalTo(r.up[x][k], c)
               && !(r.up[x][k].sessions.Some? && r.up[x][k].sessions.value.1 == r.members[c]);
      more := RelayedInTime(r, c, x, k);
    }
  }
}
