/**
 The links of a voice room: what the two records that two users keep of each other negotiate, while
 anybody joins and leaves (server/assets/voice.js, server/src/routes/ws.rs).
 */
module Links {
  import opened Wrappers
  import opened PeerModel
  import opened Mesh
  import Negotiation

  // ----- a link, as two records and two channels -----

  predicate From(e: Event, x: UserId, s: (nat, nat)) {
    e.Signal? && e.user == x && e.sessions == Some(s)
  }

  predicate To(f: Frame, x: UserId, s: (nat, nat)) {
    f.SignalFrame? && f.to == x && f.sessions == Some(s)
  }

  /** The signals of `x` on their way down that belong to the sessions `s`. */
  function Heard(q: seq<Event>, x: UserId, s: (nat, nat)): seq<Message> {
    if q == [] then [] else (if From(q[0], x, s) then [q[0].message] else []) + Heard(q[1..], x, s)
  }

  /** The signals to `x` on their way up that belong to the sessions `s`. */
  function Sent(q: seq<Frame>, x: UserId, s: (nat, nat)): seq<Message> {
    if q == [] then [] else (if To(q[0], x, s) then [q[0].message] else []) + Sent(q[1..], x, s)
  }

  /** What is on its way from `x` to `c`, of the sessions both are in. */
  function Channel(r: Room, x: UserId, c: UserId): seq<Message>
    requires WellFormed(r) && x in r.members && c in r.members
  {
    var s := (r.members[x], r.members[c]);
    Heard(r.down[c], x, s) + Sent(r.up[x], c, s)
  }

  /** The record `c` keeps of the session `x` is in: not one that `c` has yet to remove. */
  function Current(r: Room, c: UserId, x: UserId): Option<Peer>
    requires WellFormed(r) && c in r.clients
  {
    if x in r.clients[c].peers && Left(x) !in r.down[c] then Some(r.clients[c].peers[x]) else None
  }

  /** That record, or the one `c` is about to make. */
  function End(r: Room, c: UserId, x: UserId, iAmOfferer: bool): Peer
    requires WellFormed(r) && c in r.clients
  {
    var p := Current(r, c, x);
    if p.Some? then p.value else NewPeer(iAmOfferer)
  }

  /** The link of `c` with `x`, who joined before. */
  function LinkOf(r: Room, c: UserId, x: UserId): Negotiation.System
    requires WellFormed(r) && c in r.members && x in r.members
  {
    Negotiation.System(End(r, c, x, (c, x) !in r.early), End(r, x, c, false),
                       Channel(r, x, c), Channel(r, c, x), r.nextId, (c, x) in r.lost)
  }

  /** Both are in the call, `x` the longer. */
  predicate Pair(r: Room, c: UserId, x: UserId)
    requires WellFormed(r)
  {
    c in r.members && x in r.members && InSession(r, c) && InSession(r, x) && r.members[x] < r.members[c]
  }

  /** Nothing meant for another session has reached the two records. */
  predicate Straight(r: Room, c: UserId, x: UserId)
    requires WellFormed(r) && c in r.clients && x in r.clients
  {
    (Current(r, c, x).Some? ==> (c, x) !in r.stray) && (Current(r, x, c).Some? ==> (x, c) !in r.stray)
  }

  /** Two polite records without a connection, and nothing on its way. */
  predicate Silent(s: Negotiation.System) {
    s.i == s.p == NewPeer(false) && s.toI == [] && s.toP == []
  }

  predicate Sound(s: Negotiation.System, early: bool) {
    if early then Silent(s) else Negotiation.Inv(s)
  }

  ghost predicate LinkValid(r: Room, c: UserId, x: UserId)
    requires WellFormed(r)
  {
    Pair(r, c, x) && Straight(r, c, x) ==> Sound(LinkOf(r, c, x), (c, x) in r.early)
  }

  /** Before its session begins a user has heard no more than that others are there. */
  predicate FreshValid(r: Room, c: UserId, x: UserId)
    requires WellFormed(r) && c in r.clients
  {
    !InSession(r, c) && x in r.clients[c].peers && (c, x) !in r.stray ==> r.clients[c].peers[x] == NewPeer(false)
  }

  // ----- session numbers -----

  predicate Below(s: Option<(nat, nat)>, n: nat) {
    s.Some? ==> s.value.0 < n && s.value.1 < n
  }

  ghost predicate TagsBelow(r: Room, c: UserId)
    requires WellFormed(r) && c in r.clients
  {
    && (forall e :: e in r.down[c] && e.Signal? ==> Below(e.sessions, r.count))
    && (forall f :: f in r.up[c] && f.SignalFrame? ==> Below(f.sessions, r.count))
  }

  /** Frames of a session come before the frame that ends it. */
  ghost predicate UpValid(r: Room, c: UserId)
    requires WellFormed(r) && c in r.clients
  {
    forall i :: 0 <= i < |r.up[c]| && r.up[c][i].SignalFrame? && r.up[c][i].sessions.Some? ==>
      c in r.members && r.up[c][i].sessions.value.0 == r.members[c] && LeaveFrame !in r.up[c][..i]
  }

  /** A signal on its way is of the session its sender is in, unless the word that the sender left follows it. */
  ghost predicate DownValid(r: Room, c: UserId, x: UserId)
    requires WellFormed(r) && c in r.clients
  {
    forall i :: 0 <= i < |r.down[c]| && r.down[c][i].Signal? && r.down[c][i].user == x && r.down[c][i].sessions.Some? ==>
      (x in r.members && r.members[x] == r.down[c][i].sessions.value.0 <==> Left(x) !in r.down[c][i..])
  }

  ghost predicate LinksInv(r: Room) {
    && Inv(r)
    && (forall c :: c in r.clients ==> TagsBelow(r, c) && UpValid(r, c))
    && (forall c, x :: c in r.clients && c != x ==> DownValid(r, c, x) && FreshValid(r, c, x))
    && (forall c, x :: LinkValid(r, c, x))
  }

  // ----- channels -----

  lemma {:induction false} HeardAppend(q: seq<Event>, e: Event, x: UserId, s: (nat, nat))
    ensures Heard(q + [e], x, s) == Heard(q, x, s) + if From(e, x, s) then [e.message] else []
  {
    if q == [] {
      assert (q + [e])[1..] == [];
    } else {
      assert (q + [e])[1..] == q[1..] + [e];
      HeardAppend(q[1..], e, x, s);
    }
  }

  lemma {:induction false} SentAppend(q: seq<Frame>, f: Frame, x: UserId, s: (nat, nat))
    ensures Sent(q + [f], x, s) == Sent(q, x, s) + if To(f, x, s) then [f.message] else []
  {
    if q == [] {
      assert (q + [f])[1..] == [];
    } else {
      assert (q + [f])[1..] == q[1..] + [f];
      SentAppend(q[1..], f, x, s);
    }
  }

  lemma {:induction false} NothingHeard(q: seq<Event>, x: UserId, s: (nat, nat), n: nat)
    requires forall e :: e in q && e.Signal? ==> Below(e.sessions, n)
    requires s.0 >= n || s.1 >= n
    ensures Heard(q, x, s) == []
  {
    if q != [] {
      assert q[0] in q;
      NothingHeard(q[1..], x, s, n);
    }
  }

  lemma {:induction false} NothingSent(q: seq<Frame>, x: UserId, s: (nat, nat), n: nat)
    requires forall f :: f in q && f.SignalFrame? ==> Below(f.sessions, n)
    requires s.0 >= n || s.1 >= n
    ensures Sent(q, x, s) == []
  {
    if q != [] {
      assert q[0] in q;
      NothingSent(q[1..], x, s, n);
    }
  }

  // ----- what one step does -----

  predicate Serves(r: Room, c: UserId, f: Frame)
    requires WellFormed(r)
  {
    c in r.clients && r.up[c] != [] && r.up[c][0] == f
  }

  lemma JoinEffect(r: Room, c: UserId) returns (r': Room)
    requires WellFormed(r) && Serves(r, c, JoinFrame)
    ensures WellFormed(r') && r' == Next(r, Serve(c))
    ensures r'.clients == r.clients && r'.nextId == r.nextId && r'.stray == r.stray
    ensures r'.members == r.members[c := r.count] && r'.count == r.count + 1
    ensures forall d :: d in r.clients ==> r'.up[d] == if d == c then r.up[d][1..] else r.up[d]
    ensures forall d :: d in r.clients ==>
              r'.down[d] == r.down[d] + if d == c then [Roster(r.members.Keys, r.count), Joined(c)] else [Joined(c)]
    ensures forall d: UserId, x: UserId :: (d, x) in r'.lost <==> (d, x) in r.lost && d != c && x != c
    ensures forall d: UserId, x: UserId :: (d, x) in r'.early <==>
              if d == c then x in r.members && RoleAhead(r, c, x) == Some(true) else x != c && (d, x) in r.early
  {
    r' := Next(r, Serve(c));
    hide RoleAhead, Role, Get;
    var r1 := r.(up := r.up[c := r.up[c][1..]]);
    assert r' == ServeJoin(r1, c);
    forall x
      ensures RoleAhead(r1, c, x) == RoleAhead(r, c, x)
    {
      SameRole(r, r1, c, x);
    }
    forall d: UserId, x: UserId
      ensures (d, x) in r'.early <==>
              if d == c then x in r.members && RoleAhead(r, c, x) == Some(true) else x != c && (d, x) in r.early
    {
      EarlyAfterJoin(r1, c, d, x);
    }
    forall d | d in r.clients
      ensures r'.down[d] == r.down[d] + if d == c then [Roster(r.members.Keys, r.count), Joined(c)] else [Joined(c)]
    {
      if d == c {
        assert r.down[d] + [Roster(r.members.Keys, r.count)] + [Joined(c)] == r.down[d] + [Roster(r.members.Keys, r.count), Joined(c)];
      }
    }
  }

  lemma SameRole(r: Room, r': Room, c: UserId, x: UserId)
    requires WellFormed(r) && WellFormed(r') && c in r.clients && r'.clients == r.clients && r'.down == r.down
    ensures RoleAhead(r', c, x) == RoleAhead(r, c, x)
  {
  }

  lemma LeaveEffect(r: Room, c: UserId) returns (r': Room)
    requires WellFormed(r) && Serves(r, c, LeaveFrame) && c in r.members
    ensures WellFormed(r') && r' == Next(r, Serve(c))
    ensures r'.clients == r.clients && r'.nextId == r.nextId && r'.stray == r.stray && r'.lost == r.lost
    ensures r'.members == r.members - {c} && r'.count == r.count
    ensures forall d :: d in r.clients ==> r'.up[d] == if d == c then r.up[d][1..] else r.up[d]
    ensures forall d :: d in r.clients ==> r'.down[d] == r.down[d] + [Left(c)]
    ensures forall d: UserId, x: UserId :: (d, x) in r'.early <==> (d, x) in r.early && d != c && x != c
  {
    r' := Next(r, Serve(c));
    var r1 := r.(up := r.up[c := r.up[c][1..]]);
    assert r' == ServeLeave(r1, c);
  }

  /** A relayed signal; it is dropped unless both users are in the call. */
  lemma SignalEffect(r: Room, c: UserId, f: Frame) returns (r': Room)
    requires WellFormed(r) && Serves(r, c, f) && f.SignalFrame?
    ensures WellFormed(r') && r' == Next(r, Serve(c))
    ensures r'.clients == r.clients && r'.nextId == r.nextId && r'.stray == r.stray && r'.lost == r.lost
    ensures r'.members == r.members && r'.count == r.count && r'.early == r.early
    ensures forall d :: d in r.clients ==> r'.up[d] == if d == c then r.up[d][1..] else r.up[d]
    ensures forall d :: d in r.clients ==>
              r'.down[d] == if d == f.to && c in r.members && d in r.members
                            then r.down[d] + [Signal(c, f.message, f.sessions)] else r.down[d]
  {
    r' := Next(r, Serve(c));
    var r1 := r.(up := r.up[c := r.up[c][1..]]);
    assert r' == ServeSignal(r1, c, f);
  }

  /** What running the head of a chain sends. */
  function Output(r: Room, c: UserId, x: UserId): seq<Frame>
    requires WellFormed(r) && Enabled(r, Run(c, x))
  {
    var sent := RunOperation(r.clients[c].peers[x], r.nextId).1;
    if sent.Some? then [SignalFrame(x, sent.value, Sessions(r, c, x))] else []
  }

  lemma RecordEffect(r: Room, step: Step) returns (r': Room)
    requires WellFormed(r) && Enabled(r, step) && (step.Need? || step.Run?)
    ensures WellFormed(r') && r' == Next(r, step)
    ensures r'.down == r.down && r'.members == r.members && r'.count == r.count && r'.early == r.early
    ensures r'.stray == r.stray
    ensures r'.clients == SetPeer(r, step.user, step.peer,
              if step.Need? then NegotiationNeeded(r.clients[step.user].peers[step.peer])
              else RunOperation(r.clients[step.user].peers[step.peer], r.nextId).0)
    ensures forall d :: d in r.clients ==>
              r'.up[d] == if step.Run? && d == step.user then r.up[d] + Output(r, step.user, step.peer) else r.up[d]
    ensures r'.nextId == if step.Run? then r.nextId + 1 else r.nextId
    ensures r'.lost == if step.Run? && RollsBack(r.clients[step.user].peers[step.peer])
                       then r.lost - {(step.peer, step.user)} else r.lost
  {
    r' := Next(r, step);
    hide RunOperation, NegotiationNeeded, RollsBack, MayNegotiate, Sessions;
  }

  /** The step can be taken; the server lets in only users who are not in the call, and out only members. */
  ghost predicate Fits(r: Room, step: Step) {
    && WellFormed(r) && Enabled(r, step)
    && (forall x :: x in r.members ==> r.members[x] < r.count)
    && (step.Serve? && r.up[step.user][0] == JoinFrame ==> step.user !in r.members)
    && (step.Serve? && r.up[step.user][0] == LeaveFrame ==> step.user in r.members)
  }

  lemma StepFits(r: Room, step: Step)
    requires Inv(r) && Enabled(r, step)
    ensures Fits(r, step)
  {
    assert ClientValid(r, step.user);
  }

  lemma InSessionJoined(r: Room, c: UserId)
    requires Inv(r) && c in r.clients && InSession(r, c)
    ensures r.clients[c].joined && JoinFrame !in r.up[c]
  {
    assert ClientValid(r, c);
    MemberStaysJoined(r.up[c], c, r.clients[c].joined);
  }

  // ----- the numbers hold -----

  lemma ServeKeepsTags(r: Room, c: UserId, d: UserId)
    requires Fits(r, Serve(c)) && d in r.clients && TagsBelow(r, c) && TagsBelow(r, d)
    ensures TagsBelow(Next(r, Serve(c)), d)
  {
    hide Next;
    var f := r.up[c][0];
    match f {
      case JoinFrame =>
        var r' := JoinEffect(r, c);
      case LeaveFrame =>
        var r' := LeaveEffect(r, c);
      case SignalFrame(_, _, _) =>
        assert f in r.up[c];
        var r' := SignalEffect(r, c, f);
    }
  }

  lemma RecordKeepsTags(r: Room, step: Step, d: UserId)
    requires Fits(r, step) && (step.Need? || step.Run?) && d in r.clients && TagsBelow(r, d)
    ensures TagsBelow(Next(r, step), d)
  {
    var r' := RecordEffect(r, step);
    hide Next, RunOperation, NegotiationNeeded;
  }

  lemma SeeKeepsTags(r: Room, c: UserId, d: UserId)
    requires WellFormed(r) && Enabled(r, See(c)) && d in r.clients && TagsBelow(r, d)
    ensures TagsBelow(Next(r, See(c)), d)
  {
    hide HandleEvent, Stray, Affected, BetweenSessions;
  }

  lemma ClickKeepsTags(r: Room, step: Step, d: UserId)
    requires WellFormed(r) && Enabled(r, step) && (step.ClickJoin? || step.ClickLeave?) && d in r.clients
    requires TagsBelow(r, d)
    ensures TagsBelow(Next(r, step), d)
  {
  }

  lemma StepKeepsTags(r: Room, step: Step, d: UserId)
    requires Fits(r, step) && d in r.clients && TagsBelow(r, step.user) && TagsBelow(r, d)
    ensures TagsBelow(Next(r, step), d)
  {
    hide Next, TagsBelow;
    match step
    case Serve(c) => ServeKeepsTags(r, c, d);
    case Need(_, _) => RecordKeepsTags(r, step, d);
    case Run(_, _) => RecordKeepsTags(r, step, d);
    case See(c) => SeeKeepsTags(r, c, d);
    case ClickJoin(_) => ClickKeepsTags(r, step, d);
    case ClickLeave(_) => ClickKeepsTags(r, step, d);
  }

  lemma UpShrinks(r: Room, r': Room, c: UserId)
    requires WellFormed(r) && WellFormed(r') && c in r.clients && c in r'.clients && UpValid(r, c)
    requires r.up[c] != [] && r'.up[c] == r.up[c][1..]
    requires r.up[c][0] != LeaveFrame && c in r.members ==> c in r'.members && r'.members[c] == r.members[c]
    ensures UpValid(r', c)
  {
    forall i | 0 <= i < |r'.up[c]| && r'.up[c][i].SignalFrame? && r'.up[c][i].sessions.Some?
      ensures c in r'.members && r'.up[c][i].sessions.value.0 == r'.members[c] && LeaveFrame !in r'.up[c][..i]
    {
      assert r'.up[c][i] == r.up[c][i + 1] && r.up[c][..i + 1] == [r.up[c][0]] + r'.up[c][..i];
      assert r.up[c][0] in r.up[c][..i + 1];
    }
  }

  lemma ServeKeepsUp(r: Room, c: UserId, d: UserId)
    requires Fits(r, Serve(c)) && d in r.clients && UpValid(r, d)
    ensures UpValid(Next(r, Serve(c)), d)
  {
    hide Next, RoleAhead;
    var f := r.up[c][0];
    var r';
    match f {
      case JoinFrame => r' := JoinEffect(r, c);
      case LeaveFrame => r' := LeaveEffect(r, c);
      case SignalFrame(_, _, _) => r' := SignalEffect(r, c, f);
    }
    if d == c {
      hide UpValid;
      UpShrinks(r, r', c);
    }
  }

  lemma UpGrows(r: Room, r': Room, d: UserId, f: Frame)
    requires WellFormed(r) && WellFormed(r') && d in r.clients && d in r'.clients && UpValid(r, d)
    requires r'.members == r.members && r'.up[d] == r.up[d] + [f]
    requires f.SignalFrame? && f.sessions.Some? ==> InSession(r, d) && f.sessions.value.0 == r.members[d]
    ensures UpValid(r', d)
  {
    forall i | 0 <= i < |r'.up[d]| && r'.up[d][i].SignalFrame? && r'.up[d][i].sessions.Some?
      ensures d in r'.members && r'.up[d][i].sessions.value.0 == r'.members[d] && LeaveFrame !in r'.up[d][..i]
    {
      assert r'.up[d][..i] == r.up[d][..i];
      if i == |r.up[d]| {
        assert r.up[d][..i] == r.up[d];
      }
    }
  }

  lemma ClickKeepsUp(r: Room, step: Step, d: UserId)
    requires WellFormed(r) && Enabled(r, step) && (step.ClickJoin? || step.ClickLeave?) && d in r.clients
    requires UpValid(r, d)
    ensures UpValid(Next(r, step), d)
  {
    var r' := Next(r, step);
    if step.user == d {
      hide UpValid;
      UpGrows(r, r', d, if step.ClickJoin? then JoinFrame else LeaveFrame);
    }
  }

  lemma RecordKeepsUp(r: Room, step: Step, d: UserId)
    requires WellFormed(r) && Enabled(r, step) && (step.Need? || step.Run?) && d in r.clients && UpValid(r, d)
    ensures UpValid(Next(r, step), d)
  {
    var r' := RecordEffect(r, step);
    hide Next, RunOperation, NegotiationNeeded;
    if step.Run? && step.user == d && Output(r, d, step.peer) != [] {
      hide UpValid;
      UpGrows(r, r', d, Output(r, d, step.peer)[0]);
    }
  }

  lemma SeeKeepsUp(r: Room, c: UserId, d: UserId)
    requires WellFormed(r) && Enabled(r, See(c)) && d in r.clients && UpValid(r, d)
    ensures UpValid(Next(r, See(c)), d)
  {
    hide HandleEvent, Stray, Affected, BetweenSessions;
  }

  lemma StepKeepsUp(r: Room, step: Step, d: UserId)
    requires Fits(r, step) && d in r.clients && UpValid(r, d)
    ensures UpValid(Next(r, step), d)
  {
    hide Next, UpValid;
    match step
    case Serve(c) => ServeKeepsUp(r, c, d);
    case See(c) => SeeKeepsUp(r, c, d);
    case ClickJoin(_) => ClickKeepsUp(r, step, d);
    case ClickLeave(_) => ClickKeepsUp(r, step, d);
    case Need(_, _) => RecordKeepsUp(r, step, d);
    case Run(_, _) => RecordKeepsUp(r, step, d);
  }

  /** More events behind those on their way: at most one of them a signal, and none after the word that `x` left. */
  lemma DownGrows(r: Room, r': Room, c: UserId, x: UserId, es: seq<Event>)
    requires WellFormed(r) && WellFormed(r') && c in r.clients && c in r'.clients && DownValid(r, c, x)
    requires TagsBelow(r, c)
    requires r'.down[c] == r.down[c] + es
    requires if Left(x) in es then x !in r'.members
             else if x in r.members then x in r'.members && r'.members[x] == r.members[x]
             else x in r'.members ==> r'.members[x] == r.count
    requires forall e :: e in es && e.Signal? && e.user == x && e.sessions.Some? ==>
               es == [e] && x in r.members && e.sessions.value.0 == r.members[x]
    ensures DownValid(r', c, x)
  {
    forall i | 0 <= i < |r'.down[c]| && r'.down[c][i].Signal? && r'.down[c][i].user == x && r'.down[c][i].sessions.Some?
      ensures x in r'.members && r'.members[x] == r'.down[c][i].sessions.value.0 <==> Left(x) !in r'.down[c][i..]
    {
      if i < |r.down[c]| {
        assert r'.down[c][i..] == r.down[c][i..] + es && r'.down[c][i] == r.down[c][i];
        assert r.down[c][i] in r.down[c];
      } else {
        assert r'.down[c][i] == es[i - |r.down[c]|] && es[i - |r.down[c]|] in es;
        assert r'.down[c][i..] == es;
      }
    }
  }

  lemma ServeKeepsDown(r: Room, d: UserId, c: UserId, x: UserId)
    requires Fits(r, Serve(d)) && c in r.clients && c != x && DownValid(r, c, x) && TagsBelow(r, c) && UpValid(r, d)
    ensures DownValid(Next(r, Serve(d)), c, x)
  {
    hide Next, DownValid, TagsBelow;
    var f := r.up[d][0];
    match f {
      case JoinFrame =>
        var r' := JoinEffect(r, d);
        DownGrows(r, r', c, x, if c == d then [Roster(r.members.Keys, r.count), Joined(d)] else [Joined(d)]);
      case LeaveFrame =>
        var r' := LeaveEffect(r, d);
        DownGrows(r, r', c, x, [Left(d)]);
      case SignalFrame(_, _, _) =>
        var r' := SignalEffect(r, d, f);
        DownGrows(r, r', c, x, if c == f.to && d in r.members && c in r.members then [Signal(d, f.message, f.sessions)] else []);
    }
  }

  lemma SeeKeepsDown(r: Room, d: UserId, c: UserId, x: UserId)
    requires Fits(r, See(d)) && c in r.clients && DownValid(r, c, x)
    ensures DownValid(Next(r, See(d)), c, x)
  {
    hide HandleEvent;
    var q := r.down[c];
    if c == d {
      assert forall i :: 0 <= i < |q| - 1 ==> q[1..][i] == q[i + 1] && q[1..][i..] == q[i + 1..];
    }
  }

  lemma StepKeepsDown(r: Room, step: Step, c: UserId, x: UserId)
    requires Fits(r, step) && c in r.clients && c != x && DownValid(r, c, x) && TagsBelow(r, c) && UpValid(r, step.user)
    ensures DownValid(Next(r, step), c, x)
  {
    match step
    case Serve(d) => ServeKeepsDown(r, d, c, x);
    case See(d) => SeeKeepsDown(r, d, c, x);
    case Need(_, _) => var r' := RecordEffect(r, step);
    case Run(_, _) => var r' := RecordEffect(r, step);
    case ClickJoin(_) =>
    case ClickLeave(_) =>
  }

  // ----- before a session begins -----

  lemma SeeKeepsFresh(r: Room, d: UserId, c: UserId, x: UserId)
    requires Fits(r, See(d)) && c in r.clients && c != x && FreshValid(r, c, x)
    ensures FreshValid(Next(r, See(d)), c, x)
  {
    if c == d && !InSession(r, c) && r.clients[c].joined {
      var before, e := r.clients[c].peers, r.down[c][0];
      var after := HandleEvent(r.clients[c], c, e).peers;
      if x in after {
        if Stray(r, c, e) && Affected(before, after, x) {
          assert (c, x) in Next(r, See(d)).stray;
        }
      }
    }
  }

  lemma ServeKeepsFresh(r: Room, d: UserId, c: UserId, x: UserId)
    requires Fits(r, Serve(d)) && c in r.clients && FreshValid(r, c, x)
    ensures FreshValid(Next(r, Serve(d)), c, x)
  {
    hide Next, RoleAhead;
    var f := r.up[d][0];
    match f
    case JoinFrame => var r' := JoinEffect(r, d);
    case LeaveFrame => var r' := LeaveEffect(r, d);
    case SignalFrame(_, _, _) => var r' := SignalEffect(r, d, f);
  }

  lemma RecordKeepsFresh(r: Room, step: Step, c: UserId, x: UserId)
    requires WellFormed(r) && Enabled(r, step) && (step.Need? || step.Run?) && c in r.clients && FreshValid(r, c, x)
    ensures FreshValid(Next(r, step), c, x)
  {
    var r' := RecordEffect(r, step);
    hide Next, RunOperation, NegotiationNeeded, Sessions;
  }

  lemma ClickKeepsFresh(r: Room, step: Step, c: UserId, x: UserId)
    requires WellFormed(r) && Enabled(r, step) && (step.ClickJoin? || step.ClickLeave?) && c in r.clients
    requires FreshValid(r, c, x)
    requires (!r.clients[c].joined ==> r.clients[c].peers == map[])
    ensures FreshValid(Next(r, step), c, x)
  {
  }

  lemma StepKeepsFresh(r: Room, step: Step, c: UserId, x: UserId)
    requires Fits(r, step) && c in r.clients && c != x && FreshValid(r, c, x)
    requires !r.clients[c].joined ==> r.clients[c].peers == map[]
    ensures FreshValid(Next(r, step), c, x)
  {
    hide Next, FreshValid;
    match step
    case Serve(d) => ServeKeepsFresh(r, d, c, x);
    case See(d) => SeeKeepsFresh(r, d, c, x);
    case Need(_, _) => RecordKeepsFresh(r, step, c, x);
    case Run(_, _) => RecordKeepsFresh(r, step, c, x);
    case ClickJoin(_) => ClickKeepsFresh(r, step, c, x);
    case ClickLeave(_) => ClickKeepsFresh(r, step, c, x);
  }

  // ----- a link through one step -----

  /** The numbers of descriptions do not matter to the joint invariant, nor does the flag of ignored offers. */
  lemma InvForgets(s: Negotiation.System, n: nat, ignore: bool)
    requires Negotiation.Inv(s)
    ensures Negotiation.Inv(s.(nextId := n, i := s.i.(ignoreOffer := ignore)))
  {
  }

  /** Nothing about the link has changed but the number of the next description. */
  ghost predicate Unmoved(r: Room, r': Room, c: UserId, x: UserId)
    requires WellFormed(r) && WellFormed(r')
  {
    Pair(r', c, x) && Straight(r', c, x) ==>
      && Pair(r, c, x) && Straight(r, c, x)
      && ((c, x) in r'.early <==> (c, x) in r.early)
      && LinkOf(r', c, x) == LinkOf(r, c, x).(nextId := r'.nextId)
  }

  lemma UnmovedValid(r: Room, r': Room, c: UserId, x: UserId)
    requires WellFormed(r) && WellFormed(r') && Unmoved(r, r', c, x) && LinkValid(r, c, x)
    ensures LinkValid(r', c, x)
  {
    hide LinkOf, Straight;
    if Pair(r', c, x) && Straight(r', c, x) && (c, x) !in r.early {
      var s := LinkOf(r, c, x);
      InvForgets(s, r'.nextId, s.i.ignoreOffer);
    }
  }

  lemma OthersClick(r: Room, step: Step, c: UserId, x: UserId)
    requires WellFormed(r) && Enabled(r, step) && (step.ClickJoin? || step.ClickLeave?)
    requires step.user != c && step.user != x
    ensures Unmoved(r, Next(r, step), c, x)
  {
  }

  lemma ClickKeepsLink(r: Room, step: Step, c: UserId, x: UserId)
    requires WellFormed(r) && Enabled(r, step) && (step.ClickJoin? || step.ClickLeave?) && LinkValid(r, c, x)
    requires c in r.clients && x in r.clients
    requires (InSession(r, c) ==> r.clients[c].joined) && (InSession(r, x) ==> r.clients[x].joined)
    ensures LinkValid(Next(r, step), c, x)
  {
    hide LinkValid, LinkOf;
    var r' := Next(r, step);
    if step.user != c && step.user != x {
      OthersClick(r, step, c, x);
      UnmovedValid(r, r', c, x);
    } else {
      assert !Pair(r', c, x);
      NoPair(r', c, x);
    }
  }

  lemma NoPair(r: Room, c: UserId, x: UserId)
    requires WellFormed(r) && !Pair(r, c, x)
    ensures LinkValid(r, c, x)
  {
  }

  /** An absent record that no farewell precedes stays absent of a user out of the call. */
  lemma NobodyKnows(r: Room, d: UserId, c: UserId)
    requires WellFormed(r) && d in r.clients && c !in r.members && Forgets(r, d, c)
    ensures Current(r, d, c) == None
  {
    if c in r.clients[d].peers && Left(c) !in r.down[d] {
      KeptWithoutLeft(r.down[d], d, c, r.clients[d].peers[c].polite);
    }
  }

  /** A session begins: nothing of it is on its way. */
  lemma JoinBeginsLink(r: Room, c: UserId, x: UserId)
    requires Fits(r, Serve(c)) && Serves(r, c, JoinFrame) && x in r.members && x != c
    requires TagsBelow(r, c) && TagsBelow(r, x) && FreshValid(r, c, x) && Forgets(r, x, c)
    ensures LinkValid(Next(r, Serve(c)), c, x)
  {
    var r' := JoinEffect(r, c);
    hide Next;
    if Pair(r', c, x) && Straight(r', c, x) {
      NobodyKnows(r, x, c);
      var n := r.count;
      NothingHeard(r.down[c], x, (r.members[x], n), n);
      NothingHeard(r.down[x], c, (n, r.members[x]), n);
      NothingSent(r.up[c][1..], x, (n, r.members[x]), n);
      NothingSent(r.up[x], c, (r.members[x], n), n);
      HeardAppend(r.down[c], Roster(r.members.Keys, n), x, (r.members[x], n));
      HeardAppend(r.down[c] + [Roster(r.members.Keys, n)], Joined(c), x, (r.members[x], n));
      HeardAppend(r.down[x], Joined(c), c, (n, r.members[x]));
      assert r.down[c] + [Roster(r.members.Keys, n)] + [Joined(c)] == r'.down[c];
      assert Channel(r', x, c) == [] && Channel(r', c, x) == [];
      BegunRecord(r, r', c, x);
    }
  }

  lemma BegunRecord(r: Room, r': Room, c: UserId, x: UserId)
    requires Fits(r, Serve(c)) && Serves(r, c, JoinFrame) && x in r.members && x != c && r' == Next(r, Serve(c))
    requires FreshValid(r, c, x) && Forgets(r, x, c) && WellFormed(r') && Pair(r', c, x) && Straight(r', c, x)
    ensures End(r', c, x, (c, x) !in r'.early) == NewPeer((c, x) !in r'.early)
    ensures End(r', x, c, false) == NewPeer(false)
  {
    var r2 := JoinEffect(r, c);
    hide Next;
    NobodyKnows(r, x, c);
    if Current(r', c, x).Some? {
      assert Left(x) !in r.down[c] by {
        assert r'.down[c][..|r.down[c]|] == r.down[c];
      }
      KeptWithoutLeft(r.down[c], c, x, r.clients[c].peers[x].polite);
    }
    assert Left(c) in r.down[x] ==> Left(c) in r'.down[x] by {
      assert r'.down[x][..|r.down[x]|] == r.down[x];
    }
  }

  /** Others come and go. */
  lemma OthersMove(r: Room, r': Room, c: UserId, x: UserId, e: Event)
    requires WellFormed(r) && WellFormed(r') && r'.clients == r.clients && r'.stray == r.stray
    requires c in r.clients && x in r.clients && r'.up[c] == r.up[c] && r'.up[x] == r.up[x]
    requires r'.down[c] == r.down[c] + [e] && r'.down[x] == r.down[x] + [e]
    requires !e.Signal? && e != Left(c) && e != Left(x)
    requires (c in r'.members <==> c in r.members) && (x in r'.members <==> x in r.members)
    requires (c in r.members ==> r'.members[c] == r.members[c]) && (x in r.members ==> r'.members[x] == r.members[x])
    requires ((c, x) in r'.early <==> (c, x) in r.early) && ((c, x) in r'.lost <==> (c, x) in r.lost)
    ensures Unmoved(r, r', c, x)
  {
    if Pair(r', c, x) {
      HeardAppend(r.down[c], e, x, (r.members[x], r.members[c]));
      HeardAppend(r.down[x], e, c, (r.members[c], r.members[x]));
    }
  }

  lemma ServeJoinKeepsLink(r: Room, d: UserId, c: UserId, x: UserId)
    requires Fits(r, Serve(d)) && Serves(r, d, JoinFrame) && c in r.clients && x in r.clients && c != x
    requires TagsBelow(r, c) && TagsBelow(r, x) && FreshValid(r, c, x) && Forgets(r, x, d) && LinkValid(r, c, x)
    ensures LinkValid(Next(r, Serve(d)), c, x)
  {
    var r' := JoinEffect(r, d);
    hide Next, LinkOf, Straight;
    if Pair(r', c, x) {
      if d == c {
        JoinBeginsLink(r, c, x);
      } else {
        assert d != x;
        OthersMove(r, r', c, x, Joined(d));
        UnmovedValid(r, r', c, x);
      }
    }
  }

  lemma ServeLeaveKeepsLink(r: Room, d: UserId, c: UserId, x: UserId)
    requires Fits(r, Serve(d)) && Serves(r, d, LeaveFrame) && c in r.clients && x in r.clients && LinkValid(r, c, x)
    ensures LinkValid(Next(r, Serve(d)), c, x)
  {
    var r' := LeaveEffect(r, d);
    hide Next, LinkOf, Straight;
    if Pair(r', c, x) {
      OthersMove(r, r', c, x, Left(d));
      UnmovedValid(r, r', c, x);
    }
  }

  /** The relay hands a signal on: it stays in its channel. */
  lemma RelayKeepsChannel(r: Room, r': Room, f: Frame, x: UserId, c: UserId)
    requires WellFormed(r) && WellFormed(r') && x in r.members && c in r.members && r'.members == r.members
    requires f.SignalFrame? && r.up[x] != [] && r.up[x][0] == f && r'.up[x] == r.up[x][1..]
    requires r'.down[c] == if f.to == c then r.down[c] + [Signal(x, f.message, f.sessions)] else r.down[c]
    ensures Channel(r', x, c) == Channel(r, x, c)
  {
    var s := (r.members[x], r.members[c]);
    if f.to == c {
      HeardAppend(r.down[c], Signal(x, f.message, f.sessions), x, s);
    }
    assert Sent(r.up[x], c, s) == (if To(f, c, s) then [f.message] else []) + Sent(r.up[x][1..], c, s);
  }

  lemma RelayMovesNothing(r: Room, d: UserId, f: Frame, c: UserId, x: UserId)
    requires Fits(r, Serve(d)) && Serves(r, d, f) && f.SignalFrame? && c in r.clients && x in r.clients && c != x
    ensures Unmoved(r, Next(r, Serve(d)), c, x)
  {
    hide Next, Channel, RoleAhead;
    var r' := SignalEffect(r, d, f);
    if Pair(r', c, x) {
      RelayedChannel(r, r', d, f, c, x);
      RelayedChannel(r, r', d, f, x, c);
      StaysInSession(r, r', d, f, c);
      StaysInSession(r, r', d, f, x);
    }
  }

  lemma StaysInSession(r: Room, r': Room, d: UserId, f: Frame, c: UserId)
    requires Fits(r, Serve(d)) && Serves(r, d, f) && f.SignalFrame? && c in r.clients && r' == Next(r, Serve(d))
    requires WellFormed(r')
    ensures c in r'.clients && (InSession(r', c) <==> InSession(r, c))
  {
    var r2 := SignalEffect(r, d, f);
    hide Next;
    if c == d {
      assert r.up[c] == [f] + r'.up[c];
    }
  }

  lemma ServeSignalKeepsLink(r: Room, d: UserId, f: Frame, c: UserId, x: UserId)
    requires Fits(r, Serve(d)) && Serves(r, d, f) && f.SignalFrame? && c in r.clients && x in r.clients && c != x
    requires LinkValid(r, c, x)
    ensures LinkValid(Next(r, Serve(d)), c, x)
  {
    hide Next, Unmoved, LinkValid;
    RelayMovesNothing(r, d, f, c, x);
    UnmovedValid(r, Next(r, Serve(d)), c, x);
  }

  lemma RelayedChannel(r: Room, r': Room, d: UserId, f: Frame, x: UserId, c: UserId)
    requires Fits(r, Serve(d)) && Serves(r, d, f) && f.SignalFrame? && r' == Next(r, Serve(d)) && WellFormed(r')
    requires x in r.members && c in r.members && x != c
    ensures x in r'.members && c in r'.members && Channel(r', x, c) == Channel(r, x, c)
    ensures Left(x) in r'.down[c] <==> Left(x) in r.down[c]
  {
    var r2 := SignalEffect(r, d, f);
    hide Next;
    if d == x {
      RelayKeepsChannel(r, r', f, x, c);
    } else if d in r.members && c == f.to {
      HeardAppend(r.down[c], Signal(d, f.message, f.sessions), x, (r.members[x], r.members[c]));
    }
  }

  // ----- negotiating -----

  lemma OtherCurrent(r: Room, step: Step, c: UserId, x: UserId)
    requires WellFormed(r) && Enabled(r, step) && (step.Need? || step.Run?)
    requires (step.user, step.peer) != (c, x) && c in r.clients
    ensures Current(Next(r, step), c, x) == Current(r, c, x)
  {
    var r' := RecordEffect(r, step);
    hide Next, RunOperation, NegotiationNeeded, Sessions;
  }

  /** A record that has nothing to do with the link changes. */
  lemma OtherRecord(r: Room, step: Step, c: UserId, x: UserId)
    requires WellFormed(r) && Enabled(r, step) && (step.Need? || step.Run?)
    requires (step.user, step.peer) != (c, x) && (step.user, step.peer) != (x, c)
    ensures Unmoved(r, Next(r, step), c, x)
  {
    var r' := RecordEffect(r, step);
    hide Next, RunOperation, NegotiationNeeded, Sessions, Channel, Current, RollsBack;
    if Pair(r', c, x) {
      OtherOutput(r, step, x, c);
      OtherOutput(r, step, c, x);
      OtherCurrent(r, step, c, x);
      OtherCurrent(r, step, x, c);
    }
  }

  lemma OtherOutput(r: Room, step: Step, x: UserId, c: UserId)
    requires WellFormed(r) && Enabled(r, step) && (step.Need? || step.Run?)
    requires x in r.members && c in r.members && (step.user, step.peer) != (x, c)
    ensures c in Next(r, step).members && x in Next(r, step).members && Channel(Next(r, step), x, c) == Channel(r, x, c)
    ensures InSession(Next(r, step), x) <==> InSession(r, x)
  {
    var r' := RecordEffect(r, step);
    hide Next, RunOperation, Sessions;
    if step.Run? && step.user == x && Output(r, x, step.peer) != [] {
      var f := Output(r, x, step.peer)[0];
      assert r'.up[x] == r.up[x] + [f];
      SentAppend(r.up[x], f, c, (r.members[x], r.members[c]));
    }
  }

  lemma NeedKeepsLink(r: Room, c: UserId, x: UserId, side: Negotiation.Side)
    requires WellFormed(r) && Pair(r, c, x) && LinkValid(r, c, x)
    requires var step := if side == Negotiation.Impolite then Need(c, x) else Need(x, c);
             Enabled(r, step)
    ensures LinkValid(Next(r, if side == Negotiation.Impolite then Need(c, x) else Need(x, c)), c, x)
  {
    var step := if side == Negotiation.Impolite then Need(c, x) else Need(x, c);
    var r' := RecordEffect(r, step);
    hide Next;
    if Straight(r', c, x) && Current(r, step.user, step.peer).Some? {
      assert Straight(r, c, x);
      assert Channel(r', c, x) == Channel(r, c, x) && Channel(r', x, c) == Channel(r, x, c);
      hide Channel;
      assert (c, x) !in r.early;
      Negotiation.NeedKeepsInv(LinkOf(r, c, x), side);
      assert LinkOf(r', c, x) == Negotiation.Next(LinkOf(r, c, x), Negotiation.Need(side));
    } else if Straight(r', c, x) {
      assert Unmoved(r, r', c, x);
      UnmovedValid(r, r', c, x);
    }
  }

  /** What a record of the present session sends is in its channel; what an old one sends is not. */
  lemma RunOutput(r: Room, c: UserId, x: UserId)
    requires WellFormed(r) && Enabled(r, Run(c, x))
    requires c in r.members && x in r.members && InSession(r, c) && c != x
    ensures c in Next(r, Run(c, x)).members && x in Next(r, Run(c, x)).members
    ensures Channel(Next(r, Run(c, x)), c, x) ==
              if Current(r, c, x).Some? then Negotiation.Post(Channel(r, c, x), RunOperation(r.clients[c].peers[x], r.nextId).1)
              else Channel(r, c, x)
    ensures Channel(Next(r, Run(c, x)), x, c) == Channel(r, x, c)
    ensures InSession(Next(r, Run(c, x)), c) && (InSession(Next(r, Run(c, x)), x) <==> InSession(r, x))
  {
    var r' := RecordEffect(r, Run(c, x));
    OtherOutput(r, Run(c, x), x, c);
    hide Next, RunOperation;
    if Output(r, c, x) != [] {
      var f := Output(r, c, x)[0];
      assert r'.up[c] == r.up[c] + [f];
      SentAppend(r.up[c], f, x, (r.members[c], r.members[x]));
    }
  }

  lemma SameInv(s: Negotiation.System, s': Negotiation.System)
    requires Negotiation.Inv(s) && s' == s.(nextId := s'.nextId)
    ensures Negotiation.Inv(s')
  {
    InvForgets(s, s'.nextId, s.i.ignoreOffer);
  }

  /** Before the polite side has a record nothing of its own can have been dropped. */
  lemma NothingLostYet(s: Negotiation.System)
    requires Negotiation.Inv(s) && s.p == NewPeer(false)
    ensures !s.lost
  {
  }

  /** The record of the present session takes the step of its side. */
  lemma ImpoliteRuns(r: Room, c: UserId, x: UserId)
    requires WellFormed(r) && Pair(r, c, x) && (c, x) !in r.early && Current(r, c, x).Some?
    requires Enabled(r, Run(c, x))
    ensures var r' := Next(r, Run(c, x));
            && c in r'.members && x in r'.members && r'.early == r.early
            && Negotiation.Enabled(LinkOf(r, c, x), Negotiation.Run(Negotiation.Impolite))
            && LinkOf(r', c, x) == Negotiation.Next(LinkOf(r, c, x), Negotiation.Run(Negotiation.Impolite))
  {
    hide Next, RunOperation, Channel, RollsBack, Sessions;
    var r' := RecordEffect(r, Run(c, x));
    RunOutput(r, c, x);
    OtherCurrent(r, Run(c, x), x, c);
  }

  lemma PoliteRuns(r: Room, c: UserId, x: UserId)
    requires WellFormed(r) && Pair(r, c, x) && (c, x) !in r.early && Current(r, x, c).Some?
    requires Enabled(r, Run(x, c))
    ensures var r' := Next(r, Run(x, c));
            && c in r'.members && x in r'.members && r'.early == r.early
            && Negotiation.Enabled(LinkOf(r, c, x), Negotiation.Run(Negotiation.Polite))
            && LinkOf(r', c, x) == Negotiation.Next(LinkOf(r, c, x), Negotiation.Run(Negotiation.Polite))
  {
    hide Next, RunOperation, Channel, RollsBack, Sessions;
    var r' := RecordEffect(r, Run(x, c));
    RunOutput(r, x, c);
    OtherCurrent(r, Run(x, c), c, x);
  }

  /** The record of a session that is over is no part of the link, and what it sends is in no channel. */
  lemma OldRecordRuns(r: Room, d: UserId, y: UserId, c: UserId, x: UserId)
    requires WellFormed(r) && Pair(r, c, x) && (d, y) in {(c, x), (x, c)} && Current(r, d, y) == None
    requires Enabled(r, Run(d, y))
    ensures var r' := Next(r, Run(d, y));
            && c in r'.members && x in r'.members && r'.early == r.early && (Straight(r', c, x) ==> Straight(r, c, x))
            && LinkOf(r', c, x) == LinkOf(r, c, x).(nextId := r'.nextId, lost := (c, x) in r'.lost)
            && ((c, x) in r'.lost ==> (c, x) in r.lost)
            && (d == c ==> ((c, x) in r'.lost <==> (c, x) in r.lost))
  {
    var r' := RecordEffect(r, Run(d, y));
    RunOutput(r, d, y);
    hide Next, RunOperation, Channel, RollsBack;
  }

  lemma EarlyIsIdle(r: Room, c: UserId, x: UserId, d: UserId, y: UserId)
    requires WellFormed(r) && Pair(r, c, x) && (c, x) in r.early && Silent(LinkOf(r, c, x))
    requires (d, y) in {(c, x), (x, c)} && Current(r, d, y).Some?
    ensures r.clients[d].peers[y] == NewPeer(false)
  {
    hide Channel;
  }

  lemma OldRecordKeepsLink(r: Room, d: UserId, y: UserId, c: UserId, x: UserId)
    requires WellFormed(r) && Pair(r, c, x) && (d, y) in {(c, x), (x, c)} && Current(r, d, y) == None
    requires LinkValid(r, c, x)
    requires Enabled(r, Run(d, y))
    ensures LinkValid(Next(r, Run(d, y)), c, x)
  {
    var r' := RecordEffect(r, Run(d, y));
    OldRecordRuns(r, d, y, c, x);
    var s := LinkOf(r, c, x);
    assert d == x ==> s.p == NewPeer(false);
    hide Next, LinkOf, Negotiation.Inv, Straight, Current;
    if Straight(r', c, x) && (c, x) !in r.early {
      if d == x {
        NothingLostYet(s);
      }
      SameInv(s, LinkOf(r', c, x));
    }
  }

  lemma RunKeepsLink(r: Room, d: UserId, y: UserId, c: UserId, x: UserId)
    requires WellFormed(r) && Pair(r, c, x) && (d, y) in {(c, x), (x, c)} && LinkValid(r, c, x)
    requires Enabled(r, Run(d, y))
    ensures LinkValid(Next(r, Run(d, y)), c, x)
  {
    var r' := RecordEffect(r, Run(d, y));
    hide Next, LinkOf, Negotiation.Next, Negotiation.Inv, Negotiation.Enabled;
    if Current(r, d, y) == None {
      OldRecordKeepsLink(r, d, y, c, x);
    } else if Pair(r', c, x) && Straight(r', c, x) {
      assert Straight(r, c, x);
      if (c, x) in r.early {
        EarlyIsIdle(r, c, x, d, y);
      } else if d == c {
        ImpoliteRuns(r, c, x);
        Negotiation.RunImpoliteKeepsInv(LinkOf(r, c, x));
      } else {
        PoliteRuns(r, c, x);
        Negotiation.RunPoliteKeepsInv(LinkOf(r, c, x));
      }
    }
  }

  // ----- hearing -----

  lemma SeeEffect(r: Room, c: UserId) returns (r': Room)
    requires WellFormed(r) && Enabled(r, See(c))
    ensures WellFormed(r') && r' == Next(r, See(c))
    ensures r'.clients == r.clients[c := HandleEvent(r.clients[c], c, r.down[c][0])]
    ensures r'.down == r.down[c := r.down[c][1..]] && r'.up == r.up
    ensures r'.members == r.members && r'.count == r.count && r'.nextId == r.nextId && r'.early == r.early
    ensures var e, before, after := r.down[c][0], r.clients[c].peers, r'.clients[c].peers;
            && (forall d: UserId, x: UserId :: (d, x) in r'.stray <==>
                  || ((d, x) in r.stray && (d != c || x in after))
                  || (d == c && Stray(r, c, e) && Affected(before, after, x)))
            && (forall d: UserId, x: UserId :: (d, x) in r'.lost <==>
                  || (d, x) in r.lost
                  || (d == c && e.Signal? && e.user == x && BetweenSessions(r, c, e) && x in before
                      && DropsWhileSettling(before[x], e.message)))
  {
    r' := Next(r, See(c));
    hide HandleEvent, DropsWhileSettling, Affected, Stray, BetweenSessions;
  }

  /** What `c` will be towards `x` in the end. */
  predicate GivesWay(r: Room, c: UserId, x: UserId)
    requires WellFormed(r) && c in r.members && x in r.members
  {
    r.members[x] > r.members[c] || (c, x) in r.early
  }

  /** The first word of `x` already makes the record that `c` is to have. */
  lemma FirstWordOf(r: Room, c: UserId, x: UserId)
    requires WellFormed(r) && c in r.members && InSession(r, c) && x in r.members && x != c && Ordered(r, c, x)
    requires r.down[c] != [] && Left(x) !in r.down[c] && x !in r.clients[c].peers
    ensures var role := RoleStep(r.down[c][0], c, x, None);
            role == None || role == Some(GivesWay(r, c, x))
  {
    var role := RoleStep(r.down[c][0], c, x, None);
    if role.Some? {
      KeptWithoutLeft(r.down[c][1..], c, x, role.value);
    }
  }

  /** The signal `c` is about to hear comes from `x`. */
  predicate Speaks(r: Room, c: UserId, x: UserId)
    requires WellFormed(r) && c in r.clients && r.down[c] != []
  {
    r.down[c][0].Signal? && r.down[c][0].user == x
  }

  /** Only a signal of `x` moves the end `c` has of the link. */
  lemma EndMoves(r: Room, c: UserId, x: UserId)
    requires WellFormed(r) && Enabled(r, See(c))
    requires c in r.members && InSession(r, c) && r.clients[c].joined && x in r.members && x != c && Ordered(r, c, x)
    ensures var r' := Next(r, See(c)); var offerer := !GivesWay(r, c, x);
            if Speaks(r, c, x) && Left(x) !in r.down[c] && (Current(r, c, x).Some? || r.down[c][0].message.kind == OfferKind)
            then Current(r', c, x) == Some(Receive(End(r, c, x, offerer), r.down[c][0].message))
            else End(r', c, x, offerer) == End(r, c, x, offerer)
  {
    var r' := SeeEffect(r, c);
    hide Next;
    var e := r.down[c][0];
    assert r.down[c] == [e] + r'.down[c];
    if Left(x) !in r.down[c] && x !in r.clients[c].peers {
      FirstWordOf(r, c, x);
      hide Receive, RoleAhead;
    }
  }

  /** A record once astray remains so; and it goes astray when a stray signal gives it something to apply. */
  lemma StrayMoves(r: Room, c: UserId, x: UserId)
    requires WellFormed(r) && Enabled(r, See(c)) && x in r.clients
    requires Straight(Next(r, See(c)), c, x)
    ensures Straight(r, c, x)
    ensures var e := r.down[c][0];
            Speaks(r, c, x) && Left(x) !in r.down[c] && Stray(r, c, e) && x in Next(r, See(c)).clients[c].peers ==>
              Current(r, c, x).Some? && r.clients[c].peers[x].chain == Next(r, See(c)).clients[c].peers[x].chain
  {
    var r' := SeeEffect(r, c);
    hide Next, HearSignal, AddRoster;
    assert r.down[c] == [r.down[c][0]] + r'.down[c];
  }

  /** A signal of these two sessions is next. */
  predicate Due(r: Room, c: UserId, x: UserId)
    requires WellFormed(r) && c in r.members && x in r.members && r.down[c] != []
  {
    From(r.down[c][0], x, (r.members[x], r.members[c]))
  }

  lemma DueExactly(r: Room, c: UserId, x: UserId)
    requires WellFormed(r) && c in r.members && InSession(r, c) && x in r.members && r.down[c] != [] && Speaks(r, c, x)
    requires DownValid(r, c, x)
    ensures Left(x) in r.down[c] ==> !Due(r, c, x)
    ensures Left(x) !in r.down[c] ==> (Due(r, c, x) <==> !Stray(r, c, r.down[c][0]))
    ensures Due(r, c, x) <==> BetweenSessions(r, c, r.down[c][0])
  {
    assert r.down[c][0..] == r.down[c];
  }

  lemma SeeMovesChannels(r: Room, c: UserId, x: UserId)
    requires WellFormed(r) && Enabled(r, See(c)) && c in r.members && x in r.members
    requires c != x
    ensures c in Next(r, See(c)).members && x in Next(r, See(c)).members
    ensures Channel(Next(r, See(c)), c, x) == Channel(r, c, x)
    ensures Channel(r, x, c) == (if Due(r, c, x) then [r.down[c][0].message] else []) + Channel(Next(r, See(c)), x, c)
  {
    var r' := SeeEffect(r, c);
    hide Next;
  }

  lemma IgnoredOrDropped(p: Peer, m: Message)
    requires Receive(p, m).chain == p.chain
    ensures Receive(p, m) == p || (!p.polite && Receive(p, m) == p.(pc := true, ignoreOffer := true))
  {
  }

  /** Without a record only an offer can be due, and only of a pair that raced. */
  lemma DueHasRecord(r: Room, c: UserId, x: UserId)
    requires WellFormed(r) && Pair(r, c, x) && LinkValid(r, c, x) && Straight(r, c, x) && Ordered(r, c, x)
    requires r.down[c] != [] && Due(r, c, x) && Left(x) !in r.down[c]
    ensures Current(r, c, x).Some? && (c, x) !in r.early
  {
    var s := LinkOf(r, c, x);
    assert s.toI != [] && s.toI[0] == r.down[c][0].message;
    if Current(r, c, x) == None {
      FirstWordOf(r, c, x);
      NoAnswerYet(s);
    }
  }

  lemma NoAnswerYet(s: Negotiation.System)
    requires Negotiation.Inv(s) && s.toI != [] && s.i == NewPeer(true)
    ensures s.toI[0].kind == OfferKind
  {
    Negotiation.ImpoliteMatched(s);
  }

  /** What both ends need for a step of hearing. */
  ghost predicate Hears(r: Room, c: UserId, x: UserId)
    requires WellFormed(r)
  {
    && c in r.members && x in r.members && c != x && Enabled(r, See(c)) && InSession(r, c) && r.clients[c].joined
    && Ordered(r, c, x) && DownValid(r, c, x)
  }

  /** The signal gets to a record, or makes one. */
  predicate Lands(r: Room, c: UserId, x: UserId)
    requires WellFormed(r) && c in r.clients && r.down[c] != []
  {
    Speaks(r, c, x) && Left(x) !in r.down[c] && (Current(r, c, x).Some? || r.down[c][0].message.kind == OfferKind)
  }

  lemma LostMoves(r: Room, c: UserId, x: UserId)
    requires WellFormed(r) && Pair(r, c, x)
    ensures Hears(r, c, x) ==> ((c, x) in Next(r, See(c)).lost <==>
              (c, x) in r.lost || (Due(r, c, x) && Lands(r, c, x) && Current(r, c, x).Some?
                                   && DropsWhileSettling(End(r, c, x, (c, x) !in r.early), r.down[c][0].message)))
    ensures Hears(r, x, c) ==> ((c, x) in Next(r, See(x)).lost <==> (c, x) in r.lost)
  {
    if Hears(r, c, x) {
      var r' := SeeEffect(r, c);
      hide Next, DropsWhileSettling;
      if Speaks(r, c, x) {
        DueExactly(r, c, x);
      }
    }
    if Hears(r, x, c) {
      var r' := SeeEffect(r, x);
    }
  }

  lemma EndAfter(r: Room, c: UserId, x: UserId, iAmOfferer: bool)
    requires WellFormed(r) && Hears(r, c, x) && iAmOfferer == !GivesWay(r, c, x)
    ensures End(Next(r, See(c)), c, x, iAmOfferer) ==
            if Lands(r, c, x) then Receive(End(r, c, x, iAmOfferer), r.down[c][0].message) else End(r, c, x, iAmOfferer)
  {
    EndMoves(r, c, x);
    hide Next, Receive, GivesWay, Ordered, DownValid;
  }

  /** Hearing does not touch the other's end. */
  lemma OtherEnd(r: Room, c: UserId, x: UserId, iAmOfferer: bool)
    requires WellFormed(r) && Enabled(r, See(c)) && x in r.clients && x != c
    ensures End(Next(r, See(c)), x, c, iAmOfferer) == End(r, x, c, iAmOfferer)
  {
    var r' := SeeEffect(r, c);
    hide Next, HandleEvent;
  }

  /** The impolite side hears. */
  lemma ImpoliteHears(r: Room, c: UserId, x: UserId)
    requires WellFormed(r) && Pair(r, c, x) && Hears(r, c, x)
    requires Due(r, c, x) ==> Current(r, c, x).Some? && (c, x) !in r.early
    ensures var r' := Next(r, See(c)); var s := LinkOf(r, c, x);
            && c in r'.members && x in r'.members && r'.early == r.early
            && LinkOf(r', c, x) ==
               (if Due(r, c, x) then Negotiation.Next(s, Negotiation.Deliver(Negotiation.Impolite))
                else if Lands(r, c, x) then s.(i := Receive(s.i, r.down[c][0].message))
                else s)
            && (Due(r, c, x) ==> Negotiation.Enabled(s, Negotiation.Deliver(Negotiation.Impolite)))
  {
    var r' := SeeEffect(r, c);
    hide Next, Receive, DropsWhileSettling, Channel, Ordered, DownValid, Stray, BetweenSessions, HandleEvent, Affected, End, Current;
    EndAfter(r, c, x, (c, x) !in r.early);
    SeeMovesChannels(r, c, x);
    LostMoves(r, c, x);
    if Speaks(r, c, x) {
      DueExactly(r, c, x);
    }
    OtherEnd(r, c, x, false);
  }

  /** The polite side hears. */
  lemma PoliteHears(r: Room, c: UserId, x: UserId)
    requires WellFormed(r) && Pair(r, c, x) && Hears(r, x, c)
    ensures var r' := Next(r, See(x)); var s := LinkOf(r, c, x);
            && c in r'.members && x in r'.members && r'.early == r.early
            && LinkOf(r', c, x) ==
               (if Due(r, x, c) then Negotiation.Next(s, Negotiation.Deliver(Negotiation.Polite))
                else if Lands(r, x, c) then s.(p := Receive(s.p, r.down[x][0].message))
                else s)
            && (Due(r, x, c) ==> Negotiation.Enabled(s, Negotiation.Deliver(Negotiation.Polite)))
  {
    var r' := SeeEffect(r, x);
    hide Next, DropsWhileSettling, Channel, Ordered, DownValid, Stray, BetweenSessions, HandleEvent, Affected, End, Current;
    EndAfter(r, x, c, false);
    SeeMovesChannels(r, x, c);
    LostMoves(r, c, x);
    if Speaks(r, x, c) {
      DueExactly(r, x, c);
    }
    OtherEnd(r, x, c, (c, x) !in r.early);
  }

  /** A stray that is not heeded changes nothing that matters. */
  lemma UnheededImpolite(s: Negotiation.System, m: Message, early: bool)
    requires Sound(s, early) && Receive(s.i, m).chain == s.i.chain
    ensures Sound(s.(i := Receive(s.i, m)), early)
  {
    IgnoredOrDropped(s.i, m);
    if !early {
      InvForgets(s, s.nextId, true);
    }
  }

  lemma UnheededPolite(s: Negotiation.System, m: Message, early: bool)
    requires Sound(s, early) && Receive(s.p, m).chain == s.p.chain
    ensures Sound(s.(p := Receive(s.p, m)), early)
  {
    IgnoredOrDropped(s.p, m);
  }

  lemma SoundOf(r: Room, c: UserId, x: UserId)
    requires WellFormed(r) && Pair(r, c, x) && Straight(r, c, x) && LinkValid(r, c, x)
    ensures Sound(LinkOf(r, c, x), (c, x) in r.early)
  {
  }

  lemma ValidOf(r: Room, c: UserId, x: UserId)
    requires WellFormed(r) && c in r.members && x in r.members && Sound(LinkOf(r, c, x), (c, x) in r.early)
    ensures LinkValid(r, c, x)
  {
    hide Sound, LinkOf, Straight;
  }

  lemma ImpoliteHeeds(r: Room, c: UserId, x: UserId)
    requires WellFormed(r) && Pair(r, c, x) && Hears(r, c, x) && LinkValid(r, c, x) && Straight(r, c, x) && Due(r, c, x)
    ensures LinkValid(Next(r, See(c)), c, x)
  {
    hide Next, Negotiation.Inv, Negotiation.Next, Negotiation.Enabled, LinkOf, Sound, Straight, Channel, LinkValid, Ordered, DownValid;
    DueExactly(r, c, x);
    DueHasRecord(r, c, x);
    ImpoliteHears(r, c, x);
    SoundOf(r, c, x);
    NextSound(LinkOf(r, c, x), Negotiation.Deliver(Negotiation.Impolite));
    ValidOf(Next(r, See(c)), c, x);
  }

  lemma ImpolitePasses(r: Room, c: UserId, x: UserId)
    requires WellFormed(r) && Pair(r, c, x) && Hears(r, c, x) && LinkValid(r, c, x) && Straight(r, c, x)
    requires !Due(r, c, x)
    requires Straight(Next(r, See(c)), c, x)
    ensures LinkValid(Next(r, See(c)), c, x)
  {
    hide Next, Negotiation.Inv, LinkOf, Sound, Straight, Channel, LinkValid, Receive, Ordered, DownValid, End;
    ImpoliteHears(r, c, x);
    SoundOf(r, c, x);
    if Lands(r, c, x) {
      DueExactly(r, c, x);
      UnheededEnd(r, c, x, (c, x) !in r.early);
      LinkEnds(r, c, x);
      UnheededImpolite(LinkOf(r, c, x), r.down[c][0].message, (c, x) in r.early);
    }
    ValidOf(Next(r, See(c)), c, x);
  }

  lemma ImpoliteSeeKeepsLink(r: Room, c: UserId, x: UserId)
    requires WellFormed(r) && Pair(r, c, x) && Hears(r, c, x) && LinkValid(r, c, x)
    ensures LinkValid(Next(r, See(c)), c, x)
  {
    hide Next, LinkOf, Sound, Straight, Due, LinkValid, Ordered, DownValid;
    if Straight(Next(r, See(c)), c, x) {
      StraightBefore(r, c, x);
      if Due(r, c, x) {
        ImpoliteHeeds(r, c, x);
      } else {
        ImpolitePasses(r, c, x);
      }
    } else {
      NotStraight(Next(r, See(c)), c, x);
    }
  }

  lemma NotStraight(r: Room, c: UserId, x: UserId)
    requires WellFormed(r) && c in r.clients && x in r.clients && !Straight(r, c, x)
    ensures LinkValid(r, c, x)
  {
    hide LinkOf, Sound, Straight;
  }

  lemma StraightBefore(r: Room, c: UserId, x: UserId)
    requires WellFormed(r) && Hears(r, c, x) && Straight(Next(r, See(c)), c, x)
    ensures Straight(r, c, x)
  {
    hide Next, Straight;
    StrayMoves(r, c, x);
  }

  lemma LinkEnds(r: Room, c: UserId, x: UserId)
    requires WellFormed(r) && c in r.members && x in r.members
    ensures LinkOf(r, c, x).i == End(r, c, x, (c, x) !in r.early) && LinkOf(r, c, x).p == End(r, x, c, false)
  {
  }

  lemma NextSound(s: Negotiation.System, step: Negotiation.Step)
    requires Sound(s, false) && Negotiation.Enabled(s, step)
    ensures Sound(Negotiation.Next(s, step), false)
  {
    Negotiation.StepKeepsInv(s, step);
  }

  /** What lands without being of these sessions, and leaves the record straight, has given it nothing to apply. */
  lemma UnheededEnd(r: Room, c: UserId, x: UserId, offerer: bool)
    requires WellFormed(r) && Hears(r, c, x) && Straight(Next(r, See(c)), c, x)
    requires Lands(r, c, x) && Stray(r, c, r.down[c][0]) && offerer == !GivesWay(r, c, x)
    ensures Receive(End(r, c, x, offerer), r.down[c][0].message).chain == End(r, c, x, offerer).chain
  {
    StrayMoves(r, c, x);
    EndMoves(r, c, x);
    hide Next, Receive;
  }

  lemma PoliteHeeds(r: Room, c: UserId, x: UserId)
    requires WellFormed(r) && Pair(r, c, x) && Hears(r, x, c) && LinkValid(r, c, x) && Straight(r, c, x) && Due(r, x, c)
    ensures LinkValid(Next(r, See(x)), c, x)
  {
    hide Next, Negotiation.Inv, Negotiation.Next, Negotiation.Enabled, LinkOf, Sound, Straight, LinkValid, Ordered, DownValid;
    PoliteHears(r, c, x);
    SoundOf(r, c, x);
    SilentHasNothingDue(r, c, x);
    NextSound(LinkOf(r, c, x), Negotiation.Deliver(Negotiation.Polite));
    ValidOf(Next(r, See(x)), c, x);
  }

  lemma PolitePasses(r: Room, c: UserId, x: UserId)
    requires WellFormed(r) && Pair(r, c, x) && Hears(r, x, c) && LinkValid(r, c, x) && Straight(r, c, x)
    requires !Due(r, x, c)
    requires Straight(Next(r, See(x)), x, c)
    ensures LinkValid(Next(r, See(x)), c, x)
  {
    hide Next, Negotiation.Inv, LinkOf, Sound, Straight, LinkValid, Receive, Ordered, DownValid, End;
    PoliteHears(r, c, x);
    SoundOf(r, c, x);
    if Lands(r, x, c) {
      DueExactly(r, x, c);
      UnheededEnd(r, x, c, false);
      LinkEnds(r, c, x);
      UnheededPolite(LinkOf(r, c, x), r.down[x][0].message, (c, x) in r.early);
    }
    ValidOf(Next(r, See(x)), c, x);
  }

  lemma StraightEitherWay(r: Room, c: UserId, x: UserId)
    requires WellFormed(r) && c in r.clients && x in r.clients
    ensures Straight(r, c, x) <==> Straight(r, x, c)
  {
  }

  lemma PoliteSeeKeepsLink(r: Room, c: UserId, x: UserId)
    requires WellFormed(r) && Pair(r, c, x) && Hears(r, x, c) && LinkValid(r, c, x)
    ensures LinkValid(Next(r, See(x)), c, x)
  {
    hide Next, LinkOf, Sound, Straight, Due, LinkValid, Ordered, DownValid;
    if Straight(Next(r, See(x)), c, x) {
      StraightEitherWay(Next(r, See(x)), c, x);
      StraightBefore(r, x, c);
      StraightEitherWay(r, c, x);
      if Due(r, x, c) {
        PoliteHeeds(r, c, x);
      } else {
        PolitePasses(r, c, x);
      }
    } else {
      NotStraight(Next(r, See(x)), c, x);
    }
  }

  lemma SilentHasNothingDue(r: Room, c: UserId, x: UserId)
    requires WellFormed(r) && Pair(r, c, x) && Sound(LinkOf(r, c, x), (c, x) in r.early) && r.down[x] != []
    requires Due(r, x, c)
    ensures (c, x) !in r.early
  {
  }

  lemma OtherHears(r: Room, d: UserId, c: UserId, x: UserId)
    requires WellFormed(r) && Enabled(r, See(d)) && d != c && d != x
    ensures Unmoved(r, Next(r, See(d)), c, x)
  {
    var r' := SeeEffect(r, d);
    hide Next;
  }

  // ----- every step keeps every link sound -----

  /** What a step may rely on about the link. */
  ghost predicate LinkReady(r: Room, step: Step, c: UserId, x: UserId) {
    && Fits(r, step) && c in r.clients && x in r.clients && c != x
    && TagsBelow(r, c) && TagsBelow(r, x) && DownValid(r, c, x) && DownValid(r, x, c) && FreshValid(r, c, x)
    && Forgets(r, x, step.user) && Ordered(r, c, x) && Ordered(r, x, c)
    && (InSession(r, c) ==> r.clients[c].joined) && (InSession(r, x) ==> r.clients[x].joined)
    && LinkValid(r, c, x)
  }

  lemma SeeKeepsLink(r: Room, d: UserId, c: UserId, x: UserId)
    requires LinkReady(r, See(d), c, x)
    ensures LinkValid(Next(r, See(d)), c, x)
  {
    var r' := SeeEffect(r, d);
    hide Next, LinkValid, TagsBelow, FreshValid, DownValid, Ordered, Forgets;
    if !Pair(r, c, x) {
      assert !Pair(r', c, x);
      NoPair(r', c, x);
    } else if d == c {
      ImpoliteSeeKeepsLink(r, c, x);
    } else if d == x {
      PoliteSeeKeepsLink(r, c, x);
    } else {
      OtherHears(r, d, c, x);
      UnmovedValid(r, r', c, x);
    }
  }

  lemma ServeKeepsLink(r: Room, d: UserId, c: UserId, x: UserId)
    requires LinkReady(r, Serve(d), c, x)
    ensures LinkValid(Next(r, Serve(d)), c, x)
  {
    var f := r.up[d][0];
    hide Next, LinkValid, TagsBelow, FreshValid, DownValid, Ordered, Forgets;
    match f
    case JoinFrame => ServeJoinKeepsLink(r, d, c, x);
    case LeaveFrame => ServeLeaveKeepsLink(r, d, c, x);
    case SignalFrame(_, _, _) => ServeSignalKeepsLink(r, d, f, c, x);
  }

  lemma RecordKeepsLink(r: Room, step: Step, c: UserId, x: UserId)
    requires LinkReady(r, step, c, x) && (step.Need? || step.Run?)
    ensures LinkValid(Next(r, step), c, x)
  {
    var r' := RecordEffect(r, step);
    hide Next, LinkValid, TagsBelow, FreshValid, DownValid, Ordered, Forgets;
    var d, y := step.user, step.peer;
    if (d, y) != (c, x) && (d, y) != (x, c) {
      OtherRecord(r, step, c, x);
      UnmovedValid(r, r', c, x);
    } else if !Pair(r, c, x) {
      StillNoPair(r, step, c, x);
      NoPair(r', c, x);
    } else if step.Run? {
      RunKeepsLink(r, d, y, c, x);
    } else {
      NeedKeepsLink(r, c, x, if d == c then Negotiation.Impolite else Negotiation.Polite);
    }
  }

  lemma StillNoPair(r: Room, step: Step, c: UserId, x: UserId)
    requires WellFormed(r) && Enabled(r, step) && (step.Need? || step.Run?)
    requires !Pair(r, c, x)
    ensures !Pair(Next(r, step), c, x)
  {
    var r' := RecordEffect(r, step);
    hide Next;
  }

  lemma StepKeepsLink(r: Room, step: Step, c: UserId, x: UserId)
    requires LinkReady(r, step, c, x)
    ensures LinkValid(Next(r, step), c, x)
  {
    match step
    case ClickJoin(_) => ClickKeepsLink(r, step, c, x);
    case ClickLeave(_) => ClickKeepsLink(r, step, c, x);
    case Serve(d) => ServeKeepsLink(r, d, c, x);
    case See(d) => SeeKeepsLink(r, d, c, x);
    case Need(_, _) => RecordKeepsLink(r, step, c, x);
    case Run(_, _) => RecordKeepsLink(r, step, c, x);
  }

  lemma InvWellFormed(r: Room)
    requires Inv(r)
    ensures WellFormed(r)
  {
  }

  lemma RoomOfPair(r: Room, c: UserId, x: UserId)
    requires LinksInv(r) && c in r.clients && x in r.clients && c != x
    ensures Inv(r) && TagsBelow(r, c) && TagsBelow(r, x) && UpValid(r, c) && UpValid(r, x)
    ensures DownValid(r, c, x) && DownValid(r, x, c) && FreshValid(r, c, x) && FreshValid(r, x, c) && LinkValid(r, c, x)
  {
    hide TagsBelow, UpValid, DownValid, FreshValid, LinkValid, Inv;
  }

  lemma MeshOfPair(r: Room, c: UserId, x: UserId)
    requires Inv(r) && c in r.clients
    ensures ClientValid(r, c) && PairValid(r, c, x)
    ensures WellFormed(r) && (InSession(r, c) ==> r.clients[c].joined)
  {
    hide ClientValid, PairValid;
    if InSession(r, c) {
      InSessionJoined(r, c);
    }
  }

  lemma LinkIsReady(r: Room, step: Step, c: UserId, x: UserId)
    requires LinksInv(r) && Enabled(r, step) && c in r.clients && x in r.clients && c != x
    ensures LinkReady(r, step, c, x)
  {
    hide LinksInv, Inv, TagsBelow, UpValid, DownValid, FreshValid, LinkValid, Next, ClientValid, Fits;
    RoomOfPair(r, c, x);
    MeshOfPair(r, c, x);
    MeshOfPair(r, x, c);
    MeshOfPair(r, x, step.user);
    StepFits(r, step);
  }

  lemma StepKeepsClientTags(r: Room, step: Step, c: UserId)
    requires LinksInv(r) && Enabled(r, step) && c in r.clients
    ensures TagsBelow(Next(r, step), c) && UpValid(Next(r, step), c)
  {
    hide Next, LinksInv, Inv, TagsBelow, UpValid, Fits;
    TagsOf(r, c);
    TagsOf(r, step.user);
    StepFits(r, step);
    StepKeepsTags(r, step, c);
    StepKeepsUp(r, step, c);
  }

  lemma TagsOf(r: Room, c: UserId)
    requires LinksInv(r) && c in r.clients
    ensures Inv(r) && TagsBelow(r, c) && UpValid(r, c)
  {
    hide TagsBelow, UpValid, Inv;
  }

  lemma StepKeepsPairTags(r: Room, step: Step, c: UserId, x: UserId)
    requires LinksInv(r) && Enabled(r, step) && c in r.clients && c != x
    ensures DownValid(Next(r, step), c, x) && FreshValid(Next(r, step), c, x)
  {
    hide Next, LinksInv, Inv, TagsBelow, UpValid, DownValid, FreshValid, Fits, PairValid;
    TagsOf(r, c);
    TagsOf(r, step.user);
    PairTagsOf(r, c, x);
    MeshOfPair(r, c, x);
    StepFits(r, step);
    StepKeepsDown(r, step, c, x);
    StepKeepsFresh(r, step, c, x);
  }

  lemma PairTagsOf(r: Room, c: UserId, x: UserId)
    requires LinksInv(r) && c in r.clients && c != x
    ensures DownValid(r, c, x) && FreshValid(r, c, x)
  {
    hide DownValid, FreshValid, Inv;
  }

  lemma StepKeepsAllTags(r: Room, step: Step)
    requires LinksInv(r) && Enabled(r, step)
    ensures forall c :: c in Next(r, step).clients ==> TagsBelow(Next(r, step), c) && UpValid(Next(r, step), c)
    ensures forall c, x :: c in Next(r, step).clients && c != x ==> DownValid(Next(r, step), c, x) && FreshValid(Next(r, step), c, x)
  {
    hide Next, TagsBelow, UpValid, DownValid, FreshValid, Inv;
    InvWellFormed(r);
    forall c | c in Next(r, step).clients
      ensures TagsBelow(Next(r, step), c) && UpValid(Next(r, step), c)
    {
      StepKeepsClientTags(r, step, c);
    }
    forall c, x | c in Next(r, step).clients && c != x
      ensures DownValid(Next(r, step), c, x) && FreshValid(Next(r, step), c, x)
    {
      StepKeepsPairTags(r, step, c, x);
    }
  }

  lemma StepKeepsAnyLink(r: Room, step: Step, c: UserId, x: UserId)
    requires LinksInv(r) && Enabled(r, step)
    ensures LinkValid(Next(r, step), c, x)
  {
    hide Next, LinksInv, Inv, LinkReady;
    if c in r.clients && x in r.clients && c != x {
      RoomOfPair(r, c, x);
      LinkIsReady(r, step, c, x);
      StepKeepsLink(r, step, c, x);
    }
  }

  lemma StepKeepsLinks(r: Room, step: Step)
    requires LinksInv(r) && Enabled(r, step)
    ensures LinksInv(Next(r, step))
  {
    hide Next, TagsBelow, UpValid, DownValid, FreshValid, LinkValid, Inv;
    InvWellFormed(r);
    Mesh.StepKeepsInv(r, step);
    StepKeepsAllTags(r, step);
    forall c, x
      ensures LinkValid(Next(r, step), c, x)
    {
      StepKeepsAnyLink(r, step, c, x);
    }
  }

  lemma InitLinks(users: set<UserId>)
    ensures LinksInv(Init(users))
  {
    ReachedInv(users, []);
  }

  lemma {:induction false} RunKeepsLinks(r: Room, steps: seq<Step>)
    requires LinksInv(r)
    ensures LinksInv(Exec(r, steps))
    decreases |steps|
  {
    if steps != [] {
      if Enabled(r, steps[0]) {
        StepKeepsLinks(r, steps[0]);
        RunKeepsLinks(Next(r, steps[0]), steps[1..]);
      } else {
        RunKeepsLinks(r, steps[1..]);
      }
    }
  }

  // ----- main result -----

  /** Nothing is on its way between the two, or waiting to be applied. */
  ghost predicate AtRest(r: Room, c: UserId, x: UserId)
    requires WellFormed(r) && Linked(r, c, x)
  {
    && Channel(r, c, x) == [] && Channel(r, x, c) == []
    && r.clients[c].peers[x].chain == [] && r.clients[x].peers[c].chain == []
  }

  /** Both records are stable on the same offer and answer. */
  ghost predicate Agree(r: Room, c: UserId, x: UserId)
    requires WellFormed(r) && Linked(r, c, x)
  {
    var p, q := r.clients[c].peers[x], r.clients[x].peers[c];
    p.signaling == Stable && q.signaling == Stable && p.current == q.current
  }

  lemma RestAgrees(s: Negotiation.System)
    requires Negotiation.Inv(s) && Negotiation.Quiescent(s)
    ensures Negotiation.Agreed(s) <==> !s.lost
  {
  }

  /**
   What can be said of two linked users. If their joins did not race, every answer on its way is to the
   offer that is out, and when nothing is on its way they agree, unless an offer was dropped while an
   answer waited to be applied. If their joins raced, neither has a connection, and nothing is on its way.
   */
  ghost predicate Negotiates(r: Room, c: UserId, x: UserId)
    requires WellFormed(r) && Linked(r, c, x)
  {
    var p, q := r.clients[c].peers[x], r.clients[x].peers[c];
    if (c, x) in r.early then
      p == q == NewPeer(false) && Channel(r, c, x) == Channel(r, x, c) == []
    else
      && Negotiation.Matched(p, Channel(r, x, c)) && Negotiation.Matched(q, Channel(r, c, x))
      && (AtRest(r, c, x) ==> (Agree(r, c, x) <==> (c, x) !in r.lost))
  }

  /** This holds in every reachable room, of any two linked users whose records nothing meant for another session has reached. */
  lemma LinksNegotiate(users: set<UserId>, steps: seq<Step>, c: UserId, x: UserId)
    requires Linked(Exec(Init(users), steps), c, x)
    requires Exec(Init(users), steps).members[x] < Exec(Init(users), steps).members[c]
    requires (c, x) !in Exec(Init(users), steps).stray && (x, c) !in Exec(Init(users), steps).stray
    ensures Negotiates(Exec(Init(users), steps), c, x)
  {
    var r := Exec(Init(users), steps);
    InitLinks(users);
    RunKeepsLinks(Init(users), steps);
    assert LinkValid(r, c, x) && Pair(r, c, x) && Straight(r, c, x);
    hide LinksInv, Channel;
    if (c, x) !in r.early {
      var s := LinkOf(r, c, x);
      Negotiation.ImpoliteMatched(s);
      Negotiation.PoliteMatched(s);
      if AtRest(r, c, x) {
        RestAgrees(s);
      }
    }
  }
}
