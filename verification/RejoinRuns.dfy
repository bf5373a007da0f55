/**
 Three runs of two users in which something meant for an earlier session spoils the next one. Each
 breaks another part of what `Rejoins.Quiet` asks for.
 */
module RejoinRuns {
  import opened Wrappers
  import opened PeerModel
  import opened Mesh
  import opened Links
  import Negotiation

  // ----- one step after the other -----

  /** What is one user's in a room. */
  datatype Half = Half(client: Client, down: seq<Event>, up: seq<Frame>)

  function HalfOf(r: Room, c: UserId): Half
    requires WellFormed(r) && c in r.clients
  {
    Half(r.clients[c], r.down[c], r.up[c])
  }

  predicate Two(r: Room, a: UserId, b: UserId) {
    WellFormed(r) && a != b && a in r.clients && b in r.clients
  }

  lemma {:induction false} ExecAppend(r: Room, s: seq<Step>, t: seq<Step>)
    requires WellFormed(r)
    ensures Exec(r, s + t) == Exec(Exec(r, s), t)
    decreases |s|
  {
    if s == [] {
      assert s + t == t;
    } else {
      assert (s + t)[1..] == s[1..] + t;
      if Enabled(r, s[0]) {
        ExecAppend(Next(r, s[0]), s[1..], t);
      } else {
        ExecAppend(r, s[1..], t);
      }
    }
  }

  lemma Append(r: Room, s: seq<Step>, r1: Room, t: seq<Step>, r2: Room) returns (all: seq<Step>)
    requires WellFormed(r) && r1 == Exec(r, s) && r2 == Exec(r1, t)
    ensures Exec(r, all) == r2
  {
    all := s + t;
    ExecAppend(r, s, t);
  }

  lemma One(r: Room, step: Step) returns (s: seq<Step>)
    requires WellFormed(r) && Enabled(r, step)
    ensures s == [step] && Exec(r, s) == Next(r, step)
  {
    s := [step];
    assert s[1..] == [];
  }

  /** One more step of a run. */
  lemma More(r: Room, s: seq<Step>, r1: Room, step: Step) returns (all: seq<Step>)
    requires WellFormed(r) && r1 == Exec(r, s) && Enabled(r1, step)
    ensures Exec(r, all) == Next(r1, step)
  {
    var t := One(r1, step);
    all := Append(r, s, r1, t, Next(r1, step));
  }

  /** The steps `s` lead from `start` to `r`. */
  ghost predicate At(start: Room, s: seq<Step>, r: Room) {
    WellFormed(start) && r == Exec(start, s)
  }

  lemma Goes(start: Room, s: seq<Step>, r: Room, step: Step) returns (s': seq<Step>)
    requires At(start, s, r) && WellFormed(r) && Enabled(r, step)
    ensures At(start, s', Next(r, step))
  {
    s' := More(start, s, r, step);
  }

  /** What the server keeps, but for the calls' own numbers. */
  predicate SameCall(r: Room, r': Room) {
    r'.members == r.members && r'.count == r.count && r'.early == r.early && r'.lost == r.lost
  }

  lemma Presses(start: Room, s: seq<Step>, r: Room, a: UserId, b: UserId) returns (s': seq<Step>, r': Room)
    requires At(start, s, r) && Two(r, a, b)
    ensures At(start, s', r') && Two(r', a, b) && SameCall(r, r') && r'.nextId == r.nextId
    ensures HalfOf(r', b) == HalfOf(r, b)
    ensures HalfOf(r', a) ==
            if r.clients[a].joined then Half(Client(false, map[]), r.down[a], r.up[a] + [LeaveFrame])
            else Half(Client(true, r.clients[a].peers), r.down[a], r.up[a] + [JoinFrame])
  {
    var step := if r.clients[a].joined then ClickLeave(a) else ClickJoin(a);
    s' := Goes(start, s, r, step);
    r' := Next(r, step);
  }

  lemma Hears(start: Room, s: seq<Step>, r: Room, a: UserId, b: UserId) returns (s': seq<Step>, r': Room)
    requires At(start, s, r) && Two(r, a, b) && r.down[a] != []
    requires var e := r.down[a][0];
             e.Signal? && e.message.kind == OfferKind && e.user in r.clients[a].peers ==>
               !DropsWhileSettling(r.clients[a].peers[e.user], e.message)
    ensures At(start, s', r') && Two(r', a, b) && SameCall(r, r') && r'.nextId == r.nextId
    ensures HalfOf(r', b) == HalfOf(r, b)
    ensures HalfOf(r', a) == Half(HandleEvent(r.clients[a], a, r.down[a][0]), r.down[a][1..], r.up[a])
  {
    s' := Goes(start, s, r, See(a));
    r' := SeeEffect(r, a);
    hide Next, HandleEvent;
    forall p | p in r'.lost || p in r.lost
      ensures p in r'.lost && p in r.lost
    {
      assert p == (p.0, p.1);
    }
  }

  lemma LetsIn(start: Room, s: seq<Step>, r: Room, a: UserId, b: UserId) returns (s': seq<Step>, r': Room)
    requires At(start, s, r) && Two(r, a, b) && Serves(r, a, JoinFrame)
    ensures At(start, s', r') && Two(r', a, b)
    ensures r'.members == r.members[a := r.count] && r'.count == r.count + 1 && r'.nextId == r.nextId
    ensures HalfOf(r', a) == Half(r.clients[a], r.down[a] + [Roster(r.members.Keys, r.count), Joined(a)], r.up[a][1..])
    ensures HalfOf(r', b) == Half(r.clients[b], r.down[b] + [Joined(a)], r.up[b])
    ensures (a, b) !in r'.lost && (b, a) !in r'.lost
    ensures (a, b) in r'.early <==> b in r.members && RoleAhead(r, a, b) == Some(true)
  {
    s' := Goes(start, s, r, Serve(a));
    r' := JoinEffect(r, a);
  }

  lemma LetsOut(start: Room, s: seq<Step>, r: Room, a: UserId, b: UserId) returns (s': seq<Step>, r': Room)
    requires At(start, s, r) && Two(r, a, b) && Serves(r, a, LeaveFrame) && a in r.members
    ensures At(start, s', r') && Two(r', a, b)
    ensures r'.members == r.members - {a} && r'.count == r.count && r'.nextId == r.nextId && r'.lost == r.lost
    ensures HalfOf(r', a) == Half(r.clients[a], r.down[a] + [Left(a)], r.up[a][1..])
    ensures HalfOf(r', b) == Half(r.clients[b], r.down[b] + [Left(a)], r.up[b])
  {
    s' := Goes(start, s, r, Serve(a));
    r' := LeaveEffect(r, a);
  }

  lemma Relays(start: Room, s: seq<Step>, r: Room, a: UserId, b: UserId) returns (s': seq<Step>, r': Room)
    requires At(start, s, r) && Two(r, a, b) && a in r.members && b in r.members
    requires r.up[a] != [] && r.up[a][0].SignalFrame? && r.up[a][0].to == b
    ensures At(start, s', r') && Two(r', a, b) && SameCall(r, r') && r'.nextId == r.nextId
    ensures HalfOf(r', a) == Half(r.clients[a], r.down[a], r.up[a][1..])
    ensures HalfOf(r', b) == Half(r.clients[b], r.down[b] + [Signal(a, r.up[a][0].message, r.up[a][0].sessions)], r.up[b])
  {
    s' := Goes(start, s, r, Serve(a));
    r' := SignalEffect(r, a, r.up[a][0]);
  }

  lemma Needs(start: Room, s: seq<Step>, r: Room, a: UserId, b: UserId) returns (s': seq<Step>, r': Room)
    requires At(start, s, r) && Two(r, a, b) && Enabled(r, Need(a, b))
    ensures At(start, s', r') && Two(r', a, b) && SameCall(r, r') && r'.nextId == r.nextId
    ensures HalfOf(r', b) == HalfOf(r, b)
    ensures HalfOf(r', a) ==
            Half(Client(r.clients[a].joined, r.clients[a].peers[b := NegotiationNeeded(r.clients[a].peers[b])]), r.down[a], r.up[a])
  {
    s' := Goes(start, s, r, Need(a, b));
    r' := RecordEffect(r, Need(a, b));
  }

  function Framed(sent: Option<Message>, b: UserId, tag: Option<(nat, nat)>): seq<Frame> {
    if sent.Some? then [SignalFrame(b, sent.value, tag)] else []
  }

  lemma Runs(start: Room, s: seq<Step>, r: Room, a: UserId, b: UserId) returns (s': seq<Step>, r': Room)
    requires At(start, s, r) && Two(r, a, b) && Enabled(r, Run(a, b)) && !RollsBack(r.clients[a].peers[b])
    ensures At(start, s', r') && Two(r', a, b) && SameCall(r, r') && r'.nextId == r.nextId + 1
    ensures HalfOf(r', b) == HalfOf(r, b)
    ensures var (p, sent) := RunOperation(r.clients[a].peers[b], r.nextId);
            HalfOf(r', a) == Half(Client(r.clients[a].joined, r.clients[a].peers[b := p]), r.down[a],
                                  r.up[a] + Framed(sent, b, Sessions(r, a, b)))
  {
    s' := Goes(start, s, r, Run(a, b));
    r' := RecordEffect(r, Run(a, b));
  }

  // ----- coming and going -----

  lemma FirstLetIn(users: set<UserId>, a: UserId, b: UserId) returns (s: seq<Step>, r: Room)
    requires a != b && a in users && b in users
    ensures At(Init(users), s, r) && Two(r, a, b)
    ensures HalfOf(r, a) == Half(Client(true, map[]), [Roster({}, 0), Joined(a)], [])
    ensures HalfOf(r, b) == Half(Client(false, map[]), [Joined(a)], [])
    ensures r.members == map[a := 0] && r.count == 1 && r.nextId == 0
  {
    var r0 := Init(users);
    assert At(Init(users), [], r0) && HalfOf(r0, a) == HalfOf(r0, b) == Half(Client(false, map[]), [], []);
    assert r0.members == map[] && r0.members.Keys == {} && r0.count == 0 && r0.nextId == 0;
    hide At, RoleAhead, Init, Exec, Next;
    var s1, r1 := Presses(Init(users), [], r0, a, b);
    assert r1.up[a] == [JoinFrame] && r1.up[a][1..] == [];
    s, r := LetsIn(Init(users), s1, r1, a, b);
  }

  /** The first to join the empty room. */
  lemma FirstArrives(users: set<UserId>, a: UserId, b: UserId) returns (s: seq<Step>, r: Room)
    requires a != b && a in users && b in users
    ensures At(Init(users), s, r) && Two(r, a, b)
    ensures HalfOf(r, b) == Half(Client(false, map[]), [], []) && HalfOf(r, a) == Half(Client(true, map[]), [], [])
    ensures r.members == map[a := 0] && r.count == 1 && r.nextId == 0
  {
    hide At, RoleAhead, AddRoster, HearSignal, AddPeer, Init, Exec, Next;
    EmptyRoster(map[]);
    var s2, r2 := FirstLetIn(users, a, b);
    assert r2.down[a][1..] == [Joined(a)] && [Joined(a)][1..] == [];
    var s3, r3 := Hears(Init(users), s2, r2, a, b);
    var s4, r4 := Hears(Init(users), s3, r3, a, b);
    s, r := Hears(Init(users), s4, r4, b, a);
  }

  /** `a` has joined after `b`, and their joins did not race. */
  predicate InCall(r: Room, a: UserId, b: UserId) {
    && a in r.members && b in r.members && r.members[b] < r.members[a]
    && (a, b) !in r.early && (a, b) !in r.lost && (b, a) !in r.lost
  }

  /** What the two are to each other when `a` has just joined: it will offer, and `b` awaits it. */
  predicate Met(r: Room, a: UserId, b: UserId, sent: seq<Frame>)
    requires Two(r, a, b)
  {
    && HalfOf(r, a) == Half(Client(true, map[b := NewPeer(true)]), [], [])
    && HalfOf(r, b) == Half(Client(true, map[a := NewPeer(false)]), [], sent)
    && InCall(r, a, b)
  }

  /** `a` joins and has heard who is there; `b` has yet to hear of it. */
  lemma ArrivesUnheard(start: Room, s0: seq<Step>, r0: Room, a: UserId, b: UserId) returns (s: seq<Step>, r: Room)
    requires At(start, s0, r0) && Two(r0, a, b) && HalfOf(r0, a) == Half(Client(false, map[]), [], [])
    requires r0.members.Keys == {b} && r0.members[b] < r0.count
    ensures At(start, s, r) && Two(r, a, b) && InCall(r, a, b)
    ensures HalfOf(r, a) == Half(Client(true, map[b := NewPeer(true)]), [], [])
    ensures HalfOf(r, b) == Half(r0.clients[b], r0.down[b] + [Joined(a)], r0.up[b])
    ensures r.members == r0.members[a := r0.count] && r.nextId == r0.nextId && r.count == r0.count + 1
  {
    hide At, Role, AddRoster, HearSignal, Exec, Next;
    var s1, r1 := Presses(start, s0, r0, a, b);
    assert r1.up[a] == [JoinFrame] && r1.up[a][1..] == [];
    NoneAhead(r1, a, b);
    var s2, r2 := LetsIn(start, s1, r1, a, b);
    assert HalfOf(r2, a) == Half(Client(true, map[]), [Roster({b}, r0.count), Joined(a)], []) && r2.down[a][1..] == [Joined(a)];
    RosterOfOne(b);
    var s3, r3 := Hears(start, s2, r2, a, b);
    s, r := Hears(start, s3, r3, a, b);
    assert HalfOf(r, a) == Half(Client(true, map[b := NewPeer(true)]), [], []);
  }

  /** ... and has heard; what it sent earlier may still be on its way to the server. */
  lemma Arrives(start: Room, s0: seq<Step>, r0: Room, a: UserId, b: UserId) returns (s: seq<Step>, r: Room)
    requires At(start, s0, r0) && Two(r0, a, b) && HalfOf(r0, a) == Half(Client(false, map[]), [], [])
    requires r0.clients[b] == Client(true, map[]) && r0.down[b] == []
    requires r0.members.Keys == {b} && r0.members[b] < r0.count
    ensures At(start, s, r) && Two(r, a, b) && Met(r, a, b, r0.up[b])
    ensures r.members == r0.members[a := r0.count] && r.nextId == r0.nextId && r.count == r0.count + 1
  {
    hide At, Exec, Next, HearSignal, AddRoster;
    var s1, r1 := ArrivesUnheard(start, s0, r0, a, b);
    assert r1.down[b] == [Joined(a)] && r1.down[b][1..] == [];
    s, r := Hears(start, s1, r1, b, a);
  }

  lemma RosterOfOne(b: UserId)
    ensures AddRoster(map[], {b}) == map[b := NewPeer(true)]
  {
  }

  lemma NoneAhead(r: Room, a: UserId, b: UserId)
    requires WellFormed(r) && a in r.clients && r.clients[a].peers == map[] && r.down[a] == []
    ensures RoleAhead(r, a, b) == None
  {
  }

  /** `a` leaves; `b` has yet to hear of it. */
  lemma DepartsUnheard(start: Room, s0: seq<Step>, r0: Room, a: UserId, b: UserId) returns (s: seq<Step>, r: Room)
    requires At(start, s0, r0) && Two(r0, a, b) && r0.clients[a].joined && r0.down[a] == [] && r0.up[a] == []
    requires r0.members.Keys == {a, b}
    ensures At(start, s, r) && Two(r, a, b) && HalfOf(r, a) == Half(Client(false, map[]), [], [])
    ensures HalfOf(r, b) == Half(r0.clients[b], r0.down[b] + [Left(a)], r0.up[b])
    ensures r.members == r0.members - {a} && r.members.Keys == {b} && r.nextId == r0.nextId && r.count == r0.count
  {
    hide At, HearSignal, Exec, Next;
    var s1, r1 := Presses(start, s0, r0, a, b);
    assert r1.up[a] == [LeaveFrame] && r1.up[a][1..] == [];
    var s2, r2 := LetsOut(start, s1, r1, a, b);
    assert r2.down[a] == [Left(a)] && [Left(a)][1..] == [];
    s, r := Hears(start, s2, r2, a, b);
    assert r.clients[a].peers == map[] && r.members.Keys == {b};
  }

  /** ... and has heard. */
  lemma Departs(start: Room, s0: seq<Step>, r0: Room, a: UserId, b: UserId) returns (s: seq<Step>, r: Room)
    requires At(start, s0, r0) && Two(r0, a, b) && r0.clients[a].joined && r0.down[a] == [] && r0.up[a] == []
    requires r0.clients[b].joined && r0.down[b] == [] && r0.clients[b].peers.Keys == {a} && r0.members.Keys == {a, b}
    ensures At(start, s, r) && Two(r, a, b) && HalfOf(r, a) == Half(Client(false, map[]), [], [])
    ensures HalfOf(r, b) == Half(Client(true, map[]), [], r0.up[b])
    ensures r.members == r0.members - {a} && r.members.Keys == {b} && r.nextId == r0.nextId && r.count == r0.count
  {
    hide At, HearSignal, Exec, Next;
    var s1, r1 := DepartsUnheard(start, s0, r0, a, b);
    assert r1.down[b] == [Left(a)] && [Left(a)][1..] == [];
    s, r := Hears(start, s1, r1, b, a);
    assert r.clients[b].peers == map[];
  }

  // ----- offering and answering -----

  function OfferBy(p: Peer, id: nat): Peer {
    p.(signaling := HaveLocalOffer(id), makingOffer := false, chain := [])
  }

  /** `a` makes an offer. */
  lemma Offers(start: Room, s0: seq<Step>, r0: Room, a: UserId, b: UserId) returns (s: seq<Step>, r: Room)
    requires At(start, s0, r0) && Two(r0, a, b) && b in r0.clients[a].peers && MayNegotiate(r0.clients[a].peers[b])
    ensures At(start, s, r) && Two(r, a, b) && SameCall(r0, r) && r.nextId == r0.nextId + 1
    ensures HalfOf(r, b) == HalfOf(r0, b)
    ensures HalfOf(r, a) == Half(Client(r0.clients[a].joined, r0.clients[a].peers[b := OfferBy(r0.clients[a].peers[b], r0.nextId)]),
                                 r0.down[a], r0.up[a] + [SignalFrame(b, Negotiation.OfferMsg(r0.nextId), Sessions(r0, a, b))])
  {
    hide At, Exec, Next, Sessions;
    var p := r0.clients[a].peers[b];
    var s1, r1 := Needs(start, s0, r0, a, b);
    assert r1.clients[a].peers[b] == p.(makingOffer := true, chain := [SetLocal(OfferKind)]) && [SetLocal(OfferKind)][1..] == [];
    s, r := Runs(start, s1, r1, a, b);
    assert RunOperation(r1.clients[a].peers[b], r1.nextId) == (OfferBy(p, r0.nextId), Some(Negotiation.OfferMsg(r0.nextId)));
    assert r1.clients[a].peers[b := OfferBy(p, r0.nextId)] == r0.clients[a].peers[b := OfferBy(p, r0.nextId)];
    SameSessions(r0, r1, a, b);
  }

  lemma SameSessions(r: Room, r': Room, a: UserId, b: UserId)
    requires Two(r, a, b) && Two(r', a, b) && r'.members == r.members && r'.down[a] == r.down[a] && r'.up[a] == r.up[a]
    ensures Sessions(r', a, b) == Sessions(r, a, b)
  {
  }

  function Answered(p: Peer, offer: nat, id: nat): Peer {
    p.(pc := true, ignoreOffer := false, remote := true, pending := [], added := p.added + p.pending,
       signaling := Stable, current := Some((offer, id)), chain := [])
  }

  predicate Ready(p: Peer) {
    p.signaling == Stable && p.chain == [] && !p.makingOffer
  }

  /** An offer has been heard, and is to be applied. */
  function Heeding(p: Peer, x: nat): Peer {
    p.(pc := true, ignoreOffer := false, chain := [SetRemote(OfferDesc(x), true)])
  }

  /** `a` applies the offer and answers it. */
  lemma Applies(start: Room, s0: seq<Step>, r0: Room, a: UserId, b: UserId, p: Peer, x: nat)
    returns (s: seq<Step>, r: Room, tag: Option<(nat, nat)>)
    requires At(start, s0, r0) && Two(r0, a, b) && r0.clients[a].joined && b in r0.clients[a].peers
    requires r0.clients[a].peers[b] == Heeding(p, x) && Ready(p)
    ensures At(start, s, r) && Two(r, a, b) && SameCall(r0, r) && r.nextId == r0.nextId + 2
    ensures HalfOf(r, b) == HalfOf(r0, b)
    ensures HalfOf(r, a) == Half(Client(true, r0.clients[a].peers[b := Answered(p, x, r0.nextId + 1)]), r0.down[a],
                                 r0.up[a] + [SignalFrame(b, Negotiation.AnswerMsg((x, r0.nextId + 1)), tag)])
  {
    hide At, Exec, Next;
    var p1 := Heeding(p, x);
    var p2 := p1.(signaling := HaveRemoteOffer(x), remote := true, pending := [], added := p.added + p.pending, chain := [SetLocal(AnswerKind)]);
    assert p1.chain[1..] + [SetLocal(AnswerKind)] == p2.chain && RunOperation(p1, r0.nextId) == (p2, None);
    var s2, r2 := Runs(start, s0, r0, a, b);
    assert r2.clients[a].peers == r0.clients[a].peers[b := p2] && r2.up[a] == r0.up[a];
    assert p2.chain[1..] == [];
    s, r := Runs(start, s2, r2, a, b);
    tag := Sessions(r2, a, b);
    assert RunOperation(p2, r2.nextId) == (Answered(p, x, r0.nextId + 1), Some(Negotiation.AnswerMsg((x, r0.nextId + 1))));
    assert r.clients[a].peers == r0.clients[a].peers[b := Answered(p, x, r0.nextId + 1)];
  }

  /** A stable `a` that hears an offer applies and answers it. */
  lemma Answers(start: Room, s0: seq<Step>, r0: Room, a: UserId, b: UserId, x: nat)
    returns (s: seq<Step>, r: Room, tag: Option<(nat, nat)>)
    requires At(start, s0, r0) && Two(r0, a, b) && r0.clients[a].joined && b in r0.clients[a].peers
    requires Ready(r0.clients[a].peers[b])
    requires r0.down[a] != [] && r0.down[a][0].Signal? && r0.down[a][0].user == b
    requires r0.down[a][0].message == Negotiation.OfferMsg(x)
    ensures At(start, s, r) && Two(r, a, b) && SameCall(r0, r) && r.nextId == r0.nextId + 2
    ensures HalfOf(r, b) == HalfOf(r0, b)
    ensures HalfOf(r, a) == Half(Client(true, r0.clients[a].peers[b := Answered(r0.clients[a].peers[b], x, r0.nextId + 1)]),
                                 r0.down[a][1..], r0.up[a] + [SignalFrame(b, Negotiation.AnswerMsg((x, r0.nextId + 1)), tag)])
  {
    hide At, Exec, Next;
    var p := r0.clients[a].peers[b];
    var s1, r1 := Hears(start, s0, r0, a, b);
    assert p.chain + Heeding(p, x).chain == Heeding(p, x).chain && Receive(p, Negotiation.OfferMsg(x)) == Heeding(p, x);
    assert r1.clients[a].peers == r0.clients[a].peers[b := Heeding(p, x)];
    s, r, tag := Applies(start, s1, r1, a, b, p, x);
    assert r.clients[a].peers == r0.clients[a].peers[b := Answered(p, x, r0.nextId + 1)];
  }

  /** An answer, to whatever offer, is applied if an offer is out, and refused if none is. */
  function Concluded(p: Peer, x: (nat, nat)): Peer {
    if p.signaling == Stable then p
    else p.(remote := true, pending := [], added := p.added + p.pending, signaling := Stable, current := Some(x))
  }

  lemma HearsAnswer(start: Room, s0: seq<Step>, r0: Room, a: UserId, b: UserId, x: (nat, nat))
    returns (s: seq<Step>, r: Room)
    requires At(start, s0, r0) && Two(r0, a, b) && r0.clients[a].joined && b in r0.clients[a].peers
    requires r0.down[a] != [] && r0.down[a][0].Signal? && r0.down[a][0].user == b
    requires r0.down[a][0].message == Negotiation.AnswerMsg(x)
    requires var p := r0.clients[a].peers[b]; p.pc && p.chain == [] && !p.signaling.HaveRemoteOffer?
    ensures At(start, s, r) && Two(r, a, b) && SameCall(r0, r) && r.nextId == r0.nextId + 1
    ensures HalfOf(r, b) == HalfOf(r0, b)
    ensures HalfOf(r, a) == Half(Client(true, r0.clients[a].peers[b := Concluded(r0.clients[a].peers[b], x)]), r0.down[a][1..], r0.up[a])
  {
    hide At, Exec, Next;
    var p := r0.clients[a].peers[b];
    var s1, r1 := Hears(start, s0, r0, a, b);
    var p1 := p.(chain := [SetRemote(AnswerDesc(x.0, x.1), false)]);
    assert p.chain + p1.chain == p1.chain && Receive(p, Negotiation.AnswerMsg(x)) == p1;
    assert r1.clients[a].peers == r0.clients[a].peers[b := p1] && p1.chain[1..] == [];
    assert RunOperation(p1, r1.nextId) == (Concluded(p, x), None);
    s, r := Runs(start, s1, r1, a, b);
    assert r.clients[a].peers == r0.clients[a].peers[b := Concluded(p, x)];
  }

  // ----- an answer to the session before -----

  /** `a` has an offer out, `b` has answered it, and the answer has not reached the server. */
  lemma AnswerPending(users: set<UserId>, a: UserId, b: UserId) returns (s: seq<Step>, r: Room, tag: Option<(nat, nat)>)
    requires a != b && a in users && b in users
    ensures At(Init(users), s, r) && Two(r, a, b) && r.members.Keys == {a, b} && r.members[b] < r.count && r.nextId == 3
    ensures HalfOf(r, a) == Half(Client(true, map[b := OfferBy(NewPeer(true), 0)]), [], [])
    ensures HalfOf(r, b) == Half(Client(true, map[a := Answered(NewPeer(false), 0, 2)]), [],
                                 [SignalFrame(a, Negotiation.AnswerMsg((0, 2)), tag)])
  {
    hide At, Exec, Next, HandleEvent, RunOperation, Sessions, Init;
    var s1, r1 := FirstArrives(users, b, a);
    var s2, r2 := Arrives(Init(users), s1, r1, a, b);
    var s3, r3 := Offers(Init(users), s2, r2, a, b);
    var s4, r4 := Relays(Init(users), s3, r3, a, b);
    assert HalfOf(r4, a) == Half(Client(true, map[b := OfferBy(NewPeer(true), 0)]), [], []);
    var s5, r5, t := Answers(Init(users), s4, r4, b, a, 0);
    s, r, tag := s5, r5, t;
    assert r.clients[b].peers == map[a := Answered(NewPeer(false), 0, 2)];
  }

  /** Nothing is on its way from either. */
  predicate Still(r: Room, a: UserId, b: UserId)
    requires Two(r, a, b)
  {
    r.down[a] == [] && r.down[b] == [] && r.up[a] == [] && r.up[b] == []
  }

  /** Linked and at rest, with nothing lost, on different offers and answers. */
  ghost predicate AtOdds(r: Room, a: UserId, b: UserId) {
    && WellFormed(r) && Linked(r, a, b) && r.members[b] < r.members[a]
    && (a, b) !in r.lost && (b, a) !in r.lost && AtRest(r, a, b) && !Agree(r, a, b)
  }

  lemma OddsWhenStill(r: Room, a: UserId, b: UserId, p: Peer, q: Peer)
    requires Two(r, a, b) && Still(r, a, b) && r.clients[a] == Client(true, map[b := p])
    requires r.clients[b] == Client(true, map[a := q])
    requires a in r.members && b in r.members && r.members[b] < r.members[a] && (a, b) !in r.lost && (b, a) !in r.lost
    requires p.chain == [] && q.chain == [] && p.current != q.current
    ensures AtOdds(r, a, b)
  {
  }

  /** `a` joins again and makes a new offer. */
  lemma OffersAgain(users: set<UserId>, a: UserId, b: UserId)
    returns (s: seq<Step>, r: Room, tag: Option<(nat, nat)>, tag': Option<(nat, nat)>)
    requires a != b && a in users && b in users
    ensures At(Init(users), s, r) && Two(r, a, b) && InCall(r, a, b) && r.nextId == 4
    ensures HalfOf(r, a) == Half(Client(true, map[b := OfferBy(NewPeer(true), 3)]), [], [SignalFrame(b, Negotiation.OfferMsg(3), tag)])
    ensures HalfOf(r, b) == Half(Client(true, map[a := NewPeer(false)]), [], [SignalFrame(a, Negotiation.AnswerMsg((0, 2)), tag')])
  {
    hide At, Exec, Next, HandleEvent, RunOperation, Sessions, Init;
    var s1, r1, t := AnswerPending(users, a, b);
    var s2, r2 := Departs(Init(users), s1, r1, a, b);
    var s3, r3 := Arrives(Init(users), s2, r2, a, b);
    s, r := Offers(Init(users), s3, r3, a, b);
    tag, tag' := Sessions(r3, a, b), t;
    assert r.clients[a].peers == map[b := OfferBy(NewPeer(true), 3)];
    assert r.up[a] == [SignalFrame(b, Negotiation.OfferMsg(3), tag)];
  }

  /** The old answer concludes the new offer. */
  lemma StaleConcludes(users: set<UserId>, a: UserId, b: UserId)
    returns (s: seq<Step>, r: Room, tag: Option<(nat, nat)>)
    requires a != b && a in users && b in users
    ensures At(Init(users), s, r) && Two(r, a, b) && InCall(r, a, b) && r.nextId == 5
    ensures HalfOf(r, a) == Half(Client(true, map[b := Concluded(OfferBy(NewPeer(true), 3), (0, 2))]), [], [])
    ensures HalfOf(r, b) == Half(Client(true, map[a := NewPeer(false)]), [Signal(a, Negotiation.OfferMsg(3), tag)], [])
  {
    hide At, Exec, Next, HandleEvent, RunOperation, Sessions, Init;
    var s1, r1, t, t' := OffersAgain(users, a, b);
    var s2, r2 := Relays(Init(users), s1, r1, b, a);
    assert r2.down[a] == [Signal(b, Negotiation.AnswerMsg((0, 2)), t')];
    var s3, r3 := HearsAnswer(Init(users), s2, r2, a, b, (0, 2));
    assert r3.clients[a].peers == map[b := Concluded(OfferBy(NewPeer(true), 3), (0, 2))];
    s, r := Relays(Init(users), s3, r3, a, b);
    tag := t;
    assert r.down[b] == [Signal(a, Negotiation.OfferMsg(3), t)];
  }

  /** `b` answers an offer that `a` no longer has out. */
  lemma AnswerRefused(start: Room, s0: seq<Step>, r0: Room, a: UserId, b: UserId, p: Peer, q: Peer, x: nat)
    returns (s: seq<Step>, r: Room)
    requires At(start, s0, r0) && Two(r0, a, b) && InCall(r0, a, b)
    requires r0.clients[a] == Client(true, map[b := p]) && r0.down[a] == [] && r0.up[a] == []
    requires r0.clients[b] == Client(true, map[a := q]) && r0.up[b] == []
    requires |r0.down[b]| == 1 && r0.down[b][0].Signal? && r0.down[b][0].user == a
    requires r0.down[b][0].message == Negotiation.OfferMsg(x)
    requires Ready(p) && p.pc && Ready(q)
    ensures At(start, s, r) && Two(r, a, b) && InCall(r, a, b) && Still(r, a, b)
    ensures r.clients[a] == Client(true, map[b := p])
    ensures r.clients[b] == Client(true, map[a := Answered(q, x, r0.nextId + 1)])
  {
    hide At, Exec, Next, HandleEvent, RunOperation, Sessions, Init;
    var y := r0.nextId + 1;
    var s1, r1, t := Answers(start, s0, r0, b, a, x);
    assert HalfOf(r1, b) == Half(Client(true, map[a := Answered(q, x, y)]), [], [SignalFrame(a, Negotiation.AnswerMsg((x, y)), t)]);
    var s2, r2 := Relays(start, s1, r1, b, a);
    assert r2.down[a] == [Signal(b, Negotiation.AnswerMsg((x, y)), t)];
    s, r := HearsAnswer(start, s2, r2, a, b, (x, y));
    assert r.clients[a].peers == map[b := p];
  }

  lemma Reached(start: Room, s: seq<Step>, r: Room)
    requires At(start, s, r)
    ensures r == Exec(start, s)
  {
  }

  /**
   An answer to `a`'s earlier session reaches the server after `a` has joined again: it concludes `a`'s
   new offer, and the answer to that one is refused.
   */
  lemma StaleAnswerSpoils(users: set<UserId>, a: UserId, b: UserId) returns (s: seq<Step>)
    requires a != b && a in users && b in users
    ensures AtOdds(Exec(Init(users), s), a, b) && (a, b) !in Exec(Init(users), s).early
  {
    hide At, Exec, Next, AtOdds, HandleEvent, RunOperation, Sessions, Init;
    var s1, r1, t := StaleConcludes(users, a, b);
    var p, q := Concluded(OfferBy(NewPeer(true), 3), (0, 2)), NewPeer(false);
    var s2, r2 := AnswerRefused(Init(users), s1, r1, a, b, p, q, 3);
    OddsWhenStill(r2, a, b, p, Answered(q, 3, r1.nextId + 1));
    Reached(Init(users), s2, r2);
    s := s2;
  }

  // ----- a record of the session before -----

  /** `a` and `b` have agreed. */
  lemma AgreedOnce(users: set<UserId>, a: UserId, b: UserId) returns (s: seq<Step>, r: Room)
    requires a != b && a in users && b in users
    ensures At(Init(users), s, r) && Two(r, a, b) && Still(r, a, b) && r.members.Keys == {a, b}
    ensures r.members[b] < r.count && r.nextId == 4
    ensures r.clients[a] == Client(true, map[b := Concluded(OfferBy(NewPeer(true), 0), (0, 2))])
    ensures r.clients[b] == Client(true, map[a := Answered(NewPeer(false), 0, 2)])
  {
    hide At, Exec, Next, HandleEvent, RunOperation, Sessions, Init;
    var s1, r1, t := AnswerPending(users, a, b);
    var s2, r2 := Relays(Init(users), s1, r1, b, a);
    assert r2.down[a] == [Signal(b, Negotiation.AnswerMsg((0, 2)), t)];
    s, r := HearsAnswer(Init(users), s2, r2, a, b, (0, 2));
    assert r.clients[a].peers == map[b := Concluded(OfferBy(NewPeer(true), 0), (0, 2))];
  }

  /** `a` leaves and joins again; `b` has not heard of it yet. */
  lemma Returns(start: Room, s0: seq<Step>, r0: Room, a: UserId, b: UserId, q: Peer) returns (s: seq<Step>, r: Room)
    requires At(start, s0, r0) && Two(r0, a, b) && Still(r0, a, b) && r0.clients[a].joined && r0.members.Keys == {a, b}
    requires r0.clients[b] == Client(true, map[a := q]) && r0.members[b] < r0.count
    ensures At(start, s, r) && Two(r, a, b) && InCall(r, a, b) && r.nextId == r0.nextId
    ensures HalfOf(r, a) == Half(Client(true, map[b := NewPeer(true)]), [], [])
    ensures HalfOf(r, b) == Half(Client(true, map[a := q]), [Left(a), Joined(a)], [])
  {
    hide At, Exec, Next;
    var s1, r1 := DepartsUnheard(start, s0, r0, a, b);
    s, r := ArrivesUnheard(start, s1, r1, a, b);
    assert [] + [Left(a)] + [Joined(a)] == [Left(a), Joined(a)];
  }

  /** `b` hears that `a` left and joined again, and then an answer for which it has no connection. */
  lemma CatchesUp(start: Room, s0: seq<Step>, r0: Room, a: UserId, b: UserId, q: Peer, e: Event)
    returns (s: seq<Step>, r: Room)
    requires At(start, s0, r0) && Two(r0, b, a)
    requires HalfOf(r0, b) == Half(Client(true, map[a := q]), [Left(a), Joined(a), e], [])
    requires e.Signal? && e.user == a && e.message.kind == AnswerKind
    ensures At(start, s, r) && Two(r, b, a) && SameCall(r0, r) && HalfOf(r, a) == HalfOf(r0, a)
    ensures HalfOf(r, b) == Half(Client(true, map[a := NewPeer(false)]), [], [])
  {
    hide At, Exec, Next;
    assert [Left(a), Joined(a), e][1..] == [Joined(a), e] && [Joined(a), e][1..] == [e] && [e][1..] == [];
    var s1, r1 := Hears(start, s0, r0, b, a);
    assert r1.clients[b].peers == map[];
    var s2, r2 := Hears(start, s1, r1, b, a);
    assert r2.clients[b].peers == map[a := NewPeer(false)];
    s, r := Hears(start, s2, r2, b, a);
    assert r.clients[b].peers == map[a := NewPeer(false)];
  }

  /** `a` is back, and hears an offer from the record that `b` still has of its earlier session. */
  lemma OldRecordOffers(users: set<UserId>, a: UserId, b: UserId, q: Peer) returns (s: seq<Step>, r: Room)
    requires a != b && a in users && b in users && q == Answered(NewPeer(false), 0, 2)
    ensures At(Init(users), s, r) && Two(r, a, b) && InCall(r, a, b) && r.nextId == 5
    ensures r.clients[a] == Client(true, map[b := NewPeer(true)]) && r.up[a] == []
    ensures |r.down[a]| == 1 && r.down[a][0].Signal? && r.down[a][0].user == b
    ensures r.down[a][0].message == Negotiation.OfferMsg(4)
    ensures HalfOf(r, b) == Half(Client(true, map[a := OfferBy(q, 4)]), [Left(a), Joined(a)], [])
  {
    hide At, Exec, Next, HandleEvent, RunOperation, Sessions, Init, Concluded, Answered;
    var s1, r1 := AgreedOnce(users, a, b);
    var s2, r2 := Returns(Init(users), s1, r1, a, b, q);
    AnsweredIsReady(q);
    var s3, r3 := Offers(Init(users), s2, r2, b, a);
    assert r3.clients[b].peers == map[a := OfferBy(q, 4)] && |r3.up[b]| == 1;
    s, r := Relays(Init(users), s3, r3, b, a);
    assert r.up[b] == [] && r.clients[b] == Client(true, map[a := OfferBy(q, 4)]);
  }

  lemma AnsweredIsReady(q: Peer)
    requires q == Answered(NewPeer(false), 0, 2)
    ensures MayNegotiate(q)
  {
  }

  /**
   Nothing is on its way between the two when `a` is let in again; but `b` has not yet heard that `a`
   left, and makes an offer from the record it still has. `a` answers it; `b` no longer has the record.
   */
  lemma OldRecordSpoils(users: set<UserId>, a: UserId, b: UserId) returns (s: seq<Step>)
    requires a != b && a in users && b in users
    ensures AtOdds(Exec(Init(users), s), a, b) && (a, b) !in Exec(Init(users), s).early
  {
    hide At, Exec, Next, AtOdds, HandleEvent, RunOperation, Sessions, Init;
    var q, p := Answered(NewPeer(false), 0, 2), Answered(NewPeer(true), 4, 6);
    var s4, r4 := OldRecordOffers(users, a, b, q);
    var s5, r5, t := Answers(Init(users), s4, r4, a, b, 4);
    assert r5.clients[a].peers == map[b := p] && r5.up[a] == [SignalFrame(b, Negotiation.AnswerMsg((4, 6)), t)];
    var s6, r6 := Relays(Init(users), s5, r5, a, b);
    var e := Signal(a, Negotiation.AnswerMsg((4, 6)), t);
    assert r6.down[b] == [Left(a), Joined(a), e] && r6.up[a] == [];
    var s7, r7 := CatchesUp(Init(users), s6, r6, a, b, OfferBy(q, 4), e);
    OddsWhenStill(r7, a, b, p, NewPeer(false));
    Reached(Init(users), s7, r7);
    s := s7;
  }

  // ----- an offer of the session before -----

  /** `b`'s offer is on its way to `a`, who leaves and presses join again before hearing it. */
  lemma HeardTooSoon(users: set<UserId>, a: UserId, b: UserId) returns (s: seq<Step>, r: Room)
    requires a != b && a in users && b in users
    ensures At(Init(users), s, r) && Two(r, a, b) && r.members.Keys == {a, b} && r.members[b] < r.count && r.nextId == 5
    ensures HalfOf(r, a) == Half(Client(true, map[b := Heeding(NewPeer(false), 4)]), [], [LeaveFrame, JoinFrame])
    ensures HalfOf(r, b) == Half(Client(true, map[a := OfferBy(Answered(NewPeer(false), 0, 2), 4)]), [], [])
  {
    hide At, Exec, Next;
    var s1, r1 := AgreedOnce(users, a, b);
    var s2, r2 := Offers(Init(users), s1, r1, b, a);
    assert r2.clients[b].peers == map[a := OfferBy(Answered(NewPeer(false), 0, 2), 4)] && |r2.up[b]| == 1;
    var s3, r3 := Relays(Init(users), s2, r2, b, a);
    assert |r3.down[a]| == 1 && r3.up[b] == [];
    var s4, r4 := Presses(Init(users), s3, r3, a, b);
    var s5, r5 := Presses(Init(users), s4, r4, a, b);
    assert r5.up[a] == [LeaveFrame, JoinFrame];
    s, r := Hears(Init(users), s5, r5, a, b);
    assert Receive(NewPeer(false), Negotiation.OfferMsg(4)) == Heeding(NewPeer(false), 4);
    assert r.clients[a].peers == map[b := Heeding(NewPeer(false), 4)] && r.down[a] == [];
  }

  lemma PoliteAhead(r: Room, a: UserId, b: UserId)
    requires WellFormed(r) && a in r.clients && b in r.clients[a].peers && r.clients[a].peers[b].polite
    requires r.down[a] == [Left(a)] && a != b
    ensures RoleAhead(r, a, b) == Some(true)
  {
    KeptWithoutLeft(r.down[a], a, b, true);
  }

  /** The server lets `a` go and in again: it is told early. */
  lemma LetInEarly(users: set<UserId>, a: UserId, b: UserId) returns (s: seq<Step>, r: Room)
    requires a != b && a in users && b in users
    ensures At(Init(users), s, r) && Two(r, a, b) && r.nextId == 5 && (a, b) in r.early && (a, b) !in r.lost
    ensures (b, a) !in r.lost
    ensures a in r.members && b in r.members && r.members[b] < r.members[a]
    ensures HalfOf(r, a) == Half(Client(true, map[b := Heeding(NewPeer(false), 4)]), [Left(a), Roster({b}, r.members[a]), Joined(a)], [])
    ensures HalfOf(r, b) == Half(Client(true, map[a := OfferBy(Answered(NewPeer(false), 0, 2), 4)]), [Left(a), Joined(a)], [])
  {
    hide At, Exec, Next, Role;
    var s1, r1 := HeardTooSoon(users, a, b);
    assert [LeaveFrame, JoinFrame][1..] == [JoinFrame] && [JoinFrame][1..] == [];
    var s2, r2 := LetsOut(Init(users), s1, r1, a, b);
    assert r2.down[a] == [Left(a)] && r2.down[b] == [Left(a)] && r2.members.Keys == {b} && r2.up[a] == [JoinFrame];
    PoliteAhead(r2, a, b);
    s, r := LetsIn(Init(users), s2, r2, a, b);
    assert r.down[a] == [Left(a), Roster({b}, r.members[a]), Joined(a)] && r.down[b] == [Left(a), Joined(a)];
  }

  /** The record `a` made too soon outlives the roster. */
  lemma KeepsEarlyRecord(users: set<UserId>, a: UserId, b: UserId) returns (s: seq<Step>, r: Room)
    requires a != b && a in users && b in users
    ensures At(Init(users), s, r) && Two(r, a, b) && r.nextId == 5 && (a, b) in r.early && (a, b) !in r.lost
    ensures (b, a) !in r.lost
    ensures a in r.members && b in r.members && r.members[b] < r.members[a]
    ensures HalfOf(r, a) == Half(Client(true, map[b := Heeding(NewPeer(false), 4)]), [], [])
    ensures HalfOf(r, b) == Half(Client(true, map[a := OfferBy(Answered(NewPeer(false), 0, 2), 4)]), [Left(a), Joined(a)], [])
  {
    hide At, Exec, Next, AddRoster, Heeding;
    var s1, r1 := LetInEarly(users, a, b);
    var roster := Roster({b}, r1.members[a]);
    assert [Left(a), roster, Joined(a)][1..] == [roster, Joined(a)] && [roster, Joined(a)][1..] == [Joined(a)] && [Joined(a)][1..] == [];
    var s2, r2 := Hears(Init(users), s1, r1, a, b);
    assert r2.clients[a].peers == map[b := Heeding(NewPeer(false), 4)];
    RosterChangesNothing(b, Heeding(NewPeer(false), 4));
    var s3, r3 := Hears(Init(users), s2, r2, a, b);
    s, r := Hears(Init(users), s3, r3, a, b);
  }

  lemma RosterChangesNothing(b: UserId, p: Peer)
    ensures AddRoster(map[b := p], {b}) == map[b := p]
  {
  }

  /**
   An offer to `a`'s earlier session is heard by `a` after it has pressed join again: the pair is early,
   and both are polite, but `a` has a connection and may still offer.
   */
  lemma StaleOfferSpoils(users: set<UserId>, a: UserId, b: UserId) returns (s: seq<Step>)
    requires a != b && a in users && b in users
    ensures AtOdds(Exec(Init(users), s), a, b)
    ensures var r := Exec(Init(users), s);
            && (a, b) in r.early && r.clients[a].peers[b].polite && r.clients[b].peers[a].polite
            && r.clients[a].peers[b].pc && Enabled(r, Need(a, b))
  {
    hide At, Exec, Next, AtOdds, HandleEvent, RunOperation, Sessions, Init;
    var p := Answered(NewPeer(false), 4, 6);
    var s1, r1 := KeepsEarlyRecord(users, a, b);
    var s2, r2, t := Applies(Init(users), s1, r1, a, b, NewPeer(false), 4);
    assert HalfOf(r2, a) == Half(Client(true, map[b := p]), [], [SignalFrame(b, Negotiation.AnswerMsg((4, 6)), t)]);
    var s3, r3 := Relays(Init(users), s2, r2, a, b);
    var e := Signal(a, Negotiation.AnswerMsg((4, 6)), t);
    assert r3.down[b] == [Left(a), Joined(a), e];
    var s4, r4 := CatchesUp(Init(users), s3, r3, a, b, r3.clients[b].peers[a], e);
    OddsWhenStill(r4, a, b, p, NewPeer(false));
    Reached(Init(users), s4, r4);
    s := s4;
  }

  // ----- what repairs them -----

  /**
   Whatever has gone astray, and whether the joins raced or not: when nothing is on its way between two users
   who are in the call and whose records are stable, one offer by either brings them to agreement.
   */
  lemma OfferHeals(r0: Room, a: UserId, b: UserId) returns (s: seq<Step>)
    requires Two(r0, a, b) && Still(r0, a, b) && r0.clients[a].joined && r0.clients[b].joined
    requires a in r0.members && b in r0.members && b in r0.clients[a].peers && a in r0.clients[b].peers
    requires Ready(r0.clients[a].peers[b]) && r0.clients[a].peers[b].pc && Ready(r0.clients[b].peers[a])
    ensures var r := Exec(r0, s); Two(r, a, b) && Linked(r, a, b) && AtRest(r, a, b) && Agree(r, a, b)
  {
    assert At(r0, [], r0);
    hide At, Exec, Next, HandleEvent, RunOperation, Sessions, Init;
    var p, q, x := r0.clients[a].peers[b], r0.clients[b].peers[a], r0.nextId;
    var s1, r1 := Offers(r0, [], r0, a, b);
    assert |r1.up[a]| == 1;
    var s2, r2 := Relays(r0, s1, r1, a, b);
    assert |r2.down[b]| == 1 && r2.up[a] == [];
    var s3, r3, t := Answers(r0, s2, r2, b, a, x);
    assert |r3.up[b]| == 1 && r3.down[b] == [];
    var s4, r4 := Relays(r0, s3, r3, b, a);
    assert |r4.down[a]| == 1 && r4.up[b] == [];
    var s5, r5 := HearsAnswer(r0, s4, r4, a, b, (x, r2.nextId + 1));
    assert r5.clients[a].peers[b] == Concluded(OfferBy(p, x), (x, r2.nextId + 1));
    assert r5.clients[b].peers[a] == Answered(q, x, r2.nextId + 1);
    AgreeWhenStill(r5, a, b);
    Reached(r0, s5, r5);
    s := s5;
  }

  lemma AgreeWhenStill(r: Room, a: UserId, b: UserId)
    requires Two(r, a, b) && Still(r, a, b) && a in r.members && b in r.members
    requires b in r.clients[a].peers && a in r.clients[b].peers && Ready(r.clients[a].peers[b])
    requires Ready(r.clients[b].peers[a])
    requires r.clients[a].peers[b].current == r.clients[b].peers[a].current
    ensures Linked(r, a, b) && AtRest(r, a, b) && Agree(r, a, b)
  {
  }
}
