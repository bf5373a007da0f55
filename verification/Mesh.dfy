/**
 A voice room: the peer records every browser keeps while users join and leave, and the offers and
 answers they send each other over the server. The server handles one frame at a time; each client
 has a FIFO queue of frames to the server and one of events from it. Joined and left events go to
 everybody who has the room open, in the call or not; the roster goes to the joiner alone, and a
 signal to the user it names.
 */
module Mesh {
  import opened Wrappers
  import opened PeerModel

  type UserId = nat

  /**
   The numbers are kept for the theorems only; no client sees them: a roster has the number of the
   session it was sent for, and a signal those of its sender and its receiver, if the sender's record
   belonged to the sessions both were in.
   */
  datatype Event =
    | Roster(users: set<UserId>, session: nat)
    | Joined(user: UserId)
    | Left(user: UserId)
    | Signal(user: UserId, message: Message, sessions: Option<(nat, nat)>)

  datatype Frame = JoinFrame | LeaveFrame | SignalFrame(to: UserId, message: Message, sessions: Option<(nat, nat)>)

  datatype Client = Client(joined: bool, peers: map<UserId, Peer>)

  function AddPeer(peers: map<UserId, Peer>, user: UserId, iAmOfferer: bool): map<UserId, Peer> {
    if user in peers then peers else peers[user := NewPeer(iAmOfferer)]
  }

  function AddRoster(peers: map<UserId, Peer>, users: set<UserId>): map<UserId, Peer> {
    (map u | u in users :: NewPeer(true)) + peers
  }

  /** An offer makes the record it needs; an answer without a record is dropped. */
  function HearSignal(peers: map<UserId, Peer>, user: UserId, m: Message): map<UserId, Peer> {
    if m.kind == OfferKind then
      var known := AddPeer(peers, user, false);
      known[user := Receive(known[user], m)]
    else if user in peers then peers[user := Receive(peers[user], m)]
    else peers
  }

  function HandleEvent(c: Client, self: UserId, e: Event): Client {
    match e
    case Roster(users, _) => if c.joined then c.(peers := AddRoster(c.peers, users)) else c
    case Joined(u) => if c.joined && u != self then c.(peers := AddPeer(c.peers, u, false)) else c
    case Left(u) => c.(peers := c.peers - {u})
    case Signal(u, m, _) => if c.joined then c.(peers := HearSignal(c.peers, u, m)) else c
  }

  lemma EmptyRoster(peers: map<UserId, Peer>)
    ensures AddRoster(peers, {}) == peers
  {
  }

  lemma RosterAdds(peers: map<UserId, Peer>, users: set<UserId>, u: UserId)
    ensures AddRoster(peers, users + {u}) == AddPeer(AddRoster(peers, users), u, true)
  {
    var more, one := AddRoster(peers, users + {u}), AddPeer(AddRoster(peers, users), u, true);
    assert more.Keys == one.Keys;
    assert forall v :: v in more ==> more[v] == one[v];
  }

  function Users(list: seq<UserId>): set<UserId> {
    set u | u in list
  }

  /** The roster one entry at a time. */
  lemma RosterGrows(peers: map<UserId, Peer>, list: seq<UserId>, i: nat)
    requires i < |list|
    ensures AddRoster(peers, Users(list[..i + 1])) == AddPeer(AddRoster(peers, Users(list[..i])), list[i], true)
  {
    hide AddRoster, AddPeer;
    assert list[..i + 1] == list[..i] + [list[i]];
    assert Users(list[..i + 1]) == Users(list[..i]) + {list[i]};
    RosterAdds(peers, Users(list[..i]), list[i]);
  }

  /** The module state of voice.js that events act on. */
  class VoiceClient {
    const self: UserId
    var joined: bool
    var peers: map<UserId, Peer>
    var sent: seq<Frame>

    function ToClient(): Client
      reads this
    {
      Client(joined, peers)
    }

    constructor (self: UserId)
      ensures this.self == self && ToClient() == Client(false, map[]) && sent == []
    {
      this.self, joined, peers, sent := self, false, map[], [];
    }

    method Add(user: UserId, iAmOfferer: bool)
      modifies this`peers
      ensures peers == AddPeer(old(peers), user, iAmOfferer)
    {
      if user in peers {
        return;
      }
      peers := peers[user := NewPeer(iAmOfferer)];
    }

    method Remove(user: UserId)
      modifies this`peers
      ensures peers == old(peers) - {user}
    {
      if user !in peers {
        return;
      }
      peers := peers - {user};
    }

    method Join()
      modifies this
      ensures ToClient() == Client(true, old(peers))
      ensures sent == if old(joined) then old(sent) else old(sent) + [JoinFrame]
    {
      if joined {
        return;
      }
      joined := true;
      sent := sent + [JoinFrame];
    }

    method Leave()
      modifies this
      ensures old(joined) ==> ToClient() == Client(false, map[]) && sent == old(sent) + [LeaveFrame]
      ensures !old(joined) ==> ToClient() == old(ToClient()) && sent == old(sent)
    {
      if !joined {
        return;
      }
      sent := sent + [LeaveFrame];
      while peers != map[]
        invariant joined == old(joined) && sent == old(sent) + [LeaveFrame]
        decreases |peers|
      {
        var u :| u in peers;
        ghost var before := peers;
        Remove(u);
        assert before == peers[u := before[u]];
      }
      joined := false;
    }

    method OnRoster(list: seq<UserId>, ghost session: nat)
      modifies this`peers
      ensures ToClient() == HandleEvent(old(ToClient()), self, Roster(Users(list), session))
    {
      if !joined {
        return;
      }
      EmptyRoster(peers);
      assert Users(list[..0]) == {} && list[..|list|] == list;
      for i := 0 to |list|
        invariant peers == AddRoster(old(peers), Users(list[..i]))
      {
        hide AddRoster;
        RosterGrows(old(peers), list, i);
        Add(list[i], true);
      }
    }

    method OnJoined(user: UserId)
      modifies this`peers
      ensures ToClient() == HandleEvent(old(ToClient()), self, Joined(user))
    {
      if joined && user != self {
        Add(user, false);
      }
    }

    method OnLeft(user: UserId)
      modifies this`peers
      ensures ToClient() == HandleEvent(old(ToClient()), self, Left(user))
    {
      Remove(user);
    }

    method OnOffer(user: UserId, desc: Description, ghost sessions: Option<(nat, nat)>)
      modifies this`peers
      ensures ToClient() == HandleEvent(old(ToClient()), self, Signal(user, Message(OfferKind, desc), sessions))
    {
      if !joined {
        return;
      }
      if user !in peers {
        Add(user, false);
      }
      peers := peers[user := ReceiveOffer(peers[user], desc)];
    }

    method OnAnswer(user: UserId, desc: Description, ghost sessions: Option<(nat, nat)>)
      modifies this`peers
      ensures ToClient() == HandleEvent(old(ToClient()), self, Signal(user, Message(AnswerKind, desc), sessions))
    {
      if !joined || user !in peers {
        return;
      }
      peers := peers[user := ReceiveAnswer(peers[user], desc)];
    }
  }

  // ----- the room -----

  /**
   `members` numbers the sessions: each user in the call, in the order in which the server let them
   in. `nextId` numbers descriptions. The rest is kept for the theorems only. `early` are the pairs
   (c, x) for which c, already joined on its own side, was told of member x ahead of its roster;
   `stray` those for which c's record of x was made or changed by something meant for another session
   of c; `lost` those for which c dropped an offer of x while it still had an answer to apply.
   */
  datatype Room = Room(
    clients: map<UserId, Client>,
    down: map<UserId, seq<Event>>,
    up: map<UserId, seq<Frame>>,
    members: map<UserId, nat>,
    count: nat,
    nextId: nat,
    early: set<(UserId, UserId)>,
    stray: set<(UserId, UserId)>,
    lost: set<(UserId, UserId)>)

  datatype Step =
    | ClickJoin(user: UserId)
    | ClickLeave(user: UserId)
    | Need(user: UserId, peer: UserId)
    | Run(user: UserId, peer: UserId)
    | Serve(user: UserId)
    | See(user: UserId)

  predicate WellFormed(r: Room) {
    r.clients.Keys == r.down.Keys == r.up.Keys && r.members.Keys <= r.clients.Keys
  }

  function Init(users: set<UserId>): Room {
    Room(map u | u in users :: Client(false, map[]), map u | u in users :: [], map u | u in users :: [],
         map[], 0, 0, {}, {}, {})
  }

  function Broadcast(down: map<UserId, seq<Event>>, e: Event): map<UserId, seq<Event>> {
    map u | u in down :: down[u] + [e]
  }

  /** Who gives way in the record of `x`, if there is one. */
  function Get(peers: map<UserId, Peer>, x: UserId): Option<bool> {
    if x in peers then Some(peers[x].polite) else None
  }

  /** What one event does to the record of `x`, for a client that has joined. */
  function RoleStep(e: Event, self: UserId, x: UserId, role: Option<bool>): Option<bool> {
    match e
    case Roster(users, _) => if x in users && role.None? then Some(false) else role
    case Joined(u) => if u == x && x != self && role.None? then Some(true) else role
    case Left(u) => if u == x then None else role
    case Signal(u, m, _) => if u == x && m.kind == OfferKind && role.None? then Some(true) else role
  }

  function Role(q: seq<Event>, self: UserId, x: UserId, role: Option<bool>): Option<bool> {
    if q == [] then role else Role(q[1..], self, x, RoleStep(q[0], self, x, role))
  }

  /** Who gives way in the record of `x` that `c` will hold after the events already on their way. */
  function RoleAhead(r: Room, c: UserId, x: UserId): Option<bool>
    requires WellFormed(r) && c in r.clients
  {
    Role(r.down[c], c, x, Get(r.clients[c].peers, x))
  }

  /** The server counts `c` in, and `c` has not left since. */
  predicate InSession(r: Room, c: UserId)
    requires WellFormed(r) && c in r.clients
  {
    c in r.members && LeaveFrame !in r.up[c]
  }

  predicate Enabled(r: Room, step: Step)
    requires WellFormed(r)
  {
    && step.user in r.clients
    && match step
       case ClickJoin(c) => !r.clients[c].joined
       case ClickLeave(c) => r.clients[c].joined
       case Need(c, x) => x in r.clients[c].peers && MayNegotiate(r.clients[c].peers[x])
       case Run(c, x) => x in r.clients[c].peers && r.clients[c].peers[x].chain != []
       case Serve(c) => r.up[c] != []
       case See(c) => r.down[c] != []
  }

  /** The sessions a signal of `c` to `x` belongs to: none if `c` is not in session, or has yet to hear that `x` left. */
  function Sessions(r: Room, c: UserId, x: UserId): Option<(nat, nat)>
    requires WellFormed(r) && c in r.clients
  {
    if InSession(r, c) && x in r.members && Left(x) !in r.down[c] then Some((r.members[c], r.members[x])) else None
  }

  function Touching(pairs: set<(UserId, UserId)>, c: UserId): set<(UserId, UserId)> {
    set e | e in pairs && (e.0 == c || e.1 == c)
  }

  function ServeJoin(r: Room, c: UserId): (r': Room)
    requires WellFormed(r) && c in r.clients
    ensures WellFormed(r') && r'.clients.Keys == r.clients.Keys
  {
    var toldEarly := set x | x in r.members.Keys && RoleAhead(r, c, x) == Some(true) :: (c, x);
    var rosterSent := r.down[c := r.down[c] + [Roster(r.members.Keys, r.count)]];
    r.(down := Broadcast(rosterSent, Joined(c)),
       members := r.members[c := r.count],
       count := r.count + 1,
       early := (r.early - Touching(r.early, c)) + toldEarly,
       lost := r.lost - Touching(r.lost, c))
  }

  function ServeLeave(r: Room, c: UserId): (r': Room)
    requires WellFormed(r)
    ensures WellFormed(r') && r'.clients.Keys == r.clients.Keys
  {
    if c in r.members then
      r.(down := Broadcast(r.down, Left(c)),
         members := r.members - {c},
         early := r.early - Touching(r.early, c))
    else r
  }

  function ServeSignal(r: Room, c: UserId, f: Frame): (r': Room)
    requires WellFormed(r) && f.SignalFrame?
    ensures WellFormed(r') && r'.clients.Keys == r.clients.Keys
  {
    if c in r.members && f.to in r.members then
      r.(down := r.down[f.to := r.down[f.to] + [Signal(c, f.message, f.sessions)]])
    else r
  }

  /** What the event was meant for is not the session `c` is in. */
  predicate Stray(r: Room, c: UserId, e: Event)
    requires WellFormed(r) && c in r.clients
  {
    match e
    case Roster(_, session) => !(InSession(r, c) && session == r.members[c])
    case Signal(_, _, sessions) => !(InSession(r, c) && sessions.Some? && sessions.value.1 == r.members[c])
    case _ => false
  }

  /** The signal is one of the two sessions that its sender and `c` are in. */
  predicate BetweenSessions(r: Room, c: UserId, e: Event)
    requires WellFormed(r) && c in r.clients && e.Signal?
  {
    InSession(r, c) && e.user in r.members && e.sessions == Some((r.members[e.user], r.members[c]))
  }

  /** The record was made, or has something new to apply. */
  predicate Affected(before: map<UserId, Peer>, after: map<UserId, Peer>, x: UserId) {
    x in after && (x !in before || before[x].chain != after[x].chain)
  }

  function SeeNext(r: Room, c: UserId): (r': Room)
    requires WellFormed(r) && c in r.clients && r.down[c] != []
    ensures WellFormed(r') && r'.clients.Keys == r.clients.Keys
  {
    var e, before := r.down[c][0], r.clients[c];
    var after := HandleEvent(before, c, e);
    var gone := set p | p in r.stray && p.0 == c && p.1 !in after.peers;
    var hit := if Stray(r, c, e) then set x | x in after.peers.Keys && Affected(before.peers, after.peers, x) :: (c, x) else {};
    var drops := e.Signal? && BetweenSessions(r, c, e) && e.user in before.peers
                 && DropsWhileSettling(before.peers[e.user], e.message);
    r.(clients := r.clients[c := after], down := r.down[c := r.down[c][1..]],
       stray := r.stray - gone + hit,
       lost := if drops then r.lost + {(c, e.user)} else r.lost)
  }

  function SetPeer(r: Room, c: UserId, x: UserId, p: Peer): map<UserId, Client>
    requires WellFormed(r) && c in r.clients
  {
    r.clients[c := r.clients[c].(peers := r.clients[c].peers[x := p])]
  }

  function RunNext(r: Room, c: UserId, x: UserId): (r': Room)
    requires WellFormed(r) && Enabled(r, Run(c, x))
    ensures WellFormed(r') && r'.clients.Keys == r.clients.Keys
  {
    var p := r.clients[c].peers[x];
    var (p', sent) := RunOperation(p, r.nextId);
    r.(clients := SetPeer(r, c, x, p'),
       up := if sent.Some? then r.up[c := r.up[c] + [SignalFrame(x, sent.value, Sessions(r, c, x))]] else r.up,
       nextId := r.nextId + 1,
       lost := if RollsBack(p) then r.lost - {(x, c)} else r.lost)
  }

  function Next(r: Room, step: Step): (r': Room)
    requires WellFormed(r) && Enabled(r, step)
    ensures WellFormed(r') && r'.clients.Keys == r.clients.Keys
  {
    match step
    case ClickJoin(c) =>
      r.(clients := r.clients[c := r.clients[c].(joined := true)], up := r.up[c := r.up[c] + [JoinFrame]])
    case ClickLeave(c) =>
      r.(clients := r.clients[c := Client(false, map[])], up := r.up[c := r.up[c] + [LeaveFrame]],
         stray := set p | p in r.stray && p.0 != c)
    case Need(c, x) =>
      r.(clients := SetPeer(r, c, x, NegotiationNeeded(r.clients[c].peers[x])))
    case Run(c, x) =>
      RunNext(r, c, x)
    case Serve(c) =>
      var r1 := r.(up := r.up[c := r.up[c][1..]]);
      (match r.up[c][0]
       case JoinFrame => ServeJoin(r1, c)
       case LeaveFrame => ServeLeave(r1, c)
       case SignalFrame(_, _, _) => ServeSignal(r1, c, r.up[c][0]))
    case See(c) =>
      SeeNext(r, c)
  }

  // ----- the invariant -----

  /** Frames under way alternate between joining and leaving, and end in what the client believes. */
  predicate Alternates(up: seq<Frame>, self: UserId, member: bool, joined: bool) {
    if up == [] then member == joined
    else match up[0]
      case JoinFrame => !member && Alternates(up[1..], self, true, joined)
      case LeaveFrame => member && Alternates(up[1..], self, false, joined)
      case SignalFrame(to, _, _) => to != self && Alternates(up[1..], self, member, joined)
  }

  /** Nothing on its way leaves `c` with a record of a user who is out of the call. */
  ghost predicate Forgets(r: Room, c: UserId, x: UserId)
    requires WellFormed(r) && c in r.clients
  {
    x == c || x !in r.members ==>
      RoleAhead(r, c, x) == None && Role(r.down[c], c, x, None) == None
  }

  /** `c` ends up polite towards later joiners, the offerer towards earlier ones, unless told early. */
  ghost predicate Ordered(r: Room, c: UserId, x: UserId)
    requires WellFormed(r) && c in r.clients
  {
    InSession(r, c) && x in r.members && x != c ==>
      RoleAhead(r, c, x) == Some(r.members[x] > r.members[c] || (c, x) in r.early)
  }

  ghost predicate PairValid(r: Room, d: UserId, x: UserId)
    requires WellFormed(r) && d in r.clients
  {
    Forgets(r, d, x) && Ordered(r, d, x)
  }

  predicate NotAboutSelf(e: Event, self: UserId) {
    (e.Roster? ==> self !in e.users) && (e.Signal? ==> e.user != self)
  }

  ghost predicate ClientValid(r: Room, c: UserId)
    requires WellFormed(r) && c in r.clients
  {
    && (!r.clients[c].joined ==> r.clients[c].peers == map[])
    && c !in r.clients[c].peers
    && (forall e :: e in r.down[c] ==> NotAboutSelf(e, c))
    && Alternates(r.up[c], c, c in r.members, r.clients[c].joined)
  }

  ghost predicate NumbersValid(r: Room) {
    && (forall x :: x in r.members ==> r.members[x] < r.count)
    && (forall x, y :: x in r.members && y in r.members && x != y ==> r.members[x] != r.members[y])
    && (forall c, x :: (c, x) in r.early ==> c in r.members && x in r.members && r.members[x] < r.members[c])
  }

  ghost predicate Inv(r: Room) {
    && WellFormed(r)
    && NumbersValid(r)
    && (forall c :: c in r.clients ==> ClientValid(r, c))
    && (forall c, x :: c in r.clients ==> PairValid(r, c, x))
  }

  // ----- queues -----

  lemma {:induction false} RoleAppend(q: seq<Event>, e: Event, self: UserId, x: UserId, role: Option<bool>)
    ensures Role(q + [e], self, x, role) == RoleStep(e, self, x, Role(q, self, x, role))
  {
    if q == [] {
      assert (q + [e])[1..] == [];
    } else {
      assert (q + [e])[1..] == q[1..] + [e];
      RoleAppend(q[1..], e, self, x, RoleStep(q[0], self, x, role));
    }
  }

  /** If even a present record ends up removed, so does an absent one. */
  lemma {:induction false} RemovedAnyway(q: seq<Event>, self: UserId, x: UserId, polite: bool)
    requires Role(q, self, x, Some(polite)) == None
    ensures Role(q, self, x, None) == None
  {
    if q != [] && q[0] != Left(x) {
      RemovedAnyway(q[1..], self, x, polite);
      var after := RoleStep(q[0], self, x, None);
      if after.Some? {
        SameEnd(q[1..], self, x, polite, after.value);
      }
    }
  }

  lemma {:induction false} SameEnd(q: seq<Event>, self: UserId, x: UserId, p: bool, p': bool)
    ensures Role(q, self, x, Some(p)) == None <==> Role(q, self, x, Some(p')) == None
  {
    if q != [] && q[0] != Left(x) {
      SameEnd(q[1..], self, x, p, p');
    }
  }

  lemma {:induction false} KeptWithoutLeft(q: seq<Event>, self: UserId, x: UserId, polite: bool)
    requires Left(x) !in q
    ensures Role(q, self, x, Some(polite)) == Some(polite)
  {
    if q != [] {
      KeptWithoutLeft(q[1..], self, x, polite);
    }
  }

  lemma {:induction false} AlternatesAppend(up: seq<Frame>, f: Frame, self: UserId, member: bool, joined: bool)
    requires Alternates(up, self, member, joined)
    requires f == JoinFrame ==> !joined
    requires f == LeaveFrame ==> joined
    requires f.SignalFrame? ==> f.to != self
    ensures Alternates(up + [f], self, member, if f.SignalFrame? then joined else f == JoinFrame)
  {
    if up == [] {
      assert (up + [f])[1..] == [];
    } else {
      assert (up + [f])[1..] == up[1..] + [f];
      AlternatesAppend(up[1..], f, self,
        if up[0].SignalFrame? then member else up[0] == JoinFrame, joined);
    }
  }

  lemma {:induction false} MemberStaysJoined(up: seq<Frame>, self: UserId, joined: bool)
    requires Alternates(up, self, true, joined) && LeaveFrame !in up
    ensures joined && JoinFrame !in up
  {
    if up != [] {
      MemberStaysJoined(up[1..], self, joined);
    }
  }

  // ----- preservation, one client and one pair at a time -----

  /** What a step may rely on about the client that acts and about client `d`. */
  ghost predicate Ready(r: Room, step: Step, d: UserId) {
    WellFormed(r) && Enabled(r, step) && d in r.clients && ClientValid(r, step.user) && ClientValid(r, d)
  }

  lemma ClickKeepsClient(r: Room, step: Step, d: UserId)
    requires Ready(r, step, d) && (step.ClickJoin? || step.ClickLeave?)
    ensures ClientValid(Next(r, step), d)
  {
    if d == step.user {
      AlternatesAppend(r.up[d], if step.ClickJoin? then JoinFrame else LeaveFrame, d, d in r.members, r.clients[d].joined);
    }
  }

  lemma ClickKeepsPair(r: Room, step: Step, d: UserId, x: UserId)
    requires Ready(r, step, d) && (step.ClickJoin? || step.ClickLeave?) && PairValid(r, d, x)
    ensures PairValid(Next(r, step), d, x)
  {
    if d == step.user && InSession(r, d) {
      MemberStaysJoined(r.up[d], d, r.clients[d].joined);
    }
  }

  /** What Need and Run have in common: a record changes, but not who gives way in it. */
  lemma RecordChanges(r: Room, step: Step)
    requires WellFormed(r) && Enabled(r, step) && (step.Need? || step.Run?)
    ensures var r' := Next(r, step); var c := step.user;
            && WellFormed(r')
            && r'.down == r.down && r'.members == r.members && r'.early == r.early && r'.count == r.count && r'.stray == r.stray
            && (forall d :: d in r.clients && d != c ==> r'.clients[d] == r.clients[d] && r'.up[d] == r.up[d])
            && r'.clients[c].joined == r.clients[c].joined
            && r'.clients[c].peers.Keys == r.clients[c].peers.Keys
            && (forall x :: x in r.clients[c].peers && x != step.peer ==> r'.clients[c].peers[x] == r.clients[c].peers[x])
            && r'.clients[c].peers[step.peer].polite == r.clients[c].peers[step.peer].polite
            && (r'.up[c] == r.up[c] || (|r'.up[c]| == |r.up[c]| + 1 && r'.up[c][..|r.up[c]|] == r.up[c]
                                        && r'.up[c][|r.up[c]|].SignalFrame? && r'.up[c][|r.up[c]|].to == step.peer))
  {
    hide RunOperation, NegotiationNeeded, MayNegotiate, RollsBack, Sessions, NewPeer;
    PolitenessStays(r.clients[step.user].peers[step.peer], r.nextId);
  }

  lemma RecordKeepsClient(r: Room, step: Step, d: UserId)
    requires Ready(r, step, d) && (step.Need? || step.Run?)
    ensures ClientValid(Next(r, step), d)
  {
    RecordChanges(r, step);
    var r' := Next(r, step);
    hide Next;
    if d == step.user && r'.up[d] != r.up[d] {
      var f := r'.up[d][|r.up[d]|];
      assert r'.up[d] == r.up[d] + [f];
      AlternatesAppend(r.up[d], f, d, d in r.members, r.clients[d].joined);
    }
  }

  lemma RecordKeepsPair(r: Room, step: Step, d: UserId, x: UserId)
    requires Ready(r, step, d) && (step.Need? || step.Run?) && PairValid(r, d, x)
    ensures PairValid(Next(r, step), d, x)
  {
    hide Next, Role;
    RecordChanges(r, step);
    var r' := Next(r, step);
    assert Get(r'.clients[d].peers, x) == Get(r.clients[d].peers, x);
    assert InSession(r', d) == InSession(r, d);
  }

  lemma SeeKeepsClient(r: Room, c: UserId, d: UserId)
    requires Ready(r, See(c), d)
    ensures ClientValid(Next(r, See(c)), d)
  {
    assert r.down[c][0] in r.down[c];
  }

  lemma SeeKeepsPair(r: Room, c: UserId, d: UserId, x: UserId)
    requires Ready(r, See(c), d) && PairValid(r, d, x)
    ensures PairValid(Next(r, See(c)), d, x)
  {
    if d == c {
      var e := r.down[c][0];
      if r.clients[c].joined {
        RecordFollows(r.clients[c], c, e, x);
      } else if InSession(r, c) {
        MemberStaysJoined(r.up[c], c, r.clients[c].joined);
      }
      var after := RoleStep(e, c, x, None);
      if Role(r.down[c], c, x, None) == None && after.Some? {
        RemovedAnyway(r.down[c][1..], c, x, after.value);
      }
    }
  }

  /** For a client that has joined, RoleStep is what handling the event does to each record. */
  lemma RecordFollows(c: Client, self: UserId, e: Event, x: UserId)
    requires c.joined && NotAboutSelf(e, self)
    ensures Get(HandleEvent(c, self, e).peers, x) == RoleStep(e, self, x, Get(c.peers, x))
  {
  }

  lemma ServeJoinKeepsClient(r: Room, c: UserId, d: UserId)
    requires Ready(r, Serve(c), d) && r.up[c][0] == JoinFrame
    ensures ClientValid(Next(r, Serve(c)), d)
  {
    hide RoleAhead;
    var r1 := r.(up := r.up[c := r.up[c][1..]]);
    assert Next(r, Serve(c)) == ServeJoin(r1, c);
  }

  lemma ServeLeaveKeepsClient(r: Room, c: UserId, d: UserId)
    requires Ready(r, Serve(c), d) && r.up[c][0] == LeaveFrame
    ensures ClientValid(Next(r, Serve(c)), d)
  {
    var r1 := r.(up := r.up[c := r.up[c][1..]]);
    assert Next(r, Serve(c)) == ServeLeave(r1, c);
  }

  lemma ServeSignalKeepsClient(r: Room, c: UserId, d: UserId)
    requires Ready(r, Serve(c), d) && r.up[c][0].SignalFrame?
    ensures ClientValid(Next(r, Serve(c)), d)
  {
    var r1 := r.(up := r.up[c := r.up[c][1..]]);
    assert Next(r, Serve(c)) == ServeSignal(r1, c, r.up[c][0]);
  }

  lemma ServeKeepsClient(r: Room, c: UserId, d: UserId)
    requires Ready(r, Serve(c), d)
    ensures ClientValid(Next(r, Serve(c)), d)
  {
    hide Next, ClientValid;
    match r.up[c][0]
    case JoinFrame => ServeJoinKeepsClient(r, c, d);
    case LeaveFrame => ServeLeaveKeepsClient(r, c, d);
    case SignalFrame(_, _, _) => ServeSignalKeepsClient(r, c, d);
  }

  lemma EarlyAfterJoin(r: Room, c: UserId, d: UserId, x: UserId)
    requires WellFormed(r) && c in r.clients
    ensures (d, x) in ServeJoin(r, c).early <==>
            if d == c then x in r.members && RoleAhead(r, c, x) == Some(true) else x != c && (d, x) in r.early
  {
  }

  lemma ServeJoinKeepsPair(r: Room, c: UserId, d: UserId, x: UserId)
    requires Ready(r, Serve(c), d) && r.up[c][0] == JoinFrame && PairValid(r, d, x) && NumbersValid(r)
    requires Forgets(r, d, c)
    ensures PairValid(Next(r, Serve(c)), d, x)
  {
    var role := Get(r.clients[d].peers, x);
    var roster := Roster(r.members.Keys, r.count);
    var q := if d == c then r.down[d] + [roster] else r.down[d];
    RoleAppend(r.down[d], roster, d, x, role);
    RoleAppend(r.down[d], roster, d, x, None);
    RoleAppend(q, Joined(c), d, x, role);
    RoleAppend(q, Joined(c), d, x, None);
    assert Next(r, Serve(c)).down[d] == q + [Joined(c)];
    var r1 := r.(up := r.up[c := r.up[c][1..]]);
    EarlyAfterJoin(r1, c, d, x);
    assert RoleAhead(r1, d, x) == RoleAhead(r, d, x);
    var r' := Next(r, Serve(c));
    assert r' == ServeJoin(r1, c);
    assert c !in r.members;
    if InSession(r', d) && x in r'.members && x != d {
      if d == c {
        assert r'.members[x] < r'.members[c];
        var ahead := RoleAhead(r, c, x);
        assert RoleAhead(r', c, x) == RoleStep(Joined(c), c, x, RoleStep(roster, c, x, ahead));
        assert x in r.members;
        if ahead.Some? && !ahead.value {
          assert ahead == Some(false);
        }
      } else if x == c {
        assert RoleAhead(r', d, x) == Some(true);
      } else {
        assert InSession(r, d);
        assert RoleAhead(r', d, x) == RoleAhead(r, d, x);
      }
    }
  }

  lemma ServeLeaveKeepsPair(r: Room, c: UserId, d: UserId, x: UserId)
    requires Ready(r, Serve(c), d) && r.up[c][0] == LeaveFrame && PairValid(r, d, x)
    ensures PairValid(Next(r, Serve(c)), d, x)
  {
    RoleAppend(r.down[d], Left(c), d, x, Get(r.clients[d].peers, x));
    RoleAppend(r.down[d], Left(c), d, x, None);
  }

  lemma ServeSignalKeepsPair(r: Room, c: UserId, d: UserId, x: UserId)
    requires Ready(r, Serve(c), d) && r.up[c][0].SignalFrame? && PairValid(r, d, x)
    ensures PairValid(Next(r, Serve(c)), d, x)
  {
    var e := Signal(c, r.up[c][0].message, r.up[c][0].sessions);
    RoleAppend(r.down[d], e, d, x, Get(r.clients[d].peers, x));
    RoleAppend(r.down[d], e, d, x, None);
  }

  lemma StepKeepsClient(r: Room, step: Step, d: UserId)
    requires Ready(r, step, d)
    ensures ClientValid(Next(r, step), d)
  {
    match step
    case See(c) => SeeKeepsClient(r, c, d);
    case Serve(c) => ServeKeepsClient(r, c, d);
    case Need(_, _) => RecordKeepsClient(r, step, d);
    case Run(_, _) => RecordKeepsClient(r, step, d);
    case _ => ClickKeepsClient(r, step, d);
  }

  lemma StepKeepsPair(r: Room, step: Step, d: UserId, x: UserId)
    requires Ready(r, step, d)
    requires PairValid(r, d, x) && Forgets(r, d, step.user) && NumbersValid(r)
    ensures PairValid(Next(r, step), d, x)
  {
    match step
    case See(c) => SeeKeepsPair(r, c, d, x);
    case Serve(c) =>
      match r.up[c][0] {
        case JoinFrame => ServeJoinKeepsPair(r, c, d, x);
        case LeaveFrame => ServeLeaveKeepsPair(r, c, d, x);
        case SignalFrame(_, _, _) => ServeSignalKeepsPair(r, c, d, x);
      }
    case Need(_, _) => RecordKeepsPair(r, step, d, x);
    case Run(_, _) => RecordKeepsPair(r, step, d, x);
    case _ => ClickKeepsPair(r, step, d, x);
  }

  lemma ServeJoinKeepsNumbers(r: Room, c: UserId)
    requires WellFormed(r) && c in r.clients && c !in r.members && NumbersValid(r)
    ensures NumbersValid(ServeJoin(r, c))
  {
    var r' := ServeJoin(r, c);
    forall d, x | (d, x) in r'.early
      ensures d in r'.members && x in r'.members && r'.members[x] < r'.members[d]
    {
      EarlyAfterJoin(r, c, d, x);
    }
  }

  lemma ServeLeaveKeepsNumbers(r: Room, c: UserId)
    requires WellFormed(r) && NumbersValid(r)
    ensures NumbersValid(ServeLeave(r, c))
  {
  }

  lemma StepKeepsNumbers(r: Room, step: Step)
    requires WellFormed(r) && Enabled(r, step) && NumbersValid(r) && ClientValid(r, step.user)
    ensures NumbersValid(Next(r, step))
  {
    if step.Serve? {
      var c := step.user;
      var r1 := r.(up := r.up[c := r.up[c][1..]]);
      assert NumbersValid(r1);
      match r.up[c][0] {
        case JoinFrame => ServeJoinKeepsNumbers(r1, c);
        case LeaveFrame => ServeLeaveKeepsNumbers(r1, c);
        case SignalFrame(_, _, _) =>
      }
    }
  }

  lemma StepKeepsClients(r: Room, step: Step)
    requires Inv(r) && Enabled(r, step)
    ensures forall d :: d in Next(r, step).clients ==> ClientValid(Next(r, step), d)
  {
    forall d | d in r.clients
      ensures ClientValid(Next(r, step), d)
    {
      StepKeepsClient(r, step, d);
    }
    assert Next(r, step).clients.Keys == r.clients.Keys;
  }

  lemma StepKeepsPairs(r: Room, step: Step)
    requires Inv(r) && Enabled(r, step)
    ensures forall d, x :: d in Next(r, step).clients ==> PairValid(Next(r, step), d, x)
  {
    forall d, x | d in r.clients
      ensures PairValid(Next(r, step), d, x)
    {
      assert Ready(r, step, d) && PairValid(r, d, x) && PairValid(r, d, step.user);
      StepKeepsPair(r, step, d, x);
    }
    assert Next(r, step).clients.Keys == r.clients.Keys;
  }

  lemma StepKeepsInv(r: Room, step: Step)
    requires Inv(r) && Enabled(r, step)
    ensures Inv(Next(r, step))
  {
    StepKeepsNumbers(r, step);
    StepKeepsClients(r, step);
    StepKeepsPairs(r, step);
  }

  /** A run; steps that are not enabled when their turn comes are skipped. */
  function Exec(r: Room, steps: seq<Step>): (r': Room)
    requires WellFormed(r)
    ensures WellFormed(r') && r'.clients.Keys == r.clients.Keys
    decreases |steps|
  {
    if steps == [] then r
    else if Enabled(r, steps[0]) then Exec(Next(r, steps[0]), steps[1..])
    else Exec(r, steps[1..])
  }

  lemma {:induction false} RunKeepsInv(r: Room, steps: seq<Step>)
    requires Inv(r)
    ensures Inv(Exec(r, steps))
    decreases |steps|
  {
    if steps != [] {
      if Enabled(r, steps[0]) {
        StepKeepsInv(r, steps[0]);
        RunKeepsInv(Next(r, steps[0]), steps[1..]);
      } else {
        RunKeepsInv(r, steps[1..]);
      }
    }
  }

  lemma ReachedInv(users: set<UserId>, steps: seq<Step>)
    ensures Inv(Exec(Init(users), steps))
  {
    RunKeepsInv(Init(users), steps);
  }

  // ----- main results -----

  /** `c` and `x` are in the call, hold a record of each other, and neither is about to be told the other left. */
  ghost predicate Linked(r: Room, c: UserId, x: UserId)
    requires WellFormed(r)
  {
    && c != x && c in r.clients && x in r.clients
    && InSession(r, c) && InSession(r, x)
    && x in r.clients[c].peers && c in r.clients[x].peers
    && Left(x) !in r.down[c] && Left(c) !in r.down[x]
  }

  /**
   In every reachable state two linked users hold opposite polite flags, the later joiner being the
   offerer, except in exactly one case: the later one was told of the earlier one ahead of its
   own roster. Then both are polite and nobody offers.
   */
  lemma LinkedRoles(users: set<UserId>, steps: seq<Step>, c: UserId, x: UserId)
    requires Linked(Exec(Init(users), steps), c, x)
    requires Exec(Init(users), steps).members[x] < Exec(Init(users), steps).members[c]
    ensures var r := Exec(Init(users), steps);
            && r.clients[x].peers[c].polite
            && (r.clients[c].peers[x].polite <==> (c, x) in r.early)
  {
    var r := Exec(Init(users), steps);
    ReachedInv(users, steps);
    assert PairValid(r, c, x) && PairValid(r, x, c);
    KeptWithoutLeft(r.down[c], c, x, r.clients[c].peers[x].polite);
    KeptWithoutLeft(r.down[x], x, c, r.clients[x].peers[c].polite);
  }

  predicate Drained(r: Room) {
    && (forall c :: c in r.up ==> r.up[c] == [])
    && (forall c :: c in r.down ==> r.down[c] == [])
  }

  lemma DrainedClient(r: Room, c: UserId)
    requires Inv(r) && Drained(r) && c in r.clients
    ensures r.clients[c].joined <==> c in r.members
    ensures r.clients[c].peers.Keys == if c in r.members then r.members.Keys - {c} else {}
  {
    assert ClientValid(r, c) && r.up[c] == [] && r.down[c] == [];
    forall x
      ensures x in r.clients[c].peers <==> c in r.members && x in r.members && x != c
    {
      assert PairValid(r, c, x);
    }
  }

  lemma DrainedRecord(r: Room, c: UserId, x: UserId)
    requires Inv(r) && Drained(r) && c in r.members && x in r.members && c != x
    ensures x in r.clients[c].peers
    ensures r.clients[c].peers[x].polite <==> r.members[x] > r.members[c] || (c, x) in r.early
  {
    assert PairValid(r, c, x) && r.down[c] == [] && r.up[c] == [];
  }

  /**
   Once every frame and event is delivered, each member holds a record of exactly the other members
   and nobody else holds any.
   */
  lemma DrainedMesh(users: set<UserId>, steps: seq<Step>, c: UserId)
    requires Drained(Exec(Init(users), steps)) && c in Exec(Init(users), steps).clients
    ensures var r := Exec(Init(users), steps);
            && (r.clients[c].joined <==> c in r.members)
            && r.clients[c].peers.Keys == if c in r.members then r.members.Keys - {c} else {}
  {
    ReachedInv(users, steps);
    DrainedClient(Exec(Init(users), steps), c);
  }

  /** ... and every pair of members has opposite flags, the later joiner offering, if and only if the pair is not early. */
  lemma DrainedLinks(users: set<UserId>, steps: seq<Step>, c: UserId, x: UserId)
    requires Drained(Exec(Init(users), steps)) && c in Exec(Init(users), steps).members
    requires x in Exec(Init(users), steps).members
    requires Exec(Init(users), steps).members[x] < Exec(Init(users), steps).members[c]
    ensures var r := Exec(Init(users), steps);
            && x in r.clients[c].peers && c in r.clients[x].peers
            && r.clients[x].peers[c].polite
            && (!r.clients[c].peers[x].polite <==> (c, x) !in r.early)
  {
    ReachedInv(users, steps);
    DrainedRecord(Exec(Init(users), steps), c, x);
    DrainedRecord(Exec(Init(users), steps), x, c);
  }

  // ----- when joins race -----

  /** Word of `x` other than a roster: it joined, or it offers. */
  predicate Announces(e: Event, self: UserId, x: UserId) {
    (e == Joined(x) && x != self) || (e.Signal? && e.user == x && e.message.kind == OfferKind)
  }

  predicate Mentions(e: Event, self: UserId, x: UserId) {
    Announces(e, self, x) || (e.Roster? && x in e.users)
  }

  /** The events from `j` on are those after the last word that `x` has left. */
  predicate SinceLeft(q: seq<Event>, x: UserId, j: nat) {
    j <= |q| && Left(x) !in q[j..] && (j == 0 || q[j - 1] == Left(x))
  }

  /** The first event from `j` on that mentions `x` is the one at `k`, and it is not a roster. */
  predicate AnnouncedFirst(q: seq<Event>, self: UserId, x: UserId, j: nat, k: nat) {
    j <= k < |q| && Announces(q[k], self, x) && forall i :: j <= i < k ==> !Mentions(q[i], self, x)
  }

  /**
   After the last word that `x` left, `x` was announced before any roster named it: by an event on its
   way, or, if there is no such last word on its way, by one that has already made a polite record.
   */
  ghost predicate ToldAhead(q: seq<Event>, self: UserId, x: UserId, record: Option<bool>) {
    exists j: nat :: SinceLeft(q, x, j) &&
      if j == 0 && record.Some? then record.value else exists k: nat :: AnnouncedFirst(q, self, x, j, k)
  }

  lemma {:induction false} LastLeft(q: seq<Event>, x: UserId) returns (j: nat)
    ensures SinceLeft(q, x, j)
    ensures forall i: nat :: SinceLeft(q, x, i) ==> i == j
  {
    if Left(x) !in q {
      j := 0;
      assert q[0..] == q;
    } else {
      var n := |q| - 1;
      if q[n] == Left(x) {
        j := n + 1;
      } else {
        j := LastLeft(q[..n], x);
        assert q[j..] == q[..n][j..] + [q[n]];
      }
    }
    forall i: nat | i <= |q| && i != j
      ensures !SinceLeft(q, x, i)
    {
      NotTheLast(q, x, i, j);
    }
  }

  lemma NotTheLast(q: seq<Event>, x: UserId, i: nat, j: nat)
    requires SinceLeft(q, x, j) && i <= |q| && i != j
    ensures !SinceLeft(q, x, i)
  {
    if i < j {
      assert q[i..][j - 1 - i] == q[j - 1];
    } else {
      assert q[j..][i - 1 - j] == q[i - 1];
    }
  }

  lemma {:induction false} RoleConcat(a: seq<Event>, b: seq<Event>, self: UserId, x: UserId, role: Option<bool>)
    ensures Role(a + b, self, x, role) == Role(b, self, x, Role(a, self, x, role))
  {
    if a == [] {
      assert a + b == b;
    } else {
      assert (a + b)[1..] == a[1..] + b;
      RoleConcat(a[1..], b, self, x, RoleStep(a[0], self, x, role));
    }
  }

  /** Only what follows the last word of leaving matters. */
  lemma RoleSinceLeft(q: seq<Event>, self: UserId, x: UserId, role: Option<bool>, j: nat)
    requires SinceLeft(q, x, j)
    ensures Role(q, self, x, role) == Role(q[j..], self, x, if j == 0 then role else None)
  {
    if j == 0 {
      assert q[0..] == q;
    } else {
      RoleAppend(q[..j - 1], Left(x), self, x, role);
      assert q[..j] == q[..j - 1] + [Left(x)] && q == q[..j] + q[j..];
      RoleConcat(q[..j], q[j..], self, x, role);
    }
  }

  lemma {:induction false} FirstWord(q: seq<Event>, self: UserId, x: UserId, j: nat)
    requires j <= |q| && Left(x) !in q[j..]
    ensures Role(q[j..], self, x, None) == Some(true) <==> exists k: nat :: AnnouncedFirst(q, self, x, j, k)
    decreases |q| - j
  {
    if j < |q| {
      var e := q[j];
      assert e == q[j..][0] && e in q[j..] && q[j..][1..] == q[j + 1..];
      if Announces(e, self, x) {
        KeptWithoutLeft(q[j + 1..], self, x, true);
        assert AnnouncedFirst(q, self, x, j, j);
      } else if Mentions(e, self, x) {
        KeptWithoutLeft(q[j + 1..], self, x, false);
      } else {
        FirstWord(q, self, x, j + 1);
        assert Role(q[j..], self, x, None) == Role(q[j + 1..], self, x, None);
        FirstWordLater(q, self, x, j, j + 1);
      }
    }
  }

  lemma FirstWordLater(q: seq<Event>, self: UserId, x: UserId, j: nat, next: nat)
    requires j < |q| && next == j + 1 && !Mentions(q[j], self, x)
    ensures (exists k: nat :: AnnouncedFirst(q, self, x, j, k)) <==> exists k: nat :: AnnouncedFirst(q, self, x, next, k)
  {
    if k: nat :| AnnouncedFirst(q, self, x, j, k) {
      assert AnnouncedFirst(q, self, x, next, k);
    }
    if k: nat :| AnnouncedFirst(q, self, x, next, k) {
      assert AnnouncedFirst(q, self, x, j, k);
    }
  }

  lemma PoliteAheadExactly(q: seq<Event>, self: UserId, x: UserId, record: Option<bool>)
    ensures Role(q, self, x, record) == Some(true) <==> ToldAhead(q, self, x, record)
  {
    var j := LastLeft(q, x);
    RoleSinceLeft(q, self, x, record, j);
    if j == 0 && record.Some? {
      KeptWithoutLeft(q[j..], self, x, record.value);
    } else {
      FirstWord(q, self, x, j);
    }
  }

  /** `c` was told of `x` ahead of its own roster. */
  ghost predicate Races(r: Room, c: UserId, x: UserId)
    requires WellFormed(r) && c in r.clients
  {
    x in r.members && ToldAhead(r.down[c], c, x, Get(r.clients[c].peers, x))
  }

  /** The server lets in a user who was told of a member ahead of its roster. */
  ghost predicate RacingJoin(r: Room, step: Step)
    requires WellFormed(r) && Enabled(r, step)
  {
    step.Serve? && r.up[step.user][0] == JoinFrame && exists x :: Races(r, step.user, x)
  }

  /**
   A pair becomes early exactly when the later user is let in and was told of the other ahead of its
   roster; it stays so until one of the two leaves.
   */
  lemma EarlyExactly(r: Room, step: Step, c: UserId, x: UserId)
    requires WellFormed(r) && Enabled(r, step)
    ensures (c, x) in Next(r, step).early <==>
              || (step == Serve(c) && r.up[c][0] == JoinFrame && Races(r, c, x))
              || ((c, x) in r.early && !(step.Serve? && step.user in {c, x} && MovesMember(r, step.user)))
  {
    if step == Serve(c) && r.up[c][0] == JoinFrame {
      PoliteAheadExactly(r.down[c], c, x, Get(r.clients[c].peers, x));
    }
    if step.Serve? && r.up[step.user][0] == JoinFrame {
      var r1 := r.(up := r.up[step.user := r.up[step.user][1..]]);
      EarlyAfterJoin(r1, step.user, c, x);
      assert c in r.clients ==> RoleAhead(r1, c, x) == RoleAhead(r, c, x);
    }
  }

  /** Serving the next frame of `c` lets it in or takes it out. */
  predicate MovesMember(r: Room, c: UserId)
    requires WellFormed(r) && c in r.clients && r.up[c] != []
  {
    r.up[c][0] == JoinFrame || (r.up[c][0] == LeaveFrame && c in r.members)
  }

  /** A run in which no joins race. */
  ghost predicate CleanRun(r: Room, steps: seq<Step>)
    requires WellFormed(r)
    decreases |steps|
  {
    steps == []
    || (if Enabled(r, steps[0])
        then !RacingJoin(r, steps[0]) && CleanRun(Next(r, steps[0]), steps[1..])
        else CleanRun(r, steps[1..]))
  }

  lemma {:induction false} CleanRunsHaveNoEarlyPairs(r: Room, steps: seq<Step>)
    requires WellFormed(r) && CleanRun(r, steps) && r.early == {}
    ensures Exec(r, steps).early == {}
    decreases |steps|
  {
    if steps != [] {
      if Enabled(r, steps[0]) {
        forall c: UserId, x: UserId
          ensures (c, x) !in Next(r, steps[0]).early
        {
          EarlyExactly(r, steps[0], c, x);
        }
        CleanRunsHaveNoEarlyPairs(Next(r, steps[0]), steps[1..]);
      } else {
        CleanRunsHaveNoEarlyPairs(r, steps[1..]);
      }
    }
  }

  /** If no joins race, any two linked users hold opposite flags, the later joiner offering. */
  lemma CleanRunsOrderTheMesh(users: set<UserId>, steps: seq<Step>, c: UserId, x: UserId)
    requires CleanRun(Init(users), steps)
    requires Linked(Exec(Init(users), steps), c, x)
    requires Exec(Init(users), steps).members[x] < Exec(Init(users), steps).members[c]
    ensures Exec(Init(users), steps).clients[x].peers[c].polite && !Exec(Init(users), steps).clients[c].peers[x].polite
  {
    CleanRunsHaveNoEarlyPairs(Init(users), steps);
    LinkedRoles(users, steps, c, x);
  }

  lemma Press(r: Room, c: UserId, rest: seq<Step>) returns (r': Room)
    requires WellFormed(r) && c in r.clients && !r.clients[c].joined
    ensures WellFormed(r') && Exec(r, [ClickJoin(c)] + rest) == Exec(r', rest)
    ensures r'.clients == r.clients[c := r.clients[c].(joined := true)] && r'.down == r.down
    ensures r'.up == r.up[c := r.up[c] + [JoinFrame]] && r'.members == r.members
  {
    r' := Next(r, ClickJoin(c));
    assert ([ClickJoin(c)] + rest)[1..] == rest;
  }

  lemma LetIn(r: Room, c: UserId, x: UserId, rest: seq<Step>) returns (r': Room)
    requires WellFormed(r) && c in r.clients && x in r.clients && x != c && r.up[c] == [JoinFrame]
    ensures WellFormed(r') && Exec(r, [Serve(c)] + rest) == Exec(r', rest)
    ensures r'.clients == r.clients && r'.down[x] == r.down[x] + [Joined(c)]
    ensures r'.up[x] == r.up[x] && r'.members.Keys == r.members.Keys + {c}
    ensures x in r.members && RoleAhead(r, c, x) == Some(true) ==> (c, x) in r'.early
  {
    r' := Next(r, Serve(c));
    assert ([Serve(c)] + rest)[1..] == rest;
    var served := r.(up := r.up[c := r.up[c][1..]]);
    assert RoleAhead(served, c, x) == RoleAhead(r, c, x);
    EarlyAfterJoin(served, c, c, x);
  }

  /**
   Two users press join at nearly the same time and the server lets `a` in first. `b`, joined on its
   own side, is told of `a` ahead of its roster: by LinkedRoles both end up polite.
   */
  lemma RacingJoinsAreEarly(users: set<UserId>, a: UserId, b: UserId)
    requires a in users && b in users && a != b
    ensures (b, a) in Exec(Init(users), [ClickJoin(a)] + ([ClickJoin(b)] + ([Serve(a)] + ([Serve(b)] + [])))).early
  {
    var none: seq<Event>, nothing: seq<Frame> := [], [];
    assert none + [Joined(a)] == [Joined(a)] && nothing + [JoinFrame] == [JoinFrame];
    assert Role([Joined(a)], b, a, None) == Some(true);
    var s := Init(users);
    hide Role, Init;
    var r := Press(s, a, [ClickJoin(b)] + ([Serve(a)] + ([Serve(b)] + [])));
    r := Press(r, b, [Serve(a)] + ([Serve(b)] + []));
    r := LetIn(r, a, b, [Serve(b)] + []);
    assert r.down[b] == [Joined(a)];
    r := LetIn(r, b, a, []);
  }
}
