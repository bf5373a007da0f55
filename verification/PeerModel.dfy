/**
 One peer connection of the mesh call (server/assets/voice.js) as seen from one browser: the
 record kept for the remote user together with the part of the RTCPeerConnection it drives.

 setLocalDescription and setRemoteDescription are asynchronous: a call only queues an operation
 on the connection's operations chain, and the state changes when the operation runs. The chain
 is modelled, so a message can arrive between the two.
 */
module PeerModel {
  import opened Wrappers

  /** RTCSignalingState, with the number of the outstanding offer. */
  datatype Signaling = Stable | HaveLocalOffer(offer: nat) | HaveRemoteOffer(offer: nat)

  /** A session description. Every created offer and answer carries its own number. */
  datatype Description = OfferDesc(offer: nat) | AnswerDesc(offer: nat, answer: nat)

  /** The relay's `kind` attribute, chosen by the sender apart from the description. */
  datatype Kind = OfferKind | AnswerKind

  datatype Message = Message(kind: Kind, desc: Description)

  /** A queued call: `SetLocal` remembers the kind under which its result is sent. */
  datatype Operation =
    | SetLocal(kind: Kind)
    | SetRemote(desc: Description, thenAnswer: bool)

  type Candidate = nat

  datatype Peer = Peer(
    pc: bool,                            // the connection has been built
    polite: bool,
    makingOffer: bool,
    ignoreOffer: bool,
    signaling: Signaling,
    chain: seq<Operation>,
    current: Option<(nat, nat)>,         // offer and answer of the last completed negotiation
    remote: bool,                        // a remote description has been applied
    pending: seq<Candidate>,             // candidates waiting for it
    added: seq<Candidate>)               // candidates handed to the connection, in order

  function NewPeer(iAmOfferer: bool): Peer {
    Peer(iAmOfferer, !iAmOfferer, false, false, Stable, [], None, false, [], [])
  }

  /** The browser fires `negotiationneeded` only on an existing, stable connection with an empty chain. */
  predicate MayNegotiate(s: Peer) {
    s.pc && s.signaling == Stable && s.chain == [] && !s.makingOffer
  }

  function NegotiationNeeded(s: Peer): Peer {
    s.(makingOffer := true, chain := s.chain + [SetLocal(OfferKind)])
  }

  predicate Collision(s: Peer) {
    s.makingOffer || s.signaling != Stable
  }

  function ReceiveOffer(s: Peer, desc: Description): Peer {
    var ignore := !s.polite && Collision(s);
    var s1 := s.(pc := true, ignoreOffer := ignore);
    if ignore then s1 else s1.(chain := s.chain + [SetRemote(desc, true)])
  }

  function ReceiveAnswer(s: Peer, desc: Description): Peer {
    if s.pc then s.(chain := s.chain + [SetRemote(desc, false)]) else s
  }

  function ReceiveIce(s: Peer, c: Candidate): Peer {
    if s.pc && s.remote then s.(added := s.added + [c]) else s.(pending := s.pending + [c])
  }

  function Receive(q: Peer, m: Message): Peer {
    if m.kind == OfferKind then ReceiveOffer(q, m.desc) else ReceiveAnswer(q, m.desc)
  }

  /** setRemoteDescription accepts an offer in any state (rolling a local one back), an answer only to a local offer. */
  predicate RemoteAccepted(s: Peer, desc: Description) {
    desc.OfferDesc? || s.signaling.HaveLocalOffer?
  }

  function ApplyRemote(s: Peer, desc: Description): Peer {
    match desc
    case OfferDesc(o) => s.(signaling := HaveRemoteOffer(o))
    case AnswerDesc(o, a) => s.(signaling := Stable, current := Some((o, a)))
  }

  /** Runs the operation at the head of the chain; `nextId` numbers the description it may create. */
  function RunOperation(s: Peer, nextId: nat): (r: (Peer, Option<Message>))
    requires s.chain != []
  {
    var s1 := s.(chain := s.chain[1..]);
    match s.chain[0]
    case SetRemote(desc, thenAnswer) =>
      if RemoteAccepted(s, desc) then
        var s2 := ApplyRemote(s1, desc).(remote := true, pending := [], added := s.added + s.pending);
        (if thenAnswer then s2.(chain := s2.chain + [SetLocal(AnswerKind)]) else s2, None)
      else
        (s1, None)
    case SetLocal(kind) =>
      var s2 := if kind == OfferKind then s1.(makingOffer := false) else s1;
      if s.signaling.HaveRemoteOffer? then
        (s2.(signaling := Stable, current := Some((s.signaling.offer, nextId))),
         Some(Message(kind, AnswerDesc(s.signaling.offer, nextId))))
      else
        (s2.(signaling := HaveLocalOffer(nextId)), Some(Message(kind, OfferDesc(nextId))))
  }

  /** The guard of the branch that loses an offer. */
  predicate DropsWhileSettling(q: Peer, m: Message) {
    m.kind == OfferKind && !q.polite && !q.makingOffer && q.signaling != Stable && q.chain != []
  }

  predicate RollsBack(q: Peer) {
    q.chain != [] && q.chain[0].SetRemote? && q.chain[0].desc.OfferDesc? && q.signaling.HaveLocalOffer?
  }

  /** No handler changes who gives way. */
  lemma PolitenessStays(s: Peer, id: nat)
    ensures NegotiationNeeded(s).polite == s.polite
    ensures s.chain != [] ==> RunOperation(s, id).0.polite == s.polite
  {
  }

  // ----- trickled candidates -----

  datatype PeerEvent =
    | OnNeeded
    | OnOperation(nextId: nat)
    | OnOffer(desc: Description)
    | OnAnswer(desc: Description)
    | OnIce(candidate: Candidate)

  function Handle(s: Peer, e: PeerEvent): Peer {
    match e
    case OnNeeded => if MayNegotiate(s) then NegotiationNeeded(s) else s
    case OnOperation(nextId) => if s.chain != [] then RunOperation(s, nextId).0 else s
    case OnOffer(desc) => ReceiveOffer(s, desc)
    case OnAnswer(desc) => ReceiveAnswer(s, desc)
    case OnIce(c) => ReceiveIce(s, c)
  }

  function HandleAll(s: Peer, events: seq<PeerEvent>): Peer
    decreases |events|
  {
    if events == [] then s else HandleAll(Handle(s, events[0]), events[1..])
  }

  function Arriving(e: PeerEvent): seq<Candidate> {
    if e.OnIce? then [e.candidate] else []
  }

  function Candidates(events: seq<PeerEvent>): seq<Candidate> {
    if events == [] then [] else Arriving(events[0]) + Candidates(events[1..])
  }

  /**
   Whatever offers, answers and operations come in between, every candidate received is handed to
   the connection exactly once and in order, or still waits; none is handed over before a remote
   description was applied, and none waits after.
   */
  lemma {:induction false} CandidatesConserved(iAmOfferer: bool, events: seq<PeerEvent>)
    ensures var s := HandleAll(NewPeer(iAmOfferer), events);
            && s.added + s.pending == Candidates(events)
            && (s.remote ==> s.pending == [])
            && (!s.remote ==> s.added == [])
  {
    CandidatesFrom(NewPeer(iAmOfferer), events);
  }

  predicate CandidatesValid(s: Peer) {
    && (s.remote ==> s.pc && s.pending == [])
    && (!s.remote ==> s.added == [])
    && (s.chain != [] ==> s.pc)
  }

  lemma {:induction false} CandidatesFrom(s: Peer, events: seq<PeerEvent>)
    requires CandidatesValid(s)
    ensures var r := HandleAll(s, events);
            CandidatesValid(r) && r.added + r.pending == s.added + s.pending + Candidates(events)
    decreases |events|
  {
    if events != [] {
      CandidatesStep(s, events[0]);
      CandidatesFrom(Handle(s, events[0]), events[1..]);
      calc {
        s.added + s.pending + Arriving(events[0]) + Candidates(events[1..]);
        s.added + s.pending + (Arriving(events[0]) + Candidates(events[1..]));
      }
    }
  }

  lemma OperationKeepsCandidates(s: Peer, id: nat)
    requires CandidatesValid(s) && s.chain != []
    ensures CandidatesValid(RunOperation(s, id).0)
    ensures var r := RunOperation(s, id).0;
            || (r.added == s.added && r.pending == s.pending)
            || (r.added == s.added + s.pending && r.pending == [])
  {
    var s1 := s.(chain := s.chain[1..]);
    match s.chain[0]
    case SetLocal(_) =>
      assert RunOperation(s, id).0.remote == s.remote;
    case SetRemote(desc, thenAnswer) =>
      if RemoteAccepted(s, desc) {
        assert RunOperation(s, id).0.remote;
      } else {
        assert RunOperation(s, id).0 == s1;
      }
  }

  lemma CandidatesStep(s: Peer, e: PeerEvent)
    requires CandidatesValid(s)
    ensures CandidatesValid(Handle(s, e))
    ensures Handle(s, e).added + Handle(s, e).pending == s.added + s.pending + Arriving(e)
  {
    match e
    case OnIce(c) =>
      assert s.added + (s.pending + [c]) == s.added + s.pending + [c];
    case OnOperation(id) =>
      if s.chain != [] {
        OperationKeepsCandidates(s, id);
        assert s.added + s.pending + [] == s.added + s.pending;
      }
    case _ =>
  }

  // ----- the record itself, updated in place -----

  /** A peer record of voice.js with its connection. `ToPeer` is its value. */
  class PeerRecord {
    var pc: bool
    var polite: bool
    var makingOffer: bool
    var ignoreOffer: bool
    var pending: seq<Candidate>
    var signaling: Signaling
    var chain: seq<Operation>
    var current: Option<(nat, nat)>
    var remote: bool
    var added: seq<Candidate>

    function ToPeer(): Peer
      reads this
    {
      Peer(pc, polite, makingOffer, ignoreOffer, signaling, chain, current, remote, pending, added)
    }

    constructor (iAmOfferer: bool)
      ensures ToPeer() == NewPeer(iAmOfferer)
    {
      pc, polite, makingOffer, ignoreOffer := iAmOfferer, !iAmOfferer, false, false;
      signaling, chain, current := Stable, [], None;
      remote, pending, added := false, [], [];
    }

    method OnNegotiationNeeded()
      modifies this
      ensures ToPeer() == NegotiationNeeded(old(ToPeer()))
    {
      makingOffer := true;
      chain := chain + [SetLocal(OfferKind)];
    }

    method OnOffer(desc: Description)
      modifies this
      ensures ToPeer() == ReceiveOffer(old(ToPeer()), desc)
    {
      if !pc {
        pc := true;
      }
      var collision := makingOffer || signaling != Stable;
      ignoreOffer := !polite && collision;
      if ignoreOffer {
        return;
      }
      chain := chain + [SetRemote(desc, true)];
    }

    method OnAnswer(desc: Description)
      modifies this
      ensures ToPeer() == ReceiveAnswer(old(ToPeer()), desc)
    {
      if !pc {
        return;
      }
      chain := chain + [SetRemote(desc, false)];
    }

    method OnIce(c: Candidate)
      modifies this
      ensures ToPeer() == ReceiveIce(old(ToPeer()), c)
    {
      if !pc || !remote {
        pending := pending + [c];
        return;
      }
      added := added + [c];
    }

    method FlushCandidates()
      modifies this`pending, this`added
      ensures pending == [] && added == old(added) + old(pending)
    {
      var list := pending;
      pending := [];
      for i := 0 to |list|
        invariant pending == [] && added == old(added) + list[..i]
      {
        added := added + [list[i]];
      }
      assert list[..|list|] == list;
    }

    /** Runs the queued operation and the continuation its handler attached to it. */
    method RunNext(nextId: nat) returns (sent: Option<Message>)
      requires chain != []
      modifies this
      ensures (ToPeer(), sent) == RunOperation(old(ToPeer()), nextId)
    {
      var op := chain[0];
      chain := chain[1..];
      sent := None;
      match op {
        case SetRemote(desc, thenAnswer) =>
          if desc.OfferDesc? {
            signaling := HaveRemoteOffer(desc.offer);
          } else if signaling.HaveLocalOffer? {
            signaling, current := Stable, Some((desc.offer, desc.answer));
          } else {
            return;
          }
          remote := true;
          FlushCandidates();
          if thenAnswer {
            chain := chain + [SetLocal(AnswerKind)];
          }
        case SetLocal(kind) =>
          var desc;
          if signaling.HaveRemoteOffer? {
            desc := AnswerDesc(signaling.offer, nextId);
            current, signaling := Some((signaling.offer, nextId)), Stable;
          } else {
            desc := OfferDesc(nextId);
            signaling := HaveLocalOffer(nextId);
          }
          sent := Some(Message(kind, desc));
          if kind == OfferKind {
            makingOffer := false;
          }
      }
    }
  }
}
