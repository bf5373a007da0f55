/**
 Two peer records of voice.js facing each other over the signalling relay: the impolite side,
 which made the first offer, and the polite side. Each direction is a FIFO channel.
 */
module Negotiation {
  import opened Wrappers
  import opened PeerModel

  datatype Side = Impolite | Polite

  /**
   `lost` remembers that the polite side's outstanding offer was dropped while the impolite side
   still had the answer to its own offer queued: signalingState had not left have-local-offer yet.
   */
  datatype System = System(
    i: Peer, p: Peer,
    toI: seq<Message>, toP: seq<Message>,
    nextId: nat,
    lost: bool)

  datatype Step = Need(side: Side) | Run(side: Side) | Deliver(side: Side)

  function Init(): System {
    System(NewPeer(true), NewPeer(false), [], [], 0, false)
  }

  predicate Enabled(s: System, step: Step) {
    match step
    case Need(Impolite) => MayNegotiate(s.i)
    case Need(Polite) => MayNegotiate(s.p)
    case Run(Impolite) => s.i.chain != []
    case Run(Polite) => s.p.chain != []
    case Deliver(Impolite) => s.toI != []
    case Deliver(Polite) => s.toP != []
  }

  function Post(channel: seq<Message>, sent: Option<Message>): seq<Message> {
    if sent.Some? then channel + [sent.value] else channel
  }

  function Next(s: System, step: Step): System
    requires Enabled(s, step)
  {
    match step
    case Need(Impolite) => s.(i := NegotiationNeeded(s.i))
    case Need(Polite) => s.(p := NegotiationNeeded(s.p))
    case Run(Impolite) =>
      var (i', sent) := RunOperation(s.i, s.nextId);
      s.(i := i', toP := Post(s.toP, sent), nextId := s.nextId + 1)
    case Run(Polite) =>
      var (p', sent) := RunOperation(s.p, s.nextId);
      s.(p := p', toI := Post(s.toI, sent), nextId := s.nextId + 1, lost := s.lost && !RollsBack(s.p))
    case Deliver(Impolite) =>
      s.(i := Receive(s.i, s.toI[0]), toI := s.toI[1..], lost := s.lost || DropsWhileSettling(s.i, s.toI[0]))
    case Deliver(Polite) =>
      s.(p := Receive(s.p, s.toP[0]), toP := s.toP[1..])
  }

  /** A run: steps that are not enabled when their turn comes are skipped. */
  function Exec(s: System, steps: seq<Step>): System
    decreases |steps|
  {
    if steps == [] then s
    else if Enabled(s, steps[0]) then Exec(Next(s, steps[0]), steps[1..])
    else Exec(s, steps[1..])
  }

  // ----- the joint states a run can be in -----

  function OfferMsg(o: nat): Message { Message(OfferKind, OfferDesc(o)) }
  function AnswerMsg(pair: (nat, nat)): Message { Message(AnswerKind, AnswerDesc(pair.0, pair.1)) }

  /** Stable with nothing queued, or about to make an offer. */
  predicate Idle(q: Peer) {
    q.signaling == Stable && q.chain == (if q.makingOffer then [SetLocal(OfferKind)] else [])
  }

  predicate HasOffer(q: Peer, chain: seq<Operation>) {
    q.signaling.HaveLocalOffer? && q.chain == chain && !q.makingOffer
  }

  predicate Waiting(q: Peer) { HasOffer(q, []) }

  /** An answer by `other` to the outstanding offer of `q`. */
  predicate Answers(other: Peer, q: Peer) {
    q.signaling.HaveLocalOffer? && other.current.Some? && other.current.value.0 == q.signaling.offer
  }

  function ApplyAnswer(pair: (nat, nat)): Operation { SetRemote(AnswerDesc(pair.0, pair.1), false) }
  function ApplyOffer(o: nat): Operation { SetRemote(OfferDesc(o), true) }

  /** `q` is `tail`, possibly behind one offer that its sender has rolled back. */
  predicate StaleThen(q: seq<Message>, tail: seq<Message>) {
    q == tail || (|q| == |tail| + 1 && q[0].kind == OfferKind && q[0].desc.OfferDesc? && q[1..] == tail)
  }

  /** The impolite side has no offer out. */
  predicate NoOfferOut(s: System) {
    && Idle(s.i)
    && (|| (Idle(s.p) && s.toP == [] && s.toI == [] && s.i.current == s.p.current && !s.lost)
        || (Waiting(s.p) && s.toP == [] && s.toI == [OfferMsg(s.p.signaling.offer)] && !s.lost)
        || (Waiting(s.p) && s.toP == [] && s.toI == [] && (s.lost || s.i.makingOffer))
        || (Waiting(s.p) && Answers(s.i, s.p) && s.toI == [] && s.toP == [AnswerMsg(s.i.current.value)] && !s.lost)
        || (Answers(s.i, s.p) && HasOffer(s.p, [ApplyAnswer(s.i.current.value)]) && s.toI == [] && s.toP == [] && !s.lost))
  }

  /** The impolite side is answering the polite side's offer. */
  predicate Answering(s: System) {
    && Waiting(s.p) && s.toI == [] && s.toP == [] && !s.lost && !s.i.makingOffer
    && (|| (s.i.signaling == Stable && s.i.chain == [ApplyOffer(s.p.signaling.offer)])
        || (s.i.signaling == HaveRemoteOffer(s.p.signaling.offer) && s.i.chain == [SetLocal(AnswerKind)]))
  }

  /** The impolite side's offer `x` is on its way to the polite side, or queued there. */
  predicate OfferUnderway(s: System, x: nat) {
    || (Waiting(s.p) && Answers(s.i, s.p) && s.toI == [] && s.toP == [AnswerMsg(s.i.current.value), OfferMsg(x)] && !s.lost)
    || (Answers(s.i, s.p) && HasOffer(s.p, [ApplyAnswer(s.i.current.value)]) && s.toI == [] && s.toP == [OfferMsg(x)] && !s.lost)
    || (Answers(s.i, s.p) && HasOffer(s.p, [ApplyAnswer(s.i.current.value), ApplyOffer(x)]) && s.toI == [] && s.toP == [] && !s.lost)
    || (Idle(s.p) && s.toI == [] && s.toP == [OfferMsg(x)] && s.i.current == s.p.current && !s.lost)
    || (s.p.signaling == Stable && s.toI == [] && s.toP == [] && s.i.current == s.p.current && !s.lost &&
        s.p.chain == (if s.p.makingOffer then [SetLocal(OfferKind)] else []) + [ApplyOffer(x)])
    || (Waiting(s.p) && s.toP == [OfferMsg(x)] && StaleThen(s.toI, []) && (s.toI != [] ==> !s.lost))
    || (HasOffer(s.p, [ApplyOffer(x)]) && s.toP == [] && StaleThen(s.toI, []) && (s.toI != [] ==> !s.lost))
  }

  /** The polite side is answering `x`, or has answered it and the answer is on its way back. */
  predicate OfferTaken(s: System, x: nat) {
    && s.toP == [] && !s.lost
    && (|| (s.p.signaling == HaveRemoteOffer(x) && s.p.chain == [SetLocal(AnswerKind)] && !s.p.makingOffer && StaleThen(s.toI, []))
        || (Answers(s.p, s.i) && Idle(s.p) && StaleThen(s.toI, [AnswerMsg(s.p.current.value)]))
        || (Answers(s.p, s.i) && Waiting(s.p) &&
            StaleThen(s.toI, [AnswerMsg(s.p.current.value), OfferMsg(s.p.signaling.offer)])))
  }

  predicate OfferOut(s: System) {
    Waiting(s.i) && (OfferUnderway(s, s.i.signaling.offer) || OfferTaken(s, s.i.signaling.offer))
  }

  /** The answer has arrived at the impolite side but has not been applied yet. */
  predicate Settling(s: System) {
    && Answers(s.p, s.i) && HasOffer(s.i, [ApplyAnswer(s.p.current.value)]) && s.toP == []
    && (|| (Idle(s.p) && s.toI == [] && !s.lost)
        || (Waiting(s.p) && s.toI == [OfferMsg(s.p.signaling.offer)] && !s.lost)
        || (Waiting(s.p) && s.toI == [] && s.lost))
  }

  predicate Inv(s: System) {
    && !s.i.polite && s.p.polite && s.i.pc && (s.p.pc || Idle(s.p))
    && (!s.p.pc ==> !s.p.makingOffer)
    && (NoOfferOut(s) || Answering(s) || OfferOut(s) || Settling(s))
  }

  // ----- every step keeps the invariant -----

  lemma NeedKeepsInv(s: System, side: Side)
    requires Inv(s) && Enabled(s, Need(side))
    ensures Inv(Next(s, Need(side)))
  {
  }

  lemma RunImpoliteKeepsInv(s: System)
    requires Inv(s) && Enabled(s, Run(Impolite))
    ensures Inv(Next(s, Run(Impolite)))
  {
  }

  lemma RunPoliteUnderway(s: System)
    requires Inv(s) && Waiting(s.i) && OfferUnderway(s, s.i.signaling.offer) && Enabled(s, Run(Polite))
    ensures Inv(Next(s, Run(Polite)))
  {
  }

  lemma RunPoliteTaken(s: System)
    requires Inv(s) && Waiting(s.i) && OfferTaken(s, s.i.signaling.offer) && Enabled(s, Run(Polite))
    ensures Inv(Next(s, Run(Polite)))
  {
  }

  lemma RunPoliteOtherwise(s: System)
    requires Inv(s) && !OfferOut(s) && Enabled(s, Run(Polite))
    ensures Inv(Next(s, Run(Polite)))
  {
  }

  lemma RunPoliteKeepsInv(s: System)
    requires Inv(s) && Enabled(s, Run(Polite))
    ensures Inv(Next(s, Run(Polite)))
  {
    if OfferOut(s) {
      if OfferUnderway(s, s.i.signaling.offer) {
        RunPoliteUnderway(s);
      } else {
        RunPoliteTaken(s);
      }
    } else {
      RunPoliteOtherwise(s);
    }
  }

  lemma DeliverImpoliteKeepsInv(s: System)
    requires Inv(s) && Enabled(s, Deliver(Impolite))
    ensures Inv(Next(s, Deliver(Impolite)))
  {
  }

  lemma DeliverPoliteKeepsInv(s: System)
    requires Inv(s) && Enabled(s, Deliver(Polite))
    ensures Inv(Next(s, Deliver(Polite)))
  {
  }

  lemma StepKeepsInv(s: System, step: Step)
    requires Inv(s) && Enabled(s, step)
    ensures Inv(Next(s, step))
  {
    match step
    case Need(side) => NeedKeepsInv(s, side);
    case Run(Impolite) => RunImpoliteKeepsInv(s);
    case Run(Polite) => RunPoliteKeepsInv(s);
    case Deliver(Impolite) => DeliverImpoliteKeepsInv(s);
    case Deliver(Polite) => DeliverPoliteKeepsInv(s);
  }

  lemma {:induction false} RunKeepsInv(s: System, steps: seq<Step>)
    requires Inv(s)
    ensures Inv(Exec(s, steps))
    decreases |steps|
  {
    if steps != [] {
      if Enabled(s, steps[0]) {
        StepKeepsInv(s, steps[0]);
        RunKeepsInv(Next(s, steps[0]), steps[1..]);
      } else {
        RunKeepsInv(s, steps[1..]);
      }
    }
  }

  // ----- main results -----

  /** An answer, in the channel to `q` or queued there, answers the offer `q` has outstanding now. */
  predicate AnswersCurrent(q: Peer, desc: Description) {
    desc.AnswerDesc? && q.signaling == HaveLocalOffer(desc.offer)
  }

  predicate Matched(q: Peer, channel: seq<Message>) {
    && (forall k :: 0 <= k < |channel| && channel[k].kind == AnswerKind ==> AnswersCurrent(q, channel[k].desc))
    && (forall k :: 0 <= k < |channel| && channel[k].kind == OfferKind ==> channel[k].desc.OfferDesc?)
    && (forall k :: 0 <= k < |q.chain| && q.chain[k].SetRemote? && q.chain[k].desc.AnswerDesc? ==>
          AnswersCurrent(q, q.chain[k].desc))
  }

  lemma ImpoliteMatched(s: System)
    requires Inv(s)
    ensures Matched(s.i, s.toI)
  {
  }

  lemma PoliteMatched(s: System)
    requires Inv(s)
    ensures Matched(s.p, s.toP)
  {
  }

  /**
   In every reachable state each answer in flight answers the receiver's current offer, never a
   rolled-back one, and no description travels under the other kind.
   */
  lemma AnswersAreNeverStale(steps: seq<Step>)
    ensures var s := Exec(Init(), steps);
            Matched(s.i, s.toI) && Matched(s.p, s.toP)
  {
    RunKeepsInv(Init(), steps);
    ImpoliteMatched(Exec(Init(), steps));
    PoliteMatched(Exec(Init(), steps));
  }

  /** No setRemoteDescription of a run is rejected. */
  lemma NoRejectedDescription(steps: seq<Step>, side: Side)
    ensures var s := Exec(Init(), steps);
            var q := if side == Impolite then s.i else s.p;
            q.chain != [] && q.chain[0].SetRemote? ==> RemoteAccepted(q, q.chain[0].desc)
  {
    RunKeepsInv(Init(), steps);
  }

  predicate Quiescent(s: System) {
    s.toI == [] && s.toP == [] && s.i.chain == [] && s.p.chain == []
  }

  predicate Agreed(s: System) {
    s.i.signaling == Stable && s.p.signaling == Stable && s.i.current == s.p.current
  }

  /**
   Once nothing is in flight or queued, both sides are stable on the same offer/answer pair,
   except in exactly one case: the polite side's offer reached the impolite side between the
   arrival of an answer and its application, was taken for a collision and was dropped.
   */
  lemma QuiescentAgreement(steps: seq<Step>)
    ensures var s := Exec(Init(), steps);
            Quiescent(s) ==>
              && (Agreed(s) <==> !s.lost)
              && (s.lost ==> s.i.signaling == Stable && s.p.signaling.HaveLocalOffer?)
  {
    RunKeepsInv(Init(), steps);
  }

  /** The impolite side hears nothing new before it has applied what it heard: descriptions take effect at once. */
  predicate Prompt(s: System, steps: seq<Step>)
    decreases |steps|
  {
    steps == []
    || (if Enabled(s, steps[0])
        then (steps[0] == Deliver(Impolite) ==> s.i.chain == []) && Prompt(Next(s, steps[0]), steps[1..])
        else Prompt(s, steps[1..]))
  }

  lemma {:induction false} PromptLosesNothing(s: System, steps: seq<Step>)
    requires Prompt(s, steps) && !s.lost
    ensures !Exec(s, steps).lost
    decreases |steps|
  {
    hide RunOperation, Receive, NegotiationNeeded;
    if steps != [] {
      PromptLosesNothing(if Enabled(s, steps[0]) then Next(s, steps[0]) else s, steps[1..]);
    }
  }

  /** If descriptions take effect at once on the impolite side, every quiet state is an agreement, whatever offers collided. */
  lemma PromptRunsAgree(steps: seq<Step>)
    requires Prompt(Init(), steps)
    ensures Quiescent(Exec(Init(), steps)) ==> Agreed(Exec(Init(), steps))
  {
    PromptLosesNothing(Init(), steps);
    QuiescentAgreement(steps);
  }

  /** The losing run: the polite side offers again right after answering. */
  const LosingRun := [
    Need(Impolite), Run(Impolite), Deliver(Polite), Run(Polite), Run(Polite),
    Need(Polite), Run(Polite), Deliver(Impolite), Deliver(Impolite), Run(Impolite)]

  const FirstOffer := Message(OfferKind, OfferDesc(0))
  const TheAnswer := Message(AnswerKind, AnswerDesc(0, 2))
  const SecondOffer := Message(OfferKind, OfferDesc(3))

  /** The impolite side has made its offer. */
  const Offering := NewPeer(true).(signaling := HaveLocalOffer(0))

  /** The polite side has answered it. */
  const Answered := NewPeer(false).(pc := true, remote := true, current := Some((0, 2)))

  /** The first offer is on its way; then the answer to it; then another offer behind the answer. */
  const OfferSent := System(Offering, NewPeer(false), [], [FirstOffer], 1, false)
  const AnswerSent := System(Offering, Answered, [TheAnswer], [], 3, false)
  const OfferBehind := System(Offering, Answered.(signaling := HaveLocalOffer(3)), [TheAnswer, SecondOffer], [], 4, false)

  /** The second offer is gone, and the answer applied. */
  const Disagreed := System(
    Offering.(signaling := Stable, ignoreOffer := true, remote := true, current := Some((0, 2))),
    OfferBehind.p, [], [], 5, true)

  lemma OfferIsSent()
    ensures Exec(Init(), LosingRun) == Exec(OfferSent, LosingRun[2..])
  {
    var s1 := Init().(i := NewPeer(true).(makingOffer := true, chain := [SetLocal(OfferKind)]));
    assert s1.i.chain[1..] == [] && s1.toP + [FirstOffer] == [FirstOffer];
    assert Next(Init(), Need(Impolite)) == s1 && Next(s1, Run(Impolite)) == OfferSent;
    ExecStep(Init(), LosingRun);
    ExecStep(s1, LosingRun[1..]);
  }

  const OfferHeard := OfferSent.(p := NewPeer(false).(pc := true, chain := [SetRemote(OfferDesc(0), true)]), toP := [])

  lemma OfferIsHeard()
    ensures Exec(OfferSent, LosingRun[2..]) == Exec(OfferHeard, LosingRun[3..])
  {
    assert [FirstOffer][1..] == [] && Next(OfferSent, Deliver(Polite)) == OfferHeard;
    ExecStep(OfferSent, LosingRun[2..]);
  }

  const Heeding := OfferHeard.p.(signaling := HaveRemoteOffer(0), remote := true, chain := [SetLocal(AnswerKind)])

  lemma OfferIsApplied()
    ensures Exec(OfferHeard, LosingRun[3..]) == Exec(OfferHeard.(p := Heeding, nextId := 2), LosingRun[4..])
  {
    var p := OfferHeard.p;
    assert p.chain[1..] + [SetLocal(AnswerKind)] == Heeding.chain && p.added + p.pending == [];
    assert RunOperation(p, 1) == (Heeding, None);
    ExecStep(OfferHeard, LosingRun[3..]);
  }

  lemma AnswerIsSent()
    ensures Exec(OfferHeard, LosingRun[3..]) == Exec(AnswerSent, LosingRun[5..])
  {
    OfferIsApplied();
    var s4 := OfferHeard.(p := Heeding, nextId := 2);
    assert Heeding.chain[1..] == [] && s4.toI + [TheAnswer] == [TheAnswer];
    assert RunOperation(Heeding, 2) == (Answered, Some(TheAnswer));
    ExecStep(s4, LosingRun[4..]);
  }

  lemma AnotherOfferFollows()
    ensures Exec(AnswerSent, LosingRun[5..]) == Exec(OfferBehind, LosingRun[7..])
  {
    var s6 := AnswerSent.(p := Answered.(makingOffer := true, chain := [SetLocal(OfferKind)]));
    assert s6.p.chain[1..] == [] && [TheAnswer] + [SecondOffer] == [TheAnswer, SecondOffer];
    assert Next(AnswerSent, Need(Polite)) == s6 && Next(s6, Run(Polite)) == OfferBehind;
    ExecStep(AnswerSent, LosingRun[5..]);
    ExecStep(s6, LosingRun[6..]);
  }

  lemma TheOfferIsDropped()
    ensures Exec(OfferBehind, LosingRun[7..]) == Disagreed
  {
    var i8 := Offering.(chain := [SetRemote(AnswerDesc(0, 2), false)]);
    var s8 := OfferBehind.(i := i8, toI := [SecondOffer]);
    var s9 := s8.(i := i8.(ignoreOffer := true), toI := [], lost := true);
    assert [TheAnswer, SecondOffer][1..] == [SecondOffer] && Next(OfferBehind, Deliver(Impolite)) == s8;
    assert [SecondOffer][1..] == [] && Next(s8, Deliver(Impolite)) == s9;
    assert i8.chain[1..] == [] && i8.added + i8.pending == [] && Next(s9, Run(Impolite)) == Disagreed;
    ExecStep(OfferBehind, LosingRun[7..]);
    ExecStep(s8, LosingRun[8..]);
    ExecStep(s9, LosingRun[9..]);
    assert LosingRun[10..] == [];
  }

  lemma OfferAfterAnswerCanBeLost()
    ensures var s := Exec(Init(), LosingRun);
            Quiescent(s) && s.lost && !Agreed(s)
  {
    OfferIsSent();
    OfferIsHeard();
    AnswerIsSent();
    AnotherOfferFollows();
    TheOfferIsDropped();
  }

  lemma ExecStep(s: System, steps: seq<Step>)
    requires steps != [] && Enabled(s, steps[0])
    ensures Exec(s, steps) == Exec(Next(s, steps[0]), steps[1..])
  {
  }

  // ----- without new negotiations every run settles -----

  function MessageWeight(m: Message): nat {
    if m.kind == AnswerKind then 2 else 5
  }

  function OperationWeight(op: Operation): nat {
    match op
    case SetLocal(kind) => if kind == OfferKind then 6 else 3
    case SetRemote(desc, thenAnswer) => if thenAnswer then 4 else 1
  }

  function ChannelWeight(ms: seq<Message>): nat {
    if ms == [] then 0 else MessageWeight(ms[0]) + ChannelWeight(ms[1..])
  }

  function ChainWeight(ops: seq<Operation>): nat {
    if ops == [] then 0 else OperationWeight(ops[0]) + ChainWeight(ops[1..])
  }

  /** How much work is still in flight or queued. */
  function Work(s: System): nat {
    ChannelWeight(s.toI) + ChannelWeight(s.toP) + ChainWeight(s.i.chain) + ChainWeight(s.p.chain)
  }

  lemma {:induction false} ChannelWeightAppend(ms: seq<Message>, m: Message)
    ensures ChannelWeight(ms + [m]) == ChannelWeight(ms) + MessageWeight(m)
  {
    if ms != [] {
      ChannelWeightAppend(ms[1..], m);
      assert (ms + [m])[1..] == ms[1..] + [m];
    } else {
      assert (ms + [m])[1..] == [];
    }
  }

  lemma {:induction false} ChainWeightAppend(ops: seq<Operation>, op: Operation)
    ensures ChainWeight(ops + [op]) == ChainWeight(ops) + OperationWeight(op)
  {
    if ops != [] {
      ChainWeightAppend(ops[1..], op);
      assert (ops + [op])[1..] == ops[1..] + [op];
    } else {
      assert (ops + [op])[1..] == [];
    }
  }

  lemma PostWeight(channel: seq<Message>, sent: Option<Message>)
    ensures ChannelWeight(Post(channel, sent)) ==
            ChannelWeight(channel) + if sent.Some? then MessageWeight(sent.value) else 0
  {
    if sent.Some? {
      ChannelWeightAppend(channel, sent.value);
    }
  }

  lemma RunWeight(q: Peer, id: nat)
    requires q.chain != []
    requires q.chain[0].SetLocal? && q.chain[0].kind == AnswerKind ==> q.signaling.HaveRemoteOffer?
    ensures var (q', sent) := RunOperation(q, id);
            ChainWeight(q'.chain) + (if sent.Some? then MessageWeight(sent.value) else 0) < ChainWeight(q.chain)
  {
    ChainWeightAppend(q.chain[1..], SetLocal(AnswerKind));
  }

  lemma ReceiveWeight(q: Peer, m: Message)
    ensures ChainWeight(Receive(q, m).chain) < ChainWeight(q.chain) + MessageWeight(m)
  {
    ChainWeightAppend(q.chain, SetRemote(m.desc, m.kind == OfferKind));
  }

  lemma WorkShrinks(s: System, step: Step)
    requires Inv(s) && Enabled(s, step) && !step.Need?
    ensures Work(Next(s, step)) < Work(s)
  {
    match step
    case Run(Impolite) =>
      RunWeight(s.i, s.nextId);
      PostWeight(s.toP, RunOperation(s.i, s.nextId).1);
    case Run(Polite) =>
      RunWeight(s.p, s.nextId);
      PostWeight(s.toI, RunOperation(s.p, s.nextId).1);
    case Deliver(Impolite) =>
      ReceiveWeight(s.i, s.toI[0]);
    case Deliver(Polite) =>
      ReceiveWeight(s.p, s.toP[0]);
  }

  /** All enabled, and none a new negotiation. */
  predicate Settlement(s: System, steps: seq<Step>)
    decreases |steps|
  {
    steps == [] ||
    (!steps[0].Need? && Enabled(s, steps[0]) && Settlement(Next(s, steps[0]), steps[1..]))
  }

  /** No schedule can run longer than the work at hand, and it can only stop with nothing left to do. */
  lemma {:induction false} EverySettlementEnds(s: System, steps: seq<Step>)
    requires Inv(s) && Settlement(s, steps)
    ensures |steps| + Work(Exec(s, steps)) <= Work(s)
    ensures (forall step: Step :: !step.Need? ==> !Enabled(Exec(s, steps), step)) <==> Quiescent(Exec(s, steps))
    decreases |steps|
  {
    if steps == [] {
      assert Enabled(s, Run(Impolite)) || Enabled(s, Run(Polite)) || Enabled(s, Deliver(Impolite)) ||
             Enabled(s, Deliver(Polite)) || Quiescent(s);
    } else {
      WorkShrinks(s, steps[0]);
      StepKeepsInv(s, steps[0]);
      EverySettlementEnds(Next(s, steps[0]), steps[1..]);
    }
  }

  // ----- a lost offer is healed by the impolite side's next offer -----

  /** The impolite side has an offer out that the polite side has not outrun with a new one. */
  predicate Healing(s: System) {
    && Inv(s) && !s.p.makingOffer
    && (|| s.i.makingOffer
        || (Waiting(s.i) && (OfferUnderway(s, s.i.signaling.offer) ||
                             (OfferTaken(s, s.i.signaling.offer) && !s.p.signaling.HaveLocalOffer?)))
        || (Settling(s) && s.p.signaling == Stable)
        || (Quiescent(s) && Agreed(s)))
  }

  lemma RunImpoliteKeepsHealing(s: System)
    requires Healing(s) && Enabled(s, Run(Impolite)) && Inv(Next(s, Run(Impolite)))
    ensures Healing(Next(s, Run(Impolite)))
  {
  }

  lemma RunPoliteKeepsHealing(s: System)
    requires Healing(s) && Enabled(s, Run(Polite)) && Inv(Next(s, Run(Polite)))
    ensures Healing(Next(s, Run(Polite)))
  {
  }

  lemma DeliverKeepsHealing(s: System, side: Side)
    requires Healing(s) && Enabled(s, Deliver(side)) && Inv(Next(s, Deliver(side)))
    ensures Healing(Next(s, Deliver(side)))
  {
  }

  lemma StepKeepsHealing(s: System, step: Step)
    requires Healing(s) && Enabled(s, step) && !step.Need?
    ensures Healing(Next(s, step))
  {
    StepKeepsInv(s, step);
    hide Inv, Healing;
    match step
    case Run(Impolite) => RunImpoliteKeepsHealing(s);
    case Run(Polite) => RunPoliteKeepsHealing(s);
    case Deliver(side) => DeliverKeepsHealing(s, side);
  }

  lemma {:induction false} SettlementHeals(s: System, steps: seq<Step>)
    requires Healing(s) && Settlement(s, steps)
    ensures Healing(Exec(s, steps))
    decreases |steps|
  {
    if steps != [] {
      StepKeepsHealing(s, steps[0]);
      SettlementHeals(Next(s, steps[0]), steps[1..]);
    }
  }

  /**
   After any run that has gone quiet, lost offer or not, one more offer by the impolite side
   brings both sides to agreement, whatever order the rest is delivered in.
   */
  lemma NextOfferHeals(before: seq<Step>, after: seq<Step>)
    requires Quiescent(Exec(Init(), before))
    requires Settlement(Exec(Exec(Init(), before), [Need(Impolite)]), after)
    ensures Enabled(Exec(Init(), before), Need(Impolite))
    ensures var s := Exec(Exec(Exec(Init(), before), [Need(Impolite)]), after);
            Quiescent(s) ==> Agreed(s) && !s.lost
  {
    RunKeepsInv(Init(), before);
    var s := Exec(Init(), before);
    NeedKeepsInv(s, Impolite);
    ExecStep(s, [Need(Impolite)]);
    SettlementHeals(Next(s, Need(Impolite)), after);
  }
}
