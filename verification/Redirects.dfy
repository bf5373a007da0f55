/**
 The desktop updater's guarded fetch (desktop/src/net_guard.rs). Names are resolved and requests are
 answered by a world that may answer differently every time it is asked.
 */
module Redirects {
  import opened Wrappers

  const MaxRedirects := 3

  datatype Url = Url(scheme: string, host: Option<string>, port: Option<nat>, rest: string)

  /** Scheme, host and port, of a web address. */
  datatype Origin = Origin(scheme: string, host: Option<string>, port: Option<nat>)

  function KnownPort(u: Url): Option<nat> {
    if u.port.Some? then u.port
    else if u.scheme == "http" then Some(80) else if u.scheme == "https" then Some(443) else None
  }

  function OriginOf(u: Url): Origin {
    Origin(u.scheme, u.host, KnownPort(u))
  }

  type Addr = nat

  datatype Answer = Broken | Reply(status: nat, location: Option<string>)

  /** One request as it leaves: where it may connect to, and what it carries. */
  datatype Sent = Sent(url: Url, addrs: seq<Addr>, bearer: Option<string>, headers: seq<(string, string)>)

  /** Look-ups and requests are numbered. */
  datatype World = World(
    resolve: (nat, string, nat) -> Option<seq<Addr>>,
    answer: (nat, Sent) -> Answer,
    policy: Addr -> bool,
    parse: string -> Option<Url>,
    join: (Url, string) -> Option<Url>)

  datatype Hop = Initial | Redirect

  datatype GuardError =
    | InvalidUrl
    | UnsupportedScheme(scheme: string)
    | NonPublicTarget(hop: Hop, host: string)
    | MissingLocation
    | TooManyRedirects
    | HttpStatus(code: nat)
    | Transport

  datatype Options = Options(bearer: Option<string>, headers: seq<(string, string)>, allowPrivateInitial: bool, home: Origin)

  predicate Web(u: Url) {
    u.scheme == "http" || u.scheme == "https"
  }

  /** Some address, and none that the policy refuses. */
  predicate Accepted(w: World, addrs: seq<Addr>) {
    addrs != [] && forall i :: 0 <= i < |addrs| ==> w.policy(addrs[i])
  }

  function HostText(u: Url): string {
    if u.host.Some? then u.host.value else ""
  }

  predicate Resolvable(u: Url) {
    u.host.Some? && KnownPort(u).Some?
  }

  function Lookup(w: World, u: Url, k: nat): Option<seq<Addr>> {
    if Resolvable(u) then w.resolve(k, u.host.value, KnownPort(u).value) else None
  }

  function AfterLookup(u: Url, k: nat): nat {
    if Resolvable(u) then k + 1 else k
  }

  predicate AllPublic(w: World, u: Url, k: nat) {
    Lookup(w, u, k).Some? && Accepted(w, Lookup(w, u, k).value)
  }

  /** Where an agent connects to: the guarded one resolves again and applies the policy again. */
  function Connectable(w: World, u: Url, k: nat, guarded: bool): Option<seq<Addr>> {
    match Lookup(w, u, k)
    case None => None
    case Some(addrs) => if addrs == [] || (guarded && !Accepted(w, addrs)) then None else Some(addrs)
  }

  function RequestFor(u: Url, addrs: seq<Addr>, o: Options): Sent {
    Sent(u, addrs, if OriginOf(u) == o.home then o.bearer else None, o.headers)
  }

  predicate IsRedirect(a: Answer) {
    a.Reply? && 300 <= a.status < 400
  }

  /** One hop either ends the fetch or names the next address. */
  datatype Outcome = Ends(result: Result<Answer, GuardError>) | Follows(next: Url)

  predicate FullyGuarded(o: Options, hop: nat) {
    hop > 0 || !o.allowPrivateInitial
  }

  /** The number of the look-up the agent makes. */
  function AgentLookup(o: Options, hop: nat, u: Url, k: nat): nat {
    if FullyGuarded(o, hop) then AfterLookup(u, k) else k
  }

  function HopOutcome(w: World, o: Options, hop: nat, u: Url, k: nat, n: nat): (Outcome, seq<Sent>) {
    if !Web(u) then
      (Ends(Err(UnsupportedScheme(u.scheme))), [])
    else if FullyGuarded(o, hop) && !AllPublic(w, u, k) then
      (Ends(Err(NonPublicTarget(if hop == 0 then Initial else Redirect, HostText(u)))), [])
    else match Connectable(w, u, AgentLookup(o, hop, u, k), FullyGuarded(o, hop))
      case None => (Ends(Err(Transport)), [])
      case Some(addrs) =>
        var sent := RequestFor(u, addrs, o);
        (AfterAnswer(w, u, w.answer(n, sent)), [sent])
  }

  function AfterAnswer(w: World, u: Url, a: Answer): Outcome {
    if a.Broken? then Ends(Err(Transport))
    else if a.status >= 400 then Ends(Err(HttpStatus(a.status)))
    else if a.status < 300 then Ends(Ok(a))
    else if a.location.None? then Ends(Err(MissingLocation))
    else match w.join(u, a.location.value)
      case None => Ends(Err(InvalidUrl))
      case Some(next) => Follows(next)
  }

  /** What a fetch comes to from one hop on, and the requests it makes. */
  function FetchFrom(w: World, o: Options, hop: nat, u: Url, k: nat, n: nat): (Result<Answer, GuardError>, seq<Sent>)
    requires hop <= MaxRedirects + 1
    decreases MaxRedirects + 1 - hop
  {
    if hop > MaxRedirects then
      (Err(TooManyRedirects), [])
    else
      var (outcome, sent) := HopOutcome(w, o, hop, u, k, n);
      match outcome
      case Ends(r) => (r, sent)
      case Follows(next) =>
        var rest := FetchFrom(w, o, hop + 1, next, AfterLookup(u, AgentLookup(o, hop, u, k)), n + 1);
        (rest.0, sent + rest.1)
  }

  /** A whole fetch, from the text of its address. */
  function Fetch(w: World, raw: string, bearer: Option<string>, headers: seq<(string, string)>, allowPrivateInitial: bool, k: nat, n: nat)
    : (Result<Answer, GuardError>, seq<Sent>)
  {
    match w.parse(raw)
    case None => (Err(InvalidUrl), [])
    case Some(u) => FetchFrom(w, Options(bearer, headers, allowPrivateInitial, OriginOf(u)), 0, u, k, n)
  }

  // ----- the loop -----

  class Network {
    const w: World
    var lookups: nat
    var requests: nat
    var log: seq<Sent>

    constructor (world: World)
      ensures w == world && lookups == 0 && requests == 0 && log == []
    {
      w, lookups, requests, log := world, 0, 0, [];
    }

    method Resolve(u: Url) returns (addrs: Option<seq<Addr>>)
      modifies this
      ensures addrs == Lookup(w, u, old(lookups)) && lookups == AfterLookup(u, old(lookups))
      ensures requests == old(requests) && log == old(log)
    {
      if u.host.None? || KnownPort(u).None? {
        return None;
      }
      addrs := w.resolve(lookups, u.host.value, KnownPort(u).value);
      lookups := lookups + 1;
    }

    /** Every address is looked at until one is refused; an empty answer is refused as well. */
    method HostResolvesAllPublic(u: Url) returns (ok: bool)
      modifies this
      ensures ok == AllPublic(w, u, old(lookups)) && lookups == AfterLookup(u, old(lookups))
      ensures requests == old(requests) && log == old(log)
    {
      var addrs := Resolve(u);
      if addrs.None? {
        return false;
      }
      var seen := false;
      for i := 0 to |addrs.value|
        invariant seen == (i > 0) && forall j :: 0 <= j < i ==> w.policy(addrs.value[j])
        invariant lookups == AfterLookup(u, old(lookups)) && requests == old(requests) && log == old(log)
      {
        seen := true;
        if !w.policy(addrs.value[i]) {
          return false;
        }
      }
      return seen;
    }

    /** The agent's call; nothing leaves when there is nowhere to connect to. */
    method Call(u: Url, guarded: bool, bearer: Option<string>, headers: seq<(string, string)>) returns (a: Answer)
      modifies this
      ensures lookups == AfterLookup(u, old(lookups))
      ensures match Connectable(w, u, old(lookups), guarded)
              case None => a == Broken && requests == old(requests) && log == old(log)
              case Some(addrs) =>
                var sent := Sent(u, addrs, bearer, headers);
                a == w.answer(old(requests), sent) && requests == old(requests) + 1 && log == old(log) + [sent]
    {
      ghost var k := lookups;
      var addrs := Resolve(u);
      if addrs.None? || addrs.value == [] || (guarded && exists i :: 0 <= i < |addrs.value| && !w.policy(addrs.value[i])) {
        return Broken;
      }
      assert Connectable(w, u, k, guarded) == addrs;
      var sent := Sent(u, addrs.value, bearer, headers);
      a := w.answer(requests, sent);
      requests := requests + 1;
      log := log + [sent];
    }

    method OneHop(o: Options, hop: nat, url: Url) returns (outcome: Outcome)
      modifies this
      ensures (outcome, log) == (HopOutcome(w, o, hop, url, old(lookups), old(requests)).0,
                                 old(log) + HopOutcome(w, o, hop, url, old(lookups), old(requests)).1)
      ensures outcome.Follows? ==>
                requests == old(requests) + 1 && lookups == AfterLookup(url, AgentLookup(o, hop, url, old(lookups)))
    {
      assert log + [] == log;
      if url.scheme != "http" && url.scheme != "https" {
        return Ends(Err(UnsupportedScheme(url.scheme)));
      }
      var full := hop > 0 || !o.allowPrivateInitial;
      if full {
        var public := HostResolvesAllPublic(url);
        if !public {
          return Ends(Err(NonPublicTarget(if hop == 0 then Initial else Redirect, HostText(url))));
        }
      }
      var carried := if OriginOf(url) == o.home then o.bearer else None;
      var answer := Call(url, full, carried, o.headers);
      if answer.Broken? {
        return Ends(Err(Transport));
      }
      if answer.status >= 400 {
        return Ends(Err(HttpStatus(answer.status)));
      }
      if answer.status < 300 {
        return Ends(Ok(answer));
      }
      if answer.location.None? {
        return Ends(Err(MissingLocation));
      }
      var next := w.join(url, answer.location.value);
      return if next.None? then Ends(Err(InvalidUrl)) else Follows(next.value);
    }

    method GuardedFetch(raw: string, bearer: Option<string>, headers: seq<(string, string)>, allowPrivateInitial: bool)
      returns (r: Result<Answer, GuardError>)
      modifies this
      ensures r == Fetch(w, raw, bearer, headers, allowPrivateInitial, old(lookups), old(requests)).0
      ensures log == old(log) + Fetch(w, raw, bearer, headers, allowPrivateInitial, old(lookups), old(requests)).1
    {
      hide HopOutcome, AfterAnswer;
      assert log + [] == log;
      var parsed := w.parse(raw);
      if parsed.None? {
        return Err(InvalidUrl);
      }
      var url := parsed.value;
      var o := Options(bearer, headers, allowPrivateInitial, OriginOf(url));
      ghost var whole := FetchFrom(w, o, 0, url, lookups, requests);
      for hop := 0 to MaxRedirects + 1
        invariant whole.0 == FetchFrom(w, o, hop, url, lookups, requests).0
        invariant old(log) + whole.1 == log + FetchFrom(w, o, hop, url, lookups, requests).1
      {
        ghost var before, sent := log, HopOutcome(w, o, hop, url, lookups, requests).1;
        var outcome := OneHop(o, hop, url);
        if outcome.Ends? {
          return outcome.result;
        }
        url := outcome.next;
        ghost var later := FetchFrom(w, o, hop + 1, url, lookups, requests).1;
        assert before + (sent + later) == before + sent + later;
      }
      assert log + [] == log;
      return Err(TooManyRedirects);
    }
  }

  // ----- what every fetch keeps to -----

  /** A hop makes at most one request, and follows only the answer to it. */
  lemma HopFacts(w: World, o: Options, hop: nat, u: Url, k: nat, n: nat)
    ensures var (outcome, sent) := HopOutcome(w, o, hop, u, k, n);
            && |sent| <= 1
            && (|sent| == 1 ==> sent[0].url == u && AfterAnswer(w, u, w.answer(n, sent[0])) == outcome)
            && (outcome.Follows? ==> |sent| == 1)
            && (outcome.Ends? ==> outcome.result != Err(TooManyRedirects))
            && (outcome.Ends? && outcome.result.Ok? ==>
                  |sent| == 1 && outcome.result.value == w.answer(n, sent[0])
                  && outcome.result.value.Reply? && outcome.result.value.status < 300)
  {
  }

  /** At most one request more than redirects are allowed. */
  lemma {:induction false} RequestsBounded(w: World, o: Options, hop: nat, u: Url, k: nat, n: nat)
    requires hop <= MaxRedirects + 1
    ensures |FetchFrom(w, o, hop, u, k, n).1| <= MaxRedirects + 1 - hop
    decreases MaxRedirects + 1 - hop
  {
    hide HopOutcome, AfterAnswer;
    HopFacts(w, o, hop, u, k, n);
    if hop <= MaxRedirects {
      var (outcome, sent) := HopOutcome(w, o, hop, u, k, n);
      if outcome.Follows? {
        RequestsBounded(w, o, hop + 1, outcome.next, AfterLookup(u, AgentLookup(o, hop, u, k)), n + 1);
      }
    }
  }

  /** What is said of the requests of a fetch, told one request after the other. */
  ghost predicate Chain(w: World, o: Options, hop: nat, u: Url, n: nat, sent: seq<Sent>)
    decreases sent
  {
    sent == []
    || (&& sent[0].url == u && Web(u)
        && (FullyGuarded(o, hop) ==> Accepted(w, sent[0].addrs))
        && sent[0].bearer == (if OriginOf(u) == o.home then o.bearer else None)
        && sent[0].headers == o.headers
        && (|sent| > 1 ==>
              AfterAnswer(w, u, w.answer(n, sent[0])).Follows?
              && Chain(w, o, hop + 1, AfterAnswer(w, u, w.answer(n, sent[0])).next, n + 1, sent[1..])))
  }

  lemma {:induction false} RequestsAreAChain(w: World, o: Options, hop: nat, u: Url, k: nat, n: nat)
    requires hop <= MaxRedirects + 1
    ensures Chain(w, o, hop, u, n, FetchFrom(w, o, hop, u, k, n).1)
    decreases MaxRedirects + 1 - hop
  {
    if hop <= MaxRedirects {
      var (outcome, sent) := HopOutcome(w, o, hop, u, k, n);
      if outcome.Follows? {
        var k' := AfterLookup(u, AgentLookup(o, hop, u, k));
        RequestsAreAChain(w, o, hop + 1, outcome.next, k', n + 1);
        assert (sent + FetchFrom(w, o, hop + 1, outcome.next, k', n + 1).1)[1..] == FetchFrom(w, o, hop + 1, outcome.next, k', n + 1).1;
      }
    }
  }

  /** Any request of a chain: where it goes, where it may connect to and what it carries. */
  lemma {:induction false} ChainedRequest(w: World, o: Options, hop: nat, u: Url, n: nat, sent: seq<Sent>, i: nat)
    requires Chain(w, o, hop, u, n, sent) && i < |sent|
    ensures Web(sent[i].url)
    ensures FullyGuarded(o, hop + i) ==> Accepted(w, sent[i].addrs)
    ensures sent[i].bearer == if OriginOf(sent[i].url) == o.home then o.bearer else None
    ensures sent[i].headers == o.headers
    ensures i + 1 < |sent| ==>
              IsRedirect(w.answer(n + i, sent[i])) && w.answer(n + i, sent[i]).location.Some?
              && w.join(sent[i].url, w.answer(n + i, sent[i]).location.value) == Some(sent[i + 1].url)
    decreases sent
  {
    if i > 0 {
      ChainedRequest(w, o, hop + 1, AfterAnswer(w, u, w.answer(n, sent[0])).next, n + 1, sent[1..], i - 1);
    }
  }

  /**
   The whole fetch: at most four requests; every one but an exempted first goes to a web address whose
   addresses were all accepted; the credential is on exactly those that stay on the first address's
   origin; and each goes where the answer before it pointed.
   */
  lemma EveryRequestIsGuarded(w: World, raw: string, bearer: Option<string>, headers: seq<(string, string)>, allowPrivateInitial: bool,
                              k: nat, n: nat, i: nat)
    ensures var sent := Fetch(w, raw, bearer, headers, allowPrivateInitial, k, n).1;
            && |sent| <= MaxRedirects + 1
            && (i < |sent| ==>
                  && w.parse(raw) == Some(sent[0].url) && Web(sent[i].url)
                  && (i > 0 || !allowPrivateInitial ==> Accepted(w, sent[i].addrs))
                  && sent[i].bearer == (if OriginOf(sent[i].url) == OriginOf(sent[0].url) then bearer else None)
                  && sent[i].headers == headers
                  && (i + 1 < |sent| ==>
                        && IsRedirect(w.answer(n + i, sent[i])) && w.answer(n + i, sent[i]).location.Some?
                        && w.join(sent[i].url, w.answer(n + i, sent[i]).location.value) == Some(sent[i + 1].url)))
  {
    if w.parse(raw).Some? {
      var u := w.parse(raw).value;
      var o := Options(bearer, headers, allowPrivateInitial, OriginOf(u));
      RequestsBounded(w, o, 0, u, k, n);
      RequestsAreAChain(w, o, 0, u, k, n);
      var sent := FetchFrom(w, o, 0, u, k, n).1;
      if i < |sent| {
        hide FetchFrom;
        ChainedRequest(w, o, 0, u, n, sent, i);
      }
    }
  }

  /** A success is the answer to the last request and never a redirect or an error status. */
  lemma {:induction false} SuccessIsFinal(w: World, o: Options, hop: nat, u: Url, k: nat, n: nat)
    requires hop <= MaxRedirects + 1
    ensures var (r, sent) := FetchFrom(w, o, hop, u, k, n);
            r.Ok? ==> sent != [] && r.value == w.answer(n + |sent| - 1, sent[|sent| - 1]) && r.value.Reply? && r.value.status < 300
    decreases MaxRedirects + 1 - hop
  {
    hide HopOutcome, AfterAnswer;
    HopFacts(w, o, hop, u, k, n);
    if hop <= MaxRedirects {
      var (outcome, sent) := HopOutcome(w, o, hop, u, k, n);
      if outcome.Follows? {
        SuccessIsFinal(w, o, hop + 1, outcome.next, AfterLookup(u, AgentLookup(o, hop, u, k)), n + 1);
      }
    }
  }

  /** It gives up for too many redirects exactly when all four requests were made and the last was still sent on. */
  lemma {:induction false} GivesUpExactly(w: World, o: Options, hop: nat, u: Url, k: nat, n: nat)
    requires hop <= MaxRedirects
    ensures var (r, sent) := FetchFrom(w, o, hop, u, k, n);
            r == Err(TooManyRedirects)
            <==> |sent| == MaxRedirects + 1 - hop
                 && AfterAnswer(w, sent[|sent| - 1].url, w.answer(n + |sent| - 1, sent[|sent| - 1])).Follows?
    decreases MaxRedirects + 1 - hop
  {
    hide HopOutcome, AfterAnswer;
    HopFacts(w, o, hop, u, k, n);
    var (outcome, sent) := HopOutcome(w, o, hop, u, k, n);
    RequestsBounded(w, o, hop, u, k, n);
    if outcome.Follows? && hop < MaxRedirects {
      GivesUpExactly(w, o, hop + 1, outcome.next, AfterLookup(u, AgentLookup(o, hop, u, k)), n + 1);
    }
  }
}
