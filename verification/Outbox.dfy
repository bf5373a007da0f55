/**
 The offline outbox of the service worker (server/assets/sw.js): messages posted while offline are
 queued in a durable store and replayed later. The store and the network are reached one await at
 a time, so handlers interleave between any two of those steps, and the browser may stop the
 worker at any of them.
 */
module Outbox {
  import opened Wrappers

  /** Store keys are handed out in increasing order and identify a message. */
  type Id = nat

  /** null while a message waits; the HTTP status once the server has rejected it. */
  type Status = Option<int>

  datatype Item = Item(id: Id, status: Status)

  /** Where a running handler stands. */
  datatype Handler =
    | Reading                                             // drain: about to list the store
    | Sending(rest: seq<Item>)                            // drain: the items still to look at
    | Deleting(id: Id, rest: seq<Item>)                   // drain: delivered, delete pending
    | Failing(id: Id, status: int, rest: seq<Item>)       // drain: rejected, write pending
    | Retrying(id: Id)                                    // retry: about to list the store
    | Requeueing(id: Id)                                  // retry: found, write pending

  datatype Reply = Thrown | Accepted | Rejected(status: int)

  /**
   The store and the running handlers, and what really happened: `delivered` lists the deliveries
   the server confirmed, in order; `rejected` are the messages ever rejected, `parked` those
   rejected and not retried since.
   */
  datatype World = World(
    store: map<Id, Status>,
    next: Id,
    handlers: map<nat, Handler>,
    delivered: seq<Id>,
    discarded: set<Id>,
    rejected: set<Id>,
    parked: set<Id>)

  const Empty := World(map[], 0, map[], [], {}, {}, {})

  datatype Step =
    | Post                                                // a message is queued instead of sent
    | Discard(id: Id)
    | StartDrain(h: nat)
    | StartRetry(h: nat, id: Id)
    | Advance(h: nat, reply: Reply)                       // the handler's next await completes
    | Stop(h: nat)                                        // the worker is terminated

  /** The store's keys in ascending order, as getAll lists them. */
  function Listing(store: map<Id, Status>, from: Id, upto: Id): seq<Item>
    requires from <= upto
    decreases upto - from
  {
    if from == upto then []
    else if from in store then [Item(from, store[from])] + Listing(store, from + 1, upto)
    else Listing(store, from + 1, upto)
  }

  function All(w: World): seq<Item> {
    Listing(w.store, 0, w.next)
  }

  predicate Enabled(w: World, step: Step) {
    match step
    case StartDrain(h) => h !in w.handlers
    case StartRetry(h, _) => h !in w.handlers
    case Advance(h, _) => h in w.handlers
    case Stop(h) => h in w.handlers
    case _ => true
  }

  function Put(w: World, h: nat, next: Handler): World {
    w.(handlers := w.handlers[h := next])
  }

  function Finish(w: World, h: nat): World {
    w.(handlers := w.handlers - {h})
  }

  /** One turn of drainOutbox's loop, up to the end of the fetch. */
  function SendNext(w: World, h: nat, rest: seq<Item>, reply: Reply): World {
    if rest == [] then Finish(w, h)
    else if rest[0].status.Some? then Put(w, h, Sending(rest[1..]))
    else match reply
      case Thrown => Finish(w, h)
      case Accepted => Put(w, h, Deleting(rest[0].id, rest[1..])).(delivered := w.delivered + [rest[0].id])
      case Rejected(status) =>
        Put(w, h, Failing(rest[0].id, status, rest[1..])).(
          rejected := w.rejected + {rest[0].id}, parked := w.parked + {rest[0].id})
  }

  function AdvanceHandler(w: World, h: nat, reply: Reply): World
    requires h in w.handlers
  {
    match w.handlers[h]
    case Reading => Put(w, h, Sending(All(w)))
    case Sending(rest) => SendNext(w, h, rest, reply)
    case Deleting(id, rest) => Put(w, h, Sending(rest)).(store := w.store - {id})
    case Failing(id, status, rest) => Put(w, h, Sending(rest)).(store := w.store[id := Some(status)])
    case Retrying(id) => Put(w, h, if id in w.store then Requeueing(id) else Reading)
    case Requeueing(id) => Put(w, h, Reading).(store := w.store[id := None], parked := w.parked - {id})
  }

  function Next(w: World, step: Step): World
    requires Enabled(w, step)
  {
    match step
    case Post => w.(store := w.store[w.next := None], next := w.next + 1)
    case Discard(id) => w.(store := w.store - {id}, discarded := w.discarded + {id})
    case StartDrain(h) => Put(w, h, Reading)
    case StartRetry(h, id) => Put(w, h, Retrying(id))
    case Advance(h, reply) => AdvanceHandler(w, h, reply)
    case Stop(h) => Finish(w, h)
  }

  function Exec(w: World, steps: seq<Step>): World
    decreases |steps|
  {
    if steps == [] then w
    else if Enabled(w, steps[0]) then Exec(Next(w, steps[0]), steps[1..])
    else Exec(w, steps[1..])
  }

  // ----- nothing is lost -----

  predicate Accounted(w: World, id: Id) {
    id in w.store || id in w.delivered || id in w.discarded
  }

  ghost predicate Safe(w: World) {
    && (forall id :: id in w.store ==> id < w.next)
    && (forall id: Id :: id < w.next ==> Accounted(w, id))
    && (forall h :: h in w.handlers ==> HandlerSafe(w, w.handlers[h]))
  }

  predicate ItemsKnown(w: World, items: seq<Item>) {
    forall k :: 0 <= k < |items| ==> items[k].id < w.next
  }

  predicate HandlerSafe(w: World, s: Handler) {
    match s
    case Sending(rest) => ItemsKnown(w, rest)
    case Deleting(id, rest) => ItemsKnown(w, rest) && id in w.delivered
    case Failing(id, _, rest) => ItemsKnown(w, rest) && id < w.next
    case Requeueing(id) => id < w.next
    case _ => true
  }

  /** A listing holds exactly the store's entries in the range, in ascending order. */
  lemma {:induction false} ListingExact(store: map<Id, Status>, from: Id, upto: Id)
    requires from <= upto
    ensures forall k :: 0 <= k < |Listing(store, from, upto)| ==>
              var item := Listing(store, from, upto)[k];
              from <= item.id < upto && item.id in store && item.status == store[item.id]
    ensures Ascending(Listing(store, from, upto))
    ensures forall id: Id :: from <= id < upto && id in store ==> Item(id, store[id]) in Listing(store, from, upto)
    decreases upto - from
  {
    if from < upto {
      ListingExact(store, from + 1, upto);
    }
  }

  predicate Ascending(items: seq<Item>) {
    forall j, k :: 0 <= j < k < |items| ==> items[j].id < items[k].id
  }

  lemma StepKeepsAccounted(w: World, step: Step, id: Id)
    requires Safe(w) && Enabled(w, step) && id < Next(w, step).next
    ensures Accounted(Next(w, step), id)
  {
    assert id < w.next ==> Accounted(w, id);
    if step.Advance? {
      assert HandlerSafe(w, w.handlers[step.h]);
    }
  }

  lemma AdvancedHandler(w: World, h: nat, reply: Reply)
    requires h in w.handlers && HandlerSafe(w, w.handlers[h]) && forall id :: id in w.store ==> id < w.next
    ensures h in AdvanceHandler(w, h, reply).handlers ==>
              HandlerSafe(AdvanceHandler(w, h, reply), AdvanceHandler(w, h, reply).handlers[h])
  {
    if w.handlers[h].Reading? {
      ListingExact(w.store, 0, w.next);
    }
  }

  lemma StepKeepsHandler(w: World, step: Step, h: nat)
    requires Safe(w) && Enabled(w, step) && h in Next(w, step).handlers
    ensures HandlerSafe(Next(w, step), Next(w, step).handlers[h])
  {
    assert h in w.handlers ==> HandlerSafe(w, w.handlers[h]);
    if step.Advance? && step.h == h {
      AdvancedHandler(w, h, step.reply);
    }
  }

  lemma StepKeepsSafe(w: World, step: Step)
    requires Safe(w) && Enabled(w, step)
    ensures Safe(Next(w, step))
  {
    var w' := Next(w, step);
    assert step.Advance? ==> HandlerSafe(w, w.handlers[step.h]);
    forall id: Id | id < w'.next
      ensures Accounted(w', id)
    {
      StepKeepsAccounted(w, step, id);
    }
    forall h | h in w'.handlers
      ensures HandlerSafe(w', w'.handlers[h])
    {
      StepKeepsHandler(w, step, h);
    }
  }

  lemma {:induction false} RunKeepsSafe(w: World, steps: seq<Step>)
    requires Safe(w)
    ensures Safe(Exec(w, steps))
    decreases |steps|
  {
    if steps != [] {
      if Enabled(w, steps[0]) {
        StepKeepsSafe(w, steps[0]);
        RunKeepsSafe(Next(w, steps[0]), steps[1..]);
      } else {
        RunKeepsSafe(w, steps[1..]);
      }
    }
  }

  /**
   However drains, retries and discards interleave, and wherever the worker is stopped: every queued
   message is still in the store, was delivered with a 2xx, or was discarded by the user.
   */
  lemma NothingLost(steps: seq<Step>)
    ensures var w := Exec(Empty, steps);
            forall id: Id :: id < w.next ==> Accounted(w, id)
  {
    RunKeepsSafe(Empty, steps);
  }

  // ----- one handler at a time -----

  /** Handlers start only when none is running, and the worker is not stopped between a reply and the write that follows it. */
  predicate Tidy(w: World, step: Step) {
    match step
    case StartDrain(_) => w.handlers == map[]
    case StartRetry(_, _) => w.handlers == map[]
    case Stop(h) => h in w.handlers && !w.handlers[h].Deleting? && !w.handlers[h].Failing?
    case _ => true
  }

  /** A run in which untidy steps are left out; posts and discards come at any time. */
  function ExecTidy(w: World, steps: seq<Step>): World
    decreases |steps|
  {
    if steps == [] then w
    else if Enabled(w, steps[0]) && Tidy(w, steps[0]) then ExecTidy(Next(w, steps[0]), steps[1..])
    else ExecTidy(w, steps[1..])
  }

  /** Never rejected, and not delivered yet. */
  predicate Unsettled(w: World, id: Id) {
    id !in w.rejected && id !in w.delivered
  }

  predicate Distinct(ids: seq<Id>) {
    forall j, k :: 0 <= j < k < |ids| ==> ids[j] != ids[k]
  }

  /** The confirmed deliveries of never-rejected messages are in queue order. */
  predicate InOrder(w: World) {
    forall j, k :: 0 <= j < k < |w.delivered| && w.delivered[j] !in w.rejected && w.delivered[k] !in w.rejected ==>
      w.delivered[j] < w.delivered[k]
  }

  /** `id` comes after every never-rejected message delivered so far. */
  predicate AfterDelivered(w: World, id: Id) {
    forall d :: d in w.delivered && d !in w.rejected ==> d < id
  }

  predicate InItems(items: seq<Item>, id: Id) {
    exists k :: 0 <= k < |items| && items[k].id == id
  }

  /** The items still to look at: in order, the waiting ones neither delivered nor parked. */
  ghost predicate RestValid(w: World, rest: seq<Item>) {
    && ItemsKnown(w, rest)
    && Ascending(rest)
    && (forall k :: 0 <= k < |rest| ==>
          if rest[k].status.Some? then rest[k].id in w.rejected
          else rest[k].id !in w.delivered && rest[k].id !in w.parked)
    && (forall k :: 0 <= k < |rest| && rest[k].id !in w.rejected ==> AfterDelivered(w, rest[k].id))
    && (forall id :: id in w.store && Unsettled(w, id) ==>
          InItems(rest, id) || (forall k :: 0 <= k < |rest| ==> rest[k].id < id))
  }

  ghost predicate HandlerValid(w: World, s: Handler) {
    match s
    case Sending(rest) => RestValid(w, rest)
    case Deleting(id, rest) => RestValid(w, rest) && id in w.delivered && (forall k :: 0 <= k < |rest| ==> id < rest[k].id)
    case Failing(id, _, rest) =>
      RestValid(w, rest) && id in w.rejected && id !in w.delivered && id < w.next &&
      (forall k :: 0 <= k < |rest| ==> id < rest[k].id)
    case Requeueing(id) => id < w.next && id !in w.delivered && (id !in w.rejected ==> AfterDelivered(w, id))
    case _ => true
  }

  predicate DeletePending(w: World, id: Id) {
    exists h :: h in w.handlers && w.handlers[h].Deleting? && w.handlers[h].id == id
  }

  predicate FailPending(w: World, id: Id) {
    exists h :: h in w.handlers && w.handlers[h].Failing? && w.handlers[h].id == id
  }

  ghost predicate StoreValid(w: World, id: Id)
    requires id in w.store
  {
    && id < w.next
    && (id in w.delivered ==> DeletePending(w, id))
    && (w.store[id].Some? ==> id in w.rejected)
    && (id in w.parked && !FailPending(w, id) ==> w.store[id].Some?)
    && (Unsettled(w, id) ==> AfterDelivered(w, id))
  }

  ghost predicate TidyValid(w: World) {
    && (forall h, k :: h in w.handlers && k in w.handlers ==> h == k)
    && (forall h :: h in w.handlers ==> HandlerValid(w, w.handlers[h]))
    && (forall id :: id in w.store ==> StoreValid(w, id))
    && (forall k :: 0 <= k < |w.delivered| ==> w.delivered[k] < w.next)
    && w.parked <= w.rejected
    && (forall id :: id in w.rejected ==> id < w.next)
    && Distinct(w.delivered)
    && InOrder(w)
  }

  lemma PostKeepsTidy(w: World)
    requires TidyValid(w)
    ensures TidyValid(Next(w, Post))
  {
  }

  lemma DiscardKeepsTidy(w: World, id: Id)
    requires TidyValid(w)
    ensures TidyValid(Next(w, Discard(id)))
  {
  }

  lemma StartKeepsTidy(w: World, step: Step)
    requires TidyValid(w) && Enabled(w, step) && Tidy(w, step) && (step.StartDrain? || step.StartRetry? || step.Stop?)
    ensures TidyValid(Next(w, step))
  {
  }

  /** The parts of TidyValid that do not look at the handlers. */
  ghost predicate LedgerValid(w: World) {
    && (forall k :: 0 <= k < |w.delivered| ==> w.delivered[k] < w.next)
    && w.parked <= w.rejected
    && (forall id :: id in w.rejected ==> id < w.next)
    && Distinct(w.delivered)
    && InOrder(w)
  }

  lemma OneHandler(w: World, h: nat, s: Handler)
    requires w.handlers == map[h := s] && HandlerValid(w, s) && LedgerValid(w)
    requires forall id :: id in w.store ==> StoreValid(w, id)
    ensures TidyValid(w)
  {
  }

  lemma ListRestValid(w: World)
    requires TidyValid(w) && w.handlers != map[] && forall h :: h in w.handlers ==> !w.handlers[h].Deleting? && !w.handlers[h].Failing?
    ensures RestValid(w, All(w))
  {
    ListingExact(w.store, 0, w.next);
    var rest := All(w);
    forall k | 0 <= k < |rest|
      ensures if rest[k].status.Some? then rest[k].id in w.rejected
              else rest[k].id !in w.delivered && rest[k].id !in w.parked
      ensures rest[k].id !in w.rejected ==> AfterDelivered(w, rest[k].id)
    {
      assert StoreValid(w, rest[k].id);
    }
    forall id | id in w.store && Unsettled(w, id)
      ensures InItems(rest, id)
    {
      assert StoreValid(w, id) && Item(id, w.store[id]) in rest;
    }
  }

  lemma ListKeepsTidy(w: World, h: nat, reply: Reply)
    requires TidyValid(w) && h in w.handlers && w.handlers[h].Reading?
    ensures TidyValid(Next(w, Advance(h, reply)))
  {
    var w' := Next(w, Advance(h, reply));
    ListRestValid(w);
    assert w'.handlers == map[h := Sending(All(w))];
    forall id | id in w'.store
      ensures StoreValid(w', id)
    {
      assert StoreValid(w, id);
    }
    OneHandler(w', h, Sending(All(w)));
  }

  lemma DeleteKeepsTidy(w: World, h: nat, reply: Reply)
    requires TidyValid(w) && h in w.handlers && w.handlers[h].Deleting?
    ensures TidyValid(Next(w, Advance(h, reply)))
  {
    var w' := Next(w, Advance(h, reply));
    var rest := w.handlers[h].rest;
    assert HandlerValid(w, w.handlers[h]);
    assert w'.handlers == map[h := Sending(rest)];
    forall id | id in w'.store
      ensures StoreValid(w', id)
    {
      assert StoreValid(w, id);
    }
    OneHandler(w', h, Sending(rest));
  }

  lemma FailKeepsTidy(w: World, h: nat, reply: Reply)
    requires TidyValid(w) && h in w.handlers && w.handlers[h].Failing?
    ensures TidyValid(Next(w, Advance(h, reply)))
  {
    var w' := Next(w, Advance(h, reply));
    var rest := w.handlers[h].rest;
    assert HandlerValid(w, w.handlers[h]);
    assert w'.handlers == map[h := Sending(rest)];
    forall id | id in w'.store
      ensures StoreValid(w', id)
    {
      assert id in w.store ==> StoreValid(w, id);
    }
    OneHandler(w', h, Sending(rest));
  }

  lemma RetryKeepsTidy(w: World, h: nat, reply: Reply)
    requires TidyValid(w) && h in w.handlers && (w.handlers[h].Retrying? || w.handlers[h].Requeueing?)
    ensures TidyValid(Next(w, Advance(h, reply)))
  {
    var w' := Next(w, Advance(h, reply));
    var s := w.handlers[h];
    assert HandlerValid(w, s);
    assert s.Retrying? && s.id in w.store ==> StoreValid(w, s.id);
    assert w'.handlers == map[h := w'.handlers[h]];
    forall id | id in w'.store
      ensures StoreValid(w', id)
    {
      assert id in w.store ==> StoreValid(w, id);
    }
    OneHandler(w', h, w'.handlers[h]);
  }

  /** The remaining items after the first has been dealt with. */
  lemma TailValid(w: World, w': World, rest: seq<Item>)
    requires rest != [] && RestValid(w, rest)
    requires w'.store == w.store && w'.next == w.next && w.rejected <= w'.rejected
    requires (forall id :: id in w.delivered ==> id in w'.delivered) && (forall id :: id in w'.delivered ==> id in w.delivered || id == rest[0].id)
    requires forall id :: id in w'.parked ==> id in w.parked || id == rest[0].id
    requires rest[0].id in w'.rejected || rest[0].id in w'.delivered
    ensures RestValid(w', rest[1..])
  {
    var tail := rest[1..];
    forall id | id in w'.store && Unsettled(w', id)
      ensures InItems(tail, id) || (forall k :: 0 <= k < |tail| ==> tail[k].id < id)
    {
      assert Unsettled(w, id);
      if InItems(rest, id) {
        var k :| 0 <= k < |rest| && rest[k].id == id;
        assert tail[k - 1].id == id;
      }
    }
  }

  lemma SkipKeepsTidy(w: World, h: nat, rest: seq<Item>)
    requires TidyValid(w) && h in w.handlers && w.handlers[h] == Sending(rest) && rest != [] && rest[0].status.Some?
    ensures TidyValid(Put(w, h, Sending(rest[1..])))
  {
    var w' := Put(w, h, Sending(rest[1..]));
    assert HandlerValid(w, w.handlers[h]);
    TailValid(w, w', rest);
    assert w'.handlers == map[h := Sending(rest[1..])];
    forall id | id in w'.store
      ensures StoreValid(w', id)
    {
      assert StoreValid(w, id);
    }
    OneHandler(w', h, Sending(rest[1..]));
  }

  lemma AcceptKeepsLedger(w: World, id: Id)
    requires LedgerValid(w) && id < w.next && id !in w.delivered
    requires id !in w.rejected ==> AfterDelivered(w, id)
    ensures LedgerValid(w.(delivered := w.delivered + [id]))
  {
  }

  lemma AcceptKeepsTidy(w: World, h: nat, rest: seq<Item>)
    requires TidyValid(w) && h in w.handlers && w.handlers[h] == Sending(rest) && rest != [] && rest[0].status.None?
    ensures TidyValid(SendNext(w, h, rest, Accepted))
  {
    var id0 := rest[0].id;
    var w' := SendNext(w, h, rest, Accepted);
    assert HandlerValid(w, w.handlers[h]);
    TailValid(w, w', rest);
    AcceptKeepsLedger(w, id0);
    assert w'.handlers == map[h := Deleting(id0, rest[1..])];
    forall id | id in w'.store
      ensures StoreValid(w', id)
    {
      assert StoreValid(w, id);
      if id == id0 {
        assert h in w'.handlers && w'.handlers[h].Deleting? && w'.handlers[h].id == id;
      } else if Unsettled(w', id) {
        assert Unsettled(w, id);
      }
    }
    OneHandler(w', h, Deleting(id0, rest[1..]));
  }

  lemma RejectKeepsTidy(w: World, h: nat, rest: seq<Item>, status: int)
    requires TidyValid(w) && h in w.handlers && w.handlers[h] == Sending(rest) && rest != [] && rest[0].status.None?
    ensures TidyValid(SendNext(w, h, rest, Rejected(status)))
  {
    var id0 := rest[0].id;
    var w' := SendNext(w, h, rest, Rejected(status));
    assert HandlerValid(w, w.handlers[h]);
    TailValid(w, w', rest);
    assert w'.handlers == map[h := Failing(id0, status, rest[1..])];
    forall id | id in w'.store
      ensures StoreValid(w', id)
    {
      assert StoreValid(w, id);
      if id == id0 {
        assert h in w'.handlers && w'.handlers[h].Failing? && w'.handlers[h].id == id;
      }
    }
    OneHandler(w', h, Failing(id0, status, rest[1..]));
  }

  lemma FinishKeepsTidy(w: World, h: nat)
    requires TidyValid(w) && h in w.handlers && w.handlers[h].Sending?
    ensures TidyValid(Finish(w, h))
  {
    assert Finish(w, h) == Next(w, Stop(h));
    StartKeepsTidy(w, Stop(h));
  }

  lemma StepKeepsTidy(w: World, step: Step)
    requires TidyValid(w) && Enabled(w, step) && Tidy(w, step)
    ensures TidyValid(Next(w, step))
  {
    match step
    case Post => PostKeepsTidy(w);
    case Discard(id) => DiscardKeepsTidy(w, id);
    case Advance(h, reply) =>
      match w.handlers[h] {
        case Reading => ListKeepsTidy(w, h, reply);
        case Deleting(_, _) => DeleteKeepsTidy(w, h, reply);
        case Failing(_, _, _) => FailKeepsTidy(w, h, reply);
        case Retrying(_) => RetryKeepsTidy(w, h, reply);
        case Requeueing(_) => RetryKeepsTidy(w, h, reply);
        case Sending(rest) =>
          if rest == [] || (rest[0].status.None? && reply == Thrown) {
            FinishKeepsTidy(w, h);
          } else if rest[0].status.Some? {
            SkipKeepsTidy(w, h, rest);
          } else if reply == Accepted {
            AcceptKeepsTidy(w, h, rest);
          } else {
            RejectKeepsTidy(w, h, rest, reply.status);
          }
      }
    case _ => StartKeepsTidy(w, step);
  }

  lemma {:induction false} RunKeepsTidy(w: World, steps: seq<Step>)
    requires TidyValid(w)
    ensures TidyValid(ExecTidy(w, steps))
    decreases |steps|
  {
    if steps != [] {
      if Enabled(w, steps[0]) && Tidy(w, steps[0]) {
        StepKeepsTidy(w, steps[0]);
        RunKeepsTidy(Next(w, steps[0]), steps[1..]);
      } else {
        RunKeepsTidy(w, steps[1..]);
      }
    }
  }

  /** The next await of handler `h` is a fetch of `id`. */
  predicate Sends(w: World, h: nat, id: Id) {
    h in w.handlers && w.handlers[h].Sending? && w.handlers[h].rest != [] && w.handlers[h].rest[0] == Item(id, None)
  }

  predicate AboutToSend(w: World, id: Id) {
    exists h :: h in w.handlers && Sends(w, h, id)
  }

  /**
   If handlers run one at a time and none is stopped between a reply and the write that follows it:
   each message is delivered at most once, a rejected one is not sent again before a retry, and the
   never-rejected ones are delivered in queue order.
   */
  lemma TidyDelivery(steps: seq<Step>)
    ensures Distinct(ExecTidy(Empty, steps).delivered)
    ensures InOrder(ExecTidy(Empty, steps))
    ensures forall id :: id in ExecTidy(Empty, steps).parked ==> !AboutToSend(ExecTidy(Empty, steps), id)
  {
    RunKeepsTidy(Empty, steps);
  }

  // ----- what overlapping or stopped handlers can do -----

  lemma ExecCons(w: World, step: Step, rest: seq<Step>)
    requires Enabled(w, step)
    ensures Exec(w, [step] + rest) == Exec(Next(w, step), rest)
  {
    assert ([step] + rest)[1..] == rest;
  }

  /** Message 0 is queued. */
  const Queued := World(map[0 := None], 1, map[], [], {}, {}, {})

  const Waiting := Sending([Item(0, None)])

  /** Message 0 is queued and a drain has listed it. */
  const OneDrain := Queued.(handlers := map[0 := Waiting])

  lemma DrainLists(w: World, h: nat, rest: seq<Step>)
    requires w.store == map[0 := None] && w.next == 1 && h !in w.handlers
    ensures Exec(w, [StartDrain(h)] + ([Advance(h, Thrown)] + rest)) == Exec(w.(handlers := w.handlers[h := Waiting]), rest)
  {
    var w1 := Next(w, StartDrain(h));
    assert Listing(w.store, 1, 1) == [] && All(w1) == [Item(0, None)];
    assert Next(w1, Advance(h, Thrown)) == w.(handlers := w.handlers[h := Waiting]);
    ExecCons(w, StartDrain(h), [Advance(h, Thrown)] + rest);
    ExecCons(w1, Advance(h, Thrown), rest);
  }

  lemma PostAndList(rest: seq<Step>)
    ensures Exec(Empty, [Post] + ([StartDrain(0)] + ([Advance(0, Thrown)] + rest))) == Exec(OneDrain, rest)
  {
    assert Next(Empty, Post) == Queued && Queued.handlers[0 := Waiting] == map[0 := Waiting];
    ExecCons(Empty, Post, [StartDrain(0)] + ([Advance(0, Thrown)] + rest));
    DrainLists(Queued, 0, rest);
  }

  /** Two drains about to send the same message can both deliver it. */
  lemma OverlapDeliversTwice(w: World, h: nat, k: nat, id: Id)
    requires h != k && Sends(w, h, id) && Sends(w, k, id)
    ensures Exec(w, [Advance(h, Accepted)] + ([Advance(k, Accepted)] + [])).delivered == w.delivered + [id, id]
  {
    ExecCons(w, Advance(h, Accepted), [Advance(k, Accepted)] + []);
    ExecCons(Next(w, Advance(h, Accepted)), Advance(k, Accepted), []);
  }

  /** ... and two drains get there: the second lists the message before the first has deleted it. */
  lemma TwoDrainsDeliverTwice()
    ensures Exec(Empty, [Post] + ([StartDrain(0)] + ([Advance(0, Thrown)] + ([StartDrain(1)] + ([Advance(1, Thrown)] +
                        ([Advance(0, Accepted)] + ([Advance(1, Accepted)] + []))))))).delivered == [0, 0]
  {
    var last := [Advance(0, Accepted)] + ([Advance(1, Accepted)] + []);
    PostAndList([StartDrain(1)] + ([Advance(1, Thrown)] + last));
    DrainLists(OneDrain, 1, last);
    OverlapDeliversTwice(OneDrain.(handlers := OneDrain.handlers[1 := Waiting]), 0, 1, 0);
  }

  /**
   Without any overlap: the worker is stopped after the server has accepted the message and before
   its record is deleted, and the next drain sends it again.
   */
  lemma StopDeliversTwice()
    ensures Exec(Empty, [Post] + ([StartDrain(0)] + ([Advance(0, Thrown)] + ([Advance(0, Accepted)] + ([Stop(0)] +
                        ([StartDrain(0)] + ([Advance(0, Thrown)] + ([Advance(0, Accepted)] + [])))))))).delivered == [0, 0]
  {
    var stopped := Queued.(delivered := [0]);
    var deleting := stopped.(handlers := map[0 := Deleting(0, [])]);
    assert [Item(0, None)][1..] == [] && OneDrain.delivered + [0] == [0] && deleting.handlers - {0} == map[];
    assert OneDrain.handlers[0 := Deleting(0, [])] == deleting.handlers;
    assert Next(OneDrain, Advance(0, Accepted)) == deleting && Next(deleting, Stop(0)) == stopped;
    var last := [Advance(0, Accepted)] + [];
    var again := [StartDrain(0)] + ([Advance(0, Thrown)] + last);
    PostAndList([Advance(0, Accepted)] + ([Stop(0)] + again));
    ExecCons(OneDrain, Advance(0, Accepted), [Stop(0)] + again);
    ExecCons(deleting, Stop(0), again);
    DrainLists(stopped, 0, last);
    ExecCons(stopped.(handlers := stopped.handlers[0 := Waiting]), Advance(0, Accepted), []);
  }

  /** Stopped before a rejection is written, the worker forgets it: the next drain is about to send the message without a retry. */
  lemma StopForgetsRejection()
    ensures var w := Exec(Empty, [Post] + ([StartDrain(0)] + ([Advance(0, Thrown)] + ([Advance(0, Rejected(500))] + ([Stop(0)] +
                                 ([StartDrain(0)] + ([Advance(0, Thrown)] + [])))))));
            0 in w.parked && AboutToSend(w, 0)
  {
    var stopped := Queued.(rejected := {0}, parked := {0});
    var failing := stopped.(handlers := map[0 := Failing(0, 500, [])]);
    assert [Item(0, None)][1..] == [] && failing.handlers - {0} == map[] && OneDrain.rejected + {0} == {0};
    assert OneDrain.handlers[0 := Failing(0, 500, [])] == failing.handlers;
    assert Next(OneDrain, Advance(0, Rejected(500))) == failing && Next(failing, Stop(0)) == stopped;
    var again := [StartDrain(0)] + ([Advance(0, Thrown)] + []);
    PostAndList([Advance(0, Rejected(500))] + ([Stop(0)] + again));
    ExecCons(OneDrain, Advance(0, Rejected(500)), [Stop(0)] + again);
    ExecCons(failing, Stop(0), again);
    DrainLists(stopped, 0, []);
    var w := stopped.(handlers := stopped.handlers[0 := Waiting]);
    assert Sends(w, 0, 0);
  }

  /** A message discarded after a drain has listed it is delivered all the same. */
  lemma DiscardedStillSent()
    ensures var w := Exec(Empty, [Post] + ([StartDrain(0)] + ([Advance(0, Thrown)] + ([Discard(0)] + ([Advance(0, Accepted)] + [])))));
            w.discarded == {0} && w.delivered == [0]
  {
    var discarded := OneDrain.(store := map[], discarded := {0});
    assert OneDrain.store - {0} == map[] && Next(OneDrain, Discard(0)) == discarded;
    PostAndList([Discard(0)] + ([Advance(0, Accepted)] + []));
    ExecCons(OneDrain, Discard(0), [Advance(0, Accepted)] + []);
    ExecCons(discarded, Advance(0, Accepted), []);
  }

  /** Message 0 has been rejected; no handler is running. */
  const Parked := World(map[0 := Some(500)], 1, map[], [], {}, {0}, {0})

  const Rejection := [Post] + ([StartDrain(0)] + ([Advance(0, Thrown)] + ([Advance(0, Rejected(500))] +
    ([Advance(0, Thrown)] + ([Advance(0, Thrown)] + [])))))

  lemma RejectionParks()
    ensures Exec(Empty, Rejection) == Parked
  {
    var w4 := World(map[0 := None], 1, map[0 := Failing(0, 500, [])], [], {}, {0}, {0});
    var w5 := World(map[0 := Some(500)], 1, map[0 := Sending([])], [], {}, {0}, {0});
    assert [Item(0, None)][1..] == [] && OneDrain.handlers[0 := Failing(0, 500, [])] == w4.handlers;
    assert Next(OneDrain, Advance(0, Rejected(500))) == w4;
    assert w4.store[0 := Some(500)] == w5.store && Next(w4, Advance(0, Thrown)) == w5;
    assert Next(w5, Advance(0, Thrown)).handlers == map[];
    var rest := [Advance(0, Thrown)] + ([Advance(0, Thrown)] + []);
    PostAndList([Advance(0, Rejected(500))] + rest);
    ExecCons(OneDrain, Advance(0, Rejected(500)), rest);
    ExecCons(w4, Advance(0, Thrown), [Advance(0, Thrown)] + []);
    ExecCons(w5, Advance(0, Thrown), []);
  }

  lemma {:induction false} ExecAppend(w: World, a: seq<Step>, b: seq<Step>)
    ensures Exec(w, a + b) == Exec(Exec(w, a), b)
    decreases |a|
  {
    if a == [] {
      assert a + b == b;
    } else {
      assert (a + b)[1..] == a[1..] + b;
      ExecAppend(if Enabled(w, a[0]) then Next(w, a[0]) else w, a[1..], b);
    }
  }

  const BothRead := [StartRetry(1, 0)] + ([StartRetry(2, 0)] + ([Advance(1, Thrown)] + ([Advance(2, Thrown)] + [])))

  const FirstDelivers := [Advance(1, Thrown)] + ([Advance(1, Thrown)] + ([Advance(1, Accepted)] +
    ([Advance(1, Thrown)] + ([Advance(1, Thrown)] + []))))

  const SecondDelivers := [Advance(2, Thrown)] + ([Advance(2, Thrown)] + ([Advance(2, Accepted)] + []))

  const Requeued := Parked.(handlers := map[1 := Requeueing(0), 2 := Requeueing(0)])

  const DeliveredOnce := World(map[], 1, map[2 := Requeueing(0)], [0], {}, {0}, {})

  lemma BothRetriesRead()
    ensures Exec(Parked, BothRead) == Requeued
  {
    var w1 := Parked.(handlers := map[1 := Retrying(0)]);
    var w2 := Parked.(handlers := map[1 := Retrying(0), 2 := Retrying(0)]);
    var w3 := Parked.(handlers := map[1 := Requeueing(0), 2 := Retrying(0)]);
    assert Next(Parked, StartRetry(1, 0)) == w1 && Next(w1, StartRetry(2, 0)) == w2;
    assert Next(w2, Advance(1, Thrown)) == w3 && Next(w3, Advance(2, Thrown)) == Requeued;
    ExecCons(Parked, StartRetry(1, 0), BothRead[1..]);
    ExecCons(w1, StartRetry(2, 0), BothRead[2..]);
    ExecCons(w2, Advance(1, Thrown), BothRead[3..]);
    ExecCons(w3, Advance(2, Thrown), []);
  }

  const Listed := World(map[0 := None], 1, map[1 := Sending([Item(0, None)]), 2 := Requeueing(0)], [], {}, {0}, {})

  const AfterListing := [Advance(1, Accepted)] + ([Advance(1, Thrown)] + ([Advance(1, Thrown)] + []))

  lemma FirstRetryLists()
    ensures Exec(Requeued, FirstDelivers) == Exec(Listed, AfterListing)
  {
    var w5 := World(map[0 := None], 1, map[1 := Reading, 2 := Requeueing(0)], [], {}, {0}, {});
    assert Requeued.store[0 := None] == w5.store && Next(Requeued, Advance(1, Thrown)) == w5;
    assert Listing(w5.store, 1, 1) == [] && All(w5) == [Item(0, None)];
    assert Next(w5, Advance(1, Thrown)) == Listed;
    ExecCons(Requeued, Advance(1, Thrown), [Advance(1, Thrown)] + AfterListing);
    ExecCons(w5, Advance(1, Thrown), AfterListing);
  }

  lemma FirstRetryDelivers()
    ensures Exec(Listed, AfterListing) == DeliveredOnce
  {
    var w7 := Listed.(handlers := map[1 := Deleting(0, []), 2 := Requeueing(0)], delivered := [0]);
    var w8 := World(map[], 1, map[1 := Sending([]), 2 := Requeueing(0)], [0], {}, {0}, {});
    assert [Item(0, None)][1..] == [] && Listed.delivered + [0] == [0];
    assert Next(Listed, Advance(1, Accepted)) == w7;
    ExecCons(Listed, Advance(1, Accepted), [Advance(1, Thrown)] + ([Advance(1, Thrown)] + []));
    FirstRetryDeletes(w7, w8);
  }

  lemma FirstRetryDeletes(w7: World, w8: World)
    requires w7 == Listed.(handlers := map[1 := Deleting(0, []), 2 := Requeueing(0)], delivered := [0])
    requires w8 == World(map[], 1, map[1 := Sending([]), 2 := Requeueing(0)], [0], {}, {0}, {})
    ensures Exec(w7, [Advance(1, Thrown)] + ([Advance(1, Thrown)] + [])) == DeliveredOnce
  {
    assert w7.store - {0} == w8.store && Next(w7, Advance(1, Thrown)) == w8;
    assert w8.handlers - {1} == DeliveredOnce.handlers && Next(w8, Advance(1, Thrown)) == DeliveredOnce;
    ExecCons(w7, Advance(1, Thrown), [Advance(1, Thrown)] + []);
    ExecCons(w8, Advance(1, Thrown), []);
  }

  lemma SecondRetryDelivers()
    ensures Exec(DeliveredOnce, SecondDelivers).delivered == [0, 0]
  {
    var w10 := World(map[0 := None], 1, map[2 := Reading], [0], {}, {0}, {});
    var w11 := w10.(handlers := map[2 := Sending([Item(0, None)])]);
    assert Next(DeliveredOnce, Advance(2, Thrown)) == w10;
    assert Listing(w10.store, 1, 1) == [] && All(w10) == [Item(0, None)];
    assert Next(w10, Advance(2, Thrown)) == w11;
    ExecCons(DeliveredOnce, Advance(2, Thrown), SecondDelivers[1..]);
    ExecCons(w10, Advance(2, Thrown), SecondDelivers[2..]);
    ExecCons(w11, Advance(2, Accepted), []);
  }

  /**
   Not only overlapping drains: when two retries have both read a message before either has written,
   the second write puts it back after it was delivered, and it is delivered again, although the
   three drains of this run never overlap.
   */
  lemma StaleRetryDeliversTwice()
    ensures Exec(Empty, Rejection + (BothRead + (FirstDelivers + SecondDelivers))).delivered == [0, 0]
  {
    RejectionParks();
    BothRetriesRead();
    FirstRetryLists();
    FirstRetryDelivers();
    SecondRetryDelivers();
    ExecAppend(Empty, Rejection, BothRead + (FirstDelivers + SecondDelivers));
    ExecAppend(Parked, BothRead, FirstDelivers + SecondDelivers);
    ExecAppend(Requeued, FirstDelivers, SecondDelivers);
  }

  // ----- exactly when a message can be sent once more -----

  /** How often a message was delivered. */
  function Deliveries(ids: seq<Id>, id: Id): nat {
    if ids == [] then 0 else Deliveries(ids[..|ids| - 1], id) + if ids[|ids| - 1] == id then 1 else 0
  }

  /** What a handler still has to look at. */
  function RestOf(s: Handler): seq<Item> {
    match s
    case Sending(rest) => rest
    case Deleting(_, rest) => rest
    case Failing(_, _, rest) => rest
    case _ => []
  }

  /** A handler that has listed the message as waiting, or is about to write it. */
  predicate Holds(s: Handler, id: Id) {
    Item(id, None) in RestOf(s) || s == Requeueing(id) || (s.Failing? && s.id == id)
  }

  /** The message is in the store or in a handler's hands. */
  predicate Exposed(w: World, id: Id) {
    id in w.store || exists h :: h in w.handlers && Holds(w.handlers[h], id)
  }

  lemma DeliveredGrows(w: World, id: Id, other: Id)
    ensures Deliveries(w.delivered + [other], id) == Deliveries(w.delivered, id) + if other == id then 1 else 0
  {
    assert (w.delivered + [other])[..|w.delivered|] == w.delivered;
  }

  /** The same for the handler that advances. */
  lemma SendKeepsUnexposed(w: World, h: nat, rest: seq<Item>, reply: Reply, id: Id)
    requires h in w.handlers && w.handlers[h] == Sending(rest) && !Holds(Sending(rest), id)
    ensures var w' := SendNext(w, h, rest, reply);
            && w'.store == w.store && Deliveries(w'.delivered, id) == Deliveries(w.delivered, id)
            && (h in w'.handlers ==> !Holds(w'.handlers[h], id))
            && (forall k :: k in w'.handlers && k != h ==> k in w.handlers && w'.handlers[k] == w.handlers[k])
  {
    if rest != [] {
      assert rest[0] in rest;
      DeliveredGrows(w, id, rest[0].id);
    }
    hide Deliveries;
  }

  lemma AdvanceKeepsUnexposed(w: World, h: nat, reply: Reply, id: Id)
    requires h in w.handlers && id < w.next && id !in w.store && !Holds(w.handlers[h], id)
    ensures var w' := AdvanceHandler(w, h, reply);
            && id !in w'.store && Deliveries(w'.delivered, id) == Deliveries(w.delivered, id)
            && (h in w'.handlers ==> !Holds(w'.handlers[h], id))
            && (forall k :: k in w'.handlers && k != h ==> k in w.handlers && w'.handlers[k] == w.handlers[k])
  {
    match w.handlers[h]
    case Reading =>
      ListingExact(w.store, 0, w.next);
    case Sending(rest) =>
      SendKeepsUnexposed(w, h, rest, reply, id);
    case _ =>
      hide Deliveries;
  }

  /** What is not exposed stays so, and is not sent. */
  lemma StepKeepsUnexposed(w: World, step: Step, id: Id)
    requires Enabled(w, step) && id < w.next && !Exposed(w, id)
    ensures !Exposed(Next(w, step), id) && Deliveries(Next(w, step).delivered, id) == Deliveries(w.delivered, id)
  {
    hide Deliveries;
    if step.Advance? {
      AdvanceKeepsUnexposed(w, step.h, step.reply, id);
      hide AdvanceHandler, Holds;
    } else {
      hide AdvanceHandler;
    }
  }

  lemma {:induction false} UnexposedStaysUnsent(w: World, steps: seq<Step>, id: Id)
    requires id < w.next && !Exposed(w, id)
    ensures !Exposed(Exec(w, steps), id) && Deliveries(Exec(w, steps).delivered, id) == Deliveries(w.delivered, id)
    decreases |steps|
  {
    if steps != [] {
      if Enabled(w, steps[0]) {
        StepKeepsUnexposed(w, steps[0], id);
        UnexposedStaysUnsent(Next(w, steps[0]), steps[1..], id);
      } else {
        UnexposedStaysUnsent(w, steps[1..], id);
      }
    }
  }

  /** A drain that accepts everything gets to any message it has listed. */
  lemma {:induction false} DrainGetsThere(w: World, h: nat, items: seq<Item>, id: Id) returns (steps: seq<Step>)
    requires h in w.handlers && w.handlers[h] == Sending(items) && Item(id, None) in items
    ensures Sends(Exec(w, steps), h, id) && Deliveries(Exec(w, steps).delivered, id) >= Deliveries(w.delivered, id)
    decreases |items|
  {
    if items[0] == Item(id, None) {
      steps := [];
    } else {
      assert items == [items[0]] + items[1..];
      var w1 := Next(w, Advance(h, Accepted));
      if items[0].status.Some? {
        var rest := DrainGetsThere(w1, h, items[1..], id);
        ExecCons(w, Advance(h, Accepted), rest);
        steps := [Advance(h, Accepted)] + rest;
      } else {
        var w2 := Next(w1, Advance(h, Accepted));
        DeliveredGrows(w, id, items[0].id);
        var rest := DrainGetsThere(w2, h, items[1..], id);
        ExecCons(w1, Advance(h, Accepted), rest);
        ExecCons(w, Advance(h, Accepted), [Advance(h, Accepted)] + rest);
        steps := [Advance(h, Accepted)] + ([Advance(h, Accepted)] + rest);
      }
    }
  }

  /** A handler about to put the message back, or to list the store that has it waiting, gets to it. */
  lemma ListsAndGetsThere(w: World, h: nat, id: Id) returns (steps: seq<Step>)
    requires h in w.handlers && id < w.next
    requires w.handlers[h] == Requeueing(id) || (w.handlers[h] == Reading && id in w.store && w.store[id] == None)
    ensures Sends(Exec(w, steps), h, id) && Deliveries(Exec(w, steps).delivered, id) >= Deliveries(w.delivered, id)
    decreases w.handlers[h] == Requeueing(id)
  {
    var w1 := Next(w, Advance(h, Thrown));
    var rest;
    if w.handlers[h] == Reading {
      ListingExact(w.store, 0, w.next);
      rest := DrainGetsThere(w1, h, All(w), id);
    } else {
      rest := ListsAndGetsThere(w1, h, id);
    }
    ExecCons(w, Advance(h, Thrown), rest);
    steps := [Advance(h, Thrown)] + rest;
  }

  /** A retry of a stored message, in the place of whatever handler 0 was, gets to it. */
  lemma RetryGetsThere(w: World, id: Id) returns (steps: seq<Step>)
    requires id in w.store && id < w.next
    ensures Sends(Exec(w, steps), 0, id) && Deliveries(Exec(w, steps).delivered, id) >= Deliveries(w.delivered, id)
  {
    var w1 := if 0 in w.handlers then Next(w, Stop(0)) else w;
    var w2 := Next(w1, StartRetry(0, id));
    var w3 := Next(w2, Advance(0, Thrown));
    var rest := ListsAndGetsThere(w3, 0, id);
    ExecCons(w2, Advance(0, Thrown), rest);
    ExecCons(w1, StartRetry(0, id), [Advance(0, Thrown)] + rest);
    steps := [StartRetry(0, id)] + ([Advance(0, Thrown)] + rest);
    if 0 in w.handlers {
      ExecCons(w, Stop(0), steps);
      steps := [Stop(0)] + steps;
    }
  }

  /** Whatever is exposed can come up for sending. */
  lemma ExposedGetsThere(w: World, id: Id) returns (steps: seq<Step>, h: nat)
    requires id < w.next && Exposed(w, id)
    ensures Sends(Exec(w, steps), h, id) && Deliveries(Exec(w, steps).delivered, id) >= Deliveries(w.delivered, id)
  {
    if id in w.store {
      steps := RetryGetsThere(w, id);
      h := 0;
    } else {
      h :| h in w.handlers && Holds(w.handlers[h], id);
      var s := w.handlers[h];
      if s.Sending? {
        steps := DrainGetsThere(w, h, s.rest, id);
      } else if s.Requeueing? {
        steps := ListsAndGetsThere(w, h, id);
      } else {
        var w1 := Next(w, Advance(h, Thrown));
        var writes := s.Failing? && s.id == id;
        var rest;
        if writes {
          rest := RetryGetsThere(w1, id);
        } else {
          rest := DrainGetsThere(w1, h, RestOf(s), id);
        }
        ExecCons(w, Advance(h, Thrown), rest);
        steps := [Advance(h, Thrown)] + rest;
        h := if writes then 0 else h;
      }
    }
  }

  /** At a fetch of `id` the server may accept it, or reject it. */
  lemma SendsOrReturns(w: World, h: nat, id: Id)
    requires Sends(w, h, id)
    ensures Deliveries(Exec(w, [Advance(h, Accepted)] + []).delivered, id) == Deliveries(w.delivered, id) + 1
    ensures id in Exec(w, [Advance(h, Rejected(500))] + ([Advance(h, Thrown)] + [])).store
  {
    DeliveredGrows(w, id, id);
    ExecCons(w, Advance(h, Accepted), []);
    var w1 := Next(w, Advance(h, Rejected(500)));
    ExecCons(w1, Advance(h, Thrown), []);
    ExecCons(w, Advance(h, Rejected(500)), [Advance(h, Thrown)] + []);
  }

  /**
   In any reachable state, a queued message, delivered, discarded or neither, has a continuation that
   delivers it once more if and only if it is exposed; and one that finds it in the store under the
   same condition.
   */
  lemma DeliveredAgainExactly(before: seq<Step>, id: Id)
    requires id < Exec(Empty, before).next
    ensures var w := Exec(Empty, before);
            && (Exposed(w, id) <==> exists more :: Deliveries(Exec(w, more).delivered, id) > Deliveries(w.delivered, id))
            && (Exposed(w, id) <==> exists more :: id in Exec(w, more).store)
  {
    var w := Exec(Empty, before);
    if Exposed(w, id) {
      var steps, h := ExposedGetsThere(w, id);
      SendsOrReturns(Exec(w, steps), h, id);
      ExecAppend(w, steps, [Advance(h, Accepted)] + []);
      ExecAppend(w, steps, [Advance(h, Rejected(500))] + ([Advance(h, Thrown)] + []));
      var sent := steps + ([Advance(h, Accepted)] + []);
      var back := steps + ([Advance(h, Rejected(500))] + ([Advance(h, Thrown)] + []));
      assert Deliveries(Exec(w, sent).delivered, id) > Deliveries(w.delivered, id);
      assert id in Exec(w, back).store;
    } else {
      forall more
        ensures Deliveries(Exec(w, more).delivered, id) == Deliveries(w.delivered, id) && id !in Exec(w, more).store
      {
        UnexposedStaysUnsent(w, more, id);
      }
    }
  }

  /** In a tidy run a delivered message is exposed exactly until its record is deleted. */
  lemma TidyExposure(steps: seq<Step>, id: Id)
    ensures var w := ExecTidy(Empty, steps);
            id in w.delivered ==> (Exposed(w, id) <==> id in w.store) && (id in w.store ==> DeletePending(w, id))
  {
    RunKeepsTidy(Empty, steps);
    var w := ExecTidy(Empty, steps);
    if id in w.delivered {
      forall h | h in w.handlers
        ensures !Holds(w.handlers[h], id)
      {
        var s := w.handlers[h];
        assert HandlerValid(w, s);
        assert forall k :: 0 <= k < |RestOf(s)| ==> RestOf(s)[k] != Item(id, None);
      }
    }
  }

  // ----- the store and the handlers, run without interruption -----

  /** What a drain that nothing interrupts does to the store. */
  datatype Outcome = Outcome(store: map<Id, Status>, sent: seq<Id>, failed: set<Id>)

  function Drain(store: map<Id, Status>, items: seq<Item>, reply: Id -> Reply): Outcome
    decreases |items|
  {
    if items == [] then Outcome(store, [], {})
    else
      var id, rest := items[0].id, items[1..];
      if items[0].status.Some? then Drain(store, rest, reply)
      else match reply(id)
        case Thrown => Outcome(store, [], {})
        case Accepted => var o := Drain(store - {id}, rest, reply); o.(sent := [id] + o.sent)
        case Rejected(status) =>
          var o := Drain(store[id := Some(status)], rest, reply); o.(failed := {id} + o.failed)
  }

  /** With `items` to go, a drain that has delivered `done` so far is on its way to `goal`. */
  ghost predicate Ahead(goal: Outcome, done: seq<Id>, store: map<Id, Status>, items: seq<Item>, reply: Id -> Reply) {
    var o := Drain(store, items, reply);
    goal.store == o.store && goal.sent == done + o.sent
  }

  lemma AheadStart(store: map<Id, Status>, items: seq<Item>, reply: Id -> Reply)
    ensures Ahead(Drain(store, items, reply), [], store, items, reply)
  {
    assert [] + Drain(store, items, reply).sent == Drain(store, items, reply).sent;
  }

  lemma AheadStep(goal: Outcome, done: seq<Id>, store: map<Id, Status>, items: seq<Item>, reply: Id -> Reply)
    requires items != [] && Ahead(goal, done, store, items, reply)
    ensures items[0].status.Some? ==> Ahead(goal, done, store, items[1..], reply)
    ensures items[0].status.None? ==>
              match reply(items[0].id)
              case Thrown => goal.store == store && goal.sent == done
              case Accepted => Ahead(goal, done + [items[0].id], store - {items[0].id}, items[1..], reply)
              case Rejected(status) => Ahead(goal, done, store[items[0].id := Some(status)], items[1..], reply)
  {
    var o := Drain(store - {items[0].id}, items[1..], reply);
    assert done + [items[0].id] + o.sent == done + ([items[0].id] + o.sent);
    assert done + [] == done;
  }

  lemma AheadEnd(goal: Outcome, done: seq<Id>, store: map<Id, Status>, items: seq<Item>, reply: Id -> Reply)
    requires items == [] && Ahead(goal, done, store, items, reply)
    ensures goal.store == store && goal.sent == done
  {
    assert done + [] == done;
  }

  class ServiceWorker {
    var store: map<Id, Status>
    var next: Id
    /** Deliveries the server confirmed. */
    ghost var delivered: seq<Id>

    ghost predicate Valid()
      reads this
    {
      forall id :: id in store ==> id < next
    }

    constructor ()
      ensures Valid() && store == map[] && next == 0 && delivered == []
    {
      store, next, delivered := map[], 0, [];
    }

    /** The whole store in key order. */
    method GetAll() returns (items: seq<Item>)
      requires Valid()
      ensures items == Listing(store, 0, next)
    {
      items := [];
      var id: nat := next;
      while id > 0
        invariant id <= next && items == Listing(store, id, next)
      {
        id := id - 1;
        if id in store {
          items := [Item(id, store[id])] + items;
        }
      }
    }

    /** `online` tells whether the request went through; otherwise it is queued and reported as sent. */
    method HandleMessagePost(online: bool) returns (queued: bool)
      requires Valid()
      modifies this
      ensures Valid() && queued == !online && delivered == old(delivered)
      ensures online ==> store == old(store) && next == old(next)
      ensures !online ==> store == old(store)[old(next) := None] && next == old(next) + 1
    {
      if online {
        return false;
      }
      store := store[next := None];
      next := next + 1;
      return true;
    }

    method DrainOutbox(reply: Id -> Reply)
      requires Valid()
      modifies this`store, this`delivered
      ensures Valid()
      ensures var o := Drain(old(store), Listing(old(store), 0, next), reply);
              store == o.store && delivered == old(delivered) + o.sent
    {
      var items := GetAll();
      ListingExact(store, 0, next);
      ReplayAll(items, reply);
    }

    method ReplayAll(items: seq<Item>, reply: Id -> Reply)
      requires Valid() && forall k :: 0 <= k < |items| ==> items[k].id < next
      modifies this`store, this`delivered
      ensures Valid()
      ensures store == Drain(old(store), items, reply).store
      ensures delivered == old(delivered) + Drain(old(store), items, reply).sent
    {
      hide Drain, Ahead;
      ghost var goal := Drain(store, items, reply);
      ghost var done: seq<Id> := [];
      AheadStart(store, items, reply);
      var i := 0;
      assert items[0..] == items;
      while i < |items|
        invariant i <= |items| && Valid() && delivered == old(delivered) + done
        invariant Ahead(goal, done, store, items[i..], reply)
      {
        AheadStep(goal, done, store, items[i..], reply);
        assert items[i..][1..] == items[i + 1..] && items[i..][0] == items[i];
        if items[i].status.None? {
          var goOn := Replay(items[i].id, reply(items[i].id));
          if !goOn {
            return;
          }
          if reply(items[i].id) == Accepted {
            done := done + [items[i].id];
          }
        }
        i := i + 1;
      }
      AheadEnd(goal, done, store, items[i..], reply);
    }

    /** One request and the write that follows its reply; false when the network failed. */
    method Replay(id: Id, reply: Reply) returns (goOn: bool)
      requires Valid() && id < next
      modifies this`store, this`delivered
      ensures Valid() && goOn == (reply != Thrown)
      ensures store == match reply
                       case Thrown => old(store)
                       case Accepted => old(store) - {id}
                       case Rejected(status) => old(store)[id := Some(status)]
      ensures delivered == old(delivered) + if reply == Accepted then [id] else []
    {
      match reply {
        case Thrown =>
          return false;
        case Accepted =>
          delivered := delivered + [id];
          store := store - {id};
        case Rejected(status) =>
          store := store[id := Some(status)];
      }
      return true;
    }

    method Retry(id: Id, reply: Id -> Reply)
      requires Valid()
      modifies this`store, this`delivered
      ensures Valid()
      ensures var before := if id in old(store) then old(store)[id := None] else old(store);
              var o := Drain(before, Listing(before, 0, next), reply);
              store == o.store && delivered == old(delivered) + o.sent
    {
      if id in store {
        store := store[id := None];
      }
      DrainOutbox(reply);
    }

    method Discard(id: Id)
      requires Valid()
      modifies this`store
      ensures Valid() && store == old(store) - {id}
    {
      store := store - {id};
    }
  }

  /** The awaits of an uninterrupted drain over `items`. */
  function DrainSteps(h: nat, items: seq<Item>, reply: Id -> Reply): seq<Step> {
    if items == [] then [Advance(h, Thrown)]
    else if items[0].status.Some? then [Advance(h, Thrown)] + DrainSteps(h, items[1..], reply)
    else match reply(items[0].id)
      case Thrown => [Advance(h, Thrown)]
      case r => [Advance(h, r)] + ([Advance(h, r)] + DrainSteps(h, items[1..], reply))
  }

  /** `w` with the outcome of the rest of a drain. */
  function Settle(w: World, o: Outcome): World {
    w.(store := o.store, handlers := map[], delivered := w.delivered + o.sent,
       rejected := w.rejected + o.failed, parked := w.parked + o.failed)
  }

  lemma TwoAwaits(w: World, h: nat, item: Item, rest: seq<Item>, r: Reply, more: seq<Step>) returns (w2: World)
    requires w.handlers == map[h := Sending([item] + rest)] && item.status.None? && r != Thrown
    ensures Exec(w, [Advance(h, r)] + ([Advance(h, r)] + more)) == Exec(w2, more)
    ensures w2.handlers == map[h := Sending(rest)] && w2.next == w.next && w2.discarded == w.discarded
    ensures r == Accepted ==>
              w2 == w.(handlers := w2.handlers, store := w.store - {item.id}, delivered := w.delivered + [item.id])
    ensures r.Rejected? ==>
              w2 == w.(handlers := w2.handlers, store := w.store[item.id := Some(r.status)],
                       rejected := w.rejected + {item.id}, parked := w.parked + {item.id})
  {
    assert ([item] + rest)[1..] == rest;
    var w1 := Next(w, Advance(h, r));
    w2 := Next(w1, Advance(h, r));
    ExecCons(w, Advance(h, r), [Advance(h, r)] + more);
    ExecCons(w1, Advance(h, r), more);
    assert w2.handlers == map[h := Sending(rest)];
  }

  lemma DrainEnds(w: World, h: nat, items: seq<Item>, reply: Id -> Reply)
    requires w.handlers == map[h := Sending(items)]
    requires items == [] || (items[0].status.None? && reply(items[0].id) == Thrown)
    ensures Exec(w, DrainSteps(h, items, reply)) == Settle(w, Drain(w.store, items, reply))
  {
    assert Finish(w, h).handlers == map[] && w.delivered + [] == w.delivered;
    assert w.rejected + {} == w.rejected && w.parked + {} == w.parked;
    ExecCons(w, Advance(h, Thrown), []);
  }

  /** The loop of drainOutbox is the step machine run without interruption. */
  lemma {:induction false} DrainIsItsSteps(w: World, h: nat, items: seq<Item>, reply: Id -> Reply)
    requires w.handlers == map[h := Sending(items)]
    ensures Exec(w, DrainSteps(h, items, reply)) == Settle(w, Drain(w.store, items, reply))
    decreases |items|
  {
    if items == [] || (items[0].status.None? && reply(items[0].id) == Thrown) {
      DrainEnds(w, h, items, reply);
    } else if items[0].status.Some? {
      ExecCons(w, Advance(h, Thrown), DrainSteps(h, items[1..], reply));
      DrainIsItsSteps(Next(w, Advance(h, Thrown)), h, items[1..], reply);
    } else {
      var id, r := items[0].id, reply(items[0].id);
      assert items == [items[0]] + items[1..];
      var w2 := TwoAwaits(w, h, items[0], items[1..], r, DrainSteps(h, items[1..], reply));
      DrainIsItsSteps(w2, h, items[1..], reply);
      var o := Drain(w2.store, items[1..], reply);
      assert w.delivered + [id] + o.sent == w.delivered + ([id] + o.sent);
      assert w.rejected + {id} + o.failed == w.rejected + ({id} + o.failed);
      assert w.parked + {id} + o.failed == w.parked + ({id} + o.failed);
    }
  }
}
