/** A node's event router (src/exo/routing/event_router.py). */
module EventRouter {
  import opened Common
  import opened EventBuffer
  import opened Messages

  /** The cancel scope of the delayed log request: none, sleeping before it asks for
      the log from `since`, or told to stop. */
  datatype NackScope = NoScope | Sleeping(since: nat) | CancelCalled

  datatype Router<B> = Router(
    session: SessionId,
    buffer: Buffer<Event<B>>,
    counters: map<SystemId, nat>,
    outForDelivery: map<nat, LocalMessage<B>>,
    nack: NackScope,
    attempts: nat)
  {
    function Count(source: SystemId): nat
    {
      if source in counters then counters[source] else 0
    }

    /** `_ingest`: number the event for its source and remember it until it comes back. */
    function Forward(source: SystemId, e: Event<B>): (Router<B>, LocalMessage<B>)
    {
      var m := LocalMessage(source, Count(source), session, e);
      (this.(counters := counters[source := Count(source) + 1],
             outForDelivery := outForDelivery[e.id := m]), m)
    }

    predicate Accepts(m: GlobalMessage<B>)
    {
      m.session == session && m.origin == session.master
    }

    /** One message taken by `_run_ext_in`. */
    function Receive(m: GlobalMessage<B>): Router<B>
    {
      if !Accepts(m) then this
      else
        var full := buffer.Ingest(m.idx, m.event);
        var r := this.(buffer := full.Rest(), outForDelivery := outForDelivery - {m.event.id});
        if full.Released() != [] then
          r.(attempts := 0, nack := if nack.NoScope? then NoScope else CancelCalled)
        else if nack.Sleeping? then r
        else r.(attempts := attempts + 1, nack := Sleeping(full.Rest().next))
    }

    /** The delay is over and the request is sent. */
    function Fire(): Router<B>
      requires nack.Sleeping?
    {
      this.(nack := NoScope)
    }

    /** A request that was told to stop has stopped. */
    function Unwind(): Router<B>
    {
      if nack.CancelCalled? then this.(nack := NoScope) else this
    }

    /** What that message makes the router pass on to its node, in order. */
    function Passed(m: GlobalMessage<B>): seq<(nat, Event<B>)>
    {
      if Accepts(m) then buffer.Ingest(m.idx, m.event).ReleasedIndexed() else []
    }

    /** The index from which it decides to request the log, if it does. */
    function Requested(m: GlobalMessage<B>): Option<nat>
    {
      if Accepts(m) && buffer.Ingest(m.idx, m.event).Released() == [] && !nack.Sleeping?
      then Some(buffer.Ingest(m.idx, m.event).Rest().next) else None
    }
  }

  class EventRouter<B(==)> {
    const session: SessionId
    const buffer: OrderedBuffer<Event<B>>
    var counters: map<SystemId, nat>
    var outForDelivery: map<nat, LocalMessage<B>>
    var nack: NackScope
    var attempts: nat

    constructor (session: SessionId)
      ensures View() == Router(session, Empty(), map[], map[], NoScope, 0) && fresh(buffer)
    {
      this.session := session;
      buffer := new OrderedBuffer<Event<B>>();
      counters, outForDelivery, nack, attempts := map[], map[], NoScope, 0;
    }

    function View(): Router<B>
      reads this, buffer
    {
      Router(session, buffer.View(), counters, outForDelivery, nack, attempts)
    }

    method Forward(source: SystemId, e: Event<B>) returns (m: LocalMessage<B>)
      modifies this
      ensures (View(), m) == old(View()).Forward(source, e)
      ensures e.id in outForDelivery && outForDelivery[e.id] == m && m.event == e && m.origin == source
      ensures forall id :: id != e.id && id in old(outForDelivery) ==>
                id in outForDelivery && outForDelivery[id] == old(outForDelivery)[id]
    {
      var idx := if source in counters then counters[source] else 0;
      m := LocalMessage(source, idx, session, e);
      counters := counters[source := idx + 1];
      outForDelivery := outForDelivery[e.id := m];
    }

    /** `ok` is false when the buffer's payload assertion would fail. */
    method Receive(m: GlobalMessage<B>) returns (ok: bool, passed: seq<(nat, Event<B>)>, request: Option<nat>)
      modifies this, buffer
      ensures ok == (old(View()).Accepts(m) ==> old(View()).buffer.PayloadAgrees(m.idx, m.event))
      ensures View() == old(View()).Receive(m)
      ensures passed == old(View()).Passed(m) && request == old(View()).Requested(m)
      ensures m.session == session && m.origin == session.master ==> m.event.id !in outForDelivery
      ensures m.session != session || m.origin != session.master ==> outForDelivery == old(outForDelivery)
      ensures forall id :: id != m.event.id ==>
                && (id in outForDelivery <==> id in old(outForDelivery))
                && (id in outForDelivery ==> outForDelivery[id] == old(outForDelivery)[id])
    {
      ok, passed, request := true, [], None;
      if m.session != session || m.origin != session.master {
        return;
      }
      ok := buffer.Ingest(m.idx, m.event);
      outForDelivery := outForDelivery - {m.event.id};
      IndexedRelease(buffer.View());
      passed := buffer.DrainIndexed();
      if passed != [] {
        attempts, nack := 0, if nack.NoScope? then NoScope else CancelCalled;
      } else if !nack.Sleeping? {
        request := Some(buffer.next);
        attempts, nack := attempts + 1, Sleeping(buffer.next);
      }
    }

    /** `_nack_request` after its delay. */
    method Fire() returns (since: nat)
      requires nack.Sleeping?
      modifies this`nack
      ensures View() == old(View()).Fire() && since == old(View()).nack.since
    {
      since, nack := nack.since, NoScope;
    }

    /** `_nack_request` cancelled during its delay, unless replaced by another. */
    method Unwind()
      modifies this`nack
      ensures View() == old(View()).Unwind()
    {
      if nack.CancelCalled? {
        nack := NoScope;
      }
    }
  }
}
