/** The master's event processor and its answers to log requests
    (src/exo/master/main.py), on the objects it is made of: the multi-source buffer,
    the disk log and the reduced state. */
module MasterProcess {
  import opened Messages
  import opened EventBuffer
  import opened Replication
  import opened DiskEventLog

  /** What is indexed of some drained events, the `i`-th of them at time `clock(i)`. */
  ghost function Stamped<B>(es: seq<Event<B>>, clock: nat -> int, k: nat): seq<Event<B>>
  {
    if es == [] then []
    else (if es[0].traces then [] else [Stamp(es[0], clock(k))]) + Stamped(es[1..], clock, k + 1)
  }

  lemma {:induction false} StampedStep<B>(es: seq<Event<B>>, clock: nat -> int, i: nat, log: seq<Event<B>>)
    requires i < |es|
    ensures log + Stamped(es[i..], clock, i) ==
            (if es[i].traces then log else log + [Stamp(es[i], clock(i))]) + Stamped(es[i + 1..], clock, i + 1)
  {
    assert es[i..][1..] == es[i + 1..];
  }

  /** How many of the first `i` events are indexed. */
  ghost function Rank<B>(es: seq<Event<B>>, i: nat): (r: nat)
    requires i <= |es|
    ensures r <= i
  {
    if i == 0 then 0 else (if es[0].traces then 0 else 1) + Rank(es[1..], i - 1)
  }

  /** A log entry is the event with the given time, and nothing else changed. */
  ghost predicate Entry<B>(entry: Event<B>, e: Event<B>, time: int)
  {
    entry.time == time && entry.id == e.id && entry.traces == e.traces && entry.body == e.body
  }

  /** `entries` holds the events that are no traces, in order, the `i`-th of `es` at
      time `clock(k + i)`. */
  ghost predicate WrittenAs<B>(es: seq<Event<B>>, clock: nat -> int, k: nat, entries: seq<Event<B>>)
  {
    && |entries| == Rank(es, |es|)
    && forall i: nat :: i < |es| && !es[i].traces ==>
         Rank(es, i) < |entries| && Entry(entries[Rank(es, i)], es[i], clock(k + i))
  }

  lemma {:induction false} StampedIsWritten<B>(es: seq<Event<B>>, clock: nat -> int, k: nat)
    ensures WrittenAs(es, clock, k, Stamped(es, clock, k))
  {
    if es != [] {
      var rest := Stamped(es[1..], clock, k + 1);
      StampedIsWritten(es[1..], clock, k + 1);
      forall i: nat | i < |es| && !es[i].traces
        ensures Rank(es, i) < |Stamped(es, clock, k)|
        ensures Entry(Stamped(es, clock, k)[Rank(es, i)], es[i], clock(k + i))
      {
        if i > 0 {
          assert es[1..][i - 1] == es[i] && k + 1 + (i - 1) == k + i;
          assert Entry(rest[Rank(es[1..], i - 1)], es[i], clock(k + i));
        }
      }
    }
  }

  /** The protocol's index step on fields: a trace leaves the log alone, any other event
      becomes its last entry, with the current time. */
  lemma {:induction false} IndexWrites<B, S>(
    session: SessionId, c: Reducer<B, S>, s: System<B, S>, now: int)
    requires s.master.pending != []
    ensures var before, after := s.master.log, Do(session, c, s, MasterIndex(now)).master.log;
            var e := s.master.pending[0].1;
            && (e.traces ==> after == before)
            && (!e.traces ==>
                  |after| == |before| + 1 && after[..|before|] == before && Entry(after[|before|], e, now))
  {
    var e := s.master.pending[0].1;
    StampedIsWritten([e], (_: nat) => now, 0);
  }

  lemma {:induction false} FoldSnoc<B, S>(c: Reducer<B, S>, es: seq<Event<B>>, e: Event<B>)
    ensures Fold(c, es + [e]) == c.step(e, Fold(c, es))
  {
    assert (es + [e])[..|es|] == es;
  }

  /** The protocol's index steps, until nothing is pending. */
  ghost function IndexAll<B, S>(
    c: Reducer<B, S>, m: Replication.Master<B, S>, clock: nat -> int, k: nat): Replication.Master<B, S>
    decreases |m.pending|
  {
    if m.pending == [] then m else IndexAll(c, Index(c, m, clock(k)), clock, k + 1)
  }

  /** Those steps append to the log exactly what the processor's loop appends. */
  lemma {:induction false} IndexAllAppends<B, S>(
    c: Reducer<B, S>, m: Replication.Master<B, S>, clock: nat -> int, k: nat)
    ensures var after := IndexAll(c, m, clock, k);
            && after.pending == [] && after.buffers == m.buffers
            && after.log == m.log + Stamped(Untagged(m.pending), clock, k)
    decreases |m.pending|
  {
    if m.pending == [] {
      assert Untagged(m.pending) == [];
    } else {
      var next := Index(c, m, clock(k));
      IndexAllAppends(c, next, clock, k + 1);
      var drained := Untagged(m.pending);
      assert drained[0] == m.pending[0].1 && drained[1..] == Untagged(next.pending);
      assert next.log == m.log + if drained[0].traces then [] else [Stamp(drained[0], clock(k))];
    }
  }

  lemma {:induction false} IndexAllFolds<B, S>(c: Reducer<B, S>, m: Replication.Master<B, S>, clock: nat -> int, k: nat)
    requires MasterFolds(c, m)
    ensures MasterFolds(c, IndexAll(c, m, clock, k))
    decreases |m.pending|
  {
    if m.pending != [] {
      FoldSnoc(c, m.log, Stamp(m.pending[0].1, clock(k)));
      IndexAllFolds(c, Index(c, m, clock(k)), clock, k + 1);
    }
  }

  /** `Master.ProcessLocal` below is the protocol's receive step followed by its index
      steps: same buffers, same log, same state. */
  lemma {:induction false} ProtocolDoesTheSame<B, S>(
    session: SessionId, c: Reducer<B, S>, m: Replication.Master<B, S>, msg: LocalMessage<B>, clock: nat -> int)
    requires m.pending == [] && MasterFolds(c, m)
    ensures var after := IndexAll(c, Receive(session, m, msg), clock, 0);
            && MasterFolds(c, after) && after.pending == []
            && (msg.session != session ==> after == m)
            && (msg.session == session ==>
                  && after.buffers == After(m.buffers, msg)
                  && after.log == m.log + Stamped(Drained(m.buffers, msg), clock, 0))
  {
    IndexAllAppends(c, Receive(session, m, msg), clock, 0);
    IndexAllFolds(c, Receive(session, m, msg), clock, 0);
  }

  /** Serialisation loses nothing and its records fit their header. */
  ghost predicate Lossless<E(!new)>(encode: E -> Record, decode: Record -> E)
  {
    forall e: E :: decode(encode(e)) == e && |encode(e)| < RECORD_LIMIT
  }

  /** The buffers after a message has been ingested and drained, and what that released. */
  ghost function After<B>(m: MultiBuffer<SystemId, Event<B>>, msg: LocalMessage<B>): MultiBuffer<SystemId, Event<B>>
  {
    m.Ingest(msg.idx, msg.event, msg.origin).Rest()
  }

  ghost function Drained<B>(m: MultiBuffer<SystemId, Event<B>>, msg: LocalMessage<B>): seq<Event<B>>
  {
    Untagged(m.Ingest(msg.idx, msg.event, msg.origin).Released())
  }

  class Master<B(==,!new), S> {
    const session: SessionId
    const reducer: Reducer<B, S>
    const buffer: MultiSourceBuffer<SystemId, Event<B>>
    const log: Log<Event<B>>
    var state: S
    var last: int

    /** The state is the fold of the events on disk. */
    ghost predicate LogValid()
      reads this, log
    {
      && log.Valid() && Lossless(log.encode, log.decode)
      && last == |log.events| - 1 && state == Fold(reducer, log.events)
    }

    ghost predicate Valid()
      reads this, buffer, log
    {
      buffer.Valid() && LogValid()
    }

    constructor (session: SessionId, reducer: Reducer<B, S>, encode: Event<B> -> Record, decode: Record -> Event<B>)
      requires Lossless(encode, decode)
      ensures Valid() && fresh(buffer) && fresh(log) && fresh(buffer.stores.Values)
      ensures log.events == [] && buffer.View() == MultiBuffer([], map[]) && this.session == session
      ensures this.reducer == reducer
    {
      this.session, this.reducer := session, reducer;
      buffer := new MultiSourceBuffer<SystemId, Event<B>>();
      log := new Log<Event<B>>(encode, decode);
      state, last := reducer.init, -1;
    }

    /** One local message.  `ok` is false when the payload assertion fails.  Events of
        another session change nothing; otherwise everything the buffers release, but
        for traces, is stamped, appended, folded and broadcast under its index. */
    method ProcessLocal(msg: LocalMessage<B>, clock: nat -> int) returns (ok: bool, out: seq<GlobalMessage<B>>)
      requires Valid()
      modifies this, buffer, buffer.stores.Values, log
      ensures Valid() && fresh(buffer.stores.Values - old(buffer.stores.Values))
      ensures msg.session != session ==>
                ok && out == [] && buffer.View() == old(buffer.View()) && log.events == old(log.events)
      ensures msg.session == session ==>
        && ok == old(buffer.View()).At(msg.origin).PayloadAgrees(msg.idx, msg.event)
        && (ok ==> buffer.View() == After(old(buffer.View()), msg))
        && (ok ==> log.events == old(log.events) + Stamped(Drained(old(buffer.View()), msg), clock, 0))
        && (ok ==> |old(log.events)| <= |log.events| && log.events[..|old(log.events)|] == old(log.events))
        && (ok ==> WrittenAs(Drained(old(buffer.View()), msg), clock, 0, log.events[|old(log.events)|..]))
      ensures !ok ==> out == [] && log.events == old(log.events)
      ensures ok ==> |out| == |log.events| - |old(log.events)|
      ensures ok ==> forall k :: 0 <= k < |out| ==> out[k] == Broadcast(session, log.events, |old(log.events)| + k)
    {
      ok, out := true, [];
      if msg.session == session {
        ghost var drained, before := Drained(buffer.View(), msg), log.events;
        ok, out := ProcessOwn(msg, clock);
        if ok {
          StampedIsWritten(drained, clock, 0);
          assert log.events[|before|..] == Stamped(drained, clock, 0);
        }
      }
    }

    method ProcessOwn(msg: LocalMessage<B>, clock: nat -> int) returns (ok: bool, out: seq<GlobalMessage<B>>)
      requires Valid()
      modifies this, buffer, buffer.stores.Values, log
      ensures Valid() && fresh(buffer.stores.Values - old(buffer.stores.Values))
      ensures ok == old(buffer.View()).At(msg.origin).PayloadAgrees(msg.idx, msg.event)
      ensures !ok ==> out == [] && log.events == old(log.events)
      ensures ok ==> buffer.View() == After(old(buffer.View()), msg)
      ensures ok ==> log.events == old(log.events) + Stamped(Drained(old(buffer.View()), msg), clock, 0)
      ensures ok ==> |out| == |log.events| - |old(log.events)|
      ensures ok ==> forall k :: 0 <= k < |out| ==> out[k] == Broadcast(session, log.events, |old(log.events)| + k)
    {
      out := [];
      ghost var before := buffer.View();
      var drained;
      ok, drained := Take(msg);
      if ok {
        out := IndexTaken(drained, clock, After(before, msg));
      }
    }

    /** Indexing leaves the buffers alone. */
    method IndexTaken(drained: seq<Event<B>>, clock: nat -> int, ghost rest: MultiBuffer<SystemId, Event<B>>)
      returns (out: seq<GlobalMessage<B>>)
      requires Valid() && buffer.View() == rest
      modifies this, log
      ensures Valid() && buffer.View() == rest && log.events == old(log.events) + Stamped(drained, clock, 0)
      ensures |out| == |log.events| - |old(log.events)|
      ensures forall k :: 0 <= k < |out| ==> out[k] == Broadcast(session, log.events, |old(log.events)| + k)
    {
      out := IndexDrained(drained, clock);
    }

    /** Taking a message leaves the log alone. */
    method Take(msg: LocalMessage<B>) returns (ok: bool, drained: seq<Event<B>>)
      requires Valid()
      modifies buffer, buffer.stores.Values
      ensures Valid() && log.events == old(log.events) && fresh(buffer.stores.Values - old(buffer.stores.Values))
      ensures ok == old(buffer.View()).At(msg.origin).PayloadAgrees(msg.idx, msg.event)
      ensures ok ==> buffer.View() == After(old(buffer.View()), msg) && drained == Drained(old(buffer.View()), msg)
    {
      ok, drained := DrainAfter(buffer, msg);
    }

    method IndexDrained(drained: seq<Event<B>>, clock: nat -> int) returns (out: seq<GlobalMessage<B>>)
      requires LogValid()
      modifies this, log
      ensures LogValid() && log.events == old(log.events) + Stamped(drained, clock, 0)
      ensures |out| == |log.events| - |old(log.events)|
      ensures forall k :: 0 <= k < |out| ==> out[k] == Broadcast(session, log.events, |old(log.events)| + k)
    {
      out := [];
      ghost var start := |log.events|;
      for i := 0 to |drained|
        invariant LogValid()
        invariant log.events + Stamped(drained[i..], clock, i) == old(log.events) + Stamped(drained, clock, 0)
        invariant |log.events| == start + |out|
        invariant forall k :: 0 <= k < |out| ==> out[k] == Broadcast(session, log.events, start + k)
      {
        var event := drained[i];
        StampedStep(drained, clock, i, log.events);
        if !event.traces {
          var m := IndexOne(Stamp(event, clock(i)));
          out := out + [m];
        }
      }
    }

    /** Index, apply, append: the assertion in `apply` holds because the log and the
        state stay in step. */
    method IndexOne(event: Event<B>) returns (m: GlobalMessage<B>)
      requires LogValid()
      modifies this, log
      ensures LogValid() && log.events == old(log.events) + [event]
      ensures m == Broadcast(session, log.events, |old(log.events)|)
    {
      var idx := log.count;
      assert last + 1 == idx;
      FoldSnoc(reducer, log.events, event);
      state, last := reducer.step(event, state), idx;
      var ok := log.Append(event);
      m := GlobalMessage(session.master, idx, session, event);
    }

    /** The `RequestEventLog` branch: the events from `since` on, at most a thousand,
        under their own indices. */
    method AnswerRequest(since: int) returns (out: seq<GlobalMessage<B>>)
      requires Valid()
      modifies log
      ensures Valid() && log.events == old(log.events)
      ensures 0 <= since ==> forall k :: 0 <= k < |out| ==>
                since + k < |log.events| && out[k] == Broadcast(session, log.events, since + k)
      ensures since < 0 || |log.events| <= since ==> out == []
      ensures 0 <= since < |log.events| ==> |out| <= REPLY_LIMIT && since + |out| <= |log.events|
      ensures 0 <= since < |log.events| ==> |out| == REPLY_LIMIT || since + |out| == |log.events|
      ensures (set m | m in out) == Reply(session, log.events, since)
    {
      var end := if since + REPLY_LIMIT < log.count then since + REPLY_LIMIT else log.count;
      var events := log.ReadRange(since, end);
      if since < 0 {
        out := [];
      } else {
        out := Enumerate(events, since);
        assert forall k :: 0 <= k < |out| ==> events[k] == log.events[since + k];
      }
      ReplyListed(session, log.events, since, out);
    }

    method Enumerate(events: seq<Event<B>>, start: nat) returns (out: seq<GlobalMessage<B>>)
      ensures |out| == |events| && forall k :: 0 <= k < |out| ==>
                out[k] == GlobalMessage(session.master, start + k, session, events[k])
    {
      out := [];
      for k := 0 to |events|
        invariant |out| == k && forall j :: 0 <= j < k ==>
                    out[j] == GlobalMessage(session.master, start + j, session, events[j])
      {
        out := out + [GlobalMessage(session.master, start + k, session, events[k])];
      }
    }
  }

  lemma {:induction false} ReplyListed<B>(
    session: SessionId, log: seq<Event<B>>, since: int, out: seq<GlobalMessage<B>>)
    requires |out| == |Range(log, since, since + REPLY_LIMIT)|
    requires since >= 0 ==> forall k :: 0 <= k < |out| ==>
               since + k < |log| && out[k] == Broadcast(session, log, since + k)
    ensures (set m | m in out) == Reply(session, log, since)
  {
    if since >= 0 {
      forall i: nat | i < |log| && since <= i < since + REPLY_LIMIT ensures Broadcast(session, log, i) in out {
        assert out[i - since] == Broadcast(session, log, i);
      }
    }
  }

  method DrainAfter<B(==)>(buffer: MultiSourceBuffer<SystemId, Event<B>>, msg: LocalMessage<B>)
    returns (ok: bool, drained: seq<Event<B>>)
    requires buffer.Valid()
    modifies buffer, buffer.stores.Values
    ensures buffer.Valid() && fresh(buffer.stores.Values - old(buffer.stores.Values))
    ensures ok == old(buffer.View()).At(msg.origin).PayloadAgrees(msg.idx, msg.event)
    ensures ok ==> buffer.View() == After(old(buffer.View()), msg) && drained == Drained(old(buffer.View()), msg)
  {
    drained := [];
    ok := buffer.Ingest(msg.idx, msg.event, msg.origin);
    if ok {
      drained := buffer.Drain();
    }
  }
}
