/**
 * `NotificationStreamManager<T>`: a registry from consumer id to server
 * stream, with registration, removal and fan-out of one notification to every
 * registered stream.
 *
 * A stream is a value: the notifications written to it so far and whether it
 * still accepts writes (a stream whose client has gone away throws on write).
 * Consumer ids (`Guid.NewGuid()`) are supplied by the caller.
 */
module Notifications {
  import opened Wrappers
  import opened Errors

  datatype Sink<T> = Sink(received: seq<T>, open: bool)

  type Guid = nat

  type Registry<T> = map<Guid, Sink<T>>

  /** `TryAdd(id, stream)`: adds the entry unless the id is taken, in which case nothing changes. */
  function Register<T>(streams: Registry<T>, id: Guid, stream: Sink<T>): (r: Registry<T>)
    ensures id !in streams ==> id in r && r[id] == stream && r.Keys == streams.Keys + {id}
    ensures forall k :: k in streams ==> k in r && r[k] == streams[k]
    ensures id in streams ==> r == streams
  {
    if id in streams then streams else streams[id := stream]
  }

  /** `TryRemove(id, out _)`: removes the entry if there is one. */
  function Remove<T>(streams: Registry<T>, id: Guid): (r: Registry<T>)
    ensures id !in r && r.Keys == streams.Keys - {id}
    ensures forall k :: k in r ==> r[k] == streams[k]
  {
    streams - {id}
  }

  /** Removing an unknown id leaves the registry unchanged. */
  lemma RemoveUnknown<T>(streams: Registry<T>, id: Guid)
    requires id !in streams
    ensures Remove(streams, id) == streams
  {
    assert Remove(streams, id).Keys == streams.Keys;
  }

  /** Registering under a fresh id and then removing that id restores the registry. */
  lemma RegisterThenRemove<T>(streams: Registry<T>, id: Guid, stream: Sink<T>)
    requires id !in streams
    ensures Remove(Register(streams, id, stream), id) == streams
  {
    assert Remove(Register(streams, id, stream), id).Keys == streams.Keys;
  }

  /**
   * The outcome of writing `n` to every stream of `before`, with `ok` telling
   * whether no write threw: the registry keeps its ids and their state; each
   * stream either got `n` once (only an open one can) or nothing; the broadcast
   * succeeds exactly when every stream is open, and then every stream got `n`.
   */
  ghost predicate Delivered<T>(before: Registry<T>, after: Registry<T>, n: T, ok: bool) {
    after.Keys == before.Keys
    && (forall id :: id in after ==> after[id].open == before[id].open)
    && (forall id :: id in after ==>
          after[id].received == before[id].received
          || (before[id].open && after[id].received == before[id].received + [n]))
    && (ok <==> forall id :: id in before ==> before[id].open)
    && (ok ==> forall id :: id in after ==> after[id].received == before[id].received + [n])
  }

  class NotificationStreamManager<T> {
    var streams: Registry<T>

    constructor ()
      ensures streams == map[]
    {
      streams := map[];
    }

    /** Registers `stream` under the new id `id` and returns that id. */
    method RegisterConsumer(stream: Sink<T>, id: Guid) returns (r: Guid)
      modifies this
      ensures r == id
      ensures streams == Register(old(streams), id, stream)
    {
      streams := Register(streams, id, stream);
      r := id;
    }

    method RemoveConsumer(id: Guid)
      modifies this
      ensures streams == Remove(old(streams), id)
    {
      streams := Remove(streams, id);
    }

    /**
     * Writes `n` to every registered stream, one stream at a time in no
     * particular order. The first write that throws aborts the broadcast and
     * the exception propagates; the streams not reached by then get nothing.
     */
    method BroadcastNotification(n: T) returns (r: Result<Unit, Exception>)
      modifies this
      ensures Delivered(old(streams), streams, n, r.Ok?)
      ensures r.Fail? ==> r.error == StreamWriteException
    {
      ghost var before := streams;
      var remaining := streams.Keys;
      while remaining != {}
        invariant remaining <= streams.Keys && streams.Keys == before.Keys
        invariant forall id :: id in remaining ==> streams[id] == before[id]
        invariant forall id :: id in streams && id !in remaining ==>
          before[id].open && streams[id] == before[id].(received := before[id].received + [n])
        decreases |remaining|
      {
        var id :| id in remaining;
        var s := streams[id];
        if !s.open {
          return Fail(StreamWriteException);
        }
        streams := streams[id := s.(received := s.received + [n])];
        remaining := remaining - {id};
      }
      return Ok(Unit);
    }
  }
}
