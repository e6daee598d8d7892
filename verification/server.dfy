/** The change-notification server: a record store keyed by resource name, the set of
    open event-stream responses, and the frames written to each of them. Every request
    handler is a pure step on that state: `/api/events` subscriptions, their close, the
    broadcast that follows every routed store write, and `DELETE /bulk/:resource`.

    Frames follow the Server-Sent Events format of the WHATWG HTML Living Standard,
    section 9.2 "Server-sent events": `data: <payload>` followed by a blank line for an
    event, and a line starting with `:` (a comment) for the keepalive. JSON payloads are
    kept as structured events; `Wire` renders a frame given an encoder. */
module EventServer {

  import opened Seqs
  import J = Json
  import Text

  /** A stored record: its numeric id and its remaining fields. */
  datatype Record = Record(id: int, body: J.Json)

  /** The store: each resource name maps to its collection. */
  type Db = map<string, seq<Record>>

  /** An open event-stream response handle. */
  type Client = nat

  datatype ChangeKind = Created | Updated | Deleted

  /** The JSON object carried by a `data:` frame. */
  datatype Event =
    | Initial(snapshot: Db)
    | Change(kind: ChangeKind, path: string, data: J.Json)
    | BulkDeleted(resource: string, ids: seq<J.Numeric>, collection: Option<seq<Record>>)

  datatype Frame = DataFrame(event: Event) | KeepAlive

  /** Server state: the store, the registered clients, and every frame each client
      handle has been written so far (closed handles keep their history). */
  datatype State = State(db: Db, clients: set<Client>, log: map<Client, seq<Frame>>)

  datatype Body =
    | Data(value: J.Json)
    | BulkOk(deletedIds: seq<J.Numeric>)
    | Error(message: string)

  datatype Response = Response(status: int, body: Body)

  /** What a request handler produces: the next state, the HTTP response, and the event
      it broadcast, if any. */
  datatype Reply = Reply(state: State, response: Response, event: Option<Event>)

  const KEEPALIVE_INTERVAL_MS: nat := 30000
  const NOT_AN_ARRAY: string := "ids must be an array"
  const DELETE_FAILED: string := "Failed to delete items"

  /** Frames written to `c` so far (none for a handle never seen). */
  function History(s: State, c: Client): seq<Frame>
  {
    if c in s.log then s.log[c] else []
  }

  /** `GET /api/events`: the snapshot frame is written to the new response first, and
      only then is the response added to the client set. */
  function Subscribe(s: State, c: Client): (r: State)
    ensures r.db == s.db
    ensures r.clients == s.clients + {c}
    ensures r.log.Keys == s.log.Keys + {c}
    ensures History(r, c) == History(s, c) + [DataFrame(Initial(s.db))]
    ensures forall d :: d in s.log && d != c ==> r.log[d] == s.log[d]
  {
    State(s.db, s.clients + {c}, s.log[c := History(s, c) + [DataFrame(Initial(s.db))]])
  }

  /** The request's `close` handler: stop the keepalive and delete the response from the
      client set. Deleting an absent client is a no-op. */
  function Close(s: State, c: Client): (r: State)
    ensures c !in r.clients
    ensures r.clients == s.clients - {c}
    ensures r.db == s.db && r.log == s.log
    ensures c !in s.clients ==> r == s
  {
    s.(clients := s.clients - {c})
  }

  /** One firing of a client's keepalive interval. Its timer is cleared on close, so a
      closed client is written nothing. */
  function KeepAliveTick(s: State, c: Client): (r: State)
    ensures r.db == s.db && r.clients == s.clients
    ensures c in s.clients ==> History(r, c) == History(s, c) + [KeepAlive]
    ensures c !in s.clients ==> r == s
    ensures forall d :: d in s.log && d != c ==> d in r.log && r.log[d] == s.log[d]
  {
    if c in s.clients then s.(log := s.log[c := History(s, c) + [KeepAlive]]) else s
  }

  /** `clients.forEach(client => client.write(frame))`: exactly one copy of the frame is
      appended to the history of every registered client, and no other history changes. */
  function Broadcast(s: State, f: Frame): (r: State)
    ensures r.db == s.db && r.clients == s.clients
    ensures r.log.Keys == s.log.Keys + s.clients
    ensures forall c :: c in s.clients ==> r.log[c] == History(s, c) + [f]
    ensures forall c :: c in s.log && c !in s.clients ==> r.log[c] == s.log[c]
  {
    var log := map c | c in s.log.Keys + s.clients ::
      if c in s.clients then History(s, c) + [f] else s.log[c];
    s.(log := log)
  }

  /** The event type `router.render` derives from the request method. */
  function KindOf(verb: string): (k: ChangeKind)
    ensures k == Created <==> verb == "POST"
    ensures k == Updated <==> verb == "PUT"
    ensures k == Deleted <==> verb != "POST" && verb != "PUT"
  {
    if verb == "POST" then Created else if verb == "PUT" then Updated else Deleted
  }

  /** A `PATCH` handled by the router is announced as a deletion. */
  lemma PatchIsAnnouncedAsDeleted()
    ensures KindOf("PATCH") == Deleted
  {
  }

  /** Reads end in the same render, so every `GET` is announced as a deletion too. */
  lemma GetIsAnnouncedAsDeleted()
    ensures KindOf("GET") == Deleted
  {
  }

  /** `router.render`: the router has already handled the request (a read or a write)
      and left the store as `after`; every registered client is then sent one frame
      describing it, and the HTTP body is the same `data`, sent with the status the router
      set (201 for a create, 404 for an unknown id, otherwise 200). */
  function Render(s: State, verb: string, path: string, status: int, data: J.Json, after: Db): (r: Reply)
    ensures r.response == Response(status, Data(data))
    ensures r.event == Some(Change(KindOf(verb), path, data))
    ensures r.state.db == after && r.state.clients == s.clients
    ensures r.state.log.Keys == s.log.Keys + s.clients
    ensures forall c :: c in s.clients ==>
              r.state.log[c] == History(s, c) + [DataFrame(Change(KindOf(verb), path, data))]
    ensures forall c :: c in s.log && c !in s.clients ==> r.state.log[c] == s.log[c]
  {
    var e := Change(KindOf(verb), path, data);
    Reply(Broadcast(s.(db := after), DataFrame(e)), Response(status, Data(data)), Some(e))
  }

  /** Whether a record is one of the bulk delete's targets (`remove({ id })` compares
      with `===`, so a non-integer target matches nothing). */
  predicate Targeted(r: Record, ids: seq<J.Numeric>)
  {
    J.Int(r.id) in ids
  }

  /** `numericIds.forEach(id => collection.remove({ id }).write())`: one removal pass per
      id, in order, each dropping every record carrying that id. */
  function RemoveEach(coll: seq<Record>, ids: seq<J.Numeric>): seq<Record>
    decreases |ids|
  {
    if ids == [] then coll
    else RemoveEach(Filter(coll, (r: Record) => J.Int(r.id) != ids[0]), ids[1..])
  }

  /** Removing the ids one at a time is the same as one filter by membership. */
  lemma {:induction false} RemoveEachIsFilter(coll: seq<Record>, ids: seq<J.Numeric>)
    ensures RemoveEach(coll, ids) == Filter(coll, (r: Record) => !Targeted(r, ids))
    decreases |ids|
  {
    if ids == [] {
      FilterKeepsAll(coll, (r: Record) => !Targeted(r, ids));
    } else {
      var first := Filter(coll, (r: Record) => J.Int(r.id) != ids[0]);
      RemoveEachIsFilter(first, ids[1..]);
      FilterFilter(coll, (r: Record) => J.Int(r.id) != ids[0], (r: Record) => !Targeted(r, ids[1..]),
                   (r: Record) => !Targeted(r, ids));
    }
  }

  /** What one bulk removal leaves: no targeted record, every other record, in order. */
  lemma RemoveEachSpec(coll: seq<Record>, ids: seq<J.Numeric>)
    ensures forall r :: r in RemoveEach(coll, ids) ==> !Targeted(r, ids)
    ensures forall i :: 0 <= i < |coll| && !Targeted(coll[i], ids) ==> coll[i] in RemoveEach(coll, ids)
    ensures IsSubsequence(RemoveEach(coll, ids), coll)
  {
    RemoveEachIsFilter(coll, ids);
    var out := RemoveEach(coll, ids);
    forall r | r in out
      ensures !Targeted(r, ids)
    {
      var i :| 0 <= i < |out| && out[i] == r;
    }
  }

  /** The store failure never reached: `fault` names no removal of this request. */
  predicate NoFault(ids: J.Json, fault: Option<nat>)
  {
    ids.JArr? && (fault.None? || fault.value >= |ids.items|)
  }

  /** `DELETE /bulk/:resource` with body field `ids`. `fault == Some(k)` means the store
      throws while removing the k-th id; the removals before it stay done.

      - A non-array `ids` is answered 400 before the store is touched or anything is sent.
      - On success the answer lists every requested id coerced by `Number`, in request
        order, whether or not a record carried it; no targeted record remains, every
        other record stays in its original order, other resources are untouched, and
        every registered client gets exactly one `BULK_DELETED` frame carrying the
        resource, the coerced ids and the collection as it is after the removals.
      - A store failure is answered 500, sends nothing, and rolls nothing back. */
  function BulkDelete(s: State, resource: string, ids: J.Json, fault: Option<nat>): (r: Reply)
    ensures !ids.JArr? ==> r == Reply(s, Response(400, Error(NOT_AN_ARRAY)), None)
    ensures ids.JArr? ==> r.state.clients == s.clients && r.state.db.Keys == s.db.Keys
    ensures forall name :: name in s.db && name != resource ==> r.state.db[name] == s.db[name]
    ensures NoFault(ids, fault) ==>
              && r.response.status == 200 && r.response.body.BulkOk?
              && |r.response.body.deletedIds| == |ids.items|
              && (forall i :: 0 <= i < |ids.items| ==>
                    r.response.body.deletedIds[i] == J.ToNumber(ids.items[i]))
    ensures NoFault(ids, fault) && resource in s.db ==>
              && (forall rec :: rec in r.state.db[resource] ==>
                    !Targeted(rec, r.response.body.deletedIds))
              && (forall i :: 0 <= i < |s.db[resource]| ==>
                    (!Targeted(s.db[resource][i], r.response.body.deletedIds) ==>
                       s.db[resource][i] in r.state.db[resource]))
              && IsSubsequence(r.state.db[resource], s.db[resource])
    ensures NoFault(ids, fault) ==>
              var e := BulkDeleted(resource, r.response.body.deletedIds,
                                   if resource in s.db then Some(r.state.db[resource]) else None);
              && r.event == Some(e)
              && r.state.log.Keys == s.log.Keys + s.clients
              && (forall c :: c in s.clients ==> r.state.log[c] == History(s, c) + [DataFrame(e)])
              && (forall c :: c in s.log && c !in s.clients ==> r.state.log[c] == s.log[c])
    ensures ids.JArr? && !NoFault(ids, fault) ==>
              && r.response == Response(500, Error(DELETE_FAILED))
              && r.event == None && r.state.log == s.log
              && (resource in s.db ==>
                    r.state.db[resource] == Filter(s.db[resource],
                      (rec: Record) => !Targeted(rec, Map(ids.items, J.ToNumber)[..fault.value])))
  {
    if !ids.JArr? then Reply(s, Response(400, Error(NOT_AN_ARRAY)), None)
    else
      var numericIds := Map(ids.items, J.ToNumber);
      if fault.Some? && fault.value < |numericIds| then
        var k := fault.value;
        var db := if resource in s.db then s.db[resource := RemoveEach(s.db[resource], numericIds[..k])] else s.db;
        if resource in s.db then
          RemoveEachIsFilter(s.db[resource], numericIds[..k]);
          Reply(s.(db := db), Response(500, Error(DELETE_FAILED)), None)
        else
          Reply(s.(db := db), Response(500, Error(DELETE_FAILED)), None)
      else
        var updated := if resource in s.db then Some(RemoveEach(s.db[resource], numericIds)) else None;
        var db := if resource in s.db then s.db[resource := updated.value] else s.db;
        var e := BulkDeleted(resource, numericIds, updated);
        if resource in s.db then
          RemoveEachSpec(s.db[resource], numericIds);
          Reply(Broadcast(s.(db := db), DataFrame(e)), Response(200, BulkOk(numericIds)), Some(e))
        else
          Reply(Broadcast(s.(db := db), DataFrame(e)), Response(200, BulkOk(numericIds)), Some(e))
  }

  /** Removing the same ids a second time removes nothing. */
  lemma RemoveEachTwice(coll: seq<Record>, ids: seq<J.Numeric>)
    ensures RemoveEach(RemoveEach(coll, ids), ids) == RemoveEach(coll, ids)
  {
    var after := RemoveEach(coll, ids);
    RemoveEachIsFilter(coll, ids);
    RemoveEachIsFilter(after, ids);
    FilterIdempotent(coll, (r: Record) => !Targeted(r, ids));
  }

  /** Repeating a successful bulk delete changes no collection, answers the same ids, and
      still sends every client one more `BULK_DELETED` frame. */
  lemma BulkDeleteIdempotent(s: State, resource: string, ids: J.Json, fault: Option<nat>)
    requires NoFault(ids, fault)
    ensures var once := BulkDelete(s, resource, ids, fault);
            var twice := BulkDelete(once.state, resource, ids, fault);
            && twice.state.db == once.state.db
            && twice.response == once.response
            && twice.event == once.event
            && (forall c :: c in s.clients ==> twice.state.log[c] == once.state.log[c] + [DataFrame(once.event.value)])
  {
    var once := BulkDelete(s, resource, ids, fault);
    if resource in s.db {
      RemoveEachTwice(s.db[resource], Map(ids.items, J.ToNumber));
    }
    var twice := BulkDelete(once.state, resource, ids, fault);
    assert twice.state.db == once.state.db;
    forall c | c in s.clients
      ensures twice.state.log[c] == once.state.log[c] + [DataFrame(once.event.value)]
    {
      assert History(once.state, c) == once.state.log[c];
    }
  }

  /** One request, or one connection event, seen by the server. A routed request carries
      the store the router leaves behind: unchanged for a read, written for a write. */
  datatype Op =
    | Connect(c: Client)
    | Disconnect(c: Client)
    | Ping(c: Client)
    | Routed(verb: string, path: string, status: int, data: J.Json, after: Db)
    | Bulk(resource: string, ids: J.Json, fault: Option<nat>)

  /** The state after one operation, and the event it broadcast to all clients. */
  function Step(s: State, op: Op): Reply
  {
    match op
    case Connect(c) => Reply(Subscribe(s, c), Response(200, Data(J.JNull)), None)
    case Disconnect(c) => Reply(Close(s, c), Response(200, Data(J.JNull)), None)
    case Ping(c) => Reply(KeepAliveTick(s, c), Response(200, Data(J.JNull)), None)
    case Routed(m, p, st, d, a) => Render(s, m, p, st, d, a)
    case Bulk(res, ids, f) => BulkDelete(s, res, ids, f)
  }

  function Run(s: State, ops: seq<Op>): State
    decreases |ops|
  {
    if ops == [] then s else Run(Step(s, ops[0]).state, ops[1..])
  }

  /** The events broadcast by `ops`, in commit order. */
  function Broadcasts(s: State, ops: seq<Op>): seq<Event>
    decreases |ops|
  {
    if ops == [] then []
    else
      var r := Step(s, ops[0]);
      (if r.event.Some? then [r.event.value] else []) + Broadcasts(r.state, ops[1..])
  }

  /** The events among a client's frames, keepalives dropped. */
  function Events(frames: seq<Frame>): seq<Event>
  {
    if frames == [] then []
    else (if frames[0].DataFrame? then [frames[0].event] else []) + Events(frames[1..])
  }

  lemma {:induction false} EventsConcat(a: seq<Frame>, b: seq<Frame>)
    ensures Events(a + b) == Events(a) + Events(b)
    decreases |a|
  {
    if a == [] {
      assert a + b == b;
    } else {
      assert (a + b)[0] == a[0];
      assert (a + b)[1..] == a[1..] + b;
      EventsConcat(a[1..], b);
    }
  }

  /** `ops` neither opens nor closes the connection `c`. */
  predicate Untouched(ops: seq<Op>, c: Client)
  {
    forall i :: 0 <= i < |ops| ==> ops[i] != Connect(c) && ops[i] != Disconnect(c)
  }

  /** One step appends to a client that stays registered exactly the step's broadcast
      event, plus possibly its own keepalive. */
  lemma StepDelivery(s: State, op: Op, c: Client)
    requires c in s.clients && op != Connect(c) && op != Disconnect(c)
    ensures var r := Step(s, op);
            && c in r.state.clients
            && |History(r.state, c)| >= |History(s, c)|
            && History(r.state, c)[..|History(s, c)|] == History(s, c)
            && Events(History(r.state, c)[|History(s, c)|..]) ==
               (if r.event.Some? then [r.event.value] else [])
  {
    var r := Step(s, op);
    var h := History(s, c);
    var h' := History(r.state, c);
    match op {
      case Connect(d) =>
        assert h' == h;
      case Disconnect(d) =>
        assert h' == h;
      case Ping(d) =>
        if d == c {
          assert h'[|h|..] == [KeepAlive];
        } else {
          assert h' == h;
        }
      case Routed(m, p, st, data, a) =>
        assert h'[|h|..] == [DataFrame(r.event.value)];
      case Bulk(res, ids, f) =>
        if r.event.Some? {
          assert h'[|h|..] == [DataFrame(r.event.value)];
        } else {
          assert h' == h;
        }
    }
  }

  /** Two extensions of a frame history chain into one: the events after the first
      prefix are those of the first extension followed by those of the second. */
  lemma ExtensionChain(h0: seq<Frame>, h1: seq<Frame>, h2: seq<Frame>)
    requires |h0| <= |h1| <= |h2| && h1[..|h0|] == h0 && h2[..|h1|] == h1
    ensures h2[..|h0|] == h0
    ensures Events(h2[|h0|..]) == Events(h1[|h0|..]) + Events(h2[|h1|..])
  {
    assert h2[|h0|..] == h1[|h0|..] + h2[|h1|..];
    EventsConcat(h1[|h0|..], h2[|h1|..]);
  }

  /** `Untouched` carries over to the rest of the operations. */
  lemma UntouchedTail(ops: seq<Op>, c: Client)
    requires ops != [] && Untouched(ops, c)
    ensures Untouched(ops[1..], c)
  {
    forall i | 0 <= i < |ops[1..]|
      ensures ops[1..][i] != Connect(c) && ops[1..][i] != Disconnect(c)
    {
      assert ops[1..][i] == ops[i + 1];
    }
  }

  /** Commit order: a client registered throughout receives, after what it had already
      been sent, exactly the broadcast events of `ops` in the order they were committed
      (interleaved only with its own keepalives). */
  lemma {:induction false} Delivery(s: State, ops: seq<Op>, c: Client)
    requires c in s.clients && Untouched(ops, c)
    ensures c in Run(s, ops).clients
    ensures |History(Run(s, ops), c)| >= |History(s, c)|
    ensures History(Run(s, ops), c)[..|History(s, c)|] == History(s, c)
    ensures Events(History(Run(s, ops), c)[|History(s, c)|..]) == Broadcasts(s, ops)
    decreases |ops|
  {
    if ops != [] {
      var r := Step(s, ops[0]);
      StepDelivery(s, ops[0], c);
      UntouchedTail(ops, c);
      Delivery(r.state, ops[1..], c);
      assert Run(s, ops) == Run(r.state, ops[1..]);
      ExtensionChain(History(s, c), History(r.state, c), History(Run(s, ops), c));
    }
  }

  /** Any two clients registered throughout observe the same events in the same order. */
  lemma SameOrderForAllClients(s: State, ops: seq<Op>, c1: Client, c2: Client)
    requires c1 in s.clients && c2 in s.clients && Untouched(ops, c1) && Untouched(ops, c2)
    ensures |History(Run(s, ops), c1)| >= |History(s, c1)|
    ensures |History(Run(s, ops), c2)| >= |History(s, c2)|
    ensures Events(History(Run(s, ops), c1)[|History(s, c1)|..])
         == Events(History(Run(s, ops), c2)[|History(s, c2)|..])
  {
    Delivery(s, ops, c1);
    Delivery(s, ops, c2);
  }

  /** Running two sequences of operations is running their concatenation. */
  lemma {:induction false} RunConcat(s: State, a: seq<Op>, b: seq<Op>)
    ensures Run(s, a + b) == Run(Run(s, a), b)
    decreases |a|
  {
    if a == [] {
      assert a + b == b;
    } else {
      assert (a + b)[0] == a[0];
      assert (a + b)[1..] == a[1..] + b;
      RunConcat(Step(s, a[0]).state, a[1..], b);
    }
  }

  /** A new subscriber's first frame is the snapshot of the store as the operations before
      it left it, routed writes and bulk deletes included; after it come exactly the events
      committed since, in order. */
  lemma SubscriberSeesSnapshotThenLaterEvents(s: State, before: seq<Op>, c: Client, ops: seq<Op>)
    requires c !in Run(s, before).log && Untouched(ops, c)
    ensures var h := History(Run(s, before + [Connect(c)] + ops), c);
            && |h| >= 1 && h[0] == DataFrame(Initial(Run(s, before).db))
            && Events(h[1..]) == Broadcasts(Subscribe(Run(s, before), c), ops)
  {
    var t := Run(s, before);
    var s1 := Subscribe(t, c);
    RunConcat(s, before, [Connect(c)] + ops);
    assert before + [Connect(c)] + ops == before + ([Connect(c)] + ops);
    assert Run(t, [Connect(c)] + ops) == Run(s1, ops) by {
      assert ([Connect(c)] + ops)[1..] == ops;
    }
    Delivery(s1, ops, c);
  }

  /** A write the router has made is in the snapshot of the next subscriber. */
  lemma RoutedWriteReachesSnapshot(s: State, verb: string, path: string, status: int, data: J.Json, after: Db, c: Client)
    requires c !in s.log && c !in s.clients
    ensures History(Run(s, [Routed(verb, path, status, data, after), Connect(c)]), c) == [DataFrame(Initial(after))]
  {
    var r := Step(s, Routed(verb, path, status, data, after)).state;
    assert History(r, c) == [];
    RunConcat(s, [Routed(verb, path, status, data, after)], [Connect(c)]);
  }

  /** A closed client is written nothing until it reconnects. */
  lemma {:induction false} ClosedClientReceivesNothing(s: State, ops: seq<Op>, c: Client)
    requires c !in s.clients
    requires forall i :: 0 <= i < |ops| ==> ops[i] != Connect(c)
    ensures c !in Run(s, ops).clients
    ensures History(Run(s, ops), c) == History(s, c)
    decreases |ops|
  {
    if ops != [] {
      var r := Step(s, ops[0]);
      assert c !in r.state.clients && History(r.state, c) == History(s, c) by {
        match ops[0] {
          case Connect(d) =>
          case Disconnect(d) =>
          case Ping(d) =>
          case Routed(m, p, st, data, a) =>
          case Bulk(res, ids, f) =>
        }
      }
      assert forall i :: 0 <= i < |ops[1..]| ==> ops[1..][i] == ops[i + 1];
      ClosedClientReceivesNothing(r.state, ops[1..], c);
    }
  }

  /** The text of a frame on the wire, given the JSON encoder for its payload. */
  function Wire(f: Frame, encode: Event -> string): string
  {
    match f
    case DataFrame(e) => "data: " + encode(e) + "\n\n"
    case KeepAlive => ": keepalive\n\n"
  }

  /** What an event-stream reader makes of one frame (one line ended by a blank line):
      a comment, a `data` field value, or something this server never writes. */
  datatype Parsed = Comment(text: string) | DataField(value: string) | Other

  /** The line rules of the Server-Sent Events format: a line ends at a carriage return,
      a line feed or both, so a frame holds one line only when neither occurs inside it; a
      line starting with `:` is a comment; otherwise the field name runs to the first `:`
      and one space after the colon is dropped from the value. */
  function ParseFrame(w: string): Parsed
  {
    if |w| < 2 || w[|w| - 2..] != "\n\n" then Other
    else
      var line := w[..|w| - 2];
      if '\n' in line || '\r' in line then Other
      else if line != [] && line[0] == ':' then Comment(line[1..])
      else
        var colon := Text.IndexOf(line, ':');
        if colon == |line| || line[..colon] != "data" then Other
        else
          var value := line[colon + 1..];
          DataField(if value != [] && value[0] == ' ' then value[1..] else value)
  }

  /** An event frame reads back as its payload, provided the encoder writes no line break
      (`JSON.stringify` escapes both inside strings); the keepalive reads back as a comment. */
  lemma WireRoundTrip(e: Event, encode: Event -> string)
    requires '\n' !in encode(e) && '\r' !in encode(e)
    ensures ParseFrame(Wire(DataFrame(e), encode)) == DataField(encode(e))
    ensures ParseFrame(Wire(KeepAlive, encode)) == Comment(" keepalive")
  {
    var w := Wire(DataFrame(e), encode);
    var line := "data: " + encode(e);
    assert w[..|w| - 2] == line;
    assert w[|w| - 2..] == "\n\n";
    assert '\n' !in line && '\r' !in line by {
      forall i | 0 <= i < |line|
        ensures line[i] != '\n' && line[i] != '\r'
      {
        if i >= 6 { assert line[i] == encode(e)[i - 6]; }
      }
    }
    assert line[..5] == "data:";
    assert line[0] != ':' && line[1] != ':' && line[2] != ':' && line[3] != ':' && line[4] == ':';
    assert Text.IndexOf(line, ':') == 4;
    assert line[5..] == " " + encode(e);
    var k := ": keepalive\n\n";
    assert k[..|k| - 2] == ": keepalive";
  }
}
