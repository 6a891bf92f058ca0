/** The socket broker of `src/socket-server.js`: one flat table of pending
    permission requests, request id to the connection awaiting its answer,
    and the transitions that fill and drain it. Connections are opaque
    handles; writing to, ending and notifying through them are effects in
    the returned log, in the order the source performs them. */
module Broker {
  import opened Options
  import opened JsValues
  import opened Protocol

  /** A connection, as an opaque handle. */
  type Socket = nat

  const PermissionRequestChannel: string := "permission-request"
  const NotificationChannel: string := "notification"
  const StopChannel: string := "stop"
  const PermissionDismissedChannel: string := "permission-dismissed"
  const DismissBubbleChannel: string := "dismiss-bubble"

  /** What a notice to the UI carries: the whole message, `{id}`, or
      nothing. */
  datatype Payload = MessagePayload(msg: Message) | IdPayload(id: Json) | NoPayload

  datatype Effect =
    | Write(sock: Socket, data: string)
    | End(sock: Socket)
    | Send(channel: string, payload: Payload)
    | PermissionRequestCallback(msg: Message)
    | PermissionDismissCallback

  /** One pending request: its id and the connection holding it open. */
  datatype Entry = Entry(id: Json, sock: Socket)

  /** The pending table in insertion order, the order in which a
      JavaScript `Map` is iterated. */
  type Table = seq<Entry>

  /** The broker's state. Either callback may be unset, in which case the
      source skips calling it. */
  datatype Server = Server(pending: Table, hasRequestCallback: bool, hasDismissCallback: bool)

  datatype Step = Step(server: Server, effects: seq<Effect>)

  function Ids(t: Table): seq<Json> {
    if |t| == 0 then [] else [t[0].id] + Ids(t[1..])
  }

  /** No id appears twice: the table is a map. */
  predicate DistinctIds(t: Table) {
    |t| == 0 || (t[0].id !in Ids(t[1..]) && DistinctIds(t[1..]))
  }

  predicate Valid(srv: Server) {
    DistinctIds(srv.pending)
  }

  /** `Map.prototype.get`. */
  function Lookup(t: Table, id: Json): (r: Option<Socket>)
    ensures r.Some? <==> id in Ids(t)
    ensures r.Some? ==> Entry(id, r.value) in t
  {
    if |t| == 0 then None
    else if t[0].id == id then Some(t[0].sock)
    else Lookup(t[1..], id)
  }

  /** `Map.prototype.set`: an existing id keeps its position and takes the
      new connection; a new id goes last. Every other id is untouched. */
  function Put(t: Table, id: Json, sock: Socket): (r: Table)
    ensures Lookup(r, id) == Some(sock)
    ensures forall k :: k != id ==> Lookup(r, k) == Lookup(t, k)
    ensures forall k :: k in Ids(r) <==> k in Ids(t) || k == id
    ensures DistinctIds(t) ==> DistinctIds(r)
    ensures |r| == if id in Ids(t) then |t| else |t| + 1
  {
    if |t| == 0 then [Entry(id, sock)]
    else if t[0].id == id then [Entry(id, sock)] + t[1..]
    else
      var rest := Put(t[1..], id, sock);
      assert ([t[0]] + rest)[1..] == rest;
      [t[0]] + rest
  }

  /** Where `Map.prototype.set` puts a new id: after all others. */
  lemma {:induction false} PutAppendsNew(t: Table, id: Json, sock: Socket)
    requires id !in Ids(t)
    ensures Put(t, id, sock) == t + [Entry(id, sock)]
    decreases |t|
  {
    if |t| > 0 {
      assert Ids(t) == [t[0].id] + Ids(t[1..]);
      var e := Entry(id, sock);
      PutAppendsNew(t[1..], id, sock);
      assert Put(t, id, sock) == [t[0]] + (t[1..] + [e]);
      assert t == [t[0]] + t[1..];
    }
  }

  /** An id already present keeps its place: setting it leaves the order
      of the ids, the iteration order of the table, unchanged. */
  lemma {:induction false} PutKeepsOrder(t: Table, id: Json, sock: Socket)
    requires id in Ids(t)
    ensures Ids(Put(t, id, sock)) == Ids(t)
    decreases |t|
  {
    assert Ids(t) == [t[0].id] + Ids(t[1..]);
    var r := Put(t, id, sock);
    if t[0].id == id {
      assert r[1..] == t[1..];
    } else {
      PutKeepsOrder(t[1..], id, sock);
      assert r[1..] == Put(t[1..], id, sock);
    }
    assert Ids(r) == [r[0].id] + Ids(r[1..]);
  }

  /** `Map.prototype.delete`: the id is gone and every other id is
      untouched. */
  function Delete(t: Table, id: Json): (r: Table)
    ensures Lookup(r, id) == None
    ensures forall k :: k != id ==> Lookup(r, k) == Lookup(t, k)
    ensures forall k :: k in Ids(r) <==> k in Ids(t) && k != id
    ensures DistinctIds(t) ==> DistinctIds(r)
    ensures id !in Ids(t) ==> r == t
    ensures DistinctIds(t) && id in Ids(t) ==> |r| == |t| - 1
  {
    if |t| == 0 then []
    else if t[0].id == id then Delete(t[1..], id)
    else
      var rest := Delete(t[1..], id);
      assert ([t[0]] + rest)[1..] == rest;
      [t[0]] + rest
  }

  /** Deleting an id removes its one entry and leaves the others in
      their order: the iteration order of the table is kept. */
  lemma {:induction false} DeleteKeepsOrder(a: Table, e: Entry, b: Table)
    requires e.id !in Ids(a) && e.id !in Ids(b)
    ensures Delete(a + [e] + b, e.id) == a + b
    decreases |a|
  {
    var t := a + [e] + b;
    if |a| > 0 {
      assert Ids(a) == [a[0].id] + Ids(a[1..]);
      assert t[0] == a[0] && t[0].id != e.id;
      assert t[1..] == a[1..] + [e] + b;
      DeleteKeepsOrder(a[1..], e, b);
      assert Delete(t, e.id) == [a[0]] + Delete(t[1..], e.id);
      HeadThenRest(a, b);
    } else {
      assert t[0] == e && t[1..] == b;
      assert Delete(t, e.id) == Delete(b, e.id);
    }
  }

  lemma HeadThenRest(a: Table, b: Table)
    requires |a| > 0
    ensures a + b == [a[0]] + (a[1..] + b)
  {
  }

  /** One `permission-dismissed` notice per entry, each followed by ending
      that entry's connection, in table order. */
  function DismissEffects(t: Table): (effs: seq<Effect>)
    ensures |effs| == 2 * |t|
    ensures forall i :: 0 <= i < |t| ==>
              && effs[2 * i] == Send(PermissionDismissedChannel, IdPayload(t[i].id))
              && effs[2 * i + 1] == End(t[i].sock)
  {
    seq(2 * |t|, k requires 0 <= k < 2 * |t| =>
      if k % 2 == 0 then Send(PermissionDismissedChannel, IdPayload(t[k / 2].id)) else End(t[k / 2].sock))
  }

  /** Dismisses every pending request (`dismissPendingConnections`): each
      is announced and its connection ended, the table is emptied, and the
      dismiss callback fires even when there was nothing pending. */
  function DismissPending(srv: Server): (r: Step)
    ensures r.server == srv.(pending := [])
    ensures |r.effects| == 2 * |srv.pending| + (if srv.hasDismissCallback then 1 else 0)
    ensures forall i :: 0 <= i < |srv.pending| ==>
              && r.effects[2 * i] == Send(PermissionDismissedChannel, IdPayload(srv.pending[i].id))
              && r.effects[2 * i + 1] == End(srv.pending[i].sock)
    ensures srv.hasDismissCallback ==> r.effects[|r.effects| - 1] == PermissionDismissCallback
  {
    Step(srv.(pending := []),
         DismissEffects(srv.pending) + (if srv.hasDismissCallback then [PermissionDismissCallback] else []))
  }

  /** `handleMessage`: a permission request is held open under its id (a
      second request with the same id silently takes the slot); a
      notification or stop is forwarded and its connection ended; a dismiss
      clears the whole table, tells the UI to drop its bubble and ends the
      sender; every other type, `session_end` included, only ends the
      sender. Only a permission request leaves its connection open. */
  function HandleMessage(srv: Server, msg: Message, sock: Socket): (r: Step)
    ensures Valid(srv) ==> Valid(r.server)
    ensures r.server.hasRequestCallback == srv.hasRequestCallback
    ensures r.server.hasDismissCallback == srv.hasDismissCallback
    ensures KindOf(msg) == PermissionRequestKind ==>
              && r.server.pending == Put(srv.pending, msg["id"], sock)
              && Lookup(r.server.pending, msg["id"]) == Some(sock)
              && (forall k :: k != msg["id"] ==> Lookup(r.server.pending, k) == Lookup(srv.pending, k))
              && r.effects == [Send(PermissionRequestChannel, MessagePayload(msg))]
                              + (if srv.hasRequestCallback then [PermissionRequestCallback(msg)] else [])
    ensures KindOf(msg) in {NotificationKind, StopKind, Unhandled} ==> r.server == srv
    ensures KindOf(msg) == NotificationKind ==> r.effects == [Send(NotificationChannel, MessagePayload(msg)), End(sock)]
    ensures KindOf(msg) == StopKind ==> r.effects == [Send(StopChannel, MessagePayload(msg)), End(sock)]
    ensures KindOf(msg) == Unhandled ==> r.effects == [End(sock)]
    ensures KindOf(msg) == DismissKind ==>
              && r.server.pending == []
              && r.effects == DismissPending(srv).effects + [Send(DismissBubbleChannel, NoPayload), End(sock)]
  {
    match KindOf(msg)
    case PermissionRequestKind =>
      Step(srv.(pending := Put(srv.pending, msg["id"], sock)),
           [Send(PermissionRequestChannel, MessagePayload(msg))]
           + (if srv.hasRequestCallback then [PermissionRequestCallback(msg)] else []))
    case NotificationKind =>
      Step(srv, [Send(NotificationChannel, MessagePayload(msg)), End(sock)])
    case StopKind =>
      Step(srv, [Send(StopChannel, MessagePayload(msg)), End(sock)])
    case DismissKind =>
      var d := DismissPending(srv);
      Step(d.server, d.effects + [Send(DismissBubbleChannel, NoPayload), End(sock)])
    case Unhandled =>
      Step(srv, [End(sock)])
  }

  /** The entries held by connection `sock`, in table order. */
  function OwnedBy(t: Table, sock: Socket): (r: Table)
    ensures forall e :: e in r <==> e in t && e.sock == sock
    ensures |r| <= |t|
  {
    if |t| == 0 then []
    else if t[0].sock == sock then [t[0]] + OwnedBy(t[1..], sock)
    else OwnedBy(t[1..], sock)
  }

  /** The entries held by every other connection, in table order. */
  function OthersOf(t: Table, sock: Socket): (r: Table)
    ensures forall e :: e in r <==> e in t && e.sock != sock
    ensures |r| <= |t|
  {
    if |t| == 0 then []
    else if t[0].sock != sock then [t[0]] + OthersOf(t[1..], sock)
    else OthersOf(t[1..], sock)
  }

  /** One `permission-dismissed` notice per entry, in order. */
  function Notices(t: Table): (effs: seq<Effect>)
    ensures |effs| == |t|
    ensures forall i :: 0 <= i < |t| ==> effs[i] == Send(PermissionDismissedChannel, IdPayload(t[i].id))
  {
    seq(|t|, i requires 0 <= i < |t| => Send(PermissionDismissedChannel, IdPayload(t[i].id)))
  }

  /** The scan of the close handler: the entries kept, and one
      `permission-dismissed` notice per entry owned by the closing
      connection, in table order. */
  function CloseScan(t: Table, sock: Socket): (r: (Table, seq<Effect>))
    ensures forall e :: e in r.0 <==> e in t && e.sock != sock
    ensures |r.0| + |r.1| == |t|
    ensures forall i :: 0 <= i < |r.1| ==> r.1[i].Send? && r.1[i].channel == PermissionDismissedChannel && r.1[i].payload.IdPayload?
    ensures forall id :: Send(PermissionDismissedChannel, IdPayload(id)) in r.1 <==> Entry(id, sock) in t
    ensures forall k :: k in Ids(r.0) ==> k in Ids(t)
    ensures DistinctIds(t) ==> DistinctIds(r.0)
  {
    if |t| == 0 then ([], [])
    else
      var rest := CloseScan(t[1..], sock);
      if t[0].sock == sock then
        (rest.0, [Send(PermissionDismissedChannel, IdPayload(t[0].id))] + rest.1)
      else
        assert ([t[0]] + rest.0)[1..] == rest.0;
        ([t[0]] + rest.0, rest.1)
  }

  /** The notices of the close scan are one dismissal per entry of the
      closing connection, in table order, and nothing else. */
  lemma {:induction false} CloseScanNotices(t: Table, sock: Socket)
    ensures CloseScan(t, sock).1 == Notices(OwnedBy(t, sock))
    decreases |t|
  {
    if |t| > 0 {
      CloseScanNotices(t[1..], sock);
      if t[0].sock == sock {
        var rest := OwnedBy(t[1..], sock);
        assert Notices([t[0]] + rest) == [Send(PermissionDismissedChannel, IdPayload(t[0].id))] + Notices(rest);
      }
    }
  }

  /** The close scan keeps exactly the other connections' entries, in
      their table order. */
  lemma {:induction false} CloseScanKeeps(t: Table, sock: Socket)
    ensures CloseScan(t, sock).0 == OthersOf(t, sock)
    decreases |t|
  {
    if |t| > 0 {
      CloseScanKeeps(t[1..], sock);
    }
  }

  /** The close handler: every request held by the closing connection is
      dropped and announced, nothing else changes, and the dismiss callback
      fires exactly when something was dropped and the table is now empty. */
  function OnClose(srv: Server, sock: Socket): (r: Step)
    ensures Valid(srv) ==> Valid(r.server)
    ensures r.server.hasRequestCallback == srv.hasRequestCallback
    ensures r.server.hasDismissCallback == srv.hasDismissCallback
    ensures forall e :: e in r.server.pending <==> e in srv.pending && e.sock != sock
    ensures r.server.pending == OthersOf(srv.pending, sock)
    ensures forall id :: Send(PermissionDismissedChannel, IdPayload(id)) in r.effects <==> Entry(id, sock) in srv.pending
    ensures PermissionDismissCallback in r.effects <==>
              srv.hasDismissCallback && |r.server.pending| < |srv.pending| && r.server.pending == []
    ensures r.effects == Notices(OwnedBy(srv.pending, sock))
                         + (if srv.hasDismissCallback && |OwnedBy(srv.pending, sock)| > 0 && r.server.pending == []
                            then [PermissionDismissCallback] else [])
  {
    var (kept, notices) := CloseScan(srv.pending, sock);
    CloseScanNotices(srv.pending, sock);
    CloseScanKeeps(srv.pending, sock);
    var fire := |notices| > 0 && |kept| == 0 && srv.hasDismissCallback;
    Step(srv.(pending := kept), notices + (if fire then [PermissionDismissCallback] else []))
  }

  /** `sendResponse`: for a pending id, the serialized response is written
      to its connection, the connection is ended and only that id leaves
      the table, with the dismiss callback fired exactly when the table
      became empty. An id that is not pending (never seen, answered,
      dismissed or closed) changes nothing. */
  function SendResponse(srv: Server, response: Response, encode: Response -> string): (r: Step)
    ensures Valid(srv) ==> Valid(r.server)
    ensures Lookup(srv.pending, response.id) == None ==> r == Step(srv, [])
    ensures Lookup(srv.pending, response.id).Some? ==>
              var s := Lookup(srv.pending, response.id).value;
              && r.server == srv.(pending := Delete(srv.pending, response.id))
              && Lookup(r.server.pending, response.id) == None
              && (forall k :: k != response.id ==> Lookup(r.server.pending, k) == Lookup(srv.pending, k))
              && r.effects == [Write(s, SerializeResponse(response, encode)), End(s)]
                              + (if srv.hasDismissCallback && r.server.pending == [] then [PermissionDismissCallback] else [])
  {
    match Lookup(srv.pending, response.id)
    case None => Step(srv, [])
    case Some(s) =>
      var t := Delete(srv.pending, response.id);
      Step(srv.(pending := t),
           [Write(s, SerializeResponse(response, encode)), End(s)]
           + (if |t| == 0 && srv.hasDismissCallback then [PermissionDismissCallback] else []))
  }

  /** The table clearing of `stop`: every held connection is ended, in
      table order, and the table is emptied. */
  function Stop(srv: Server): (r: Step)
    ensures r.server == srv.(pending := [])
    ensures |r.effects| == |srv.pending|
    ensures forall i :: 0 <= i < |srv.pending| ==> r.effects[i] == End(srv.pending[i].sock)
  {
    Step(srv.(pending := []), seq(|srv.pending|, i requires 0 <= i < |srv.pending| => End(srv.pending[i].sock)))
  }

  /** A pending request is answered at most once: the first response writes
      one line to the waiting connection and ends it; a second response for
      the same id finds nothing and changes nothing. */
  lemma {:induction false} ResponseResolvesOnce(srv: Server, first: Response, second: Response, encode: Response -> string)
    requires Valid(srv)
    requires Lookup(srv.pending, first.id).Some?
    requires second.id == first.id
    ensures var r1 := SendResponse(srv, first, encode);
            && Write(Lookup(srv.pending, first.id).value, SerializeResponse(first, encode)) in r1.effects
            && SendResponse(r1.server, second, encode) == Step(r1.server, [])
  {
    var r1 := SendResponse(srv, first, encode);
    assert r1.effects[0] == Write(Lookup(srv.pending, first.id).value, SerializeResponse(first, encode));
    assert Lookup(r1.server.pending, second.id) == None;
  }

  /** A permission request followed by a response for its id: exactly one
      line, the serialized response, is written, to the requesting
      connection, which is then ended; the table is as before the request
      for every other id, and the id is no longer pending. */
  lemma {:induction false} RequestThenRespond(srv: Server, msg: Message, sock: Socket, response: Response, encode: Response -> string)
    requires Valid(srv)
    requires KindOf(msg) == PermissionRequestKind
    requires response.id == msg["id"]
    ensures var r1 := HandleMessage(srv, msg, sock);
            var r2 := SendResponse(r1.server, response, encode);
            && r2.effects[0] == Write(sock, SerializeResponse(response, encode))
            && r2.effects[1] == End(sock)
            && (forall i :: 0 <= i < |r1.effects| ==> !r1.effects[i].Write?)
            && (forall i :: 1 <= i < |r2.effects| ==> !r2.effects[i].Write?)
            && Lookup(r2.server.pending, msg["id"]) == None
            && (forall k :: k != msg["id"] ==> Lookup(r2.server.pending, k) == Lookup(srv.pending, k))
  {
    var r1 := HandleMessage(srv, msg, sock);
    assert Lookup(r1.server.pending, response.id) == Some(sock);
    assert r1.effects == [Send(PermissionRequestChannel, MessagePayload(msg))]
           + (if srv.hasRequestCallback then [PermissionRequestCallback(msg)] else []);
  }

  /** When the connection holding a request closes first, that request is
      announced as dismissed and a later response for it changes nothing. */
  lemma {:induction false} CloseThenRespond(srv: Server, sock: Socket, response: Response, encode: Response -> string)
    requires Valid(srv)
    requires Lookup(srv.pending, response.id) == Some(sock)
    ensures var r1 := OnClose(srv, sock);
            && Send(PermissionDismissedChannel, IdPayload(response.id)) in r1.effects
            && SendResponse(r1.server, response, encode) == Step(r1.server, [])
  {
    var r1 := OnClose(srv, sock);
    assert Entry(response.id, sock) in srv.pending;
    if Lookup(r1.server.pending, response.id).Some? {
      var s := Lookup(r1.server.pending, response.id).value;
      assert Entry(response.id, s) in r1.server.pending;
      assert s != sock;
      DistinctEntry(srv.pending, response.id, sock, s);
    }
  }

  /** In a table with distinct ids, an id has one connection. */
  lemma {:induction false} DistinctEntry(t: Table, id: Json, a: Socket, b: Socket)
    requires DistinctIds(t)
    requires Entry(id, a) in t && Entry(id, b) in t
    ensures a == b
  {
    if t[0] != Entry(id, a) || t[0] != Entry(id, b) {
      if t[0].id == id {
        var other := if t[0] == Entry(id, a) then b else a;
        assert Entry(id, other) in t[1..];
        IdOfMember(t[1..], Entry(id, other));
      } else {
        DistinctEntry(t[1..], id, a, b);
      }
    }
  }

  lemma {:induction false} IdOfMember(t: Table, e: Entry)
    requires e in t
    ensures e.id in Ids(t)
  {
    if t[0] != e {
      IdOfMember(t[1..], e);
    }
  }

  /** Closing is cleaned up once: a second close of the same connection
      finds nothing to drop and emits nothing. */
  lemma CloseTwiceIsNoOp(srv: Server, sock: Socket)
    ensures var r1 := OnClose(srv, sock);
            OnClose(r1.server, sock) == Step(r1.server, [])
  {
    var r1 := OnClose(srv, sock);
    CloseScanNone(r1.server.pending, sock);
  }

  lemma {:induction false} CloseScanNone(t: Table, sock: Socket)
    requires forall e :: e in t ==> e.sock != sock
    ensures CloseScan(t, sock) == (t, [])
  {
    if |t| > 0 {
      CloseScanNone(t[1..], sock);
      assert [t[0]] + t[1..] == t;
    }
  }

  /** A second permission request under a pending id takes over the slot:
      the first connection is no longer pending, is not ended, and will
      never receive the answer. */
  lemma DuplicateRequestOrphansFirst(srv: Server, first: Message, second: Message, a: Socket, b: Socket)
    requires Valid(srv)
    requires KindOf(first) == PermissionRequestKind && KindOf(second) == PermissionRequestKind
    requires first["id"] == second["id"] && a != b
    ensures var r1 := HandleMessage(srv, first, a);
            var r2 := HandleMessage(r1.server, second, b);
            && Lookup(r2.server.pending, first["id"]) == Some(b)
            && |r2.server.pending| == |r1.server.pending|
            && End(a) !in r1.effects + r2.effects
  {
    var r1 := HandleMessage(srv, first, a);
    assert first["id"] in Ids(r1.server.pending);
  }
}
