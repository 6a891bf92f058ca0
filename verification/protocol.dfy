/** The newline-delimited JSON line protocol between the hook scripts and
    the application: accepting one inbound line as a message, and rendering
    one response as an outbound line. `JSON.parse` and `JSON.stringify` are
    parameters: `decode` returns None where `JSON.parse` throws. */
module Protocol {
  import opened Options
  import opened Text
  import opened JsValues

  const PermissionRequestType: string := "permission_request"
  const NotificationType: string := "notification"
  const StopType: string := "stop"
  const DismissType: string := "dismiss"
  const SessionEndType: string := "session_end"

  /** The message types the protocol defines. */
  const MessageTypes: seq<string> :=
    [PermissionRequestType, NotificationType, StopType, DismissType, SessionEndType]

  /** The session a message belongs to when it names none. */
  const DefaultSession: string := "default"

  /** The fields every accepted message has, each truthy. */
  ghost predicate Accepted(fields: map<string, Json>) {
    && "type" in fields && Truthy(fields["type"])
    && "id" in fields && Truthy(fields["id"])
    && "session_id" in fields && Truthy(fields["session_id"])
  }

  /** An accepted inbound message: a decoded JSON object. */
  type Message = fields: map<string, Json> | Accepted(fields)
    witness map["type" := JBool(true), "id" := JBool(true), "session_id" := JBool(true)]

  /** What a decoded line must be for `ParseMessage` to accept it: an object
      whose `type` and `id` are both truthy. */
  predicate Decodable(v: Option<Json>) {
    && v.Some?
    && TruthyProp(Prop(v.value, "type"))
    && TruthyProp(Prop(v.value, "id"))
  }

  /** One inbound line as a message. A blank line, a line that does not
      decode, and a decoded value without a truthy `type` and `id` are all
      rejected (None) without any error; an accepted message is the decoded
      object itself, with a falsy or missing `session_id` replaced by
      "default" and no other field touched. */
  function ParseMessage(line: string, decode: string -> Option<Json>): (r: Option<Message>)
    ensures JsTrim(line) == [] ==> r == None
    ensures JsTrim(line) != [] && decode(JsTrim(line)) == None ==> r == None
    ensures r.Some? <==> JsTrim(line) != [] && Decodable(decode(JsTrim(line)))
    ensures r.Some? ==>
              var v := decode(JsTrim(line)).value;
              && v.JObj?
              && r.value.Keys == v.fields.Keys + {"session_id"}
              && (forall k :: k in v.fields && k != "session_id" ==> r.value[k] == v.fields[k])
              && (TruthyProp(Prop(v, "session_id")) ==> r.value["session_id"] == v.fields["session_id"])
              && (!TruthyProp(Prop(v, "session_id")) ==> r.value["session_id"] == JStr(DefaultSession))
  {
    var t := JsTrim(line);
    if t == [] then None
    else
      match decode(t)
      case None => None
      case Some(v) =>
        if !TruthyProp(Prop(v, "type")) || !TruthyProp(Prop(v, "id")) then None
        else Some(WithSession(v.fields))
  }

  /** The decoded object with its `session_id` defaulted when falsy. */
  function WithSession(fields: map<string, Json>): (m: map<string, Json>)
    ensures m.Keys == fields.Keys + {"session_id"}
    ensures forall k :: k in fields && k != "session_id" ==> m[k] == fields[k]
    ensures "session_id" in fields && Truthy(fields["session_id"]) ==> m["session_id"] == fields["session_id"]
    ensures !("session_id" in fields && Truthy(fields["session_id"])) ==> m["session_id"] == JStr(DefaultSession)
  {
    if "session_id" in fields && Truthy(fields["session_id"]) then fields
    else fields["session_id" := JStr(DefaultSession)]
  }

  /** How the broker dispatches a message: by comparing `type` with the
      protocol's type strings. A `session_end` message has no case of its
      own and is Unhandled, like any other unknown type. */
  datatype Kind = PermissionRequestKind | NotificationKind | StopKind | DismissKind | Unhandled

  function KindOf(msg: Message): (k: Kind)
    ensures k == PermissionRequestKind <==> msg["type"] == JStr(PermissionRequestType)
    ensures k == NotificationKind <==> msg["type"] == JStr(NotificationType)
    ensures k == StopKind <==> msg["type"] == JStr(StopType)
    ensures k == DismissKind <==> msg["type"] == JStr(DismissType)
  {
    var t := msg["type"];
    if t == JStr(PermissionRequestType) then PermissionRequestKind
    else if t == JStr(NotificationType) then NotificationKind
    else if t == JStr(StopType) then StopKind
    else if t == JStr(DismissType) then DismissKind
    else Unhandled
  }

  /** `session_end` is a defined message type that parses like any other,
      but the broker dispatches it to the unknown-type branch. */
  lemma SessionEndIsUnhandled(msg: Message)
    requires msg["type"] == JStr(SessionEndType)
    ensures SessionEndType in MessageTypes
    ensures KindOf(msg) == Unhandled
  {
  }

  datatype Decision = Allow | Deny

  /** The response object the UI sends back: `{id, decision, message?,
      updatedPermissions?}`. */
  datatype Response = Response(
    id: Json,
    decision: Decision,
    message: Option<string>,
    updatedPermissions: Option<Json>)

  /** An encoder in the manner of `JSON.stringify` without indentation: it
      escapes every newline inside strings, so its output has none. */
  ghost predicate LineSafe(encode: Response -> string) {
    forall r :: '\n' !in encode(r)
  }

  /** A response as one outbound line: its encoding and one newline. */
  function SerializeResponse(response: Response, encode: Response -> string): (line: string)
    ensures |line| >= 1 && line[|line| - 1] == '\n'
    ensures line[..|line| - 1] == encode(response)
  {
    encode(response) + "\n"
  }

  /** A serialized response is exactly one protocol line: the reader's
      newline split yields the encoding as the only complete line and leaves
      nothing behind, and with a line-safe encoder it ends in exactly one
      newline terminator. */
  lemma SerializedResponseIsOneLine(response: Response, encode: Response -> string)
    requires LineSafe(encode)
    ensures Split(SerializeResponse(response, encode)) == [encode(response), ""]
    ensures '\n' !in SerializeResponse(response, encode)[..|SerializeResponse(response, encode)| - 1]
  {
    var e := encode(response);
    assert SerializeResponse(response, encode) == e + "\n" + "";
    SplitCons(e, "");
  }
}
