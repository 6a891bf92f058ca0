/** The permission queue of one session window (`renderer/renderer.js`):
    requests shown one at a time in arrival order, answered by the buttons
    or the global shortcuts, dropped when resolved elsewhere, and the speech
    bubble's text and visibility. The DOM is reduced to the bubble's state;
    the response sent to the main process is an effect of each transition. */
module Renderer {
  import opened Options
  import opened Text
  import opened JsValues
  import opened Protocol

  const AskUserQuestionTool: string := "AskUserQuestion"
  const UnknownTool: string := "Unknown"
  /** Longest description shown uncut. */
  const DescriptionLimit: nat := 120
  const Ellipsis: string := "..."
  /** The wrench that precedes the tool name. */
  const ToolIcon: string := "\U{1F527}"
  /** "(n waiting)": the counter word after the number of waiting requests. */
  const WaitingLabel: string := "\U{4EF6}\U{5F85}\U{3061}"
  /** The fixed message of a denial ("the user refused"). */
  const DenyMessage: string :=
    "\U{30E6}\U{30FC}\U{30B6}\U{30FC}\U{304C}\U{62D2}\U{5426}\U{3057}\U{305F}\U{306E}\U{3060}"
  /** The bubble of a notification without a message. */
  const NotificationFallback: string := "\U{901A}\U{77E5}\U{306A}\U{306E}\U{3060}\U{FF01}"
  /** The bubble of a stop without a message ("waiting for input"). */
  const StopFallback: string :=
    "\U{5165}\U{529B}\U{3092}\U{5F85}\U{3063}\U{3066}\U{3044}\U{308B}\U{306E}\U{3060}\U{FF01}"

  /** What the bubble shows: plain text, or the rendered question of an
      `AskUserQuestion` request. */
  datatype Content = PlainText(text: string) | QuestionHtml

  datatype View = View(visible: bool, content: Content, buttons: bool, alwaysAllow: bool)

  datatype Ui = Ui(queue: seq<Message>, view: View)

  /** A field of a message as text: its value when that is a string, the
      empty (falsy) string otherwise. */
  function TextField(msg: Message, key: string): (s: string)
    ensures key in msg && msg[key].JStr? ==> s == msg[key].s
    ensures !(key in msg && msg[key].JStr?) ==> s == ""
  {
    if key in msg && msg[key].JStr? then msg[key].s else ""
  }

  /** A property of a JSON value as text, as `TextField`. */
  function TextProp(v: Json, key: string): (s: string)
    ensures s != "" ==> Prop(v, key) == Some(JStr(s))
  {
    match Prop(v, key)
    case Some(JStr(s)) => s
    case _ => ""
  }

  /** A value with a positive `length`: a non-empty array or string. */
  predicate HasItems(v: Json) {
    (v.JArr? && |v.items| > 0) || (v.JStr? && |v.s| > 0)
  }

  /** The head of the queue, none when it is empty. */
  function CurrentRequest(queue: seq<Message>): (r: Option<Message>)
    ensures r.None? <==> |queue| == 0
    ensures r.Some? ==> r.value == queue[0] && r.value in queue
  {
    if |queue| > 0 then Some(queue[0]) else None
  }

  function ToolName(req: Message): (name: string)
    ensures name != ""
    ensures TextField(req, "tool_name") != "" ==> name == TextField(req, "tool_name")
    ensures TextField(req, "tool_name") == "" ==> name == UnknownTool
  {
    var t := TextField(req, "tool_name");
    if t != "" then t else UnknownTool
  }

  /** An `AskUserQuestion` request that carries at least one question; it
      is shown as the question, without buttons. */
  predicate IsQuestion(req: Message) {
    && ToolName(req) == AskUserQuestionTool
    && "tool_input" in req && Truthy(req["tool_input"])
    && TruthyProp(Prop(req["tool_input"], "questions"))
    && HasItems(Prop(req["tool_input"], "questions").value)
  }

  /** A description cut to the limit: unchanged when short enough,
      otherwise its first `DescriptionLimit` characters and an ellipsis. */
  function Truncate(s: string): (r: string)
    ensures |r| <= DescriptionLimit + |Ellipsis|
    ensures |s| <= DescriptionLimit ==> r == s
    ensures |s| > DescriptionLimit ==> |r| == DescriptionLimit + |Ellipsis| && r[..DescriptionLimit] == s[..DescriptionLimit]
    ensures |s| > DescriptionLimit ==> r[DescriptionLimit..] == Ellipsis
  {
    if |s| > DescriptionLimit then s[..DescriptionLimit] + Ellipsis else s
  }

  /** The command of the tool input when there is one, else the request's
      description; then cut to the limit. */
  function ShownDescription(req: Message): (d: string)
    ensures var command := if "tool_input" in req then TextProp(req["tool_input"], "command") else "";
            && (command != "" ==> d == Truncate(command))
            && (command == "" ==> d == Truncate(TextField(req, "description")))
  {
    var command := if "tool_input" in req then TextProp(req["tool_input"], "command") else "";
    Truncate(if command != "" then command else TextField(req, "description"))
  }

  /** The waiting counter: a new line and the number of other requests in
      parentheses, nothing when none wait. That the digits read back as
      the count is `WaitTextShowsCount`. */
  function WaitText(waiting: int): (t: string)
    ensures waiting <= 0 <==> t == ""
  {
    if waiting > 0 then "\n(" + Decimal(waiting) + WaitingLabel + ")" else ""
  }

  /** The counter shows the number it was given, in decimal digits. */
  lemma WaitTextShowsCount(waiting: nat)
    requires waiting > 0
    ensures exists digits: string ::
              && (forall i :: 0 <= i < |digits| ==> IsDigit(digits[i]))
              && WaitText(waiting) == "\n(" + digits + WaitingLabel + ")"
              && DecimalValue(digits) == waiting
  {
    DecimalRoundTrip(waiting);
    var digits := Decimal(waiting);
    assert WaitText(waiting) == "\n(" + digits + WaitingLabel + ")";
  }

  /** The bubble text of a permission request at the head of `queue`. */
  function PermissionText(queue: seq<Message>): string
    requires |queue| > 0
  {
    ToolIcon + " " + ToolName(queue[0]) + "\n" + ShownDescription(queue[0]) + WaitText(|queue| - 1)
  }

  /** The bubble is hidden and so is the always-allow button; what it
      showed and whether its buttons are enabled stay as they were. */
  function HideBubble(view: View): (r: View)
    ensures !r.visible && !r.alwaysAllow
    ensures r.content == view.content && r.buttons == view.buttons
  {
    view.(visible := false, alwaysAllow := false)
  }

  /** The bubble shows text; the always-allow button is left as it was. */
  function ShowBubble(view: View, text: string, buttons: bool): (r: View)
    ensures r.visible && r.content == PlainText(text) && r.buttons == buttons
    ensures r.alwaysAllow == view.alwaysAllow
  {
    View(true, PlainText(text), buttons, view.alwaysAllow)
  }

  /** Whether a request offers "don't ask again": it has a non-empty list
      of permission suggestions. */
  predicate OffersAlwaysAllow(req: Message) {
    "permission_suggestions" in req && Truthy(req["permission_suggestions"]) && HasItems(req["permission_suggestions"])
  }

  /** `displayCurrentPermission`: hide the bubble on an empty queue;
      otherwise show the head, as a question when it is one, else as the
      tool name, the description and the waiting counter with the answer
      buttons. */
  function Display(queue: seq<Message>, view: View): (r: View)
    ensures |queue| == 0 ==> r == HideBubble(view)
    ensures |queue| > 0 ==> r.visible
    ensures |queue| > 0 && IsQuestion(queue[0]) ==> r.content == QuestionHtml && !r.buttons && !r.alwaysAllow
    ensures |queue| > 0 && !IsQuestion(queue[0]) ==>
              && r.content == PlainText(PermissionText(queue))
              && r.buttons
              && (r.alwaysAllow <==> OffersAlwaysAllow(queue[0]))
  {
    if |queue| == 0 then HideBubble(view)
    else if IsQuestion(queue[0]) then View(true, QuestionHtml, false, false)
    else ShowBubble(view.(alwaysAllow := OffersAlwaysAllow(queue[0])), PermissionText(queue), true)
  }

  /** The shown text names the tool first and tells exactly when other
      requests wait behind the head: the counter is there iff the queue
      holds more than one request. */
  lemma PermissionTextShape(queue: seq<Message>)
    requires |queue| > 0
    ensures var t := PermissionText(queue);
            var head := ToolIcon + " " + ToolName(queue[0]) + "\n" + ShownDescription(queue[0]);
            && t[..|head|] == head
            && (|queue| == 1 <==> t == head)
  {
  }

  datatype Answer = AllowOnce | DenyOnce | AlwaysAllow

  /** The response the buttons and shortcuts send for a request: always its
      id; a denial alone carries the fixed message; "don't ask again" is an
      allow that also carries the request's suggestions when it has
      (truthy) ones. */
  function BuildResponse(req: Message, answer: Answer): (r: Response)
    ensures r.id == req["id"]
    ensures r.decision == Deny <==> answer == DenyOnce
    ensures r.message.Some? <==> answer == DenyOnce
    ensures r.message.Some? ==> r.message.value == DenyMessage
    ensures r.updatedPermissions.Some? <==>
              answer == AlwaysAllow && "permission_suggestions" in req && Truthy(req["permission_suggestions"])
    ensures r.updatedPermissions.Some? ==> r.updatedPermissions.value == req["permission_suggestions"]
  {
    match answer
    case AllowOnce => Response(req["id"], Allow, None, None)
    case DenyOnce => Response(req["id"], Deny, Some(DenyMessage), None)
    case AlwaysAllow =>
      var suggestions :=
        if "permission_suggestions" in req && Truthy(req["permission_suggestions"])
        then Some(req["permission_suggestions"]) else None;
      Response(req["id"], Allow, None, suggestions)
  }

  /** A transition of the window and the responses it sends, in order. */
  datatype Outcome = Outcome(ui: Ui, sent: seq<Response>)

  /** A button click or a global shortcut: with no current request nothing
      happens; otherwise exactly one response is sent, for the head, and
      the head is dropped and the next request shown. */
  function OnAnswer(ui: Ui, answer: Answer): (r: Outcome)
    ensures |ui.queue| == 0 ==> r == Outcome(ui, [])
    ensures |ui.queue| > 0 ==>
              && r.sent == [BuildResponse(ui.queue[0], answer)]
              && r.ui.queue == ui.queue[1..]
              && r.ui.view == Display(ui.queue[1..], ui.view)
  {
    match CurrentRequest(ui.queue)
    case None => Outcome(ui, [])
    case Some(current) =>
      var queue := ui.queue[1..];
      Outcome(Ui(queue, Display(queue, ui.view)), [BuildResponse(current, answer)])
  }

  /** Answers given one after another. */
  function AnswerAll(ui: Ui, answers: seq<Answer>): Outcome
    decreases |answers|
  {
    if |answers| == 0 then Outcome(ui, [])
    else
      var first := OnAnswer(ui, answers[0]);
      var rest := AnswerAll(first.ui, answers[1..]);
      Outcome(rest.ui, first.sent + rest.sent)
  }

  /** Requests are answered strictly in arrival order, each at most once:
      k answers to a queue of at least k requests send exactly one response
      per request of the first k, in queue order, and leave the rest
      queued; answers beyond the queue send nothing. */
  lemma {:induction false} AnswersFollowArrival(ui: Ui, answers: seq<Answer>)
    ensures AnsweredInOrder(ui.queue, answers, AnswerAll(ui, answers))
    decreases |answers|
  {
    if |answers| > 0 {
      var first := OnAnswer(ui, answers[0]);
      var rest := AnswerAll(first.ui, answers[1..]);
      AnswersFollowArrival(first.ui, answers[1..]);
      if |ui.queue| > 0 {
        AnswerStepInOrder(ui, answers, first, rest);
      }
    }
  }

  /** `r` answers, in order, one request of `queue` per answer, as many as
      there are answers and requests, and leaves the rest queued. */
  predicate AnsweredInOrder(queue: seq<Message>, answers: seq<Answer>, r: Outcome) {
    var k := if |answers| <= |queue| then |answers| else |queue|;
    && |r.sent| == k
    && r.ui.queue == queue[k..]
    && forall i :: 0 <= i < k ==> r.sent[i] == BuildResponse(queue[i], answers[i])
  }

  lemma AnswerStepInOrder(ui: Ui, answers: seq<Answer>, first: Outcome, rest: Outcome)
    requires |answers| > 0 && |ui.queue| > 0
    requires first == OnAnswer(ui, answers[0])
    requires AnsweredInOrder(first.ui.queue, answers[1..], rest)
    ensures AnsweredInOrder(ui.queue, answers, Outcome(rest.ui, first.sent + rest.sent))
  {
    var k := if |answers| <= |ui.queue| then |answers| else |ui.queue|;
    var tail := first.ui.queue;
    assert first.sent == [BuildResponse(ui.queue[0], answers[0])];
    assert tail == ui.queue[1..];
    assert k - 1 == if |answers[1..]| <= |tail| then |answers[1..]| else |tail|;
    assert rest.ui.queue == ui.queue[k..];
    var sent := first.sent + rest.sent;
    assert |sent| == k;
    forall i | 0 <= i < k
      ensures sent[i] == BuildResponse(ui.queue[i], answers[i])
    {
      if i > 0 {
        assert sent[i] == rest.sent[i - 1];
        assert rest.sent[i - 1] == BuildResponse(tail[i - 1], answers[1..][i - 1]);
        assert tail[i - 1] == ui.queue[i] && answers[1..][i - 1] == answers[i];
      }
    }
  }

  /** A request from the main process joins the tail of the queue and the
      head is shown again (with an updated counter). */
  function OnPermissionRequest(ui: Ui, req: Message): (r: Ui)
    ensures r.queue == ui.queue + [req]
    ensures |ui.queue| > 0 ==> CurrentRequest(r.queue) == CurrentRequest(ui.queue)
    ensures |ui.queue| == 0 ==> CurrentRequest(r.queue) == Some(req)
    ensures r.view == Display(r.queue, ui.view)
  {
    var queue := ui.queue + [req];
    Ui(queue, Display(queue, ui.view))
  }

  /** The queue without the requests with id `id`, in order. */
  function Drop(queue: seq<Message>, id: Json): (r: seq<Message>)
    ensures forall i :: 0 <= i < |r| ==> r[i]["id"] != id
    ensures |r| <= |queue|
  {
    if |queue| == 0 then []
    else if queue[0]["id"] == id then Drop(queue[1..], id)
    else [queue[0]] + Drop(queue[1..], id)
  }

  /** Exactly the requests with another id survive a drop. */
  lemma {:induction false} DropMembers(queue: seq<Message>, id: Json)
    ensures forall m :: m in Drop(queue, id) <==> m in queue && m["id"] != id
    decreases |queue|
  {
    if |queue| > 0 {
      DropMembers(queue[1..], id);
      assert queue == [queue[0]] + queue[1..];
    }
  }

  /** Dropping keeps the order of what remains: it distributes over
      concatenation. */
  lemma {:induction false} DropAppend(a: seq<Message>, b: seq<Message>, id: Json)
    ensures Drop(a + b, id) == Drop(a, id) + Drop(b, id)
    decreases |a|
  {
    if |a| == 0 {
      assert a + b == b;
    } else {
      assert (a + b)[0] == a[0] && (a + b)[1..] == a[1..] + b;
      DropAppend(a[1..], b, id);
    }
  }

  lemma {:induction false} DropAbsent(queue: seq<Message>, id: Json)
    requires forall i :: 0 <= i < |queue| ==> queue[i]["id"] != id
    ensures Drop(queue, id) == queue
    decreases |queue|
  {
    if |queue| > 0 {
      DropAbsent(queue[1..], id);
      assert [queue[0]] + queue[1..] == queue;
    }
  }

  /** `permission-dismissed`: the request was resolved elsewhere. Every
      request with that id leaves the queue, the rest keep their order; the
      bubble is redrawn when the head went or requests remain, and left as
      it was otherwise. */
  function OnPermissionDismissed(ui: Ui, id: Json): (r: Ui)
    ensures r.queue == Drop(ui.queue, id)
    ensures (|ui.queue| > 0 && ui.queue[0]["id"] == id) || |r.queue| > 0 ==> r.view == Display(r.queue, ui.view)
    ensures !(|ui.queue| > 0 && ui.queue[0]["id"] == id) && |r.queue| == 0 ==> r.view == ui.view
  {
    var wasFirst := |ui.queue| > 0 && ui.queue[0]["id"] == id;
    var queue := Drop(ui.queue, id);
    if wasFirst || |queue| > 0 then Ui(queue, Display(queue, ui.view)) else Ui(queue, ui.view)
  }

  /** A request dismissed after it arrived leaves the same queue as if it
      had never arrived. */
  lemma DismissCancelsRequest(ui: Ui, req: Message)
    ensures OnPermissionDismissed(OnPermissionRequest(ui, req), req["id"]).queue
            == OnPermissionDismissed(ui, req["id"]).queue
  {
    DropAppend(ui.queue, [req], req["id"]);
  }

  /** Dismissing an id that is not queued changes no request. */
  lemma DismissUnknownKeepsQueue(ui: Ui, id: Json)
    requires forall i :: 0 <= i < |ui.queue| ==> ui.queue[i]["id"] != id
    ensures OnPermissionDismissed(ui, id).queue == ui.queue
    ensures |ui.queue| == 0 ==> OnPermissionDismissed(ui, id) == ui
  {
    DropAbsent(ui.queue, id);
  }

  /** `dismiss-bubble`: the queue is emptied and the bubble, if shown, is
      hidden. */
  function OnDismissBubble(ui: Ui): (r: Ui)
    ensures r.queue == [] && !r.view.visible
    ensures CurrentRequest(r.queue) == None
    ensures !ui.view.visible ==> r.view == ui.view
  {
    Ui([], if ui.view.visible then HideBubble(ui.view) else ui.view)
  }

  /** A notification or a stop: never touches the queue, and shows its
      message (or the fallback) without buttons only when no request is
      waiting. */
  function ShowStatus(ui: Ui, msg: Message, fallback: string): (r: Ui)
    ensures r.queue == ui.queue
    ensures |ui.queue| > 0 ==> r == ui
    ensures |ui.queue| == 0 ==> r.view.visible && !r.view.buttons
    ensures |ui.queue| == 0 && TextField(msg, "message") != "" ==> r.view.content == PlainText(TextField(msg, "message"))
    ensures |ui.queue| == 0 && TextField(msg, "message") == "" ==> r.view.content == PlainText(fallback)
  {
    if |ui.queue| > 0 then ui
    else
      var text := TextField(msg, "message");
      Ui(ui.queue, ShowBubble(ui.view, if text != "" then text else fallback, false))
  }

  function OnNotification(ui: Ui, msg: Message): (r: Ui)
    ensures r.queue == ui.queue
    ensures |ui.queue| > 0 ==> r == ui
    ensures |ui.queue| == 0 ==> r.view.visible && r.view.content != QuestionHtml
  {
    ShowStatus(ui, msg, NotificationFallback)
  }

  function OnStop(ui: Ui, msg: Message): (r: Ui)
    ensures r.queue == ui.queue
    ensures |ui.queue| > 0 ==> r == ui
    ensures |ui.queue| == 0 ==> r.view.visible && r.view.content != QuestionHtml
  {
    ShowStatus(ui, msg, StopFallback)
  }

  /** A status message never hides a waiting request: while requests are
      queued, any run of notifications and stops leaves the window exactly
      as it was. */
  lemma {:induction false} StatusNeverHidesRequest(ui: Ui, msgs: seq<Message>, stops: seq<bool>)
    requires |ui.queue| > 0 && |stops| == |msgs|
    ensures StatusRun(ui, msgs, stops) == ui
    decreases |msgs|
  {
    if |msgs| > 0 {
      StatusNeverHidesRequest(if stops[0] then OnStop(ui, msgs[0]) else OnNotification(ui, msgs[0]), msgs[1..], stops[1..]);
    }
  }

  /** Notifications (`stops[i]` false) and stops (`stops[i]` true) in turn. */
  function StatusRun(ui: Ui, msgs: seq<Message>, stops: seq<bool>): Ui
    requires |stops| == |msgs|
    decreases |msgs|
  {
    if |msgs| == 0 then ui
    else StatusRun(if stops[0] then OnStop(ui, msgs[0]) else OnNotification(ui, msgs[0]), msgs[1..], stops[1..])
  }

  /** An element's bounding rectangle in client coordinates. */
  datatype Rect = Rect(left: real, top: real, right: real, bottom: real)

  /** Hit test for the mouse cursor: the rectangle counts its edges as inside. */
  function IsPointInElement(x: real, y: real, rect: Rect): (inside: bool)
    ensures inside ==> rect.left <= x <= rect.right
    ensures inside ==> rect.top <= y <= rect.bottom
  {
    x >= rect.left && x <= rect.right && y >= rect.top && y <= rect.bottom
  }

  /** The hit test is closed: the corners and edges of a non-empty
      rectangle are inside, a point past any edge is not. */
  lemma HitTestIsClosed(rect: Rect, x: real, y: real)
    requires rect.left <= rect.right && rect.top <= rect.bottom
    ensures IsPointInElement(rect.left, rect.top, rect) && IsPointInElement(rect.right, rect.bottom, rect)
    ensures IsPointInElement(rect.left, rect.bottom, rect) && IsPointInElement(rect.right, rect.top, rect)
    ensures x < rect.left || x > rect.right || y < rect.top || y > rect.bottom ==> !IsPointInElement(x, y, rect)
  {
  }
}
