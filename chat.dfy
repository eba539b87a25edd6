/**
  The chat controller: the engine selector (`getActiveModelKey`), conversation
  titles (`startConversation` and `sendMessage`), and `sendMessage` itself —
  validation and persistence before the event-stream headers, then the relay of
  engine events as server-sent-event frames, which stores the answer and counts
  the completed turn.

  The engine's answer is a finite sequence of events; the client's disconnect is
  the index `closedAt` of the first event the loop sees with `closed` set.
*/
module Chat {
  import opened Common
  import opened Store
  import opened History
  import opened Quota
  import Json

  const FallbackModel: string := "gpt-5"
  const NewChatTitle: string := "New Chat"
  /** `startConversation` keeps 50 characters of the first message, `sendMessage` 60 of the text. */
  const StartTitleLength: nat := 50
  const TitleLength: nat := 60
  /** `MESSAGE_LIMIT || 999999` in the chat controller. */
  const ChatDefaultLimit: real := 999999.0
  const StreamErrorDefault: string := "Error while streaming"
  /** The body of an HTTP error reply when the error carries no response data. */
  const ErrorBodyDefault: string := "{\"message\":\"Error processing request\"}"
  /** What saving a message whose `text` is the empty string throws (`text` is a required string). */
  const ValidationMessage: string := "Message validation failed: text: Path `text` is required."

  // ----- engine selection -----

  /**
    The document `findOne({active: true}).sort({updatedAt: -1})` returns: an active
    configuration with the latest `updatedAt`. The store leaves the order among
    equal timestamps open; the model takes the first in table order.
  */
  function MostRecentActive(configs: seq<ModelConfig>): (r: Option<nat>)
    ensures r.None? ==> forall i :: 0 <= i < |configs| ==> !configs[i].active
    ensures r.Some? ==> r.value < |configs| && configs[r.value].active
    ensures r.Some? ==> forall i :: 0 <= i < |configs| && configs[i].active ==>
      configs[i].updatedAt <= configs[r.value].updatedAt
    ensures r.Some? ==> forall i :: 0 <= i < r.value && configs[i].active ==>
      configs[i].updatedAt < configs[r.value].updatedAt
  {
    if |configs| == 0 then None
    else
      var rest := MostRecentActive(configs[1..]);
      if configs[0].active && (rest.None? || configs[1 + rest.value].updatedAt <= configs[0].updatedAt) then
        Some(0)
      else if rest.Some? then Some(1 + rest.value)
      else None
  }

  /**
    `getActiveModelKey`: the most recently updated active configuration's key,
    when the lookup succeeds (`lookupOk`), that key is non-empty and the engine
    provider knows it (`live`); "gpt-5" in every other case. It never fails.
  */
  function ActiveModelKey(configs: seq<ModelConfig>, lookupOk: bool, live: set<string>): (r: string)
    ensures r != FallbackModel ==>
      && lookupOk && r != "" && r in live
      && MostRecentActive(configs).Some? && configs[MostRecentActive(configs).value].key == r
    ensures lookupOk && MostRecentActive(configs).Some? ==>
      var k := configs[MostRecentActive(configs).value].key;
      k != "" && k in live ==> r == k
    ensures !lookupOk || MostRecentActive(configs).None? ==> r == FallbackModel
  {
    var found := if lookupOk then MostRecentActive(configs) else None;
    var model := if found.Some? && configs[found.value].key != "" then configs[found.value].key else FallbackModel;
    if model in live then model else FallbackModel
  }

  // ----- titles -----

  /** `title || (firstMessage ? firstMessage.substring(0, 50) : "New Chat")`. */
  function StartTitle(title: Option<string>, firstMessage: Option<string>): (r: string)
    ensures r != ""
    ensures title.Some? && title.value != "" ==> r == title.value
    ensures (title.None? || title.value == "") && firstMessage.Some? && firstMessage.value != "" ==>
      r <= firstMessage.value && |r| == Min(StartTitleLength, |firstMessage.value|)
    ensures (title.None? || title.value == "") && (firstMessage.None? || firstMessage.value == "") ==>
      r == NewChatTitle
  {
    if title.Some? && title.value != "" then title.value
    else if firstMessage.Some? && firstMessage.value != "" then Take(firstMessage.value, StartTitleLength)
    else NewChatTitle
  }

  function LowerAscii(c: char): char {
    if 'A' <= c <= 'Z' then (c as int + 32) as char else c
  }

  /** `/^new chat$/i`: the whole title is "new chat" up to the case of ASCII letters. */
  predicate IsNewChatTitle(t: string) {
    |t| == 8 && forall i :: 0 <= i < 8 ==> LowerAscii(t[i]) == "new chat"[i]
  }

  /** `sendMessage` replaces an empty or placeholder title with the first 60 characters of the text. */
  function Retitle(title: string, text: string): (r: string)
    ensures title == "" || IsNewChatTitle(title) ==> r <= text && |r| == Min(TitleLength, |text|)
    ensures title != "" && !IsNewChatTitle(title) ==> r == title
  {
    if title == "" || IsNewChatTitle(title) then Take(text, TitleLength) else title
  }

  lemma PlaceholderTitles()
    ensures IsNewChatTitle(NewChatTitle) && IsNewChatTitle("NEW CHAT") && IsNewChatTitle("new chat")
    ensures !IsNewChatTitle("New Chat!") && !IsNewChatTitle("New chat ")
  {
    assert LowerAscii('N') == 'n' && LowerAscii('C') == 'c' && LowerAscii('E') == 'e' && LowerAscii('W') == 'w';
    assert LowerAscii('H') == 'h' && LowerAscii('A') == 'a' && LowerAscii('T') == 't';
  }

  datatype StartResult =
    | Unauthenticated                                               // 401 "User not authenticated"
    | Started(conversationId: ConvId, title: string, messages: seq<MsgId>)  // 201

  /** `startConversation`: without a session user 401; otherwise a new, empty conversation with `StartTitle`. */
  method StartConversation(db: Database, userId: Option<UserId>, title: Option<string>, firstMessage: Option<string>)
    returns (r: StartResult)
    requires db.Valid()
    modifies db`conversations
    ensures db.Valid()
    ensures userId.None? ==> r == Unauthenticated && db.conversations == old(db.conversations)
    ensures userId.Some? ==>
      var conv := Conversation(userId.value, StartTitle(title, firstMessage), []);
      && db.conversations == old(db.conversations) + [conv]
      && r == Started(|old(db.conversations)|, conv.title, [])
  {
    if userId.None? {
      return Unauthenticated;
    }
    var conv := Conversation(userId.value, StartTitle(title, firstMessage), []);
    var id := |db.conversations|;
    db.conversations := db.conversations + [conv];
    r := Started(id, conv.title, conv.messages);
  }

  // ----- engine events and frames -----

  datatype Event =
    | Delta(delta: string)               // response.output_text.delta
    | Completed(usage: Option<string>)   // response.completed, with the usage object as JSON text if any
    | EngineError(json: string)          // error or response.failed, the whole event as JSON text
    | Other                              // any other event type
    | Raise(message: string)             // the stream throws; "" when the error has no message

  datatype Payload =
    | DeltaText(text: string)
    | Done(userMessageId: MsgId, botMessageId: MsgId, modelUsed: string, usage: Option<string>,
           attemptsLeft: JsNumber)
    | EngineFailure(json: string)
    | StreamError(message: string)

  /** One server-sent event: its `event:` name and its `data:` payload. */
  datatype Frame = Frame(event: string, payload: Payload)

  /** How the relay loop ends. */
  datatype Ending =
    | StreamEnded                       // the engine ran out of events
    | Disconnected                      // the loop saw `closed` set
    | CompletedWith(usage: Option<string>)
    | EngineErrorWith(json: string)
    | RaisedWith(message: string)

  /**
    The relay from event i on: the delta texts it forwards and how it ends. A
    throwing stream is caught before the `closed` test, since the throw happens
    while waiting for the next event.
  */
  function RelayFrom(events: seq<Event>, closedAt: nat, i: nat): (seq<string>, Ending)
    requires i <= |events|
    decreases |events| - i
  {
    if i == |events| then ([], StreamEnded)
    else if events[i].Raise? then ([], RaisedWith(events[i].message))
    else if i >= closedAt then ([], Disconnected)
    else match events[i]
      case Delta(d) =>
        var (ds, end) := RelayFrom(events, closedAt, i + 1);
        ([d] + ds, end)
      case Completed(u) => ([], CompletedWith(u))
      case EngineError(j) => ([], EngineErrorWith(j))
      case Other => RelayFrom(events, closedAt, i + 1)
  }

  function Relay(events: seq<Event>, closedAt: nat): (seq<string>, Ending) {
    RelayFrom(events, closedAt, 0)
  }

  /** The answer text: the deltas joined in arrival order. */
  function Concat(ds: seq<string>): string {
    if ds == [] then "" else Concat(ds[..|ds| - 1]) + ds[|ds| - 1]
  }

  function DeltaFrames(ds: seq<string>): seq<Frame> {
    seq(|ds|, i requires 0 <= i < |ds| => Frame("delta", DeltaText(ds[i])))
  }

  /** `error?.message || "Error while streaming"`. */
  function ErrorMessage(message: string): (r: string)
    ensures r != ""
    ensures message != "" ==> r == message
  {
    if message == "" then StreamErrorDefault else message
  }

  /** `Number(MESSAGE_LIMIT || 999999)`: unset or empty means 999999. */
  function ChatLimit(env: EnvLimit): JsNumber {
    match env
    case Unset => Finite(ChatDefaultLimit)
    case Empty => Finite(ChatDefaultLimit)
    case Numeric(v) => v
  }

  /** `Math.max(0, limit - count)`; NaN propagates through both. */
  function AttemptsLeft(env: EnvLimit, count: int): (r: JsNumber)
    ensures ChatLimit(env).NaN? <==> r.NaN?
    ensures r.Finite? ==> r.value >= 0.0 && r.value >= ChatLimit(env).value - count as real
    ensures r.Finite? && r.value > 0.0 ==> r.value == ChatLimit(env).value - count as real
  {
    match ChatLimit(env)
    case NaN => NaN
    case Finite(l) => Finite(if l - count as real > 0.0 then l - count as real else 0.0)
  }

  /** The turn is stored only when it completed with an answer that is not blank. */
  predicate Stores(end: Ending, botText: string) {
    end.CompletedWith? && Trim(botText) != ""
  }

  /** The frame that ends the stream, if any; `count` is the counter after the completed turn. */
  function TerminalFrames(end: Ending, botText: string, userMsgId: MsgId, botMsgId: MsgId, model: string,
                          count: int, env: EnvLimit): seq<Frame>
  {
    match end
    case StreamEnded => []
    case Disconnected => []
    case CompletedWith(u) =>
      if Trim(botText) == "" then [Frame("error", StreamError(ValidationMessage))]
      else [Frame("done", Done(userMsgId, botMsgId, model, u, AttemptsLeft(env, count)))]
    case EngineErrorWith(j) => [Frame("error", EngineFailure(j))]
    case RaisedWith(m) => [Frame("error", StreamError(ErrorMessage(m)))]
  }

  // ----- the relay against an independent reference -----

  /** The index of the event at which the relay stops (|events| if it runs out). */
  function StopIndex(events: seq<Event>, closedAt: nat, i: nat): (k: nat)
    requires i <= |events|
    ensures i <= k <= |events|
    ensures i <= closedAt ==> k <= closedAt
    ensures forall j :: i <= j < k ==> events[j].Delta? || events[j].Other?
    ensures k < |events| ==> events[k].Raise? || events[k].Completed? || events[k].EngineError? || k >= closedAt
    decreases |events| - i
  {
    if i == |events| then i
    else if events[i].Raise? || i >= closedAt || events[i].Completed? || events[i].EngineError? then i
    else StopIndex(events, closedAt, i + 1)
  }

  /** The texts of the delta events of a sequence, in order. */
  function DeltaTexts(events: seq<Event>): seq<string> {
    if events == [] then []
    else (if events[0].Delta? then [events[0].delta] else []) + DeltaTexts(events[1..])
  }

  /** The ending the relay reports when it stops at index k. */
  function EndingAt(events: seq<Event>, closedAt: nat, k: nat): Ending
    requires k <= |events|
  {
    if k == |events| then StreamEnded
    else match events[k]
      case Raise(m) => RaisedWith(m)
      case Completed(u) => if k >= closedAt then Disconnected else CompletedWith(u)
      case EngineError(j) => if k >= closedAt then Disconnected else EngineErrorWith(j)
      case _ => Disconnected
  }

  /**
    The relay forwards exactly the delta events before its stopping point, in
    arrival order, and ends as the event at that point says. No event after
    `closedAt` is ever looked at.
  */
  lemma {:induction false} RelayCharacterized(events: seq<Event>, closedAt: nat, i: nat)
    requires i <= |events|
    ensures var k := StopIndex(events, closedAt, i);
      RelayFrom(events, closedAt, i) == (DeltaTexts(events[i..k]), EndingAt(events, closedAt, k))
    decreases |events| - i
  {
    var k := StopIndex(events, closedAt, i);
    if k == i {
      assert events[i..k] == [];
    } else {
      RelayCharacterized(events, closedAt, i + 1);
      assert StopIndex(events, closedAt, i + 1) == k;
      assert events[i..k][1..] == events[i + 1..k];
      assert events[i..k][0] == events[i];
      var rest := RelayFrom(events, closedAt, i + 1);
      if events[i].Delta? {
        assert RelayFrom(events, closedAt, i) == ([events[i].delta] + rest.0, rest.1);
        assert DeltaTexts(events[i..k]) == [events[i].delta] + DeltaTexts(events[i + 1..k]);
      } else {
        assert RelayFrom(events, closedAt, i) == rest;
        assert DeltaTexts(events[i..k]) == DeltaTexts(events[i + 1..k]);
      }
    }
  }

  /** Events after a disconnect do not matter: only the prefix up to and including `closedAt` is used. */
  lemma {:induction false} RelayIgnoresAfterClose(events: seq<Event>, closedAt: nat, i: nat)
    requires closedAt < |events| && i <= closedAt
    ensures RelayFrom(events, closedAt, i) == RelayFrom(events[..closedAt + 1], closedAt, i)
    decreases closedAt - i
  {
    if i < closedAt {
      RelayIgnoresAfterClose(events, closedAt, i + 1);
    }
  }

  /**
    The frames of a stream: at most one of them is not a delta frame, and it is
    the last; the delta frames carry the answer's pieces in order.
  */
  lemma AtMostOneTerminalFrame(ds: seq<string>, end: Ending, botText: string, userMsgId: MsgId, botMsgId: MsgId,
                               model: string, count: int, env: EnvLimit)
    ensures var fs := DeltaFrames(ds) + TerminalFrames(end, botText, userMsgId, botMsgId, model, count, env);
      && (forall i :: 0 <= i < |fs| && fs[i].event != "delta" ==> i == |fs| - 1)
      && (forall i :: 0 <= i < |ds| ==> fs[i] == Frame("delta", DeltaText(ds[i])))
      && |fs| == |ds| + (if end.StreamEnded? || end.Disconnected? then 0 else 1)
  {
  }

  // ----- frames on the wire -----

  /** The `data:` field of a delta frame: `JSON.stringify(delta)`. */
  function DeltaData(d: string): string {
    Json.Quote(d)
  }

  /** The `data:` field of a stream error frame: `JSON.stringify({ message })`. */
  function ErrorData(message: string): string {
    "{\"message\":" + Json.Quote(message) + "}"
  }

  /** `event: <name>\ndata: <data>\n\n`. */
  function WireText(event: string, data: string): string {
    "event: " + event + "\ndata: " + data + "\n\n"
  }

  /**
    A frame whose name and data hold no line break reads, line by line, as its
    `event:` line, a single `data:` line and the blank line that ends it.
  */
  lemma FrameLines(event: string, data: string)
    requires '\n' !in event && '\r' !in event && '\n' !in data && '\r' !in data
    ensures Common.SplitLines(WireText(event, data)) == ["event: " + event, "data: " + data, "", ""]
  {
    var lines := ["event: " + event, "data: " + data, "", ""];
    assert Common.Join(lines[2..], "\n") == "\n";
    assert Common.Join(lines[1..], "\n") == lines[1] + "\n" + "\n";
    assert Common.Join(lines, "\n") == WireText(event, data);
    forall k | 0 <= k < |lines| ensures '\n' !in lines[k] && Common.DropCr(lines[k]) == lines[k] {
      if k < 2 {
        var head, tail := if k == 0 then "event: " else "data: ", if k == 0 then event else data;
        assert lines[k] == head + tail;
        assert lines[k][|lines[k]| - 1] == if |tail| > 0 then tail[|tail| - 1] else ' ';
      }
    }
    Common.SplitLinesOfJoin(lines);
  }

  /**
    A delta frame is well formed in the event-stream format — its data holds no
    line break, so the frame is one `data:` line between its `event:` line and
    the blank line — and the client recovers the delta exactly by parsing that
    line as JSON.
  */
  lemma DeltaFrameOnWire(d: string)
    ensures '\n' !in DeltaData(d) && '\r' !in DeltaData(d)
    ensures Common.SplitLines(WireText("delta", DeltaData(d))) == ["event: delta", "data: " + DeltaData(d), "", ""]
    ensures Json.DecodeString(DeltaData(d)) == Some((d, ""))
  {
    assert Json.DecodeString(DeltaData(d)) == Some((d, "")) by {
      Json.DecodeQuote(d, "");
      assert Json.Quote(d) + "" == Json.Quote(d);
    }
    FrameLines("delta", DeltaData(d));
    assert "event: " + "delta" == "event: delta";
  }

  /** The same for the message of an error frame. */
  lemma ErrorFrameOnWire(message: string)
    ensures '\n' !in ErrorData(message) && '\r' !in ErrorData(message)
    ensures Common.SplitLines(WireText("error", ErrorData(message)))
      == ["event: error", "data: " + ErrorData(message), "", ""]
    ensures Json.DecodeString(ErrorData(message)[11..]) == Some((message, "}"))
  {
    var e := ErrorData(message);
    assert '\n' !in e && '\r' !in e && Json.DecodeString(e[11..]) == Some((message, "}")) by {
      var q, p := Json.Quote(message), "{\"message\":";
      assert e == p + (q + "}");
      assert e[|p|..] == q + "}";
      Json.DecodeQuote(message, "}");
    }
    FrameLines("error", e);
    assert "event: " + "error" == "event: error";
  }

  // ----- the catch block -----

  /**
    An exception reaching the catch of `sendMessage`: its message, `response.status`
    (0 when absent) and `response.data` as the text of its JSON body (absent, or
    "" when it is a falsy string).
  */
  datatype Failure = Failure(message: string, responseStatus: int, responseData: Option<string>)

  datatype CatchReply = ErrorFrame(frame: Frame) | ErrorStatus(status: int, body: string)

  /**
    After the headers an exception becomes one `error` frame with a non-empty
    message; before them, the error's HTTP status (500 when it has none) with its
    response body or a generic message.
  */
  function Caught(headersSent: bool, err: Failure): (r: CatchReply)
    ensures r.ErrorFrame? <==> headersSent
    ensures r.ErrorFrame? ==>
      (&& r.frame.event == "error" && r.frame.payload.StreamError? && r.frame.payload.message != ""
       && (err.message != "" ==> r.frame.payload.message == err.message))
    ensures r.ErrorStatus? ==> r.status != 0
    ensures r.ErrorStatus? ==> (err.responseStatus != 0 ==> r.status == err.responseStatus)
    ensures r.ErrorStatus? ==> (err.responseStatus == 0 ==> r.status == 500)
    ensures r.ErrorStatus? ==> r.body != ""
    ensures r.ErrorStatus? && err.responseData.Some? && err.responseData.value != "" ==>
      r.body == err.responseData.value
    ensures r.ErrorStatus? && (err.responseData.None? || err.responseData.value == "") ==>
      r.body == ErrorBodyDefault
  {
    if headersSent then ErrorFrame(Frame("error", StreamError(ErrorMessage(err.message))))
    else ErrorStatus(if err.responseStatus != 0 then err.responseStatus else 500,
                     if err.responseData.Some? && err.responseData.value != "" then err.responseData.value
                     else ErrorBodyDefault)
  }

  // ----- sendMessage -----

  datatype Response =
    | Rejected(status: int, message: string)
    | Streamed(model: string, input: seq<Turn>, frames: seq<Frame>)

  /** The checks made before anything is written, in order. */
  function Precheck(users: map<UserId, User>, convs: seq<Conversation>, userId: Option<UserId>,
                    conversationId: Option<ConvId>, text: Option<string>): Option<(int, string)>
  {
    if text.None? || text.value == "" then Some((400, "Text is required"))
    else if userId.None? || userId.value !in users then Some((404, "User not found"))
    else if conversationId.Some? &&
            (conversationId.value >= |convs| || convs[conversationId.value].owner != userId.value)
    then Some((404, "Conversation not found"))
    else None
  }

  /** The stored messages of one conversation in the order they were created. */
  function HistoryOf(messages: seq<Message>, c: ConvId): (h: seq<StoredMessage>)
    ensures |h| <= |messages|
  {
    if messages == [] then []
    else
      var m := messages[|messages| - 1];
      var h := HistoryOf(messages[..|messages| - 1], c);
      if m.conversationId == c then h + [AsStored(m)] else h
  }

  /** A message document as the history query returns it. */
  function AsStored(m: Message): StoredMessage {
    StoredMessage(m.sender, Some(m.text))
  }

  /**
    The history holds every message of the conversation, and nothing that is not
    a message of it.
  */
  lemma {:induction false} HistoryOfMembers(messages: seq<Message>, c: ConvId)
    ensures forall i :: 0 <= i < |messages| && messages[i].conversationId == c ==>
      AsStored(messages[i]) in HistoryOf(messages, c)
    ensures forall x :: x in HistoryOf(messages, c) ==>
      exists i :: 0 <= i < |messages| && messages[i].conversationId == c && x == AsStored(messages[i])
    decreases |messages|
  {
    if messages != [] {
      var n := |messages|;
      var pre := messages[..n - 1];
      HistoryOfMembers(pre, c);
      assert forall i :: 0 <= i < n - 1 ==> messages[i] == pre[i];
      forall x | x in HistoryOf(messages, c)
        ensures exists i :: 0 <= i < n && messages[i].conversationId == c && x == AsStored(messages[i])
      {
        if x in HistoryOf(pre, c) {
          var i :| 0 <= i < |pre| && pre[i].conversationId == c && x == AsStored(pre[i]);
          assert messages[i] == pre[i];
        } else {
          assert messages[n - 1].conversationId == c && x == AsStored(messages[n - 1]);
        }
      }
    }
  }

  /**
    Creation order is kept: the history of messages a followed by messages b is
    the history of a followed by the history of b.
  */
  lemma {:induction false} HistoryOfConcat(a: seq<Message>, b: seq<Message>, c: ConvId)
    ensures HistoryOf(a + b, c) == HistoryOf(a, c) + HistoryOf(b, c)
    decreases |b|
  {
    if b == [] {
      assert a + b == a;
    } else {
      var ab := a + b;
      assert ab[..|ab| - 1] == a + b[..|b| - 1];
      assert ab[|ab| - 1] == b[|b| - 1];
      HistoryOfConcat(a, b[..|b| - 1], c);
    }
  }

  /** The conversation table once the user message m is stored in c (created when `conversationId` is absent). */
  function WithUserMessage(convs: seq<Conversation>, userId: UserId, conversationId: Option<ConvId>,
                           text: string, m: MsgId): seq<Conversation>
    requires conversationId.Some? ==> conversationId.value < |convs|
  {
    var c := if conversationId.Some? then conversationId.value else |convs|;
    var base := if conversationId.Some? then convs else convs + [Conversation(userId, Take(text, TitleLength), [])];
    base[c := base[c].(messages := base[c].messages + [m], title := Retitle(base[c].title, text))]
  }

  /** The id of the conversation the message goes to. */
  function TargetConversation(convs: seq<Conversation>, conversationId: Option<ConvId>): ConvId {
    if conversationId.Some? then conversationId.value else |convs|
  }

  function AppendMessage(convs: seq<Conversation>, c: ConvId, m: MsgId): seq<Conversation>
    requires c < |convs|
  {
    convs[c := convs[c].(messages := convs[c].messages + [m])]
  }

  /** Storing a message of conversation c and appending its id to c keeps every reference pointing at a stored document. */
  lemma AppendKeepsLinks(messages: seq<Message>, convs: seq<Conversation>, c: ConvId, m: Message)
    requires c < |convs| && m.conversationId == c
    requires Linked(messages, convs)
    ensures Linked(messages + [m], AppendMessage(convs, c, |messages|))
  {
    var cs := AppendMessage(convs, c, |messages|);
    forall x, k | 0 <= x < |cs| && 0 <= k < |cs[x].messages| ensures cs[x].messages[k] < |messages| + 1 {
      if x == c && k == |convs[c].messages| {
      } else {
        assert cs[x].messages[k] == convs[x].messages[k];
      }
    }
  }

  /**
    `sendMessage`. Rejections (400, 404, 404) come before any write. Then the
    conversation is loaded or created, the user message stored and appended, the
    title fixed, and the headers sent; the context is built from the stored
    history, the engine selected, and the events relayed. A completed,
    non-blank answer is stored as a bot message appended after the user message,
    and the user's counter rises by one; every other ending stores nothing more.
  */
  method SendMessage(db: Database, userId: Option<UserId>, conversationId: Option<ConvId>, text: Option<string>,
                     systemPrompt: string, lookupOk: bool, live: set<string>,
                     events: seq<Event>, closedAt: nat, env: EnvLimit)
    returns (r: Response)
    requires db.Valid()
    modifies db`users, db`conversations, db`messages
    ensures db.Valid()
    ensures Precheck(old(db.users), old(db.conversations), userId, conversationId, text).Some? ==>
      var (status, message) := Precheck(old(db.users), old(db.conversations), userId, conversationId, text).value;
      && r == Rejected(status, message)
      && db.users == old(db.users) && db.conversations == old(db.conversations) && db.messages == old(db.messages)
    ensures Precheck(old(db.users), old(db.conversations), userId, conversationId, text).None? ==>
      var uid := userId.value;
      var t := text.value;
      var m := |old(db.messages)|;
      var c := TargetConversation(old(db.conversations), conversationId);
      var convs := WithUserMessage(old(db.conversations), uid, conversationId, t, m);
      var msgs := old(db.messages) + [Message(c, UserSender, t)];
      var model := ActiveModelKey(db.configs, lookupOk, live);
      var (ds, end) := Relay(events, closedAt);
      var bot := Concat(ds);
      var counted := CountCompletion(old(db.users)[uid]);
      && r.Streamed?
      && r.model == model
      && r.input == BuiltInput(HistoryOf(msgs, c), t, Options(Some(systemPrompt), None))
      && r.frames == DeltaFrames(ds) + TerminalFrames(end, bot, m, m + 1, model, counted.dailyMessageCount, env)
      && db.messages == (if Stores(end, bot) then msgs + [Message(c, BotSender, Trim(bot))] else msgs)
      && db.conversations == (if Stores(end, bot) then AppendMessage(convs, c, m + 1) else convs)
      && db.users == (if Stores(end, bot) then old(db.users)[uid := counted] else old(db.users))
  {
    if text.None? || text.value == "" {
      return Rejected(400, "Text is required");
    }
    if userId.None? || userId.value !in db.users {
      return Rejected(404, "User not found");
    }
    var uid := userId.value;
    var t := text.value;
    if conversationId.Some? && (conversationId.value >= |db.conversations| ||
                                db.conversations[conversationId.value].owner != uid) {
      return Rejected(404, "Conversation not found");
    }
    var c, m := StoreUserMessage(db, uid, conversationId, t);
    // the event-stream headers are written here
    var input := BuildInputFromHistory(HistoryOf(db.messages, c), t, Options(Some(systemPrompt), None));
    var model := ActiveModelKey(db.configs, lookupOk, live);
    var frames := RelayEvents(db, uid, c, m, model, events, closedAt, env);
    r := Streamed(model, input, frames);
  }

  /**
    The part of `sendMessage` before the headers: loads or creates the
    conversation, stores the user message, appends its id and fixes the title.
  */
  method StoreUserMessage(db: Database, uid: UserId, conversationId: Option<ConvId>, t: string)
    returns (c: ConvId, m: MsgId)
    requires db.Valid()
    requires conversationId.Some? ==> conversationId.value < |db.conversations|
    modifies db`conversations, db`messages
    ensures db.Valid()
    ensures c == TargetConversation(old(db.conversations), conversationId) && c < |db.conversations|
    ensures m == |old(db.messages)|
    ensures db.conversations == WithUserMessage(old(db.conversations), uid, conversationId, t, m)
    ensures db.messages == old(db.messages) + [Message(c, UserSender, t)]
  {
    if conversationId.Some? {
      c := conversationId.value;
    } else {
      c := |db.conversations|;
      db.conversations := db.conversations + [Conversation(uid, Take(t, TitleLength), [])];
    }
    m := |db.messages|;
    db.messages := db.messages + [Message(c, UserSender, t)];
    var conv := db.conversations[c];
    conv := conv.(messages := conv.messages + [m]);
    if conv.title == "" || IsNewChatTitle(conv.title) {
      conv := conv.(title := Take(t, TitleLength));
    }
    db.conversations := db.conversations[c := conv];
    assert forall i :: 0 <= i < |db.messages| - 1 ==> db.messages[i] == old(db.messages)[i];
  }

  /**
    The `for await` loop of `sendMessage`: forwards deltas, and on the first
    terminal event stores the answer (or reports the failure) and stops.
  */
  method RelayEvents(db: Database, uid: UserId, c: ConvId, userMsgId: MsgId, model: string,
                     events: seq<Event>, closedAt: nat, env: EnvLimit)
    returns (frames: seq<Frame>)
    requires db.Valid() && c < |db.conversations| && uid in db.users
    modifies db`users, db`conversations, db`messages
    ensures db.Valid()
    ensures var (ds, end) := Relay(events, closedAt);
      var bot := Concat(ds);
      var counted := CountCompletion(old(db.users)[uid]);
      && frames == DeltaFrames(ds) +
           TerminalFrames(end, bot, userMsgId, |old(db.messages)|, model, counted.dailyMessageCount, env)
      && db.messages == (if Stores(end, bot) then old(db.messages) + [Message(c, BotSender, Trim(bot))]
                         else old(db.messages))
      && db.conversations == (if Stores(end, bot) then AppendMessage(old(db.conversations), c, |old(db.messages)|)
                              else old(db.conversations))
      && db.users == (if Stores(end, bot) then old(db.users)[uid := counted] else old(db.users))
  {
    var botText := "";
    frames := [];
    ghost var ds: seq<string> := [];
    var ending := StreamEnded;
    var i := 0;
    assert [] + Relay(events, closedAt).0 == Relay(events, closedAt).0;
    while i < |events|
      invariant 0 <= i <= |events|
      invariant botText == Concat(ds) && frames == DeltaFrames(ds) && ending == StreamEnded
      invariant Relay(events, closedAt).0 == ds + RelayFrom(events, closedAt, i).0
      invariant Relay(events, closedAt).1 == RelayFrom(events, closedAt, i).1
      decreases |events| - i
    {
      var ev := events[i];
      if ev.Raise? {
        // the stream threw while the loop waited for this event
        ending := RaisedWith(ev.message);
        assert RelayFrom(events, closedAt, i) == ([], ending) && ds + [] == ds;
        break;
      }
      if i >= closedAt {
        ending := Disconnected;
        assert RelayFrom(events, closedAt, i) == ([], ending) && ds + [] == ds;
        break;
      }
      match ev {
        case Delta(d) =>
          var rest := RelayFrom(events, closedAt, i + 1);
          assert RelayFrom(events, closedAt, i) == ([d] + rest.0, rest.1);
          assert ds + ([d] + rest.0) == (ds + [d]) + rest.0;
          assert (ds + [d])[..|ds|] == ds;
          assert DeltaFrames(ds + [d]) == DeltaFrames(ds) + [Frame("delta", DeltaText(d))];
          botText := botText + d;
          frames := frames + [Frame("delta", DeltaText(d))];
          ds := ds + [d];
          i := i + 1;
        case Completed(u) =>
          ending := CompletedWith(u);
          assert RelayFrom(events, closedAt, i) == ([], ending) && ds + [] == ds;
          break;
        case EngineError(j) =>
          ending := EngineErrorWith(j);
          assert RelayFrom(events, closedAt, i) == ([], ending) && ds + [] == ds;
          break;
        case Other =>
          assert RelayFrom(events, closedAt, i) == RelayFrom(events, closedAt, i + 1);
          i := i + 1;
      }
    }
    assert i == |events| ==> RelayFrom(events, closedAt, i) == ([], ending) && ds + [] == ds;
    assert Relay(events, closedAt) == (ds, ending);
    var last := Finish(db, uid, c, userMsgId, model, botText, ending, env);
    frames := frames + last;
  }

  /** What the loop does on the event it stopped at: the terminal frame, and for a completion the stored turn. */
  method Finish(db: Database, uid: UserId, c: ConvId, userMsgId: MsgId, model: string, botText: string,
                ending: Ending, env: EnvLimit)
    returns (frames: seq<Frame>)
    requires db.Valid() && c < |db.conversations| && uid in db.users
    modifies db`users, db`conversations, db`messages
    ensures db.Valid()
    ensures var counted := CountCompletion(old(db.users)[uid]);
      && frames == TerminalFrames(ending, botText, userMsgId, |old(db.messages)|, model,
                                  counted.dailyMessageCount, env)
      && db.messages == (if Stores(ending, botText) then old(db.messages) + [Message(c, BotSender, Trim(botText))]
                         else old(db.messages))
      && db.conversations == (if Stores(ending, botText)
                              then AppendMessage(old(db.conversations), c, |old(db.messages)|)
                              else old(db.conversations))
      && db.users == (if Stores(ending, botText) then old(db.users)[uid := counted] else old(db.users))
  {
    match ending {
      case StreamEnded =>
        frames := [];
      case Disconnected =>
        frames := [];
      case RaisedWith(m) =>
        // the catch: headers are already sent
        frames := [Frame("error", StreamError(ErrorMessage(m)))];
      case EngineErrorWith(j) =>
        frames := [Frame("error", EngineFailure(j))];
      case CompletedWith(u) =>
        frames := Complete(db, uid, c, userMsgId, model, botText, u, env);
    }
  }

  /**
    The `response.completed` branch: stores the trimmed answer as a bot message,
    appends its id to the conversation, counts the turn and writes the `done`
    frame. A blank answer fails the message schema's `required` check: the
    save throws, nothing is stored, and the catch writes an error frame.
  */
  method Complete(db: Database, uid: UserId, c: ConvId, userMsgId: MsgId, model: string, botText: string,
                  usage: Option<string>, env: EnvLimit)
    returns (frames: seq<Frame>)
    requires db.Valid() && c < |db.conversations| && uid in db.users
    modifies db`users, db`conversations, db`messages
    ensures db.Valid()
    ensures var counted := CountCompletion(old(db.users)[uid]);
      && frames == TerminalFrames(CompletedWith(usage), botText, userMsgId, |old(db.messages)|, model,
                                  counted.dailyMessageCount, env)
      && db.messages == (if Trim(botText) != "" then old(db.messages) + [Message(c, BotSender, Trim(botText))]
                         else old(db.messages))
      && db.conversations == (if Trim(botText) != "" then AppendMessage(old(db.conversations), c, |old(db.messages)|)
                              else old(db.conversations))
      && db.users == (if Trim(botText) != "" then old(db.users)[uid := counted] else old(db.users))
  {
    var answer := Trim(botText);
    if answer == "" {
      // the catch writes `error.message`, which is not empty here, so `|| "Stream error"` keeps it
      return [Frame("error", StreamError(ValidationMessage))];
    }
    var b := |db.messages|;
    var counted := StoreAnswer(db, uid, c, Message(c, BotSender, answer));
    frames := [Frame("done", Done(userMsgId, b, model, usage, AttemptsLeft(env, counted.dailyMessageCount)))];
    assert frames == TerminalFrames(CompletedWith(usage), botText, userMsgId, b, model, counted.dailyMessageCount, env);
  }

  /** Stores the bot message m of c, appends its id to c and counts the turn for the user. */
  method StoreAnswer(db: Database, uid: UserId, c: ConvId, m: Message) returns (counted: User)
    requires db.Valid() && c < |db.conversations| && uid in db.users && m.conversationId == c
    modifies db`users, db`conversations, db`messages
    ensures db.Valid()
    ensures counted == CountCompletion(old(db.users)[uid])
    ensures db.messages == old(db.messages) + [m]
    ensures db.conversations == AppendMessage(old(db.conversations), c, |old(db.messages)|)
    ensures db.users == old(db.users)[uid := counted]
  {
    AppendKeepsLinks(db.messages, db.conversations, c, m);
    var messages, conversations := db.messages + [m], AppendMessage(db.conversations, c, |db.messages|);
    counted := CountCompletion(db.users[uid]);
    db.messages, db.conversations, db.users := messages, conversations, db.users[uid := counted];
  }

  // ----- properties across the chat turn -----

  /**
    The history is read after the user message is stored, so the context the
    engine receives (budget permitting) ends with the new text twice: once as
    the stored message and once as the appended new turn.
  */
  lemma ContextRepeatsNewText(messages: seq<Message>, c: ConvId, t: string, system: string)
    ensures var h := HistoryOf(messages + [Message(c, UserSender, t)], c);
      var cand := Candidates(system, h, t);
      |cand| >= 3 && cand[|cand| - 2] == Turn(UserRole, t) && cand[|cand| - 1] == Turn(UserRole, t)
  {
    var msgs := messages + [Message(c, UserSender, t)];
    assert msgs[..|msgs| - 1] == messages;
    var h := HistoryOf(msgs, c);
    CandidateLayout(system, h, t);
  }

  /** A new conversation has no earlier messages: its context is the system turn and the text twice, within budget. */
  lemma NewConversationHistory(messages: seq<Message>, convCount: nat, t: string)
    requires forall i :: 0 <= i < |messages| ==> messages[i].conversationId < convCount
    ensures HistoryOf(messages + [Message(convCount, UserSender, t)], convCount) == [StoredMessage(UserSender, Some(t))]
  {
    var msgs := messages + [Message(convCount, UserSender, t)];
    assert msgs[..|msgs| - 1] == messages;
    NoHistory(messages, convCount);
  }

  lemma {:induction false} NoHistory(messages: seq<Message>, c: ConvId)
    requires forall i :: 0 <= i < |messages| ==> messages[i].conversationId != c
    ensures HistoryOf(messages, c) == []
  {
    if messages != [] {
      NoHistory(messages[..|messages| - 1], c);
    }
  }

  /**
    The `New Chat` fallback never applies in `sendMessage`: a new conversation is
    titled with the first 60 characters of the (non-empty) text.
  */
  lemma NewConversationTitle(convs: seq<Conversation>, userId: UserId, text: string, m: MsgId)
    requires text != ""
    ensures var r := WithUserMessage(convs, userId, None, text, m);
      |r| == |convs| + 1 && r[|convs|] == Conversation(userId, Take(text, TitleLength), [m])
  {
  }

  /**
    The `done` frame and the gate agree when `MESSAGE_LIMIT` is a number: no
    attempts are left exactly when the gate will reject the next request of the day.
  */
  lemma AttemptsLeftAgreesWithGate(limit: real, count: int)
    ensures AttemptsLeft(Numeric(Finite(limit)), count) == Finite(0.0) <==> AtLeast(count, GateLimit(Numeric(Finite(limit))))
  {
  }

  /** With `MESSAGE_LIMIT` unset the gate never rejects, yet the `done` frame counts down from 999999. */
  lemma UnsetLimitsDisagree(count: int)
    ensures GateLimit(Unset).NaN?
    ensures AttemptsLeft(Unset, count) == Finite(if count < 999999 then 999999.0 - count as real else 0.0)
  {
  }
}
