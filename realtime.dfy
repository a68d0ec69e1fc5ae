/**
 * The socket relays of the API server: each client event is re-emitted to
 * every connected client on a topic named after the entity it concerns,
 * carrying the event's own fields. Both server builds relay identically.
 */
module Realtime {
  import opened Wrappers
  import opened Json
  import ServerHelpers

  /** The events a connected socket listens for. */
  datatype Event =
    | UserStatusUpdate
    | WorkspaceActivityUpdate
    | ChannelMessageCreated
    | ChannelTypingIndicator
    | DocumentEditUpdate
    | TaskStatusUpdate
    | Disconnect

  /** One `io.emit(topic, payload)`; the payload is what reaches the clients once encoded. */
  datatype Emission = Emission(topic: string, payload: Object)

  /** The first segment of an event's topic. */
  function Kind(e: Event): string {
    match e
    case UserStatusUpdate => "user"
    case WorkspaceActivityUpdate => "workspace"
    case ChannelMessageCreated => "channel"
    case ChannelTypingIndicator => "channel"
    case DocumentEditUpdate => "document"
    case TaskStatusUpdate => "task"
    case Disconnect => ""
  }

  /** The last segment of an event's topic. */
  function Suffix(e: Event): string {
    match e
    case UserStatusUpdate => "status"
    case WorkspaceActivityUpdate => "activities"
    case ChannelMessageCreated => "messages"
    case ChannelTypingIndicator => "typing"
    case DocumentEditUpdate => "edit"
    case TaskStatusUpdate => "status"
    case Disconnect => ""
  }

  /** The field whose value names the topic's entity. */
  function IdKey(e: Event): string {
    match e
    case UserStatusUpdate => "user_id"
    case WorkspaceActivityUpdate => "workspace_id"
    case ChannelMessageCreated => "channel_id"
    case ChannelTypingIndicator => "channel_id"
    case DocumentEditUpdate => "document_id"
    case TaskStatusUpdate => "task_id"
    case Disconnect => ""
  }

  /** The fields the handler destructures from the event data and relays. */
  function Fields(e: Event): set<string> {
    match e
    case UserStatusUpdate => {"user_id", "status"}
    case WorkspaceActivityUpdate => {"workspace_id", "activity_type", "content"}
    case ChannelMessageCreated => {"channel_id", "user_id", "content", "sent_at", "is_read"}
    case ChannelTypingIndicator => {"channel_id", "user_id", "typing"}
    case DocumentEditUpdate => {"document_id", "user_id", "content", "last_edited_at"}
    case TaskStatusUpdate => {"task_id", "status", "priority", "assigned_user_id", "due_date"}
    case Disconnect => {}
  }

  /** The topic template `<kind>/${id}/<suffix>` filled with the event's id field. */
  function Topic(e: Event, id: Option<Value>, numText: real -> string, arrText: string): string {
    Kind(e) + "/" + TemplateText(id, numText, arrText) + "/" + Suffix(e)
  }

  /**
   * The handler for one event. `data` is `None` when the client sent `null` or
   * nothing: destructuring it throws and nothing is emitted. The relayed object
   * is built from the destructured fields, so a field the client left out is
   * `undefined` there and is dropped when the payload is encoded.
   * `channelMessageCreated` also carries a fresh `message_id` drawn from `random`.
   */
  function Relay(e: Event, data: Option<Object>, random: nat -> ServerHelpers.Nibble,
                 numText: real -> string, arrText: string): (out: seq<Emission>)
    ensures |out| == (if e.Disconnect? || data.None? then 0 else 1)
  {
    if e.Disconnect? || data.None? then []
    else
      var fields := Pick(data.value, Fields(e));
      var payload := if e.ChannelMessageCreated? then fields["message_id" := Str(ServerHelpers.UniqueId(random))] else fields;
      [Emission(Topic(e, Get(data.value, IdKey(e)), numText, arrText), payload)]
  }

  /**
   * What each relay emits: exactly one message, on the topic named by the
   * event's id field, whose payload holds exactly the listed fields the client
   * sent, with their values, plus `message_id` for a new channel message.
   */
  lemma RelayPayload(e: Event, data: Object, random: nat -> ServerHelpers.Nibble,
                     numText: real -> string, arrText: string)
    requires !e.Disconnect?
    ensures var out := Relay(e, Some(data), random, numText, arrText);
      |out| == 1 &&
      out[0].topic == Kind(e) + "/" + TemplateText(Get(data, IdKey(e)), numText, arrText) + "/" + Suffix(e) &&
      out[0].payload.Keys == data.Keys * Fields(e) + (if e.ChannelMessageCreated? then {"message_id"} else {}) &&
      (forall k :: k in data && k in Fields(e) ==> out[0].payload[k] == data[k]) &&
      (e.ChannelMessageCreated? ==> out[0].payload["message_id"] == Str(ServerHelpers.UniqueId(random)))
  {
    assert "message_id" !in Fields(e);
  }

  /** A new channel message's `message_id` has the fixed id format. */
  lemma RelayMessageId(data: Object, random: nat -> ServerHelpers.Nibble, numText: real -> string, arrText: string)
    ensures var out := Relay(ChannelMessageCreated, Some(data), random, numText, arrText);
      "message_id" in out[0].payload && out[0].payload["message_id"].Str? &&
      var id := out[0].payload["message_id"].s;
      |id| == 26 && id[4] == '-' && id[9] == '-' && id[10] == '4' && id[14] == '-' && id[19] == '-'
  {
    ServerHelpers.UniqueIdFormat(random);
  }

  /** The data a client sends is relayed unchanged when it only holds the listed fields. */
  lemma RelayExactData(e: Event, data: Object, random: nat -> ServerHelpers.Nibble,
                       numText: real -> string, arrText: string)
    requires !e.Disconnect? && !e.ChannelMessageCreated?
    requires data.Keys <= Fields(e)
    ensures Relay(e, Some(data), random, numText, arrText)[0].payload == data
  {
  }

  /** For one event, two ids give the same topic exactly when they print the same. */
  lemma TopicInjective(e: Event, a: Option<Value>, b: Option<Value>, numText: real -> string, arrText: string)
    ensures Topic(e, a, numText, arrText) == Topic(e, b, numText, arrText) <==>
      TemplateText(a, numText, arrText) == TemplateText(b, numText, arrText)
  {
    var p, s := Kind(e) + "/", "/" + Suffix(e);
    var x, y := TemplateText(a, numText, arrText), TemplateText(b, numText, arrText);
    assert Topic(e, a, numText, arrText) == p + x + s;
    assert Topic(e, b, numText, arrText) == p + y + s;
    if p + x + s == p + y + s {
      assert |x| == |y|;
      assert x == (p + x + s)[|p|..|p| + |x|];
      assert y == (p + y + s)[|p|..|p| + |y|];
    }
  }

  /** String ids name topics one to one. */
  lemma TopicInjectiveString(e: Event, a: string, b: string, numText: real -> string, arrText: string)
    ensures Topic(e, Some(Str(a)), numText, arrText) == Topic(e, Some(Str(b)), numText, arrText) <==> a == b
  {
    TopicInjective(e, Some(Str(a)), Some(Str(b)), numText, arrText);
  }

  /**
   * Different events never share a topic, whatever the ids: topics differ in
   * their first character, or, for the two channel topics, in their last.
   */
  lemma TopicsDistinct(e1: Event, e2: Event, a: Option<Value>, b: Option<Value>, numText: real -> string, arrText: string)
    requires !e1.Disconnect? && !e2.Disconnect? && e1 != e2
    ensures Topic(e1, a, numText, arrText) != Topic(e2, b, numText, arrText)
  {
    TopicEnds(e1, a, numText, arrText);
    TopicEnds(e2, b, numText, arrText);
    KindOrSuffixDiffers(e1, e2);
  }

  /** A topic starts with its kind's first character and ends with its suffix's last. */
  lemma TopicEnds(e: Event, id: Option<Value>, numText: real -> string, arrText: string)
    requires !e.Disconnect?
    ensures var t := Topic(e, id, numText, arrText);
      t != [] && t[0] == Kind(e)[0] && t[|t| - 1] == Suffix(e)[|Suffix(e)| - 1]
  {
  }

  lemma KindOrSuffixDiffers(e1: Event, e2: Event)
    requires !e1.Disconnect? && !e2.Disconnect? && e1 != e2
    ensures Kind(e1)[0] != Kind(e2)[0] || Suffix(e1)[|Suffix(e1)| - 1] != Suffix(e2)[|Suffix(e2)| - 1]
  {
  }
}
