/** The chat-conversation record (models/ChatConversation.js): its required ids, the role and
    status enumerations, the defaults it fills in, and the `conversationDuration` virtual.
    Times are milliseconds since the epoch. */
module ChatConversation {
  import opened Text

  datatype Role = UserRole | BotRole

  function RoleName(r: Role): string {
    match r
    case UserRole => "user"
    case BotRole => "bot"
  }

  function ParseRole(s: string): Option<Role> {
    if s == "user" then Some(UserRole) else if s == "bot" then Some(BotRole) else None
  }

  lemma ParseRoleIff(s: string, r: Role)
    ensures ParseRole(s) == Some(r) <==> RoleName(r) == s
    ensures ParseRole(s).None? <==> s != "user" && s != "bot"
  {
  }

  datatype ConversationStatus = Active | Ended | Abandoned

  function StatusName(s: ConversationStatus): string {
    match s
    case Active => "active"
    case Ended => "ended"
    case Abandoned => "abandoned"
  }

  function ParseStatus(s: string): Option<ConversationStatus> {
    if s == "active" then Some(Active)
    else if s == "ended" then Some(Ended)
    else if s == "abandoned" then Some(Abandoned)
    else None
  }

  lemma ParseStatusIff(s: string, st: ConversationStatus)
    ensures ParseStatus(s) == Some(st) <==> StatusName(st) == s
  {
  }

  datatype ChatMessage = ChatMessage(role: Role, content: string, timestamp: int)

  datatype Analytics = Analytics(
    totalMessages: int, userMessages: int, botMessages: int,
    duration: Option<int>, topics: seq<string>, satisfaction: Option<int>)

  datatype Conversation = Conversation(
    sessionId: string, userId: string, messages: seq<ChatMessage>,
    analytics: Analytics, status: ConversationStatus, createdAt: int, updatedAt: int)

  /** What a caller hands to `create`: any field may be missing. */
  datatype MessageDraft = MessageDraft(role: Option<string>, content: Option<string>, timestamp: Option<int>)

  datatype ConversationDraft = ConversationDraft(
    sessionId: Option<string>, userId: Option<string>, messages: seq<MessageDraft>,
    totalMessages: Option<int>, userMessages: Option<int>, botMessages: Option<int>,
    duration: Option<int>, topics: seq<string>, satisfaction: Option<int>,
    status: Option<string>)

  datatype Field = SessionIdField | UserIdField | RoleField(index: nat) | ContentField(index: nat) | StatusField

  datatype CreateResult = Created(conversation: Conversation) | Rejected(fields: set<Field>)

  /** A required string must be present and non-empty. */
  predicate Present(o: Option<string>) {
    o.Some? && o.value != ""
  }

  function MessageViolations(ms: seq<MessageDraft>, offset: nat): set<Field>
    decreases |ms|
  {
    if ms == [] then {}
    else
      (if ms[0].role.Some? && ParseRole(ms[0].role.value).Some? then {} else {RoleField(offset)})
      + (if Present(ms[0].content) then {} else {ContentField(offset)})
      + MessageViolations(ms[1..], offset + 1)
  }

  /** The fields that fail validation. */
  function Violations(d: ConversationDraft): set<Field> {
    (if Present(d.sessionId) then {} else {SessionIdField})
    + (if Present(d.userId) then {} else {UserIdField})
    + MessageViolations(d.messages, 0)
    + (if d.status.None? || ParseStatus(d.status.value).Some? then {} else {StatusField})
  }

  function OrDefault(o: Option<int>, d: int): int {
    if o.Some? then o.value else d
  }

  function ChatMessageOf(ms: seq<MessageDraft>, i: int, now: int): ChatMessage
    requires 0 <= i < |ms|
  {
    var m := ms[i];
    ChatMessage(
      if m.role == Some("bot") then BotRole else UserRole,
      if m.content.Some? then m.content.value else "",
      OrDefault(m.timestamp, now))
  }

  /** Saving a new conversation at time `now`: validate, then fill in the defaults. */
  function Create(d: ConversationDraft, now: int): CreateResult {
    var bad := Violations(d);
    if bad != {} then Rejected(bad)
    else Created(Conversation(
      d.sessionId.value, d.userId.value,
      seq(|d.messages|, i requires 0 <= i < |d.messages| => ChatMessageOf(d.messages, i, now)),
      Analytics(OrDefault(d.totalMessages, 0), OrDefault(d.userMessages, 0), OrDefault(d.botMessages, 0),
                d.duration, d.topics, d.satisfaction),
      if d.status.Some? then ParseStatus(d.status.value).value else Active,
      now, now))
  }

  lemma {:induction false} MessageViolationsSpec(ms: seq<MessageDraft>, offset: nat)
    ensures forall f :: f in MessageViolations(ms, offset) ==> f.RoleField? || f.ContentField?
    ensures MessageViolations(ms, offset) == {} <==>
      forall i :: 0 <= i < |ms| ==>
        ms[i].role.Some? && ParseRole(ms[i].role.value).Some? && Present(ms[i].content)
    decreases |ms|
  {
    if ms != [] {
      MessageViolationsSpec(ms[1..], offset + 1);
      assert forall i :: 1 <= i < |ms| ==> ms[i] == ms[1..][i - 1];
    }
  }

  /** A stored conversation has both ids, only `user` and `bot` messages with content, the
      counters at 0 unless given and as given otherwise, the other analytics as given, the
      status `active` unless given, one message per draft message in order with the creation
      time as its default timestamp, and both record timestamps at the creation time; a draft
      missing an id is refused. */
  lemma CreateSpec(d: ConversationDraft, now: int)
    ensures Create(d, now).Created? <==> Violations(d) == {}
    ensures !Present(d.sessionId) ==> Create(d, now).Rejected? && SessionIdField in Create(d, now).fields
    ensures !Present(d.userId) ==> Create(d, now).Rejected? && UserIdField in Create(d, now).fields
    ensures Create(d, now).Created? ==>
      var c := Create(d, now).conversation;
      && c.sessionId != "" && c.userId != ""
      && |c.messages| == |d.messages|
      && (forall i :: 0 <= i < |c.messages| ==>
            d.messages[i].role == Some(RoleName(c.messages[i].role))
            && d.messages[i].content == Some(c.messages[i].content) && c.messages[i].content != "")
      && (d.totalMessages.None? ==> c.analytics.totalMessages == 0)
      && (d.userMessages.None? ==> c.analytics.userMessages == 0)
      && (d.botMessages.None? ==> c.analytics.botMessages == 0)
      && (d.status.None? ==> c.status == Active)
      && (d.status.Some? ==> StatusName(c.status) == d.status.value)
    ensures Create(d, now).Created? ==>
      var c := Create(d, now).conversation;
      && c.createdAt == now && c.updatedAt == now
      && (forall i :: 0 <= i < |c.messages| && d.messages[i].timestamp.None? ==> c.messages[i].timestamp == now)
      && (forall i :: 0 <= i < |c.messages| && d.messages[i].timestamp.Some? ==>
            c.messages[i].timestamp == d.messages[i].timestamp.value)
      && (d.totalMessages.Some? ==> c.analytics.totalMessages == d.totalMessages.value)
      && (d.userMessages.Some? ==> c.analytics.userMessages == d.userMessages.value)
      && (d.botMessages.Some? ==> c.analytics.botMessages == d.botMessages.value)
      && c.analytics.duration == d.duration && c.analytics.topics == d.topics
      && c.analytics.satisfaction == d.satisfaction
  {
    MessageViolationsSpec(d.messages, 0);
    if Create(d, now).Created? {
      var c := Create(d, now).conversation;
      forall i | 0 <= i < |c.messages|
        ensures d.messages[i].role == Some(RoleName(c.messages[i].role))
      {
        ParseRoleIff(d.messages[i].role.value, c.messages[i].role);
      }
      if d.status.Some? {
        ParseStatusIff(d.status.value, c.status);
      }
    }
  }

  /** The `conversationDuration` virtual. */
  function ConversationDuration(c: Conversation): int {
    if |c.messages| < 2 then 0
    else c.messages[|c.messages| - 1].timestamp - c.messages[0].timestamp
  }

  /** The duration is 0 below two messages and otherwise the span from the first message
      to the last; appending a message to a non-empty conversation moves the end of that
      span to the new message. With timestamps in order it is never negative. */
  lemma ConversationDurationSpec(c: Conversation, m: ChatMessage)
    ensures |c.messages| < 2 ==> ConversationDuration(c) == 0
    ensures |c.messages| >= 1 ==>
      ConversationDuration(c.(messages := c.messages + [m])) == m.timestamp - c.messages[0].timestamp
    ensures (forall i, j :: 0 <= i <= j < |c.messages| ==> c.messages[i].timestamp <= c.messages[j].timestamp)
      ==> ConversationDuration(c) >= 0
  {
  }
}
