/** The data models (core/models.py): users, conversations and messages, their dictionary forms,
    and the constructors that fill in a fresh id and the current time. Timestamps are instants with
    an abstract ISO-8601 text form; ids and the clock are parameters. */
module Models {
  import opened Wrappers
  import opened JsonValues

  /** A `datetime`, as an instant. */
  datatype DateTime = DateTime(instant: int)

  /** `isoformat` and `datetime.fromisoformat` (None for the ValueError it raises). */
  datatype IsoCodec = IsoCodec(format: DateTime -> string, parse: string -> Option<DateTime>)

  /** An ISO codec reads back what it writes, and never writes an empty text. */
  ghost predicate Lawful(iso: IsoCodec) {
    forall d: DateTime :: iso.parse(iso.format(d)) == Some(d) && iso.format(d) != ""
  }

  /** Why `from_dict` fails: a required key is missing (KeyError), a timestamp does not parse
      (ValueError), or a value has a type the dataclass field does not (kept as is by Python, refused
      here). */
  datatype ModelError = KeyErr(key: string) | ValueErr | IllTyped(key: string)

  /** `t.isoformat() if t else None`. */
  function StampJson(t: Option<DateTime>, iso: IsoCodec): Json {
    if t.Some? then JStr(iso.format(t.value)) else JNull
  }

  /** A timestamp read back: None stays None, a non-empty string is parsed. */
  function ParseStamp(v: Json, key: string, iso: IsoCodec): (r: Result<Option<DateTime>, ModelError>)
    ensures v == JNull ==> r == Ok(None)
    ensures r.Ok? && r.value.Some? ==> v.JStr? && iso.parse(v.s) == r.value
  {
    match v
    case JNull => Ok(None)
    case JStr(s) =>
      if s == "" then Err(IllTyped(key))
      else if iso.parse(s).None? then Err(ValueErr)
      else Ok(iso.parse(s))
    case _ => Err(IllTyped(key))
  }

  lemma StampRoundTrip(t: Option<DateTime>, key: string, iso: IsoCodec)
    requires Lawful(iso)
    ensures ParseStamp(StampJson(t, iso), key, iso) == Ok(t)
  {
  }

  /** `data[key]` for a string field. */
  function RequiredStr(data: Object, key: string): (r: Result<string, ModelError>)
    ensures r.Ok? <==> key in data && data[key].JStr?
    ensures r.Ok? ==> data[key] == JStr(r.value)
  {
    if key !in data then Err(KeyErr(key))
    else if data[key].JStr? then Ok(data[key].s)
    else Err(IllTyped(key))
  }

  /** `data.get(key, default)` for a string field. */
  function OptionalStr(data: Object, key: string, default: string): (r: Result<string, ModelError>)
    ensures key !in data ==> r == Ok(default)
    ensures key in data ==> (r.Ok? <==> data[key].JStr?) && (r.Ok? ==> data[key] == JStr(r.value))
  {
    match GetOr(data, key, JStr(default))
    case JStr(s) => Ok(s)
    case _ => Err(IllTyped(key))
  }

  /** `data.get(key, default)` for an integer field. */
  function OptionalInt(data: Object, key: string, default: int): (r: Result<int, ModelError>)
    ensures key !in data ==> r == Ok(default)
    ensures key in data ==> (r.Ok? <==> data[key].JInt?) && (r.Ok? ==> data[key] == JInt(r.value))
  {
    match GetOr(data, key, JInt(default))
    case JInt(i) => Ok(i)
    case _ => Err(IllTyped(key))
  }

  datatype User = User(id: string, name: string, avatar: string, ipAddress: string, port: int,
                       lastSeen: Option<DateTime>, isOnline: bool)

  /** `User.create_local`: online, with the given name and avatar, and the fresh id. */
  function CreateLocal(freshId: string, name: string, avatar: string): (u: User)
    ensures u.id == freshId && u.name == name && u.avatar == avatar && u.isOnline
    ensures u.ipAddress == "" && u.port == 0 && u.lastSeen.None?
  {
    User(freshId, name, avatar, "", 0, None, true)
  }

  /** `User.to_dict`: every field, under the key `from_dict` reads it from. */
  function UserToDict(u: User, iso: IsoCodec): (d: Object)
    ensures d.Keys == {"id", "name", "avatar", "ip_address", "port", "last_seen", "is_online"}
    ensures RequiredStr(d, "id") == Ok(u.id) && RequiredStr(d, "name") == Ok(u.name)
  {
    map["id" := JStr(u.id), "name" := JStr(u.name), "avatar" := JStr(u.avatar),
        "ip_address" := JStr(u.ipAddress), "port" := JInt(u.port),
        "last_seen" := StampJson(u.lastSeen, iso), "is_online" := JBool(u.isOnline)]
  }

  /** `User.from_dict`: `last_seen` is parsed first, then id and name are required; the other
      fields default to "", "", 0 and False. */
  function UserFromDict(data: Object, iso: IsoCodec): (r: Result<User, ModelError>)
    ensures "id" !in data && ParseStamp(Get(data, "last_seen"), "last_seen", iso).Ok? ==> r == Err(KeyErr("id"))
    ensures r.Ok? ==> "id" in data && "name" in data && data["id"] == JStr(r.value.id) && data["name"] == JStr(r.value.name)
  {
    match ParseStamp(Get(data, "last_seen"), "last_seen", iso)
    case Err(e) => Err(e)
    case Ok(lastSeen) =>
      match RequiredStr(data, "id")
      case Err(e) => Err(e)
      case Ok(id) =>
        match RequiredStr(data, "name")
        case Err(e) => Err(e)
        case Ok(name) =>
          match OptionalStr(data, "avatar", "")
          case Err(e) => Err(e)
          case Ok(avatar) =>
            match OptionalStr(data, "ip_address", "")
            case Err(e) => Err(e)
            case Ok(ip) =>
              match OptionalInt(data, "port", 0)
              case Err(e) => Err(e)
              case Ok(port) =>
                match GetOr(data, "is_online", JBool(false))
                case JBool(online) => Ok(User(id, name, avatar, ip, port, lastSeen, online))
                case _ => Err(IllTyped("is_online"))
  }

  /** Every user survives the round trip through its dictionary form. */
  lemma UserRoundTrip(u: User, iso: IsoCodec)
    requires Lawful(iso)
    ensures UserFromDict(UserToDict(u, iso), iso) == Ok(u)
  {
    StampRoundTrip(u.lastSeen, "last_seen", iso);
  }

  /** Only id and name are needed; the rest takes its defaults. */
  lemma UserDefaults(id: string, name: string, iso: IsoCodec)
    ensures UserFromDict(map["id" := JStr(id), "name" := JStr(name)], iso) == Ok(User(id, name, "", "", 0, None, false))
  {
  }

  datatype Conversation = Conversation(id: string, kind: string, name: string, peerUserId: Option<string>,
                                       createdAt: Option<DateTime>, updatedAt: Option<DateTime>,
                                       lastMessage: string, unreadCount: int)

  /** `Conversation.create_p2p`: named after the peer and pointing at it, created and updated now. */
  function CreateP2p(freshId: string, now: DateTime, peer: User): (c: Conversation)
    ensures c.kind == "p2p" && c.name == peer.name && c.peerUserId == Some(peer.id)
    ensures c.createdAt == c.updatedAt == Some(now)
    ensures c.lastMessage == "" && c.unreadCount == 0
  {
    Conversation(freshId, "p2p", peer.name, Some(peer.id), Some(now), Some(now), "", 0)
  }

  /** `Conversation.create_group`: no peer, created and updated now. */
  function CreateGroup(freshId: string, now: DateTime, name: string): (c: Conversation)
    ensures c.kind == "group" && c.name == name && c.peerUserId.None?
    ensures c.createdAt == c.updatedAt == Some(now)
  {
    Conversation(freshId, "group", name, None, Some(now), Some(now), "", 0)
  }

  /** `Conversation.to_dict`: every field, with a missing peer as null. */
  function ConversationToDict(c: Conversation, iso: IsoCodec): (d: Object)
    ensures d.Keys == {"id", "type", "name", "peer_user_id", "created_at", "updated_at", "last_message", "unread_count"}
    ensures d["peer_user_id"].JNull? <==> c.peerUserId.None?
    ensures RequiredStr(d, "type") == Ok(c.kind)
  {
    map["id" := JStr(c.id), "type" := JStr(c.kind), "name" := JStr(c.name),
        "peer_user_id" := if c.peerUserId.Some? then JStr(c.peerUserId.value) else JNull,
        "created_at" := StampJson(c.createdAt, iso), "updated_at" := StampJson(c.updatedAt, iso),
        "last_message" := JStr(c.lastMessage), "unread_count" := JInt(c.unreadCount)]
  }

  /** `Conversation.from_dict`: both timestamps are parsed first, then id, type and name are
      required; the peer defaults to None, the preview to "" and the unread count to 0. */
  function ConversationFromDict(data: Object, iso: IsoCodec): (r: Result<Conversation, ModelError>)
    ensures r.Ok? ==> "id" in data && "type" in data && "name" in data
    ensures r.Ok? ==> data["type"] == JStr(r.value.kind) && Get(data, "peer_user_id").JNull? == r.value.peerUserId.None?
  {
    match ParseStamp(Get(data, "created_at"), "created_at", iso)
    case Err(e) => Err(e)
    case Ok(createdAt) =>
      match ParseStamp(Get(data, "updated_at"), "updated_at", iso)
      case Err(e) => Err(e)
      case Ok(updatedAt) =>
        match RequiredStr(data, "id")
        case Err(e) => Err(e)
        case Ok(id) =>
          match RequiredStr(data, "type")
          case Err(e) => Err(e)
          case Ok(kind) =>
            match RequiredStr(data, "name")
            case Err(e) => Err(e)
            case Ok(name) =>
              var peer := Get(data, "peer_user_id");
              if !(peer.JNull? || peer.JStr?) then Err(IllTyped("peer_user_id"))
              else
                match OptionalStr(data, "last_message", "")
                case Err(e) => Err(e)
                case Ok(last) =>
                  match OptionalInt(data, "unread_count", 0)
                  case Err(e) => Err(e)
                  case Ok(unread) =>
                    Ok(Conversation(id, kind, name, if peer.JStr? then Some(peer.s) else None,
                                    createdAt, updatedAt, last, unread))
  }

  lemma ConversationRoundTrip(c: Conversation, iso: IsoCodec)
    requires Lawful(iso)
    ensures ConversationFromDict(ConversationToDict(c, iso), iso) == Ok(c)
  {
    StampRoundTrip(c.createdAt, "created_at", iso);
    StampRoundTrip(c.updatedAt, "updated_at", iso);
  }

  lemma ConversationDefaults(id: string, kind: string, name: string, iso: IsoCodec)
    ensures ConversationFromDict(map["id" := JStr(id), "type" := JStr(kind), "name" := JStr(name)], iso)
      == Ok(Conversation(id, kind, name, None, None, None, "", 0))
  {
  }

  /** A fresh p2p conversation read back from its dictionary is the same conversation. */
  lemma P2pSurvivesDict(freshId: string, now: DateTime, peer: User, iso: IsoCodec)
    requires Lawful(iso)
    ensures ConversationFromDict(ConversationToDict(CreateP2p(freshId, now, peer), iso), iso)
      == Ok(CreateP2p(freshId, now, peer))
  {
    ConversationRoundTrip(CreateP2p(freshId, now, peer), iso);
  }

  datatype Message = Message(id: Option<int>, conversationId: string, senderId: string, senderName: string,
                             content: string, timestamp: Option<DateTime>)

  /** `Message.to_dict`: every field, with a missing id or timestamp as null. */
  function MessageToDict(m: Message, iso: IsoCodec): (d: Object)
    ensures d.Keys == {"id", "conversation_id", "sender_id", "sender_name", "content", "timestamp"}
    ensures m.timestamp.None? <==> d["timestamp"] == JNull
    ensures m.timestamp.Some? ==> d["timestamp"] == JStr(iso.format(m.timestamp.value))
    ensures d["content"] == JStr(m.content)
  {
    map["id" := if m.id.Some? then JInt(m.id.value) else JNull,
        "conversation_id" := JStr(m.conversationId), "sender_id" := JStr(m.senderId),
        "sender_name" := JStr(m.senderName), "content" := JStr(m.content),
        "timestamp" := StampJson(m.timestamp, iso)]
  }
}
