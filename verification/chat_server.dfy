/** The simple chat server (`server.py`): each decoded envelope read from one connection is a
    transition of the registry that also yields the envelopes sent as a result. */
module ChatServer {
  import opened Wrappers
  import opened Bytes
  import opened JsonValues
  import Dicts
  import opened ChatRouting
  import opened Protocol
  import Crc32

  /** The result of one handled envelope: the registry, the connection's `user_id` variable and
      what was sent. */
  datatype Step = Step(clients: Registry, userId: Json, out: seq<Delivery>)

  /** `_broadcast`'s test `if exclude and uid == exclude`: a falsy id excludes nobody. */
  function ExcludeIfTruthy(e: Json): (r: Option<Json>)
    ensures r.Some? <==> Truthy(e)
    ensures r.Some? ==> r.value == e
  {
    if Truthy(e) then Some(e) else None
  }

  function UserJoinedMsg(uid: Json, name: Json, avatar: Json): Json {
    JObj(map["type" := JStr("user_joined"), "user_id" := uid, "user_name" := name, "avatar" := avatar])
  }

  function UserLeftMsg(uid: Json): Json {
    JObj(map["type" := JStr("user_left"), "user_id" := uid])
  }

  function OnlineUsersMsg(reg: Registry, self: Json): Json {
    JObj(map["type" := JStr("online_users"), "users" := JArr(OnlineUserList(reg, self))])
  }

  /** `_handle_register`. A falsy `user_id` changes nothing and the method returns None, which the
      caller stores as its `user_id`. Otherwise the session is stored under the id, with
      `user_name` defaulting to "Unknown" and `avatar` to "" only when missing (a list or dict id
      raises TypeError, None here); `user_joined` goes to everybody else and `online_users` back to
      the registrant. */
  function HandleRegister(clients: Registry, conn: ConnId, m: Object): (r: Option<Step>)
    ensures var uid := Get(m, "user_id");
      && (!Truthy(uid) ==> r == Some(Step(clients, JNull, [])))
      && (Truthy(uid) && !Hashable(uid) ==> r.None?)
      && (Truthy(uid) && Hashable(uid) ==>
            var s := Session(conn, GetOr(m, "user_name", JStr("Unknown")), GetOr(m, "avatar", JStr("")));
            && r.Some? && r.value.userId == uid
            && Dicts.Get(r.value.clients, uid) == Some(s)
            && (forall k :: k != uid ==> Dicts.Get(r.value.clients, k) == Dicts.Get(clients, k)))
  {
    var uid := Get(m, "user_id");
    var name := GetOr(m, "user_name", JStr("Unknown"));
    var avatar := GetOr(m, "avatar", JStr(""));
    if !Truthy(uid) then Some(Step(clients, JNull, []))
    else if !Hashable(uid) then None
    else
      var clients' := Dicts.Put(clients, uid, Session(conn, name, avatar));
      Some(Step(clients', uid,
        Broadcast(clients', UserJoinedMsg(uid, name, avatar), ExcludeIfTruthy(uid))
        + [Delivery(conn, OnlineUsersMsg(clients', uid))]))
  }

  /** After a valid register, `user_joined` reaches every session registered under another id and
      no other, one per session, and the last envelope is `online_users` to the registrant, listing
      every registered user but the registrant. */
  lemma RegisterNotifies(clients: Registry, conn: ConnId, m: Object)
    requires Truthy(Get(m, "user_id")) && Hashable(Get(m, "user_id"))
    ensures var uid := Get(m, "user_id");
      var name := GetOr(m, "user_name", JStr("Unknown"));
      var avatar := GetOr(m, "avatar", JStr(""));
      var st := HandleRegister(clients, conn, m).value;
      var joined := UserJoinedMsg(uid, name, avatar);
      && |st.out| == |st.clients|
      && st.out[|st.out| - 1] == Delivery(conn, OnlineUsersMsg(st.clients, uid))
      && (forall p :: p in st.clients && p.0 != uid ==> Delivery(p.1.conn, joined) in st.out)
      && (forall i :: 0 <= i < |st.out| - 1 ==>
            st.out[i].msg == joined && exists p :: p in st.clients && p.0 != uid && st.out[i].to == p.1.conn)
  {
    var uid := Get(m, "user_id");
    var name := GetOr(m, "user_name", JStr("Unknown"));
    var avatar := GetOr(m, "avatar", JStr(""));
    var st := HandleRegister(clients, conn, m).value;
    var joined := UserJoinedMsg(uid, name, avatar);
    var b := Broadcast(st.clients, joined, Some(uid));
    assert st.out == b + [Delivery(conn, OnlineUsersMsg(st.clients, uid))];
    RecipientsCount(st.clients, Some(uid));
    assert uid in Dicts.Keys(st.clients);
    BroadcastReaches(st.clients, joined, Some(uid));
    forall i | 0 <= i < |st.out| - 1
      ensures st.out[i].msg == joined && exists p :: p in st.clients && p.0 != uid && st.out[i].to == p.1.conn
    {
      assert st.out[i] == b[i] && b[i] in b;
    }
  }

  /** `_handle_chat_message`: to everybody but `sender_id` when `target` (default "public") is
      "public", otherwise to the registered target only. `clients.get` on a list or dict target
      raises TypeError (None here). */
  function HandleChat(clients: Registry, m: Object): (r: Option<seq<Delivery>>)
    ensures var target := GetOr(m, "target", JStr("public"));
      && (r.None? <==> target != JStr("public") && !Hashable(target))
      && (target != JStr("public") && Hashable(target) ==>
            r.value == match Dicts.Get(clients, target)
                       case Some(s) => [Delivery(s.conn, JObj(m))]
                       case None => [])
  {
    var sender := Get(m, "sender_id");
    var target := GetOr(m, "target", JStr("public"));
    if target == JStr("public") then Some(Broadcast(clients, JObj(m), ExcludeIfTruthy(sender)))
    else if !Hashable(target) then None
    else match Dicts.Get(clients, target)
      case Some(s) => Some([Delivery(s.conn, JObj(m))])
      case None => Some([])
  }

  /** A public chat reaches every session except the sender's own id. */
  lemma PublicChatReaches(clients: Registry, m: Object)
    requires GetOr(m, "target", JStr("public")) == JStr("public")
    ensures var sender := Get(m, "sender_id");
      var out := HandleChat(clients, m).value;
      && (forall p :: p in clients && !(Truthy(sender) && p.0 == sender) ==> Delivery(p.1.conn, JObj(m)) in out)
      && (forall d :: d in out ==> d.msg == JObj(m))
      && (Truthy(sender) && sender in Dicts.Keys(clients) ==> |out| == |clients| - 1)
  {
    var sender := Get(m, "sender_id");
    BroadcastReaches(clients, JObj(m), ExcludeIfTruthy(sender));
    RecipientsCount(clients, ExcludeIfTruthy(sender));
  }

  /** `_handle_disconnect`: nothing for a falsy id; otherwise the entry goes (if it is still there)
      and `user_left` goes to every remaining session. */
  function HandleDisconnect(clients: Registry, userId: Json): (r: (Registry, seq<Delivery>))
    ensures !Truthy(userId) ==> r == (clients, [])
    ensures Truthy(userId) && Hashable(userId) ==>
      && Dicts.Get(r.0, userId).None?
      && (forall k :: k != userId ==> Dicts.Get(r.0, k) == Dicts.Get(clients, k))
      && |r.1| == |r.0|
      && (forall p :: p in r.0 ==> Delivery(p.1.conn, UserLeftMsg(userId)) in r.1)
    ensures forall k :: Dicts.Get(r.0, k).Some? ==> Dicts.Get(r.0, k) == Dicts.Get(clients, k)
  {
    if !Truthy(userId) then (clients, [])
    else if !Hashable(userId) then (clients, [])
    else
      var clients' := Dicts.Remove(clients, userId);
      var out := Broadcast(clients', UserLeftMsg(userId), None);
      RecipientsCount(clients', None);
      BroadcastReaches(clients', UserLeftMsg(userId), None);
      (clients', out)
  }

  /** The dispatch in `_handle_client` for one decoded object. */
  function Handle(clients: Registry, conn: ConnId, userId: Json, m: Object): (r: Option<Step>)
    ensures r.Some? && Get(m, "type") != JStr("register") ==> r.value.clients == clients && r.value.userId == userId
    ensures Get(m, "type") !in {JStr("register"), JStr("chat_message"), JStr("typing_status")} ==>
      r == Some(Step(clients, userId, []))
    ensures r.Some? ==> OwnChanges(clients, r.value.clients, conn)
  {
    var t := Get(m, "type");
    if t == JStr("register") then HandleRegister(clients, conn, m)
    else if t == JStr("chat_message") then
      match HandleChat(clients, m)
      case Some(out) => Some(Step(clients, userId, out))
      case None => None
    else if t == JStr("typing_status") then
      Some(Step(clients, userId, Broadcast(clients, JObj(m), ExcludeIfTruthy(Get(m, "sender_id")))))
    else Some(Step(clients, userId, []))
  }

  /** `typing_status` is relayed to every session except the one registered under the envelope's
      own `sender_id`, whoever the connection registered as. */
  lemma TypingExcludesSender(clients: Registry, conn: ConnId, userId: Json, m: Object)
    requires Get(m, "type") == JStr("typing_status")
    ensures var sender := Get(m, "sender_id");
      var out := Handle(clients, conn, userId, m).value.out;
      && (forall p :: p in clients && !(Truthy(sender) && p.0 == sender) ==> Delivery(p.1.conn, JObj(m)) in out)
      && (forall d :: d in out ==> d.msg == JObj(m))
      && |out| == |clients| - (if Truthy(sender) && sender in Dicts.Keys(clients) then 1 else 0)
  {
    var sender := Get(m, "sender_id");
    BroadcastReaches(clients, JObj(m), ExcludeIfTruthy(sender));
    RecipientsCount(clients, ExcludeIfTruthy(sender));
  }

  /** The read loop of `_handle_client` over everything the client sends, then `_handle_disconnect`
      with the id the loop ended with. A frame with a bad checksum and a payload that is not JSON
      are skipped; a short read, an empty payload, a payload that is not UTF-8, a value that is not
      an object (`message.get` raises) and an exception in a handler all end the loop. */
  function Serve(codec: Codec, running: bool, clients: Registry, conn: ConnId, userId: Json, stream: bytes)
    : (r: (Registry, seq<Delivery>))
    ensures OwnChanges(clients, r.0, conn)
    decreases |stream|
  {
    if !running then HandleDisconnect(clients, userId)
    else match ReadFrame(stream)
      case Closed => HandleDisconnect(clients, userId)
      case Frame(h, payload, rest) =>
        if !VerifyCrc(payload, h.crc) then Serve(codec, running, clients, conn, userId, rest)
        else match codec.loads(payload)
          case JsonDecodeError => Serve(codec, running, clients, conn, userId, rest)
          case UnicodeDecodeError => HandleDisconnect(clients, userId)
          case Parsed(j) =>
            if !j.JObj? then HandleDisconnect(clients, userId)
            else match Handle(clients, conn, userId, j.fields)
              case None => HandleDisconnect(clients, userId)
              case Some(st) =>
                var next := Serve(codec, running, st.clients, conn, st.userId, rest);
                (next.0, st.out + next.1)
  }

  /** A frame whose checksum does not match is skipped: the loop goes on with what follows. */
  lemma BadCrcSkipped(codec: Codec, clients: Registry, conn: ConnId, userId: Json,
                      h: Header, payload: bytes, rest: bytes)
    requires ValidHeader(h) && h.length == |payload| > 0
    requires !VerifyCrc(payload, h.crc)
    ensures Serve(codec, true, clients, conn, userId, EncodeHeader(h) + payload + rest)
         == Serve(codec, true, clients, conn, userId, rest)
  {
    ReadEncoded(h, payload, rest);
  }

  /** A frame whose payload is not JSON is skipped in the same way. */
  lemma BadJsonSkipped(codec: Codec, clients: Registry, conn: ConnId, userId: Json,
                       payload: bytes, rest: bytes)
    requires IsUint32(|payload|) && |payload| > 0
    requires codec.loads(payload).JsonDecodeError?
    ensures var h := Header(|payload|, Crc32.Crc(payload));
      Serve(codec, true, clients, conn, userId, EncodeHeader(h) + payload + rest)
        == Serve(codec, true, clients, conn, userId, rest)
  {
    ReadEncoded(Header(|payload|, Crc32.Crc(payload)), payload, rest);
  }

  /** A packed object is handled and the loop continues with the new state. */
  lemma PackedHandled(codec: Codec, clients: Registry, conn: ConnId, userId: Json, m: Object, rest: bytes)
    requires Lawful(codec)
    requires Pack(codec, JObj(m), true).Ok?
    requires Handle(clients, conn, userId, m).Some?
    ensures var st := Handle(clients, conn, userId, m).value;
      var next := Serve(codec, true, st.clients, conn, st.userId, rest);
      Serve(codec, true, clients, conn, userId, Pack(codec, JObj(m), true).value + rest)
        == (next.0, st.out + next.1)
  {
    ReadPacked(codec, JObj(m), true, rest);
  }
}
