/** The server core (`core/server_core.py`): the same routing as the simple server, plus ping/pong,
    AI-request forwarding to the host application, and message counters. */
module ServerCore {
  import opened Wrappers
  import opened Bytes
  import opened JsonValues
  import Dicts
  import opened ChatRouting
  import opened Protocol
  import Crc32

  datatype Core = Core(running: bool, clients: Registry, msgCount: nat, aiReqCount: nat)

  /** `callbacks.on_ai_request(user_id, request)`. */
  datatype AiRequestEvent = AiRequestEvent(userId: Json, request: Json)

  /** The result of one handled envelope: the server, the connection's `user_id` variable, what was
      sent, and the AI requests handed to the application. */
  datatype Step = Step(core: Core, userId: Json, out: seq<Delivery>, events: seq<AiRequestEvent>)

  /** `_broadcast(message)` without `exclude`: the default None is compared with `uid == exclude`,
      so an entry stored under the id None is skipped. */
  const NO_EXCLUDE: Option<Json> := Some(JNull)

  function UserJoinedMsg(uid: Json, name: Json, avatar: Json): Json {
    JObj(map["type" := JStr(UserJoined.Value()), "user_id" := uid, "user_name" := name, "avatar" := avatar])
  }

  function UserLeftMsg(uid: Json): Json {
    JObj(map["type" := JStr(UserLeft.Value()), "user_id" := uid])
  }

  function OnlineUsersMsg(reg: Registry, self: Json): Json {
    JObj(map["type" := JStr(OnlineUsers.Value()), "users" := JArr(OnlineUserList(reg, self))])
  }

  const PONG_MSG: Json := JObj(map["type" := JStr(Pong.Value())])

  /** `_handle_register`: there is no check on `user_id`, so a missing id is stored under None. A
      list or dict id raises TypeError (None here). */
  function HandleRegister(c: Core, conn: ConnId, m: Object): (r: Option<Step>)
    ensures var uid := Get(m, "user_id");
      && (r.None? <==> !Hashable(uid))
      && (r.Some? ==>
            var s := Session(conn, GetOr(m, "user_name", JStr("Unknown")), GetOr(m, "avatar", JStr("")));
            && r.value.userId == uid
            && r.value.core == c.(clients := r.value.core.clients)
            && Dicts.Get(r.value.core.clients, uid) == Some(s)
            && (forall k :: k != uid ==> Dicts.Get(r.value.core.clients, k) == Dicts.Get(c.clients, k))
            && r.value.events == [])
  {
    var uid := Get(m, "user_id");
    var name := GetOr(m, "user_name", JStr("Unknown"));
    var avatar := GetOr(m, "avatar", JStr(""));
    if !Hashable(uid) then None
    else
      var clients' := Dicts.Put(c.clients, uid, Session(conn, name, avatar));
      Some(Step(c.(clients := clients'), uid,
        Broadcast(clients', UserJoinedMsg(uid, name, avatar), Some(uid))
        + [Delivery(conn, OnlineUsersMsg(clients', uid))], []))
  }

  /** `user_joined` reaches every session registered under another id, one per session, and the
      registrant is answered last with `online_users`. */
  lemma RegisterNotifies(c: Core, conn: ConnId, m: Object)
    requires Hashable(Get(m, "user_id"))
    ensures var uid := Get(m, "user_id");
      var joined := UserJoinedMsg(uid, GetOr(m, "user_name", JStr("Unknown")), GetOr(m, "avatar", JStr("")));
      var st := HandleRegister(c, conn, m).value;
      && |st.out| == |st.core.clients|
      && st.out[|st.out| - 1] == Delivery(conn, OnlineUsersMsg(st.core.clients, uid))
      && (forall p :: p in st.core.clients && p.0 != uid ==> Delivery(p.1.conn, joined) in st.out)
      && (forall i :: 0 <= i < |st.out| - 1 ==> st.out[i].msg == joined)
  {
    var uid := Get(m, "user_id");
    var joined := UserJoinedMsg(uid, GetOr(m, "user_name", JStr("Unknown")), GetOr(m, "avatar", JStr("")));
    var st := HandleRegister(c, conn, m).value;
    var b := Broadcast(st.core.clients, joined, Some(uid));
    assert st.out == b + [Delivery(conn, OnlineUsersMsg(st.core.clients, uid))];
    RecipientsCount(st.core.clients, Some(uid));
    assert uid in Dicts.Keys(st.core.clients);
    BroadcastReaches(st.core.clients, joined, Some(uid));
  }

  /** `_handle_chat`: "public" (the default target) goes to everybody but `sender_id`, anything else
      to that registered user only. */
  function HandleChat(clients: Registry, m: Object): (r: Option<seq<Delivery>>)
    ensures var target := GetOr(m, "target", JStr("public"));
      && (r.None? <==> target != JStr("public") && !Hashable(target))
      && (target != JStr("public") && Hashable(target) ==>
            r.value == match Dicts.Get(clients, target)
                       case Some(s) => [Delivery(s.conn, JObj(m))]
                       case None => [])
  {
    var target := GetOr(m, "target", JStr("public"));
    var sender := Get(m, "sender_id");
    if target == JStr("public") then Some(Broadcast(clients, JObj(m), Some(sender)))
    else if !Hashable(target) then None
    else match Dicts.Get(clients, target)
      case Some(s) => Some([Delivery(s.conn, JObj(m))])
      case None => Some([])
  }

  /** A public chat reaches every session except the one registered under `sender_id`. */
  lemma PublicChatReaches(clients: Registry, m: Object)
    requires GetOr(m, "target", JStr("public")) == JStr("public")
    ensures var sender := Get(m, "sender_id");
      var out := HandleChat(clients, m).value;
      && (forall p :: p in clients && p.0 != sender ==> Delivery(p.1.conn, JObj(m)) in out)
      && (forall d :: d in out ==> d.msg == JObj(m))
      && |out| == |clients| - (if sender in Dicts.Keys(clients) then 1 else 0)
  {
    var sender := Get(m, "sender_id");
    BroadcastReaches(clients, JObj(m), Some(sender));
    RecipientsCount(clients, Some(sender));
  }

  /** The dispatch in `_handle_client_connection` for one decoded object. */
  function Handle(c: Core, conn: ConnId, userId: Json, m: Object): (r: Option<Step>)
    ensures r.None? ==> Get(m, "type") in {JStr(Register.Value()), JStr(ChatMessage.Value())}
    ensures r.Some? ==> r.value.core.running == c.running
    ensures r.Some? && Get(m, "type") != JStr(Register.Value()) ==>
      r.value.userId == userId && r.value.core.clients == c.clients
    ensures r.Some? ==> r.value.core.msgCount == c.msgCount + (if Get(m, "type") == JStr(ChatMessage.Value()) then 1 else 0)
    ensures r.Some? ==> r.value.core.aiReqCount == c.aiReqCount + |r.value.events|
    ensures r.Some? && r.value.events != [] ==> Get(m, "type") == JStr(AiAnalysisRequest.Value())
    ensures (Get(m, "type") !in {JStr(Register.Value()), JStr(ChatMessage.Value()), JStr(AiAnalysisRequest.Value()),
                                 JStr(Ping.Value()), JStr(TypingStatus.Value())}) ==> r == Some(Step(c, userId, [], []))
  {
    var t := Get(m, "type");
    if t == JStr(Register.Value()) then
      ValueInjective(Register, ChatMessage);
      HandleRegister(c, conn, m)
    else if t == JStr(ChatMessage.Value()) then
      match HandleChat(c.clients, m)
      case Some(out) => Some(Step(c.(msgCount := c.msgCount + 1), userId, out, []))
      case None => None
    else if t == JStr(AiAnalysisRequest.Value()) then
      if Truthy(userId)
      then Some(Step(c.(aiReqCount := c.aiReqCount + 1), userId, [], [AiRequestEvent(userId, JObj(m))]))
      else Some(Step(c, userId, [], []))
    else if t == JStr(Ping.Value()) then Some(Step(c, userId, [Delivery(conn, PONG_MSG)], []))
    else if t == JStr(TypingStatus.Value()) then
      Some(Step(c, userId, Broadcast(c.clients, JObj(m), Some(userId)), []))
    else Some(Step(c, userId, [], []))
  }

  /** A chat is counted whether or not the connection has registered, and a public one is routed
      the same way in both cases. */
  lemma ChatCountedUnregistered(c: Core, conn: ConnId, m: Object, uid1: Json, uid2: Json)
    requires Get(m, "type") == JStr(ChatMessage.Value())
    requires GetOr(m, "target", JStr("public")) == JStr("public")
    ensures Handle(c, conn, uid1, m).Some? && Handle(c, conn, uid2, m).Some?
    ensures Handle(c, conn, uid1, m).value.core.msgCount == c.msgCount + 1
    ensures Handle(c, conn, uid1, m).value.out == Handle(c, conn, uid2, m).value.out
  {
  }

  /** A ping is answered with a pong on the same connection, and with nothing else. */
  lemma PingAnswered(c: Core, conn: ConnId, userId: Json, m: Object)
    requires Get(m, "type") == JStr(Ping.Value())
    ensures Handle(c, conn, userId, m) == Some(Step(c, userId, [Delivery(conn, PONG_MSG)], []))
  {
    ValueInjective(Ping, Register);
    ValueInjective(Ping, ChatMessage);
    ValueInjective(Ping, AiAnalysisRequest);
  }

  /** An AI request from a registered (truthy) id is handed to the application once, with the
      whole envelope; before registering it is dropped. */
  lemma AiRequestForwarded(c: Core, conn: ConnId, userId: Json, m: Object)
    requires Get(m, "type") == JStr(AiAnalysisRequest.Value())
    ensures Handle(c, conn, userId, m).Some? && Handle(c, conn, userId, m).value.out == []
    ensures Handle(c, conn, userId, m).value.events == if Truthy(userId) then [AiRequestEvent(userId, JObj(m))] else []
  {
    ValueInjective(AiAnalysisRequest, Register);
    ValueInjective(AiAnalysisRequest, ChatMessage);
  }

  /** `typing_status` goes to everybody except the id this connection registered (None before
      registering), not the one named in the envelope. */
  lemma TypingExcludesOwnId(c: Core, conn: ConnId, userId: Json, m: Object)
    requires Get(m, "type") == JStr(TypingStatus.Value())
    ensures Handle(c, conn, userId, m).Some?
    ensures var out := Handle(c, conn, userId, m).value.out;
      && (forall p :: p in c.clients && p.0 != userId ==> Delivery(p.1.conn, JObj(m)) in out)
      && |out| == |c.clients| - (if userId in Dicts.Keys(c.clients) then 1 else 0)
  {
    ValueInjective(TypingStatus, Register);
    ValueInjective(TypingStatus, ChatMessage);
    ValueInjective(TypingStatus, AiAnalysisRequest);
    ValueInjective(TypingStatus, Ping);
    assert Handle(c, conn, userId, m) == Some(Step(c, userId, Broadcast(c.clients, JObj(m), Some(userId)), []));
    BroadcastReaches(c.clients, JObj(m), Some(userId));
    RecipientsCount(c.clients, Some(userId));
  }

  /** `_handle_disconnect`, called at connection end only `if user_id:`. The entry under the id goes
      whichever socket it now holds, and `user_left` goes to every remaining session (bar one
      stored under None). */
  function HandleDisconnect(c: Core, userId: Json): (r: (Core, seq<Delivery>))
    ensures !Truthy(userId) ==> r == (c, [])
    ensures Truthy(userId) && Hashable(userId) ==>
      && r.0 == c.(clients := r.0.clients)
      && Dicts.Get(r.0.clients, userId).None?
      && (forall k :: k != userId ==> Dicts.Get(r.0.clients, k) == Dicts.Get(c.clients, k))
      && (forall p :: p in r.0.clients && p.0 != JNull ==> Delivery(p.1.conn, UserLeftMsg(userId)) in r.1)
      && (forall d :: d in r.1 ==> d.msg == UserLeftMsg(userId))
    ensures r.0 == c.(clients := r.0.clients)
    ensures forall k :: Dicts.Get(r.0.clients, k).Some? ==> Dicts.Get(r.0.clients, k) == Dicts.Get(c.clients, k)
  {
    if !Truthy(userId) || !Hashable(userId) then (c, [])
    else
      var clients' := Dicts.Remove(c.clients, userId);
      BroadcastReaches(clients', UserLeftMsg(userId), NO_EXCLUDE);
      (c.(clients := clients'), Broadcast(clients', UserLeftMsg(userId), NO_EXCLUDE))
  }

  /** `send_to_client`: to the registered user, if any; a list or dict id raises TypeError. */
  function SendToClient(c: Core, userId: Json, msg: Json): (r: Option<seq<Delivery>>)
    ensures r.None? <==> !Hashable(userId)
    ensures r.Some? && userId !in Dicts.Keys(c.clients) ==> r.value == []
    ensures r.Some? && userId in Dicts.Keys(c.clients) ==>
      r.value == [Delivery(Dicts.Get(c.clients, userId).value.conn, msg)]
  {
    if !Hashable(userId) then None
    else match Dicts.Get(c.clients, userId)
      case Some(s) => Some([Delivery(s.conn, msg)])
      case None => Some([])
  }

  /** `broadcast_message`: to everybody (bar an entry stored under None). */
  function BroadcastMessage(c: Core, msg: Json): (r: seq<Delivery>)
    ensures forall p :: p in c.clients && p.0 != JNull ==> Delivery(p.1.conn, msg) in r
  {
    BroadcastReaches(c.clients, msg, NO_EXCLUDE);
    Broadcast(c.clients, msg, NO_EXCLUDE)
  }

  /** `stop`: not running, and the registry is emptied. */
  function Stop(c: Core): (r: Core)
    ensures !r.running && |r.clients| == 0
    ensures r.msgCount == c.msgCount && r.aiReqCount == c.aiReqCount
  {
    c.(running := false, clients := [])
  }

  datatype Outcome = Outcome(core: Core, out: seq<Delivery>, events: seq<AiRequestEvent>)

  /** The read loop of `_handle_client_connection` over everything the client sends, then
      `_handle_disconnect` if the connection has a truthy id. Bad checksums and any failure to
      decode the payload skip the frame; a short read, an empty payload, a value that is not an
      object and an exception in a handler end the loop. */
  function Serve(codec: Codec, c: Core, conn: ConnId, userId: Json, stream: bytes): (r: Outcome)
    ensures OwnChanges(c.clients, r.core.clients, conn)
    ensures r.core.running == c.running
    ensures r.core.msgCount >= c.msgCount
    ensures r.core.aiReqCount == c.aiReqCount + |r.events|
    decreases |stream|
  {
    var finish := HandleDisconnect(c, userId);
    if !c.running then Outcome(finish.0, finish.1, [])
    else match ReadFrame(stream)
      case Closed => Outcome(finish.0, finish.1, [])
      case Frame(h, payload, rest) =>
        if !VerifyCrc(payload, h.crc) then Serve(codec, c, conn, userId, rest)
        else match codec.loads(payload)
          case JsonDecodeError => Serve(codec, c, conn, userId, rest)
          case UnicodeDecodeError => Serve(codec, c, conn, userId, rest)
          case Parsed(j) =>
            if !j.JObj? then Outcome(finish.0, finish.1, [])
            else match Handle(c, conn, userId, j.fields)
              case None => Outcome(finish.0, finish.1, [])
              case Some(st) =>
                var next := Serve(codec, st.core, conn, st.userId, rest);
                Outcome(next.core, st.out + next.out, st.events + next.events)
  }

  /** Unlike the simple server, a payload that is not UTF-8 is skipped rather than ending the
      connection. */
  lemma UndecodableSkipped(codec: Codec, c: Core, conn: ConnId, userId: Json, payload: bytes, rest: bytes)
    requires c.running
    requires IsUint32(|payload|) && |payload| > 0
    requires codec.loads(payload).UnicodeDecodeError?
    ensures var h := Header(|payload|, Crc32.Crc(payload));
      Serve(codec, c, conn, userId, EncodeHeader(h) + payload + rest) == Serve(codec, c, conn, userId, rest)
  {
    ReadEncoded(Header(|payload|, Crc32.Crc(payload)), payload, rest);
  }

  /** A register that carries no `user_id` stores a session under None that the connection's own
      end never removes, since the loop only disconnects a truthy id. */
  lemma NullRegistrationLingers(codec: Codec, c: Core, conn: ConnId, m: Object, rest: bytes)
    requires Lawful(codec) && c.running
    requires Get(m, "type") == JStr(Register.Value()) && "user_id" !in m
    requires Pack(codec, JObj(m), true).Ok?
    requires ReadFrame(rest).Closed?
    ensures JNull in Dicts.Keys(Serve(codec, c, conn, JNull, Pack(codec, JObj(m), true).value + rest).core.clients)
  {
    var p := codec.dumps(JObj(m), true);
    var stream := Pack(codec, JObj(m), true).value + rest;
    assert ReadFrame(stream) == Frame(Header(|p|, Crc32.Crc(p)), p, rest) by {
      ReadPacked(codec, JObj(m), true, rest);
    }
    assert VerifyCrc(p, Crc32.Crc(p));
    assert codec.loads(p) == Parsed(JObj(m));
    var st := HandleRegister(c, conn, m).value;
    assert Handle(c, conn, JNull, m) == Some(st);
    assert st.userId == JNull && Dicts.Get(st.core.clients, JNull).Some?;
    assert Serve(codec, st.core, conn, JNull, rest).core == st.core by {
      assert HandleDisconnect(st.core, JNull) == (st.core, []);
    }
    assert Serve(codec, c, conn, JNull, stream).core == Serve(codec, st.core, conn, JNull, rest).core;
  }
}
