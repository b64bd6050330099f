/** The relay server (relay_server.py): rooms pair one `host` and one `guest` connection, and every
    frame other than a registration is forwarded, bytes unchanged, to the peer holding the other role.
    Each received frame is one atomic transition of the room table and the per-connection metadata;
    the end of a connection and the heartbeat monitor are transitions too. */
module Relay {
  import opened Wrappers
  import opened Bytes
  import opened JsonValues
  import Dicts

  /** A client socket. */
  type ConnId = nat

  const HOST: string := "host"
  const GUEST: string := "guest"

  /** Seconds of silence after which the monitor drops a connection. */
  const HEARTBEAT_TIMEOUT: real := 60.0

  /** A room: role name to the socket holding it. */
  type Room = map<string, ConnId>

  /** `clients[conn]`: the slot the connection registered for, its address and when it was last heard. */
  datatype Meta = Meta(roomId: string, role: string, addr: string, lastSeen: real)

  datatype Relay = Relay(rooms: map<string, Room>, clients: Dicts.Dict<ConnId, Meta>)

  const EMPTY: Relay := Relay(map[], [])

  /** The handler's local variables `room_id` and `role`: None until a registration frame sets them. */
  datatype Local = Local(roomId: Option<string>, role: Option<string>)

  const NO_LOCAL: Local := Local(None, None)

  /** What the handler sends: a JSON envelope of its own, or a received frame passed on verbatim. */
  datatype Out = Reply(to: ConnId, msg: Json) | Forward(to: ConnId, raw: bytes)

  /** The socket holding `role` in room `rid`, if any. */
  function Slot(rooms: map<string, Room>, rid: string, role: string): Option<ConnId> {
    if rid in rooms && role in rooms[rid] then Some(rooms[rid][role]) else None
  }

  /** No room without an occupant is kept in the table. */
  ghost predicate NoEmptyRoom(rooms: map<string, Room>) {
    forall rid :: rid in rooms ==> rooms[rid] != map[]
  }

  /** Only the two roles occur as slots. */
  ghost predicate RolesValid(rooms: map<string, Room>) {
    forall rid, role :: Slot(rooms, rid, role).Some? ==> role == HOST || role == GUEST
  }

  predicate Names(m: Option<Meta>, rid: string, role: string) {
    m.Some? && m.value.roomId == rid && m.value.role == role
  }

  /** Slots and metadata agree: every occupied slot belongs to a registered connection whose
      metadata names that slot, and every registered connection holds the slot its metadata names.
      In particular a connection holds at most one slot. */
  ghost predicate Consistent(r: Relay) {
    && (forall rid, role :: Slot(r.rooms, rid, role).Some? ==>
          Names(Dicts.Get(r.clients, Slot(r.rooms, rid, role).value), rid, role))
    && (forall c :: c in Dicts.Keys(r.clients) ==>
          var m := Dicts.Get(r.clients, c).value; Slot(r.rooms, m.roomId, m.role) == Some(c))
  }

  ghost predicate Valid(r: Relay) {
    NoEmptyRoom(r.rooms) && RolesValid(r.rooms) && Consistent(r)
  }

  /** Every registered connection holds the slot its metadata names: the half of `Consistent` that
      the code as written keeps. A slot may still name a socket whose metadata is gone or names
      another slot. */
  ghost predicate Held(r: Relay) {
    forall c: ConnId :: Dicts.Get(r.clients, c).Some? ==>
      Slot(r.rooms, Dicts.Get(r.clients, c).value.roomId, Dicts.Get(r.clients, c).value.role) == Some(c)
  }

  ghost predicate Sound(r: Relay) {
    NoEmptyRoom(r.rooms) && RolesValid(r.rooms) && Held(r)
  }

  /** Freeing a slot if it still points at `conn` (`if room and room.get(rrole) is conn`), and
      dropping the room once nobody is left in it. */
  function Release(rooms: map<string, Room>, rid: string, role: string, conn: ConnId): (r: map<string, Room>)
    ensures Slot(r, rid, role) == (if Slot(rooms, rid, role) == Some(conn) then None else Slot(rooms, rid, role))
    ensures forall rid', role' :: rid' != rid || role' != role ==> Slot(r, rid', role') == Slot(rooms, rid', role')
    ensures NoEmptyRoom(rooms) ==> NoEmptyRoom(r)
    ensures RolesValid(rooms) ==> RolesValid(r)
  {
    if rid in rooms && rooms[rid] != map[] && role in rooms[rid] && rooms[rid][role] == conn then
      var room := rooms[rid] - {role};
      if room == map[] then
        assert forall role' :: role' in rooms[rid] ==> role' == role by {
          forall role' | role' in rooms[rid]
            ensures role' == role
          {
            assert role' in room || role' == role;
          }
        }
        rooms - {rid}
      else rooms[rid := room]
    else rooms
  }

  /** The outcome of `_register_client`. */
  datatype Registration = Registered(relay: Relay) | Refused(reason: string)

  function Conflict(role: string, roomId: string): string {
    "Role " + role + " already connected in room " + roomId
  }

  /** `_register_client` as written: the slot is refused when another socket holds it; otherwise the
      socket takes it and its metadata is (re)written. A slot the socket held before is left as it was. */
  function RegisterAsWritten(r: Relay, roomId: string, role: string, conn: ConnId, addr: string, now: real)
    : (res: Registration)
    ensures res.Refused? <==> Slot(r.rooms, roomId, role).Some? && Slot(r.rooms, roomId, role) != Some(conn)
    ensures res.Refused? ==> res.reason == Conflict(role, roomId)
    ensures res.Registered? ==>
      && Slot(res.relay.rooms, roomId, role) == Some(conn)
      && (forall rid, rl :: rid != roomId || rl != role ==> Slot(res.relay.rooms, rid, rl) == Slot(r.rooms, rid, rl))
      && Dicts.Get(res.relay.clients, conn) == Some(Meta(roomId, role, addr, now))
      && (forall c :: c != conn ==> Dicts.Get(res.relay.clients, c) == Dicts.Get(r.clients, c))
    ensures res.Registered? && NoEmptyRoom(r.rooms) ==> NoEmptyRoom(res.relay.rooms)
    ensures res.Registered? && RolesValid(r.rooms) && (role == HOST || role == GUEST) ==> RolesValid(res.relay.rooms)
  {
    var room := if roomId in r.rooms && r.rooms[roomId] != map[] then r.rooms[roomId] else map[];
    if role in room && room[role] != conn then Refused(Conflict(role, roomId))
    else Registered(Relay(r.rooms[roomId := room[role := conn]],
                          Dicts.Put(r.clients, conn, Meta(roomId, role, addr, now))))
  }

  /** The table with whatever slot the socket's metadata names freed. */
  function Vacate(r: Relay, conn: ConnId): (rooms: map<string, Room>)
    ensures forall rid, role :: Slot(r.rooms, rid, role) != Some(conn) ==> Slot(rooms, rid, role) == Slot(r.rooms, rid, role)
    ensures NoEmptyRoom(r.rooms) ==> NoEmptyRoom(rooms)
    ensures RolesValid(r.rooms) ==> RolesValid(rooms)
  {
    match Dicts.Get(r.clients, conn)
    case Some(m) => Release(r.rooms, m.roomId, m.role, conn)
    case None => r.rooms
  }

  /** On a valid table the socket holds no slot once its own is freed. */
  lemma VacateFrees(r: Relay, conn: ConnId)
    requires Consistent(r)
    ensures forall rid, role :: Slot(Vacate(r, conn), rid, role) != Some(conn)
  {
    forall rid, role
      ensures Slot(Vacate(r, conn), rid, role) != Some(conn)
    {
      if Slot(r.rooms, rid, role) == Some(conn) {
        assert Names(Dicts.Get(r.clients, conn), rid, role);
      }
    }
  }

  /** `room[role] = conn`, creating the room when it is missing. */
  function Occupy(rooms: map<string, Room>, rid: string, role: string, conn: ConnId): (r: map<string, Room>)
    ensures Slot(r, rid, role) == Some(conn)
    ensures forall rid', role' :: rid' != rid || role' != role ==> Slot(r, rid', role') == Slot(rooms, rid', role')
    ensures NoEmptyRoom(rooms) ==> NoEmptyRoom(r)
    ensures RolesValid(rooms) && (role == HOST || role == GUEST) ==> RolesValid(r)
  {
    var room := if rid in rooms then rooms[rid] else map[];
    rooms[rid := room[role := conn]]
  }

  /** `_register_client` with the slot the socket held before freed first, so that a socket never
      holds two slots. Refusals are those of the code as written. */
  function Register(r: Relay, roomId: string, role: string, conn: ConnId, addr: string, now: real)
    : (res: Registration)
    ensures res.Refused? <==> Slot(r.rooms, roomId, role).Some? && Slot(r.rooms, roomId, role) != Some(conn)
    ensures res.Refused? ==> res.reason == Conflict(role, roomId)
    ensures res.Registered? ==>
      && Slot(res.relay.rooms, roomId, role) == Some(conn)
      && (forall rid, rl :: Slot(r.rooms, rid, rl) != Some(conn) && (rid != roomId || rl != role) ==>
            Slot(res.relay.rooms, rid, rl) == Slot(r.rooms, rid, rl))
      && Dicts.Get(res.relay.clients, conn) == Some(Meta(roomId, role, addr, now))
      && (forall c :: c != conn ==> Dicts.Get(res.relay.clients, c) == Dicts.Get(r.clients, c))
    ensures res.Registered? && NoEmptyRoom(r.rooms) ==> NoEmptyRoom(res.relay.rooms)
    ensures res.Registered? && RolesValid(r.rooms) && (role == HOST || role == GUEST) ==> RolesValid(res.relay.rooms)
  {
    if Slot(r.rooms, roomId, role).Some? && Slot(r.rooms, roomId, role) != Some(conn) then
      Refused(Conflict(role, roomId))
    else
      Registered(Relay(Occupy(Vacate(r, conn), roomId, role, conn), Dicts.Put(r.clients, conn, Meta(roomId, role, addr, now))))
  }

  /** A registration keeps the table valid when the role is one of the two. */
  lemma RegisterKeepsValid(r: Relay, roomId: string, role: string, conn: ConnId, addr: string, now: real)
    requires Valid(r)
    requires role == HOST || role == GUEST
    ensures Register(r, roomId, role, conn, addr, now).Registered? ==> Valid(Register(r, roomId, role, conn, addr, now).relay)
  {
    var res := Register(r, roomId, role, conn, addr, now);
    if res.Registered? {
      var v := Vacate(r, conn);
      VacateFrees(r, conn);
      var r' := res.relay;
      forall rid, rl | Slot(r'.rooms, rid, rl).Some?
        ensures Names(Dicts.Get(r'.clients, Slot(r'.rooms, rid, rl).value), rid, rl)
      {
        if rid != roomId || rl != role {
          assert Slot(r'.rooms, rid, rl) == Slot(v, rid, rl);
          assert Slot(r.rooms, rid, rl) == Slot(v, rid, rl);
        }
      }
      forall c | c in Dicts.Keys(r'.clients)
        ensures var m := Dicts.Get(r'.clients, c).value; Slot(r'.rooms, m.roomId, m.role) == Some(c)
      {
        if c != conn {
          var m := Dicts.Get(r.clients, c).value;
          assert Slot(r.rooms, m.roomId, m.role) == Some(c);
          assert Slot(v, m.roomId, m.role) == Some(c);
        }
      }
    }
  }

  /** Which registration the handler performs: `_register_client` as written, or `Register`. */
  datatype Variant = AsWritten | Corrected

  function RegisterWith(v: Variant, r: Relay, roomId: string, role: string, conn: ConnId, addr: string, now: real)
    : Registration
  {
    match v
    case AsWritten => RegisterAsWritten(r, roomId, role, conn, addr, now)
    case Corrected => Register(r, roomId, role, conn, addr, now)
  }

  /** Either registration keeps every registered socket in the slot its metadata names, and leaves a
      slot held by another socket as it was. */
  lemma RegisterKeepsSound(v: Variant, r: Relay, roomId: string, role: string, conn: ConnId, addr: string, now: real)
    requires Sound(r)
    requires role == HOST || role == GUEST
    ensures var res := RegisterWith(v, r, roomId, role, conn, addr, now);
      && (res.Registered? ==> Sound(res.relay))
      && (res.Registered? ==> forall rid, rl :: Slot(r.rooms, rid, rl).Some? && Slot(r.rooms, rid, rl) != Some(conn) ==>
            Slot(res.relay.rooms, rid, rl) == Slot(r.rooms, rid, rl))
  {
    var res := RegisterWith(v, r, roomId, role, conn, addr, now);
    if res.Registered? {
      var r' := res.relay;
      forall rid, rl | Slot(r.rooms, rid, rl).Some? && Slot(r.rooms, rid, rl) != Some(conn)
        ensures Slot(r'.rooms, rid, rl) == Slot(r.rooms, rid, rl)
      {
        assert rid != roomId || rl != role;
      }
      forall c | Dicts.Get(r'.clients, c).Some?
        ensures Slot(r'.rooms, Dicts.Get(r'.clients, c).value.roomId, Dicts.Get(r'.clients, c).value.role) == Some(c)
      {
        if c != conn {
          var m := Dicts.Get(r.clients, c).value;
          assert Slot(r.rooms, m.roomId, m.role) == Some(c);
        }
      }
    }
  }

  /** `_update_last_seen`: a registered socket's metadata gets the new time; nothing else changes. */
  function Touch(r: Relay, conn: ConnId, now: real): (r': Relay)
    ensures r'.rooms == r.rooms
    ensures Dicts.Keys(r'.clients) == Dicts.Keys(r.clients)
    ensures forall c :: c != conn ==> Dicts.Get(r'.clients, c) == Dicts.Get(r.clients, c)
    ensures Dicts.Get(r.clients, conn).Some? ==>
      Dicts.Get(r'.clients, conn) == Some(Dicts.Get(r.clients, conn).value.(lastSeen := now))
    ensures Valid(r) ==> Valid(r')
    ensures Sound(r) ==> Sound(r')
  {
    match Dicts.Get(r.clients, conn)
    case Some(m) => Relay(r.rooms, Dicts.Put(r.clients, conn, m.(lastSeen := now)))
    case None => r
  }

  /** `_cleanup_connection`: the socket's metadata is dropped and the slot it names freed; a socket
      without metadata frees the slot named by the handler's locals. */
  function Cleanup(r: Relay, conn: ConnId, local: Local): (r': Relay)
    ensures Dicts.Get(r'.clients, conn) == None
    ensures forall c :: c != conn ==> Dicts.Get(r'.clients, c) == Dicts.Get(r.clients, c)
    ensures forall rid, role :: Slot(r.rooms, rid, role) != Some(conn) ==> Slot(r'.rooms, rid, role) == Slot(r.rooms, rid, role)
    ensures NoEmptyRoom(r.rooms) ==> NoEmptyRoom(r'.rooms)
    ensures RolesValid(r.rooms) ==> RolesValid(r'.rooms)
    ensures Held(r) ==> Held(r')
  {
    match Dicts.Get(r.clients, conn)
    case Some(m) => Relay(Release(r.rooms, m.roomId, m.role, conn), Dicts.Remove(r.clients, conn))
    case None =>
      if local.roomId.Some? && local.roomId.value != "" && local.role.Some? && local.role.value != "" then
        Relay(Release(r.rooms, local.roomId.value, local.role.value, conn), r.clients)
      else r
  }

  /** On a valid table, a socket that has gone holds no slot, and the table stays valid. */
  lemma CleanupFreesSlots(r: Relay, conn: ConnId, local: Local)
    requires Valid(r)
    ensures forall rid, role :: Slot(Cleanup(r, conn, local).rooms, rid, role) != Some(conn)
    ensures Valid(Cleanup(r, conn, local))
  {
    var r' := Cleanup(r, conn, local);
    forall rid, role
      ensures Slot(r'.rooms, rid, role) != Some(conn)
    {
      if Slot(r.rooms, rid, role) == Some(conn) {
        assert Names(Dicts.Get(r.clients, conn), rid, role);
      }
    }
    forall c | c in Dicts.Keys(r'.clients)
      ensures var m := Dicts.Get(r'.clients, c).value; Slot(r'.rooms, m.roomId, m.role) == Some(c)
    {
      var m := Dicts.Get(r.clients, c).value;
      assert Slot(r.rooms, m.roomId, m.role) == Some(c);
    }
    forall rid, role | Slot(r'.rooms, rid, role).Some?
      ensures Names(Dicts.Get(r'.clients, Slot(r'.rooms, rid, role).value), rid, role)
    {
      assert Slot(r.rooms, rid, role).Some?;
    }
  }

  /** `_get_target`: the socket in the other role of the handler's room, if any. */
  function Target(r: Relay, local: Local): (t: Option<ConnId>)
    ensures t.Some? ==> local.roomId.Some? && local.role.Some?
  {
    if local.roomId.None? || local.roomId.value == "" || local.role.None? || local.role.value == "" then None
    else
      var other := if local.role.value == HOST then GUEST else HOST;
      Slot(r.rooms, local.roomId.value, other)
  }

  /** Once registered, a socket's frames go to the socket holding the other role of its room, never
      back to itself; with nobody there the frame is dropped. */
  lemma TargetIsPeer(r: Relay, conn: ConnId, rid: string, role: string)
    requires Valid(r)
    requires Names(Dicts.Get(r.clients, conn), rid, role)
    ensures var t := Target(r, Local(Some(rid), Some(role)));
      && (rid != "" && role != "" ==> t == Slot(r.rooms, rid, if role == HOST then GUEST else HOST))
      && t != Some(conn)
  {
    assert Slot(r.rooms, rid, role) == Some(conn);
    var t := Target(r, Local(Some(rid), Some(role)));
    if t.Some? {
      var other := if role == HOST then GUEST else HOST;
      assert Names(Dicts.Get(r.clients, t.value), rid, other);
    }
  }

  /** A socket that never registered has nothing to forward to. */
  lemma UnregisteredDropped(r: Relay)
    ensures Target(r, NO_LOCAL) == None
  {
  }

  /** The relay's own frame reader: a 4-byte big-endian length, then the payload; no checksum. */
  datatype RelayRead = Ended | Frame(lengthBytes: bytes, payload: bytes, rest: bytes)

  function ReadRelayFrame(stream: bytes): (f: RelayRead)
    ensures f.Frame? ==>
      && |f.lengthBytes| == 4
      && BEToUint32(f.lengthBytes) == |f.payload| > 0
      && stream == f.lengthBytes + f.payload + f.rest
    ensures f.Ended? <==> |stream| < 4 || BEToUint32(stream[..4]) == 0 || |stream| < 4 + BEToUint32(stream[..4])
  {
    if |stream| < 4 then Ended
    else
      var n := BEToUint32(stream[..4]);
      if n == 0 || |stream| < 4 + n then Ended
      else
        assert stream == stream[..4] + stream[4..4 + n] + stream[4 + n..];
        Frame(stream[..4], stream[4..4 + n], stream[4 + n..])
  }

  /** `_send_raw`: `json.dumps(payload)` (ASCII-only), UTF-8 encoded, behind its 4-byte length.
      `int.to_bytes(4, ...)` cannot write a length of 2^32 or more. */
  function SendRaw(codec: Codec, msg: Json): (r: Option<bytes>)
    ensures r.Some? <==> IsUint32(|codec.dumps(msg, true)|)
    ensures r.Some? ==> |r.value| >= 4 && r.value[4..] == codec.dumps(msg, true)
  {
    var data := codec.dumps(msg, true);
    if IsUint32(|data|) then Some(Uint32ToBE(|data|) + data) else None
  }

  /** The relay reads back whatever it writes, so a peer relay client sees the envelope it was sent. */
  lemma SendRawRead(codec: Codec, msg: Json, rest: bytes)
    requires Lawful(codec)
    requires SendRaw(codec, msg).Some?
    ensures var f := ReadRelayFrame(SendRaw(codec, msg).value + rest);
      f.Frame? && codec.loads(f.payload) == Parsed(msg) && f.rest == rest
  {
    var data := codec.dumps(msg, true);
    var s := Uint32ToBE(|data|) + data + rest;
    assert s[..4] == Uint32ToBE(|data|);
    DecodeEncode(|data|);
    assert s[4..4 + |data|] == data;
  }

  function ErrorMsg(code: string, message: string): Json {
    JObj(map["type" := JStr("relay_error"), "code" := JStr(code), "message" := JStr(message)])
  }

  /** `_send_ack`: the room's occupied roles and the number of registered sockets. */
  function Ack(r: Relay, roomId: string, role: string): (j: Json)
    ensures j.JObj? && Get(j.fields, "type") == JStr("relay_ack")
    ensures Get(j.fields, "active_in_room") == JInt(if roomId in r.rooms then |r.rooms[roomId]| else 0)
    ensures Get(j.fields, "active_total") == JInt(|r.clients|)
  {
    var room := if roomId in r.rooms then r.rooms[roomId] else map[];
    JObj(map["type" := JStr("relay_ack"), "room_id" := JStr(roomId), "role" := JStr(role),
             "active_in_room" := JInt(|room|), "active_total" := JInt(|r.clients|)])
  }

  /** The state after one frame, what was sent, and whether the handler goes on reading. */
  datatype Step = Step(relay: Relay, local: Local, out: seq<Out>, open: bool)

  /** One decoded frame, registering through `_register_client` as written (`AsWritten`) or through
      the corrected `Register`. `render` is `str()` of a non-string value; `why` the text of a
      decoding error. Whatever the frame, other sockets keep their metadata and their slots. */
  function HandleFrame(v: Variant, r: Relay, conn: ConnId, addr: string, local: Local, now: real, loaded: Loaded,
                       lengthBytes: bytes, payload: bytes, render: Json -> string, why: string): (s: Step)
    ensures !loaded.Parsed? ==> s == Step(r, local, [Reply(conn, ErrorMsg("INVALID_JSON", "Invalid JSON payload: " + why))], false)
    ensures loaded.Parsed? && !loaded.value.JObj? ==> s == Step(r, local, [], false)
    ensures s.open ==> (s.relay.rooms == r.rooms || (s.local.roomId.Some? && s.local.role.Some? &&
      Slot(s.relay.rooms, s.local.roomId.value, s.local.role.value) == Some(conn)))
    ensures forall c :: c != conn ==> Dicts.Get(s.relay.clients, c) == Dicts.Get(r.clients, c)
    ensures forall rid, role :: Slot(r.rooms, rid, role).Some? && Slot(r.rooms, rid, role) != Some(conn) ==>
      Slot(s.relay.rooms, rid, role) == Slot(r.rooms, rid, role)
  {
    match loaded
    case JsonDecodeError => Step(r, local, [Reply(conn, ErrorMsg("INVALID_JSON", "Invalid JSON payload: " + why))], false)
    case UnicodeDecodeError => Step(r, local, [Reply(conn, ErrorMsg("INVALID_JSON", "Invalid JSON payload: " + why))], false)
    case Parsed(j) =>
      if !j.JObj? then Step(r, local, [], false)
      else
        var m := j.fields;
        if Get(m, "type") == JStr("relay_register") then
          var roomId := PyStr(Or(Get(m, "room_id"), JStr("default")), render);
          var role := PyStr(Or(Get(m, "role"), JStr("guest")), render);
          var local' := Local(Some(roomId), Some(role));
          if role != HOST && role != GUEST then
            Step(r, local', [Reply(conn, ErrorMsg("INVALID_ROLE", "Invalid role: " + role))], false)
          else if roomId == "" then
            Step(r, local', [Reply(conn, ErrorMsg("INVALID_ROOM", "Empty room_id"))], false)
          else
            match RegisterWith(v, r, roomId, role, conn, addr, now)
            case Refused(reason) => Step(r, local', [Reply(conn, ErrorMsg("REGISTER_FAILED", reason))], false)
            case Registered(r') => Step(r', local', [Reply(conn, Ack(r', roomId, role))], true)
        else
          // `heartbeat` and every other type are forwarded alike
          var r' := Touch(r, conn, now);
          var out := match Target(r', local)
            case Some(t) => [Forward(t, lengthBytes + payload)]
            case None => [];
          Step(r', local, out, true)
  }

  /** A frame is valid for the table when it keeps it valid and its locals name the socket's slot. */
  ghost predicate InSync(r: Relay, conn: ConnId, local: Local) {
    Dicts.Get(r.clients, conn).Some? ==>
      local == Local(Some(Dicts.Get(r.clients, conn).value.roomId), Some(Dicts.Get(r.clients, conn).value.role))
  }

  lemma HandleFrameKeepsValid(r: Relay, conn: ConnId, addr: string, local: Local, now: real, loaded: Loaded,
                              lengthBytes: bytes, payload: bytes, render: Json -> string, why: string)
    requires Valid(r) && InSync(r, conn, local)
    ensures var s := HandleFrame(Corrected, r, conn, addr, local, now, loaded, lengthBytes, payload, render, why);
      Valid(s.relay) && (s.open ==> InSync(s.relay, conn, s.local))
  {
    if loaded.Parsed? && loaded.value.JObj? {
      var m := loaded.value.fields;
      if Get(m, "type") == JStr("relay_register") {
        var roomId := PyStr(Or(Get(m, "room_id"), JStr("default")), render);
        var role := PyStr(Or(Get(m, "role"), JStr("guest")), render);
        if (role == HOST || role == GUEST) && roomId != "" {
          RegisterKeepsValid(r, roomId, role, conn, addr, now);
        }
      }
    }
  }

  /** Under either registration, every registered socket still holds the slot its metadata names. */
  lemma HandleFrameKeepsSound(v: Variant, r: Relay, conn: ConnId, addr: string, local: Local, now: real, loaded: Loaded,
                              lengthBytes: bytes, payload: bytes, render: Json -> string, why: string)
    requires Sound(r)
    ensures Sound(HandleFrame(v, r, conn, addr, local, now, loaded, lengthBytes, payload, render, why).relay)
  {
    if loaded.Parsed? && loaded.value.JObj? {
      var m := loaded.value.fields;
      if Get(m, "type") == JStr("relay_register") {
        var roomId := PyStr(Or(Get(m, "room_id"), JStr("default")), render);
        var role := PyStr(Or(Get(m, "role"), JStr("guest")), render);
        if (role == HOST || role == GUEST) && roomId != "" {
          RegisterKeepsSound(v, r, roomId, role, conn, addr, now);
        }
      }
    }
  }

  /** A registration frame without `room_id` or `role` joins room "default" as a guest. */
  lemma RegisterDefaults(v: Variant, r: Relay, conn: ConnId, addr: string, local: Local, now: real,
                         lengthBytes: bytes, payload: bytes, render: Json -> string, why: string)
    ensures var s := HandleFrame(v, r, conn, addr, local, now, Parsed(JObj(map["type" := JStr("relay_register")])),
                                 lengthBytes, payload, render, why);
      && s.local == Local(Some("default"), Some(GUEST))
      && (s.open <==> Slot(r.rooms, "default", GUEST).None? || Slot(r.rooms, "default", GUEST) == Some(conn))
  {
  }

  /** A role other than the two is answered with INVALID_ROLE and ends the connection; no slot changes. */
  lemma InvalidRoleEnds(v: Variant, r: Relay, conn: ConnId, addr: string, local: Local, now: real, m: Object,
                        lengthBytes: bytes, payload: bytes, render: Json -> string, why: string)
    requires Get(m, "type") == JStr("relay_register")
    requires Get(m, "role") == JStr("admin")
    ensures var s := HandleFrame(v, r, conn, addr, local, now, Parsed(JObj(m)), lengthBytes, payload, render, why);
      && s.relay == r && !s.open
      && s.out == [Reply(conn, ErrorMsg("INVALID_ROLE", "Invalid role: admin"))]
  {
    assert Or(Get(m, "role"), JStr("guest")) == JStr("admin");
    assert "admin" != HOST && "admin" != GUEST;
    assert "Invalid role: " + "admin" == "Invalid role: admin";
  }

  /** A slot held by another socket is refused with REGISTER_FAILED; no slot changes. Re-registering
      into one's own slot succeeds. */
  lemma RegisterConflict(v: Variant, r: Relay, conn: ConnId, addr: string, local: Local, now: real, rid: string, role: string,
                         lengthBytes: bytes, payload: bytes, render: Json -> string, why: string)
    requires role == HOST || role == GUEST
    requires rid != ""
    ensures var s := HandleFrame(v, r, conn, addr, local, now,
                                 Parsed(JObj(map["type" := JStr("relay_register"), "room_id" := JStr(rid), "role" := JStr(role)])),
                                 lengthBytes, payload, render, why);
      && (Slot(r.rooms, rid, role).Some? && Slot(r.rooms, rid, role) != Some(conn) ==>
            s.relay == r && !s.open && s.out == [Reply(conn, ErrorMsg("REGISTER_FAILED", Conflict(role, rid)))])
      && (Slot(r.rooms, rid, role) == Some(conn) ==>
            s.open && Slot(s.relay.rooms, rid, role) == Some(conn) && s.out == [Reply(conn, Ack(s.relay, rid, role))])
  {
    var m := map["type" := JStr("relay_register"), "room_id" := JStr(rid), "role" := JStr(role)];
    assert Get(m, "room_id") == JStr(rid) && Get(m, "role") == JStr(role);
  }

  /** Any other frame refreshes `last_seen` and is forwarded to the peer as the very bytes received. */
  lemma ForwardVerbatim(v: Variant, r: Relay, conn: ConnId, addr: string, local: Local, now: real, m: Object, stream: bytes,
                        render: Json -> string, why: string)
    requires ReadRelayFrame(stream).Frame?
    requires Get(m, "type") != JStr("relay_register")
    ensures var f := ReadRelayFrame(stream);
      var s := HandleFrame(v, r, conn, addr, local, now, Parsed(JObj(m)), f.lengthBytes, f.payload, render, why);
      && s.open && s.relay.rooms == r.rooms
      && (Dicts.Get(r.clients, conn).Some? ==> Dicts.Get(s.relay.clients, conn).value.lastSeen == now)
      && (Target(r, local).Some? ==> s.out == [Forward(Target(r, local).value, stream[..|stream| - |f.rest|])])
      && (Target(r, local).None? ==> s.out == [])
  {
    var f := ReadRelayFrame(stream);
    assert stream[..|stream| - |f.rest|] == f.lengthBytes + f.payload;
  }

  /** `_handle_client`: frames until the stream ends or a handler gives up, then `_cleanup_connection`.
      `clock(k)` is the time at which the k-th frame is handled. */
  function Serve(v: Variant, codec: Codec, r: Relay, conn: ConnId, addr: string, local: Local, clock: nat -> real, k: nat,
                 stream: bytes, render: Json -> string, why: bytes -> string): (res: (Relay, seq<Out>))
    ensures Dicts.Get(res.0.clients, conn) == None
    ensures forall c :: c != conn ==> Dicts.Get(res.0.clients, c) == Dicts.Get(r.clients, c)
    ensures forall rid, role :: Slot(r.rooms, rid, role).Some? && Slot(r.rooms, rid, role) != Some(conn) ==>
      Slot(res.0.rooms, rid, role) == Slot(r.rooms, rid, role)
    decreases |stream|
  {
    match ReadRelayFrame(stream)
    case Ended => (Cleanup(r, conn, local), [])
    case Frame(lengthBytes, payload, rest) =>
      var s := HandleFrame(v, r, conn, addr, local, clock(k), codec.loads(payload), lengthBytes, payload, render, why(payload));
      if !s.open then (Cleanup(s.relay, conn, s.local), s.out)
      else
        var tail := Serve(v, codec, s.relay, conn, addr, s.local, clock, k + 1, rest, render, why);
        (tail.0, s.out + tail.1)
  }

  /** With the corrected registration, a whole connection, from any valid table, leaves a valid
      table in which it holds no slot. */
  lemma {:induction false} ServeKeepsValid(codec: Codec, r: Relay, conn: ConnId, addr: string, local: Local,
                                           clock: nat -> real, k: nat, stream: bytes, render: Json -> string, why: bytes -> string)
    requires Valid(r) && InSync(r, conn, local)
    ensures var res := Serve(Corrected, codec, r, conn, addr, local, clock, k, stream, render, why);
      Valid(res.0) && forall rid, role :: Slot(res.0.rooms, rid, role) != Some(conn)
    decreases |stream|
  {
    match ReadRelayFrame(stream)
    case Ended => CleanupFreesSlots(r, conn, local);
    case Frame(lengthBytes, payload, rest) =>
      var s := HandleFrame(Corrected, r, conn, addr, local, clock(k), codec.loads(payload), lengthBytes, payload, render, why(payload));
      HandleFrameKeepsValid(r, conn, addr, local, clock(k), codec.loads(payload), lengthBytes, payload, render, why(payload));
      if !s.open {
        CleanupFreesSlots(s.relay, conn, s.local);
      } else {
        ServeKeepsValid(codec, s.relay, conn, addr, s.local, clock, k + 1, rest, render, why);
      }
  }

  /** Under either registration, and so under the code as written, a whole connection keeps every
      registered socket in the slot its metadata names. */
  lemma {:induction false} ServeKeepsSound(v: Variant, codec: Codec, r: Relay, conn: ConnId, addr: string, local: Local,
                                           clock: nat -> real, k: nat, stream: bytes, render: Json -> string, why: bytes -> string)
    requires Sound(r)
    ensures Sound(Serve(v, codec, r, conn, addr, local, clock, k, stream, render, why).0)
    decreases |stream|
  {
    match ReadRelayFrame(stream)
    case Ended =>
    case Frame(lengthBytes, payload, rest) =>
      var s := HandleFrame(v, r, conn, addr, local, clock(k), codec.loads(payload), lengthBytes, payload, render, why(payload));
      HandleFrameKeepsSound(v, r, conn, addr, local, clock(k), codec.loads(payload), lengthBytes, payload, render, why(payload));
      if s.open {
        ServeKeepsSound(v, codec, s.relay, conn, addr, s.local, clock, k + 1, rest, render, why);
      }
  }

  /** Whether the monitor treats a socket as gone: silent for strictly more than the timeout. */
  predicate Stale(m: Meta, now: real) {
    now - m.lastSeen > HEARTBEAT_TIMEOUT
  }

  /** The monitor's `stale` list, in registration order. */
  function StaleConns(clients: Dicts.Dict<ConnId, Meta>, now: real): (r: seq<ConnId>)
    ensures forall c :: c in r <==> Dicts.Get(clients, c).Some? && Stale(Dicts.Get(clients, c).value, now)
  {
    if clients == [] then []
    else
      var tail: Dicts.Dict<ConnId, Meta> := clients[1..];
      forall c | c != clients[0].0
        ensures Dicts.Get(tail, c) == Dicts.Get(clients, c)
      {
        if Dicts.Get(tail, c).Some? {
          var i := Dicts.Find(tail, c).value;
          assert clients[i + 1] == tail[i];
        }
      }
      assert clients[0].0 !in Dicts.Keys(tail) by {
        assert forall i :: 0 <= i < |tail| ==> tail[i] == clients[i + 1];
      }
      var rest := StaleConns(tail, now);
      if Stale(clients[0].1, now) then [clients[0].0] + rest else rest
  }

  /** Cleaning up each listed socket in turn, with the room and role its metadata names. */
  function Evict(r: Relay, conns: seq<ConnId>): (r': Relay)
    ensures forall c :: c in conns ==> Dicts.Get(r'.clients, c) == None
    ensures forall c :: c !in conns ==> Dicts.Get(r'.clients, c) == Dicts.Get(r.clients, c)
    ensures NoEmptyRoom(r.rooms) ==> NoEmptyRoom(r'.rooms)
    ensures RolesValid(r.rooms) ==> RolesValid(r'.rooms)
    ensures Held(r) ==> Held(r')
    decreases |conns|
  {
    if conns == [] then r
    else
      var local := match Dicts.Get(r.clients, conns[0])
        case Some(m) => Local(Some(m.roomId), Some(m.role))
        case None => NO_LOCAL;
      Evict(Cleanup(r, conns[0], local), conns[1..])
  }

  lemma {:induction false} EvictKeepsValid(r: Relay, conns: seq<ConnId>)
    requires Valid(r)
    ensures Valid(Evict(r, conns))
    decreases |conns|
  {
    if conns != [] {
      var local := match Dicts.Get(r.clients, conns[0])
        case Some(m) => Local(Some(m.roomId), Some(m.role))
        case None => NO_LOCAL;
      CleanupFreesSlots(r, conns[0], local);
      EvictKeepsValid(Cleanup(r, conns[0], local), conns[1..]);
    }
  }

  /** One round of `_monitor_loop` at time `now`: exactly the sockets silent for more than 60
      seconds lose their metadata, every other socket keeps its own, and every remaining socket
      still holds the slot its metadata names. */
  function Monitor(r: Relay, now: real): (r': Relay)
    ensures forall c :: Dicts.Get(r.clients, c).Some? && Stale(Dicts.Get(r.clients, c).value, now) ==> Dicts.Get(r'.clients, c) == None
    ensures forall c :: Dicts.Get(r.clients, c).Some? && !Stale(Dicts.Get(r.clients, c).value, now) ==> Dicts.Get(r'.clients, c) == Dicts.Get(r.clients, c)
    ensures forall c :: Dicts.Get(r.clients, c).None? ==> Dicts.Get(r'.clients, c) == None
    ensures Sound(r) ==> Sound(r')
  {
    Evict(r, StaleConns(r.clients, now))
  }

  /** On a valid table the monitor keeps the table valid. */
  lemma MonitorKeepsValid(r: Relay, now: real)
    requires Valid(r)
    ensures Valid(Monitor(r, now))
  {
    EvictKeepsValid(r, StaleConns(r.clients, now));
  }

  /** The code as written lets a socket that re-registers into another slot keep the old one: after
      it leaves, the old slot still names it and nobody else can ever take that role. */
  lemma StaleSlotAsWritten()
    ensures var r1 := RegisterAsWritten(EMPTY, "A", HOST, 1, "a", 0.0).relay;
      var r2 := RegisterAsWritten(r1, "B", GUEST, 1, "a", 1.0).relay;
      var r3 := Cleanup(r2, 1, Local(Some("B"), Some(GUEST)));
      && Dicts.Get(r3.clients, 1) == None
      && Slot(r3.rooms, "A", HOST) == Some(1)
      && RegisterAsWritten(r3, "A", HOST, 2, "b", 2.0) == Refused(Conflict(HOST, "A"))
  {
    var r1 := RegisterAsWritten(EMPTY, "A", HOST, 1, "a", 0.0).relay;
    var r2 := RegisterAsWritten(r1, "B", GUEST, 1, "a", 1.0).relay;
    assert Slot(r2.rooms, "A", HOST) == Some(1);
    assert Dicts.Get(r2.clients, 1) == Some(Meta("B", GUEST, "a", 1.0));
  }

  /** With the old slot freed on re-registration, the same sequence lets the second socket in. */
  lemma StaleSlotCorrected()
    ensures var r1 := Register(EMPTY, "A", HOST, 1, "a", 0.0).relay;
      var r2 := Register(r1, "B", GUEST, 1, "a", 1.0).relay;
      var r3 := Cleanup(r2, 1, Local(Some("B"), Some(GUEST)));
      && Slot(r3.rooms, "A", HOST) == None
      && Register(r3, "A", HOST, 2, "b", 2.0).Registered?
  {
    assert Valid(EMPTY);
    RegisterKeepsValid(EMPTY, "A", HOST, 1, "a", 0.0);
    var r1 := Register(EMPTY, "A", HOST, 1, "a", 0.0).relay;
    RegisterKeepsValid(r1, "B", GUEST, 1, "a", 1.0);
    var r2 := Register(r1, "B", GUEST, 1, "a", 1.0).relay;
    CleanupFreesSlots(r2, 1, Local(Some("B"), Some(GUEST)));
  }

  /** The code as written lets a socket that re-registers into the other role of its own room keep
      the first slot, so its peer is itself: every frame it sends afterwards comes back to it. The
      table is still Sound. */
  lemma SelfEchoAsWritten()
    ensures var r1 := RegisterAsWritten(EMPTY, "A", HOST, 1, "a", 0.0).relay;
      var r2 := RegisterAsWritten(r1, "A", GUEST, 1, "a", 1.0).relay;
      && Sound(r2)
      && Dicts.Get(r2.clients, 1) == Some(Meta("A", GUEST, "a", 1.0))
      && Target(r2, Local(Some("A"), Some(GUEST))) == Some(1)
  {
    assert Sound(EMPTY);
    RegisterKeepsSound(AsWritten, EMPTY, "A", HOST, 1, "a", 0.0);
    var r1 := RegisterAsWritten(EMPTY, "A", HOST, 1, "a", 0.0).relay;
    RegisterKeepsSound(AsWritten, r1, "A", GUEST, 1, "a", 1.0);
  }

  /** With the old slot freed on re-registration, the same sequence leaves the socket alone in the
      room, and its frames are dropped rather than echoed. */
  lemma SelfEchoCorrected()
    ensures var r1 := Register(EMPTY, "A", HOST, 1, "a", 0.0).relay;
      var r2 := Register(r1, "A", GUEST, 1, "a", 1.0).relay;
      && Valid(r2)
      && Dicts.Get(r2.clients, 1) == Some(Meta("A", GUEST, "a", 1.0))
      && Target(r2, Local(Some("A"), Some(GUEST))) == None
  {
    assert Valid(EMPTY);
    RegisterKeepsValid(EMPTY, "A", HOST, 1, "a", 0.0);
    var r1 := Register(EMPTY, "A", HOST, 1, "a", 0.0).relay;
    RegisterKeepsValid(r1, "A", GUEST, 1, "a", 1.0);
    var r2 := Register(r1, "A", GUEST, 1, "a", 1.0).relay;
    TargetIsPeer(r2, 1, "A", GUEST);
  }
}
