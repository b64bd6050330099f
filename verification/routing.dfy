/** What the two chat servers share: the registry of sessions keyed by user id, fan-out of a message
    to the registry, and the `online_users` listing. */
module ChatRouting {
  import opened Wrappers
  import opened JsonValues
  import opened Dicts

  /** A client socket. */
  type ConnId = nat

  /** The registry entry `{"socket": sock, "name": name, "avatar": avatar}`. */
  datatype Session = Session(conn: ConnId, name: Json, avatar: Json)

  /** `clients`: user id (whatever JSON value the register envelope carried) to session. */
  type Registry = Dict<Json, Session>

  /** Every entry of `after` is the one `before` had under that id, or a session on socket `conn`:
      what one connection can do to the registry. */
  ghost predicate OwnChanges(before: Registry, after: Registry, conn: ConnId) {
    forall k :: Dicts.Get(after, k).Some? ==> Dicts.Get(after, k) == Dicts.Get(before, k) || Dicts.Get(after, k).value.conn == conn
  }

  /** One envelope handed to `sendall` on one socket. */
  datatype Delivery = Delivery(to: ConnId, msg: Json)

  /** The registry entries a broadcast visits: all of them, in order, except the one whose id
      equals `exclude`. */
  function Recipients(reg: seq<(Json, Session)>, exclude: Option<Json>): (r: seq<(Json, Session)>)
    ensures |r| <= |reg|
    ensures forall p :: p in r <==> p in reg && exclude != Some(p.0)
    decreases |reg|
  {
    if reg == [] then []
    else
      var tail := Recipients(reg[1..], exclude);
      assert forall p :: p in reg <==> p == reg[0] || p in reg[1..];
      if exclude == Some(reg[0].0) then tail else [reg[0]] + tail
  }

  /** On a registry the excluded id, when registered, is the only entry skipped. */
  lemma {:induction false} RecipientsCount(reg: Registry, exclude: Option<Json>)
    ensures |Recipients(reg, exclude)|
      == |reg| - (if exclude.Some? && exclude.value in Keys(reg) then 1 else 0)
    decreases |reg|
  {
    if reg != [] {
      var tail: Registry := reg[1..];
      RecipientsCount(tail, exclude);
      assert Keys(reg) == [reg[0].0] + Keys(tail);
      if exclude == Some(reg[0].0) {
        forall j | 0 <= j < |tail| ensures Keys(tail)[j] != reg[0].0 {
          assert tail[j] == reg[j + 1];
        }
      }
    }
  }

  /** `_broadcast(message, exclude)`: one delivery per visited entry, to its socket. */
  function Broadcast(reg: seq<(Json, Session)>, msg: Json, exclude: Option<Json>): (r: seq<Delivery>)
    ensures |r| == |Recipients(reg, exclude)|
    ensures forall i :: 0 <= i < |r| ==> r[i] == Delivery(Recipients(reg, exclude)[i].1.conn, msg)
  {
    var rs := Recipients(reg, exclude);
    seq(|rs|, i requires 0 <= i < |rs| => Delivery(rs[i].1.conn, msg))
  }

  /** Every session not excluded receives the message, and every delivery goes to such a session. */
  lemma BroadcastReaches(reg: seq<(Json, Session)>, msg: Json, exclude: Option<Json>)
    ensures forall p :: p in reg && exclude != Some(p.0) ==> Delivery(p.1.conn, msg) in Broadcast(reg, msg, exclude)
    ensures forall d :: d in Broadcast(reg, msg, exclude) ==>
      d.msg == msg && exists p :: p in reg && exclude != Some(p.0) && d.to == p.1.conn
  {
    var rs := Recipients(reg, exclude);
    var r := Broadcast(reg, msg, exclude);
    forall p | p in reg && exclude != Some(p.0)
      ensures Delivery(p.1.conn, msg) in r
    {
      var i :| 0 <= i < |rs| && rs[i] == p;
      assert r[i] == Delivery(p.1.conn, msg);
    }
    forall d | d in r
      ensures d.msg == msg && exists p :: p in reg && exclude != Some(p.0) && d.to == p.1.conn
    {
      var i :| 0 <= i < |r| && r[i] == d;
      assert rs[i] in rs;
    }
  }

  /** One element of the `online_users` list. */
  function UserEntry(uid: Json, name: Json, avatar: Json): Json {
    JObj(map["user_id" := uid, "user_name" := name, "avatar" := avatar])
  }

  /** The `users` list sent to a registrant: every registered user except `self`, in order. */
  function OnlineUserList(reg: seq<(Json, Session)>, self: Json): (r: seq<Json>)
    ensures |r| == |Recipients(reg, Some(self))|
    ensures forall i :: 0 <= i < |r| ==>
      var p := Recipients(reg, Some(self))[i]; r[i] == UserEntry(p.0, p.1.name, p.1.avatar)
  {
    var rs := Recipients(reg, Some(self));
    seq(|rs|, i requires 0 <= i < |rs| => UserEntry(rs[i].0, rs[i].1.name, rs[i].1.avatar))
  }

  /** A user is listed exactly when registered under an id other than `self`, with the registered
      name and avatar. */
  lemma OnlineUsersListed(reg: seq<(Json, Session)>, self: Json, uid: Json, name: Json, avatar: Json)
    ensures UserEntry(uid, name, avatar) in OnlineUserList(reg, self)
      <==> uid != self && exists p :: p in reg && p.0 == uid && p.1.name == name && p.1.avatar == avatar
  {
    var e := UserEntry(uid, name, avatar);
    var rs := Recipients(reg, Some(self));
    var r := OnlineUserList(reg, self);
    if e in r {
      var i :| 0 <= i < |r| && r[i] == e;
      var p := rs[i];
      assert UserEntry(p.0, p.1.name, p.1.avatar) == e;
      assert e.fields["user_id"] == uid && e.fields["user_name"] == name && e.fields["avatar"] == avatar;
      assert p in rs;
    }
    if uid != self && exists p :: p in reg && p.0 == uid && p.1.name == name && p.1.avatar == avatar {
      var p :| p in reg && p.0 == uid && p.1.name == name && p.1.avatar == avatar;
      assert p in rs;
      var i :| 0 <= i < |rs| && rs[i] == p;
      assert r[i] == e;
    }
  }
}
