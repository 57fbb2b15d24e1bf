/**
 * The connection registry `connectedUsers` (user to socket), the handshake token rule,
 * and the connect and disconnect handlers that tie the registry to the queue.
 */
module Sockets {
  import opened Wrappers
  import opened Text
  import opened Documents
  import Matchmaking

  /** `connectedUsers.set(userId, socketId)`: the latest connection wins. */
  function Registered(m: map<UserId, SocketId>, userId: UserId, socketId: SocketId): (r: map<UserId, SocketId>)
    ensures userId in r && r[userId] == socketId
    ensures forall u :: u != userId ==> (u in r <==> u in m)
    ensures forall u :: u != userId && u in m ==> r[u] == m[u]
  {
    m[userId := socketId]
  }

  /** The disconnect rule: forget the user only while the registry still names this socket. */
  function Unregistered(m: map<UserId, SocketId>, userId: UserId, socketId: SocketId): (r: map<UserId, SocketId>)
    ensures userId in m && m[userId] == socketId ==> userId !in r
    ensures !(userId in m && m[userId] == socketId) ==> r == m
    ensures forall u :: u != userId ==> (u in r <==> u in m)
    ensures forall u :: u != userId && u in m ==> r[u] == m[u]
  {
    if userId in m && m[userId] == socketId then m - {userId} else m
  }

  /**
   * A reconnect followed by the late disconnect of the old socket keeps the new socket:
   * the stale disconnect is a no-op.
   */
  lemma StaleDisconnectKeepsNewSocket(m: map<UserId, SocketId>, userId: UserId, oldSocket: SocketId, newSocket: SocketId)
    requires oldSocket != newSocket
    ensures var reconnected := Registered(Registered(m, userId, oldSocket), userId, newSocket);
      Unregistered(reconnected, userId, oldSocket) == reconnected
      && Unregistered(reconnected, userId, oldSocket)[userId] == newSocket
  {
  }

  /** The online count goes up by one on a first connection and down by one on a matching disconnect. */
  lemma OnlineCountChanges(m: map<UserId, SocketId>, userId: UserId, socketId: SocketId)
    ensures |Registered(m, userId, socketId).Keys| == |m.Keys| + (if userId in m then 0 else 1)
    ensures |Unregistered(m, userId, socketId).Keys| == |m.Keys| - (if userId in m && m[userId] == socketId then 1 else 0)
  {
    if userId in m {
      assert Registered(m, userId, socketId).Keys == m.Keys;
    } else {
      assert Registered(m, userId, socketId).Keys == m.Keys + {userId};
    }
    if userId in m && m[userId] == socketId {
      assert m.Keys == Unregistered(m, userId, socketId).Keys + {userId};
    }
  }

  /** The registry of the process. */
  class Registry {
    var connectedUsers: map<UserId, SocketId>

    constructor ()
      ensures connectedUsers == map[]
    {
      connectedUsers := map[];
    }

    /** The `connection` handler's registration. */
    method Connect(userId: UserId, socketId: SocketId)
      modifies this
      ensures connectedUsers == Registered(old(connectedUsers), userId, socketId)
    {
      connectedUsers := connectedUsers[userId := socketId];
    }

    /** The `disconnect` handler's guarded delete. */
    method Disconnect(userId: UserId, socketId: SocketId)
      modifies this
      ensures connectedUsers == Unregistered(old(connectedUsers), userId, socketId)
    {
      if userId in connectedUsers && connectedUsers[userId] == socketId {
        connectedUsers := connectedUsers - {userId};
      }
    }

    /** `getOnlineUserCount`: the number of users with a registered socket. */
    method OnlineUserCount() returns (n: nat)
      ensures n == |connectedUsers.Keys|
    {
      n := |connectedUsers.Keys|;
    }
  }

  /** `disconnect`: the registry rule, then the socket's queue entry goes. */
  method OnDisconnect(registry: Registry, queue: Matchmaking.Queue, userId: UserId, socketId: SocketId)
    modifies registry, queue
    ensures registry.connectedUsers == Unregistered(old(registry.connectedUsers), userId, socketId)
    ensures queue.entries == Matchmaking.WithoutSocket(old(queue.entries), socketId)
    ensures old(queue.Valid()) ==> queue.Valid()
  {
    registry.Disconnect(userId, socketId);
    queue.Leave(socketId);
  }

  /**
   * The handshake token: `auth.token` when it is a non-empty string, otherwise the second
   * space-separated field of the `authorization` header; `None` rejects the connection.
   */
  function Token(authToken: Option<string>, authorization: Option<string>): (r: Option<string>)
    ensures authToken.Some? && authToken.value != "" ==> r == authToken
    ensures r.Some? ==> r.value != ""
    ensures r.Some? && (authToken.None? || authToken.value == "") ==> authorization.Some? && ' ' !in r.value
  {
    if authToken.Some? && authToken.value != "" then authToken
    else if authorization.None? then None
    else
      var fields := Split(authorization.value, ' ');
      if |fields| >= 2 && fields[1] != "" then Some(fields[1]) else None
  }

  /**
   * The header rule for every header: the token is the text between the first space and
   * the next one (or the end), and an empty such field or a header without a space
   * gives no token. `Bearer <t>` is the case `a == "Bearer"`.
   */
  lemma {:induction false} HeaderToken(a: string, t: string, rest: string)
    requires ' ' !in a && ' ' !in t
    ensures Token(None, Some(a + [' '] + t)) == (if t == "" then None else Some(t))
    ensures Token(None, Some(a + [' '] + t + [' '] + rest)) == (if t == "" then None else Some(t))
    ensures Token(None, Some(a)) == None
    ensures Token(None, None) == None
  {
    SplitAtSeparator(a, t, ' ');
    SplitWithoutSeparator(t, ' ');
    assert Split(a + [' '] + t, ' ') == [a, t];
    var tail := t + [' '] + rest;
    assert a + [' '] + t + [' '] + rest == a + [' '] + tail;
    SplitAtSeparator(a, tail, ' ');
    SplitAtSeparator(t, rest, ' ');
    assert Split(a + [' '] + tail, ' ')[1] == t;
    SplitWithoutSeparator(a, ' ');
  }

  /**
   * The auth middleware: a missing token or one the verifier `verify` (the JWT check)
   * refuses rejects the connection; otherwise the socket belongs to the decoded user.
   */
  function Authenticate(authToken: Option<string>, authorization: Option<string>, verify: string -> Option<UserId>): (r: Option<UserId>)
    ensures Token(authToken, authorization).None? ==> r.None?
    ensures Token(authToken, authorization).Some? ==> r == verify(Token(authToken, authorization).value)
  {
    var token := Token(authToken, authorization);
    if token.None? then None else verify(token.value)
  }
}
