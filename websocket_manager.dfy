/**
 * The backend's registry of open chat sockets (`ConnectionManager`): a list of
 * connections that `connect` appends to, `disconnect` removes the first occurrence
 * from, and `broadcast` walks in order. Sockets are opaque ids; the effects the
 * manager has on them (`accept`, `send_text`) are recorded, in order, in `effects`.
 */
module WebsocketManager {

  /** An opaque WebSocket; two are the same socket exactly when their ids are equal. */
  type SocketId = nat

  /** An effect on a socket: the handshake accepted, or one text frame sent. */
  datatype Effect = Accept(socket: SocketId) | SendText(socket: SocketId, message: string)

  // ---------------------------------------------------------------------------
  // List operations the manager relies on

  /** The index `list.remove` finds: the first occurrence of `x`. */
  function FirstIndex(s: seq<SocketId>, x: SocketId): (i: nat)
    requires x in s
    ensures i < |s| && s[i] == x && x !in s[..i]
  {
    if s[0] == x then 0
    else
      var j := FirstIndex(s[1..], x);
      assert s[..j + 1] == [s[0]] + s[1..][..j];
      j + 1
  }

  /** `list.remove(x)` on a list that holds `x`; any other list is returned unchanged. */
  function RemoveFirst(s: seq<SocketId>, x: SocketId): (r: seq<SocketId>)
    ensures |r| == if x in s then |s| - 1 else |s|
  {
    if s == [] then []
    else if s[0] == x then s[1..]
    else [s[0]] + RemoveFirst(s[1..], x)
  }

  /**
   * Removing `x` cuts out exactly its first occurrence: the entries before it and
   * the entries after it keep their order, and the list is one shorter.
   */
  lemma {:induction false} RemoveFirstCutsFirst(s: seq<SocketId>, x: SocketId)
    requires x in s
    ensures var i := FirstIndex(s, x);
      RemoveFirst(s, x) == s[..i] + s[i + 1..] && |RemoveFirst(s, x)| == |s| - 1
  {
    if s[0] != x {
      RemoveFirstCutsFirst(s[1..], x);
      var j := FirstIndex(s[1..], x);
      assert s[..j + 1] == [s[0]] + s[1..][..j];
      assert s[j + 2..] == s[1..][j + 1..];
    }
  }

  /** A socket that is not in the list leaves it unchanged. */
  lemma {:induction false} RemoveAbsent(s: seq<SocketId>, x: SocketId)
    requires x !in s
    ensures RemoveFirst(s, x) == s
  {
    if s != [] {
      RemoveAbsent(s[1..], x);
    }
  }

  /** Removal takes away one copy of `x` and nothing else. */
  lemma RemoveFirstMultiset(s: seq<SocketId>, x: SocketId)
    requires x in s
    ensures multiset(RemoveFirst(s, x)) == multiset(s) - multiset{x}
  {
    var i := FirstIndex(s, x);
    RemoveFirstCutsFirst(s, x);
    var a, b := s[..i], s[i + 1..];
    assert s == a + [x] + b;
    assert multiset(s) == multiset(a) + multiset{x} + multiset(b);
    assert multiset(RemoveFirst(s, x)) == multiset(a) + multiset(b);
  }

  /**
   * Connecting and then disconnecting the same socket gives the list back when the
   * socket was new; when it was already registered, its OLDER entry is the one
   * removed and the new entry stays at the end.
   */
  lemma {:induction false} ConnectThenDisconnect(s: seq<SocketId>, x: SocketId)
    ensures x !in s ==> RemoveFirst(s + [x], x) == s
    ensures x in s ==> RemoveFirst(s + [x], x) == RemoveFirst(s, x) + [x]
  {
    if s != [] {
      assert (s + [x])[1..] == s[1..] + [x];
      ConnectThenDisconnect(s[1..], x);
    }
  }

  /** The frames that `broadcast` sends: one per entry of the list, in list order. */
  function BroadcastEffects(connections: seq<SocketId>, message: string): (r: seq<Effect>)
    ensures |r| == |connections|
    ensures forall i :: 0 <= i < |r| ==> r[i] == SendText(connections[i], message)
  {
    if connections == [] then []
    else [SendText(connections[0], message)] + BroadcastEffects(connections[1..], message)
  }

  /** How many entries of `s` are `x`. */
  function Occurrences(s: seq<SocketId>, x: SocketId): nat
  {
    if s == [] then 0 else (if s[0] == x then 1 else 0) + Occurrences(s[1..], x)
  }

  /** How many text frames in `effects` go to `x`. */
  function FramesTo(effects: seq<Effect>, x: SocketId): nat
  {
    if effects == [] then 0
    else (if effects[0].SendText? && effects[0].socket == x then 1 else 0) + FramesTo(effects[1..], x)
  }

  /**
   * A broadcast sends each socket as many frames as it has entries in the list:
   * exactly one when it was connected once, none when it is not connected.
   */
  lemma {:induction false} BroadcastReachesEach(connections: seq<SocketId>, message: string, x: SocketId)
    ensures FramesTo(BroadcastEffects(connections, message), x) == Occurrences(connections, x)
  {
    if connections != [] {
      var r := BroadcastEffects(connections, message);
      assert r[1..] == BroadcastEffects(connections[1..], message);
      BroadcastReachesEach(connections[1..], message, x);
    }
  }

  // ---------------------------------------------------------------------------
  // The manager

  class ConnectionManager {
    /** `active_connections`. */
    var activeConnections: seq<SocketId>
    /** Everything done to sockets so far, in order. */
    var effects: seq<Effect>

    /** `__init__`: no connection yet. */
    constructor ()
      ensures activeConnections == [] && effects == []
    {
      activeConnections := [];
      effects := [];
    }

    /** `connect`: accept the handshake, then append the socket (duplicates are kept). */
    method Connect(websocket: SocketId)
      modifies this
      ensures activeConnections == old(activeConnections) + [websocket]
      ensures effects == old(effects) + [Accept(websocket)]
    {
      effects := effects + [Accept(websocket)];
      activeConnections := activeConnections + [websocket];
    }

    /**
     * `disconnect`: `list.remove` drops the first occurrence of the socket; for a
     * socket that is not registered it raises `ValueError` (`removed` is false)
     * and the list is left as it was.
     */
    method Disconnect(websocket: SocketId) returns (removed: bool)
      modifies this`activeConnections
      ensures removed <==> websocket in old(activeConnections)
      ensures activeConnections == RemoveFirst(old(activeConnections), websocket)
      ensures removed ==> |activeConnections| == |old(activeConnections)| - 1
      ensures !removed ==> activeConnections == old(activeConnections)
    {
      removed := websocket in activeConnections;
      if removed {
        RemoveFirstCutsFirst(activeConnections, websocket);
        activeConnections := RemoveFirst(activeConnections, websocket);
      } else {
        RemoveAbsent(activeConnections, websocket);
      }
    }

    /** `send_personal_message`: one frame to the given socket; the list is not consulted. */
    method SendPersonalMessage(message: string, websocket: SocketId)
      modifies this`effects
      ensures effects == old(effects) + [SendText(websocket, message)]
    {
      effects := effects + [SendText(websocket, message)];
    }

    /** `broadcast`: one frame to every entry of the list, in list order. */
    method Broadcast(message: string)
      modifies this`effects
      ensures effects == old(effects) + BroadcastEffects(activeConnections, message)
    {
      var i := 0;
      while i < |activeConnections|
        invariant 0 <= i <= |activeConnections|
        invariant effects == old(effects) + BroadcastEffects(activeConnections[..i], message)
      {
        assert BroadcastEffects(activeConnections[..i + 1], message) ==
          BroadcastEffects(activeConnections[..i], message) + [SendText(activeConnections[i], message)];
        effects := effects + [SendText(activeConnections[i], message)];
        i := i + 1;
      }
      assert activeConnections[..i] == activeConnections;
    }
  }
}
