/** The relay's registry and protocol handler: the map of open lobbies, the count of admitted
    connections, and the handlers for a new connection, an inbound frame, a closed connection
    and the join grace period. Every frame sent and every connection closed is appended to
    `outbox`. The random peer id and the random lobby secret are parameters. */
module Signalling {
  import opened Wire
  import opened Lobbies

  const MAX_PEERS: nat := 4096
  const MAX_LOBBIES: nat := 1024

  class Server {
    var lobbies: map<string, Lobby>
    var peersCount: int
    var outbox: seq<Event>
    /** The connections admitted and not yet closed. */
    ghost var connected: set<Peer>

    /** Both caps hold, and the counter counts the admitted connections. */
    ghost predicate Valid()
      reads this
    {
      |lobbies| <= MAX_LOBBIES && peersCount == |connected| <= MAX_PEERS
    }

    constructor ()
      ensures Valid()
      ensures lobbies == map[] && peersCount == 0 && outbox == [] && connected == {}
    {
      lobbies := map[];
      peersCount := 0;
      outbox := [];
      connected := {};
    }

    /** The lobby registered under `name`, as a set of at most one object. */
    function Named(name: string): set<Lobby>
      reads this
    {
      if name in lobbies then {lobbies[name]} else {}
    }

    /** The peer names a lobby that is still registered. */
    predicate InLobby(peer: Peer)
      reads this, peer
    {
      peer.lobby != "" && peer.lobby in lobbies
    }

    /** Whether a `J:` request for `name` succeeds: creating a lobby needs room under the cap
        and a peer not yet in a lobby; joining by name needs an open, unsealed lobby. */
    predicate Admits(peer: Peer, name: string)
      reads this, peer, Named(name)
    {
      if name == "" then |lobbies| < MAX_LOBBIES && peer.lobby == ""
      else name in lobbies && !lobbies[name].sealed
    }

    /** The lobbies a request from `peer` may change: the peer's own, and the target of a join. */
    function Affected(peer: Peer, req: Request): set<Lobby>
      reads this, peer
    {
      Named(peer.lobby) + (if req.JoinRequest? then Named(req.name) else {})
    }

    /** The lobbies a frame from `peer` may change. */
    function Touched(peer: Peer, msg: string): set<Lobby>
      reads this, peer
    {
      Affected(peer, Classify(msg))
    }

    /** Neither the peer nor any of the lobbies `touched` changed. */
    twostate predicate Untouched(peer: Peer, touched: set<Lobby>)
      reads peer, touched
    {
      unchanged(peer) && unchanged(touched)
    }

    /** Nothing observable changed. */
    twostate predicate Quiet(peer: Peer, touched: set<Lobby>)
      reads this, peer, touched
    {
      && lobbies == old(lobbies) && outbox == old(outbox)
      && peersCount == old(peersCount) && connected == old(connected)
      && Untouched(peer, touched)
    }

    /** The state after `peer` joined the lobby `name`, or a newly created lobby under `secret`
        when `name` is empty: the peer records the lobby, is appended to it, the join traffic
        goes out and the peer is told the lobby's name last. */
    twostate predicate JoinedAs(peer: Peer, name: string, secret: string)
      reads this, peer, Named(if name == "" then secret else name)
    {
      var target := if name == "" then secret else name;
      && target in lobbies && peer.lobby == target
      && (name == "" ==>
            && fresh(lobbies[target])
            && lobbies == old(lobbies)[target := lobbies[target]]
            && lobbies[target].host == peer.id && lobbies[target].peers == [peer]
            && !lobbies[target].sealed
            && outbox == old(outbox) + JoinTraffic(peer.id, [], peer) + [Send(peer, JoinedNotice(target))])
      && (name != "" ==>
            && lobbies == old(lobbies)
            && lobbies[target].peers == old(lobbies[target].peers) + [peer]
            && lobbies[target].sealed == old(lobbies[target].sealed)
            && outbox == old(outbox)
                         + JoinTraffic(lobbies[target].host, old(lobbies[target].peers), peer)
                         + [Send(peer, JoinedNotice(target))])
    }

    /** The connection handler: a connection at the peer cap is closed without counting it;
        otherwise it becomes a peer with the given random id and no lobby. */
    method Connect(id: nat) returns (peer: Peer?)
      requires Valid()
      modifies this
      ensures Valid() && lobbies == old(lobbies)
      ensures peer == null <==> old(peersCount) >= MAX_PEERS
      ensures peer == null ==>
        peersCount == old(peersCount) && connected == old(connected) && outbox == old(outbox) + [Refuse]
      ensures peer != null ==>
        && fresh(peer) && peer.id == id && peer.lobby == ""
        && peersCount == old(peersCount) + 1 && connected == old(connected) + {peer}
        && outbox == old(outbox)
    {
      if peersCount >= MAX_PEERS {
        outbox := outbox + [Refuse];
        return null;
      }
      peersCount := peersCount + 1;
      peer := new Peer(id);
      connected := connected + {peer};
    }

    /** `joinLobby`: creates a lobby under `secret` when `name` is empty, or joins the lobby
        called `name`; a refused request changes nothing. A secret already in use is
        overwritten by the new lobby. */
    method JoinLobby(peer: Peer, name: string, secret: string) returns (ok: bool)
      requires Valid() && IsSecret(secret)
      modifies this, peer, Named(name)
      ensures Valid() && peersCount == old(peersCount) && connected == old(connected)
      ensures ok == old(Admits(peer, name))
      ensures !ok ==> Quiet(peer, old(Named(name)))
      ensures ok ==> JoinedAs(peer, name, secret)
    {
      var lobbyName := name;
      if lobbyName == "" {
        if |lobbies| >= MAX_LOBBIES {
          return false;
        }
        if peer.lobby != "" {
          return false;
        }
        lobbyName := secret;
        var created := new Lobby(secret, peer.id);
        lobbies := lobbies[secret := created];
      }
      if lobbyName !in lobbies {
        return false;
      }
      var lobby := lobbies[lobbyName];
      if lobby.sealed {
        return false;
      }
      peer.lobby := lobbyName;
      var sent := lobby.Join(peer);
      outbox := outbox + sent + [Send(peer, JoinedNotice(lobbyName))];
      ok := true;
    }

    /** What carrying out `req` from `peer` did, request class by request class: a malformed
        frame is refused; a join succeeds exactly when it is admitted; a seal succeeds exactly
        for the host of the sender's lobby; an addressed frame succeeds exactly when its
        destination is a member of the sender's lobby, and an `O`/`A`/`C` frame then reaches
        that member with the sender's handle. Commands from a peer whose lobby is unset or gone
        are refused. */
    twostate predicate Handled(peer: Peer, req: Request, secret: string, ok: bool)
      reads *
    {
      match req
        case Malformed => !ok
        case JoinRequest(name) =>
          ok == old(Admits(peer, name)) && (ok ==> JoinedAs(peer, name, secret))
        case SealRequest =>
          if !old(InLobby(peer)) then !ok
          else
            var l := old(lobbies[peer.lobby]);
            && ok == (peer.id == l.host)
            && (ok ==>
                  && lobbies == old(lobbies) && unchanged(peer)
                  && l.sealed && l.peers == old(l.peers)
                  && outbox == old(outbox) + Broadcast(l.peers, SEAL_NOTICE))
        case Addressed(header, dest, payload) =>
          if !old(InLobby(peer)) then !ok
          else
            var l := old(lobbies[peer.lobby]);
            var members := old(l.peers);
            var found := if dest.Some? && dest.value != 0 then FindId(members, Resolve(l.host, dest.value)) else None;
            && ok == found.Some?
            && (ok ==>
                  && lobbies == old(lobbies) && unchanged(peer) && unchanged(l)
                  && outbox == old(outbox)
                     + (if IsRelayCode(header)
                        then [Send(members[found.value], Relayed(header[0], Handle(l.host, peer.id), payload))]
                        else []))
    }

    /** `parseMsg`: reads one frame from `peer` and carries it out. A frame that is refused
        changes nothing. */
    method ParseMsg(peer: Peer, msg: string, secret: string) returns (ok: bool)
      requires Valid() && IsSecret(secret)
      modifies this, peer, Touched(peer, msg)
      ensures Valid() && peersCount == old(peersCount) && connected == old(connected)
      ensures !ok ==> Quiet(peer, old(Touched(peer, msg)))
      ensures Handled(peer, Classify(msg), secret, ok)
    {
      ok := Dispatch(peer, Classify(msg), secret);
    }

    /** Carries out a request read from a frame of `peer`. A request that is refused changes
        nothing. */
    method Dispatch(peer: Peer, req: Request, secret: string) returns (ok: bool)
      requires Valid() && IsSecret(secret)
      modifies this, peer, Affected(peer, req)
      ensures Valid() && peersCount == old(peersCount) && connected == old(connected)
      ensures !ok ==> Quiet(peer, old(Affected(peer, req)))
      ensures Handled(peer, req, secret, ok)
    {
      match req
      case Malformed =>
        ok := false;
      case JoinRequest(name) =>
        ok := JoinLobby(peer, name, secret);
      case SealRequest =>
        if peer.lobby == "" || peer.lobby !in lobbies {
          return false;
        }
        ok := SealLobby(peer);
      case Addressed(header, dest, payload) =>
        if peer.lobby == "" || peer.lobby !in lobbies {
          return false;
        }
        ok := Relay(peer, header, dest, payload);
    }

    /** The `S:` branch of `parseMsg`: the sender's lobby is sealed if the sender is its host. */
    method SealLobby(peer: Peer) returns (ok: bool)
      requires InLobby(peer)
      modifies this`outbox, Named(peer.lobby)
      ensures var l := lobbies[peer.lobby];
        && ok == (peer.id == l.host) && l.peers == old(l.peers)
        && (ok ==> l.sealed && outbox == old(outbox) + Broadcast(l.peers, SEAL_NOTICE))
        && (!ok ==> unchanged(l) && outbox == old(outbox))
    {
      var sent;
      ok, sent := lobbies[peer.lobby].Seal(peer);
      outbox := outbox + sent;
    }

    /** The addressed branch of `parseMsg`: the destination must be a number other than 0 and,
        with 1 read as the host, the id of a member of the sender's lobby; an `O`/`A`/`C` frame
        is then forwarded to that member with the sender's handle. */
    method Relay(peer: Peer, header: string, dest: Option<int>, payload: string) returns (ok: bool)
      requires InLobby(peer)
      modifies this`outbox
      ensures
        var l := lobbies[peer.lobby];
        var found := if dest.Some? && dest.value != 0 then FindId(l.peers, Resolve(l.host, dest.value)) else None;
        && ok == found.Some?
        && outbox == old(outbox)
             + (if ok && IsRelayCode(header)
                then [Send(l.peers[found.value], Relayed(header[0], Handle(l.host, peer.id), payload))]
                else [])
    {
      var lobby := lobbies[peer.lobby];
      if dest.None? || dest.value == 0 {
        return false;
      }
      var target := Resolve(lobby.host, dest.value);
      var found := FindId(lobby.peers, target);
      if found.None? {
        return false;
      }
      if IsRelayCode(header) {
        var to := lobby.peers[found.value];
        outbox := outbox + [Send(to, Relayed(header[0], Handle(lobby.host, peer.id), payload))];
      }
      ok := true;
    }

    /** The message handler: every frame has the outcome `parseMsg` gives it, and a frame that
        `parseMsg` refuses also closes the sender's connection and changes nothing else. */
    method Receive(peer: Peer, msg: string, secret: string) returns (ok: bool)
      requires Valid() && IsSecret(secret)
      modifies this, peer, Touched(peer, msg)
      ensures Valid() && peersCount == old(peersCount) && connected == old(connected)
      ensures !ok ==>
        && lobbies == old(lobbies) && Untouched(peer, old(Touched(peer, msg)))
        && outbox == old(outbox) + [Close(peer)]
      ensures Handled(peer, Classify(msg), secret, ok)
    {
      ok := ParseMsg(peer, msg, secret);
      if !ok {
        outbox := outbox + [Close(peer)];
      }
    }

    /** The close handler: the peer stops counting, leaves the lobby it names, and that lobby
        is removed from the registry exactly when the departure closed it. */
    method Disconnect(peer: Peer)
      requires Valid() && peer in connected
      modifies this, peer, Named(peer.lobby)
      ensures Valid()
      ensures peersCount == old(peersCount) - 1 && connected == old(connected) - {peer}
      ensures !old(InLobby(peer)) ==> lobbies == old(lobbies) && outbox == old(outbox) && unchanged(peer)
      ensures old(InLobby(peer)) ==>
        var name := old(peer.lobby);
        var l := old(lobbies[peer.lobby]);
        var hostLeft := peer in old(l.peers) && Handle(l.host, peer.id) == 1;
        && lobbies == (if hostLeft then old(lobbies) - {name} else old(lobbies))
        && peer.lobby == (if hostLeft then "" else name)
        && l.sealed == old(l.sealed)
        && (peer in old(l.peers) ==>
              l.peers == Without(old(l.peers), peer) && outbox == old(outbox) + LeaveTraffic(l.host, old(l.peers), peer))
        && (peer !in old(l.peers) ==> l.peers == old(l.peers) && outbox == old(outbox))
    {
      peersCount := peersCount - 1;
      connected := connected - {peer};
      if peer.lobby != "" && peer.lobby in lobbies {
        var hostLeft, sent := lobbies[peer.lobby].Leave(peer);
        outbox := outbox + sent;
        if hostLeft {
          lobbies := lobbies - {peer.lobby};
          peer.lobby := "";
        }
      }
    }

    /** The join grace period runs out: a peer that has not joined a lobby is closed. */
    method GraceExpired(peer: Peer)
      requires Valid()
      modifies this`outbox
      ensures Valid()
      ensures outbox == old(outbox) + (if peer.lobby == "" then [Close(peer)] else [])
    {
      if peer.lobby == "" {
        outbox := outbox + [Close(peer)];
      }
    }
  }
}
