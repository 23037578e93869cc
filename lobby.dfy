/** Lobbies: a named group of peers with one host, the lobby-relative handles by which members
    address each other, and the traffic that joining, leaving and sealing send out. A peer's
    connection is represented by the peer object itself; what the server would send or close on
    that connection is returned as a sequence of events. */
module Lobbies {
  import opened Wire

  /** A connected client, with the random id it was given and the name of the lobby it last
      joined ("" before any join). */
  class Peer {
    const id: nat
    var lobby: string

    constructor (id: nat)
      ensures this.id == id && lobby == ""
    {
      this.id := id;
      lobby := "";
    }
  }

  /** What the server does on a connection: send it a frame, close it, or refuse a connection
      that was never admitted (no peer exists for it). */
  datatype Event = Send(to: Peer, frame: string) | Close(to: Peer) | Refuse

  // ---------------------------------------------------------------------------------------
  // Handles
  // ---------------------------------------------------------------------------------------

  /** The handle by which lobby members address a peer: the host is 1, everyone else keeps
      its real id. A non-host whose real id happens to be 1 also gets handle 1. */
  function Handle(host: nat, id: nat): (h: nat)
    ensures h == 1 <==> id == host || id == 1
    ensures h != 1 ==> h == id
  {
    if id == host then 1 else id
  }

  /** The real id a destination handle stands for: 1 is the host, anything else is literal. */
  function Resolve(host: nat, dest: int): (id: int)
    ensures dest == 1 ==> id == host
    ensures dest != 1 ==> id == dest
  {
    if dest == 1 then host else dest
  }

  /** Resolving a member's handle gives back its id, except for a non-host whose id is 1. */
  lemma ResolveHandle(host: nat, id: nat)
    ensures Resolve(host, Handle(host, id)) == id <==> (id == host || id != 1)
  {
  }

  // ---------------------------------------------------------------------------------------
  // Looking members up
  // ---------------------------------------------------------------------------------------

  /** `findIndex(p => p === peer)`: the first position of this very peer. */
  function IndexOf(ps: seq<Peer>, peer: Peer): (r: Option<nat>)
    ensures r.Some? <==> peer in ps
    ensures r.Some? ==> r.value < |ps| && ps[r.value] == peer && peer !in ps[..r.value]
  {
    if ps == [] then None
    else if ps[0] == peer then Some(0)
    else
      match IndexOf(ps[1..], peer)
      case None => None
      case Some(i) =>
        assert ps[..i + 1] == [ps[0]] + ps[1..][..i];
        Some(i + 1)
  }

  /** `find(e => e.id === id)`: the first position of a member with this real id. */
  function FindId(ps: seq<Peer>, id: int): (r: Option<nat>)
    ensures r.None? ==> forall j :: 0 <= j < |ps| ==> ps[j].id != id
    ensures r.Some? ==> r.value < |ps| && ps[r.value].id == id
    ensures r.Some? ==> forall j :: 0 <= j < r.value ==> ps[j].id != id
  {
    if ps == [] then None
    else if ps[0].id == id then Some(0)
    else
      match FindId(ps[1..], id)
      case None => None
      case Some(i) => Some(i + 1)
  }

  /** The members with the first occurrence of `peer` spliced out. */
  function Without(ps: seq<Peer>, peer: Peer): (r: seq<Peer>)
    requires peer in ps
    ensures |r| == |ps| - 1
    ensures var i := IndexOf(ps, peer).value;
      && r[..i] == ps[..i]
      && forall k :: i <= k < |r| ==> r[k] == ps[k + 1]
  {
    var i := IndexOf(ps, peer).value;
    ps[..i] + ps[i + 1..]
  }

  /** Splicing removes exactly one occurrence of the leaver and nothing else. */
  lemma WithoutRemovesOne(ps: seq<Peer>, peer: Peer)
    requires peer in ps
    ensures |Without(ps, peer)| == |ps| - 1
    ensures multiset(Without(ps, peer)) == multiset(ps) - multiset{peer}
  {
    var i := IndexOf(ps, peer).value;
    assert ps == ps[..i] + [ps[i]] + ps[i + 1..];
  }

  /** Leaving undoes joining: a peer that joined when not yet listed and then leaves restores
      the member list exactly. */
  lemma LeaveUndoesJoin(ps: seq<Peer>, peer: Peer)
    requires peer !in ps
    ensures peer in ps + [peer] && Without(ps + [peer], peer) == ps
  {
    var qs := ps + [peer];
    var i := IndexOf(qs, peer).value;
    assert forall k :: 0 <= k < |ps| ==> qs[k] == ps[k] && ps[k] != peer;
    assert i == |ps|;
    assert qs[..i] == ps;
  }

  // ---------------------------------------------------------------------------------------
  // Traffic
  // ---------------------------------------------------------------------------------------

  /** The frames sent to `q`, in order. */
  function SentTo(evs: seq<Event>, q: Peer): seq<string> {
    if evs == [] then []
    else
      var e := evs[|evs| - 1];
      SentTo(evs[..|evs| - 1], q) + (if e.Send? && e.to == q then [e.frame] else [])
  }

  /** How many times the connection of `q` is closed. */
  function ClosesOf(evs: seq<Event>, q: Peer): nat {
    if evs == [] then 0
    else
      var e := evs[|evs| - 1];
      ClosesOf(evs[..|evs| - 1], q) + (if e.Close? && e.to == q then 1 else 0)
  }

  /** Appending one event adds at most that event to what `q` sees. */
  lemma AppendOne(evs: seq<Event>, e: Event, q: Peer)
    ensures SentTo(evs + [e], q) == SentTo(evs, q) + (if e.Send? && e.to == q then [e.frame] else [])
    ensures ClosesOf(evs + [e], q) == ClosesOf(evs, q) + (if e.Close? && e.to == q then 1 else 0)
  {
    assert (evs + [e])[..|evs|] == evs;
  }

  function Repeat(frame: string, n: nat): (r: seq<string>)
    ensures |r| == n && forall i :: 0 <= i < n ==> r[i] == frame
  {
    if n == 0 then [] else Repeat(frame, n - 1) + [frame]
  }

  /** One frame to each listed peer, in list order. */
  function Broadcast(ps: seq<Peer>, frame: string): (evs: seq<Event>)
    ensures |evs| == |ps| && forall i :: 0 <= i < |ps| ==> evs[i] == Send(ps[i], frame)
  {
    if ps == [] then [] else Broadcast(ps[..|ps| - 1], frame) + [Send(ps[|ps| - 1], frame)]
  }

  /** A close of each listed peer, in list order. */
  function CloseAll(ps: seq<Peer>): (evs: seq<Event>)
    ensures |evs| == |ps| && forall i :: 0 <= i < |ps| ==> evs[i] == Close(ps[i])
  {
    if ps == [] then [] else CloseAll(ps[..|ps| - 1]) + [Close(ps[|ps| - 1])]
  }

  /** A broadcast reaches each peer once per time it is listed, and closes nothing. */
  lemma {:induction false} BroadcastReaches(ps: seq<Peer>, frame: string, q: Peer)
    ensures SentTo(Broadcast(ps, frame), q) == Repeat(frame, multiset(ps)[q])
    ensures ClosesOf(Broadcast(ps, frame), q) == 0
  {
    if ps != [] {
      var init := ps[..|ps| - 1];
      assert ps == init + [ps[|ps| - 1]];
      BroadcastReaches(init, frame, q);
      assert Broadcast(ps, frame)[..|ps| - 1] == Broadcast(init, frame);
    }
  }

  /** Closing everyone closes each peer once per time it is listed, and sends nothing. */
  lemma {:induction false} CloseAllReaches(ps: seq<Peer>, q: Peer)
    ensures ClosesOf(CloseAll(ps), q) == multiset(ps)[q]
    ensures SentTo(CloseAll(ps), q) == []
  {
    if ps != [] {
      var init := ps[..|ps| - 1];
      assert ps == init + [ps[|ps| - 1]];
      CloseAllReaches(init, q);
      assert CloseAll(ps)[..|ps| - 1] == CloseAll(init);
    }
  }

  /** The `N:` notices a joiner receives: one per existing member, carrying its handle. */
  function NoticesFor(host: nat, ps: seq<Peer>): (frames: seq<string>)
    ensures |frames| == |ps|
    ensures forall i :: 0 <= i < |ps| ==> frames[i] == Notice('N', Handle(host, ps[i].id))
  {
    if ps == [] then []
    else NoticesFor(host, ps[..|ps| - 1]) + [Notice('N', Handle(host, ps[|ps| - 1].id))]
  }

  /** What joining a lobby whose members are `ps` sends: the joiner's own handle first, then for
      each member in order a notice of the joiner to that member and a notice of that member to
      the joiner. */
  function JoinTraffic(host: nat, ps: seq<Peer>, joiner: Peer): (evs: seq<Event>)
    ensures |evs| == 1 + 2 * |ps|
    ensures evs[0] == Send(joiner, Notice('I', Handle(host, joiner.id)))
  {
    if ps == [] then [Send(joiner, Notice('I', Handle(host, joiner.id)))]
    else
      var p := ps[|ps| - 1];
      JoinTraffic(host, ps[..|ps| - 1], joiner)
        + [Send(p, Notice('N', Handle(host, joiner.id))), Send(joiner, Notice('N', Handle(host, p.id)))]
  }

  /** A new joiner receives exactly its `I:` handle and then one `N:` per existing member, in
      member order, and is never closed. */
  lemma {:induction false} JoinTrafficToJoiner(host: nat, ps: seq<Peer>, joiner: Peer)
    requires joiner !in ps
    ensures SentTo(JoinTraffic(host, ps, joiner), joiner)
         == [Notice('I', Handle(host, joiner.id))] + NoticesFor(host, ps)
    ensures ClosesOf(JoinTraffic(host, ps, joiner), joiner) == 0
  {
    if ps != [] {
      var init := ps[..|ps| - 1];
      var p := ps[|ps| - 1];
      assert p in ps;
      assert joiner !in init by { assert forall x :: x in init ==> x in ps; }
      JoinTrafficToJoiner(host, init, joiner);
      var prev := JoinTraffic(host, init, joiner);
      var own := Notice('N', Handle(host, p.id));
      var e1 := Send(p, Notice('N', Handle(host, joiner.id)));
      var e2 := Send(joiner, own);
      assert JoinTraffic(host, ps, joiner) == (prev + [e1]) + [e2];
      AppendOne(prev, e1, joiner);
      assert SentTo(prev + [e1], joiner) == SentTo(prev, joiner);
      AppendOne(prev + [e1], e2, joiner);
      assert SentTo(JoinTraffic(host, ps, joiner), joiner) == SentTo(prev, joiner) + [own];
      assert NoticesFor(host, ps) == NoticesFor(host, init) + [own];
    }
  }

  /** Every other member receives exactly one `N:` notice of the joiner per time it is listed,
      and nothing else. */
  lemma {:induction false} JoinTrafficToMember(host: nat, ps: seq<Peer>, joiner: Peer, q: Peer)
    requires q != joiner
    ensures SentTo(JoinTraffic(host, ps, joiner), q) == Repeat(Notice('N', Handle(host, joiner.id)), multiset(ps)[q])
    ensures ClosesOf(JoinTraffic(host, ps, joiner), q) == 0
  {
    if ps != [] {
      var init := ps[..|ps| - 1];
      var p := ps[|ps| - 1];
      assert ps == init + [p];
      assert multiset(ps) == multiset(init) + multiset{p};
      JoinTrafficToMember(host, init, joiner, q);
      var prev := JoinTraffic(host, init, joiner);
      var notice := Notice('N', Handle(host, joiner.id));
      var e1 := Send(p, notice);
      var e2 := Send(joiner, Notice('N', Handle(host, p.id)));
      assert JoinTraffic(host, ps, joiner) == (prev + [e1]) + [e2];
      AppendOne(prev, e1, q);
      AppendOne(prev + [e1], e2, q);
      var before: multiset<Peer> := multiset(init);
      var n := before[q];
      if p == q {
        assert multiset(ps)[q] == n + 1;
        assert SentTo(JoinTraffic(host, ps, joiner), q) == Repeat(notice, n) + [notice];
      } else {
        assert multiset(ps)[q] == n;
        assert SentTo(JoinTraffic(host, ps, joiner), q) == Repeat(notice, n);
      }
    }
  }

  /** What a member's departure sends to the members `ps` listed at that moment: if the
      leaver's handle is 1 every listed connection is closed, otherwise every listed peer gets
      `D: <leaver's handle>`. */
  function LeaveTraffic(host: nat, ps: seq<Peer>, leaver: Peer): (evs: seq<Event>)
    ensures |evs| == |ps|
    ensures forall i :: 0 <= i < |ps| ==>
      evs[i] == if Handle(host, leaver.id) == 1 then Close(ps[i])
                else Send(ps[i], Notice('D', Handle(host, leaver.id)))
  {
    var h := Handle(host, leaver.id);
    if h == 1 then CloseAll(ps) else Broadcast(ps, Notice('D', h))
  }

  /** Every listed peer, the leaver included, is reached: closed when the leaver holds handle
      1 (the host, or a non-host whose id is 1), sent one departure notice otherwise. */
  lemma LeaveTrafficReaches(host: nat, ps: seq<Peer>, leaver: Peer, q: Peer)
    ensures Handle(host, leaver.id) == 1 ==>
      ClosesOf(LeaveTraffic(host, ps, leaver), q) == multiset(ps)[q]
      && SentTo(LeaveTraffic(host, ps, leaver), q) == []
    ensures Handle(host, leaver.id) != 1 ==>
      SentTo(LeaveTraffic(host, ps, leaver), q) == Repeat(Notice('D', leaver.id), multiset(ps)[q])
      && ClosesOf(LeaveTraffic(host, ps, leaver), q) == 0
  {
    if Handle(host, leaver.id) == 1 {
      CloseAllReaches(ps, q);
    } else {
      BroadcastReaches(ps, Notice('D', leaver.id), q);
    }
  }

  // ---------------------------------------------------------------------------------------
  // The lobby
  // ---------------------------------------------------------------------------------------

  class Lobby {
    const name: string
    /** The real id of the peer that created the lobby. */
    const host: nat
    /** Members in join order. Nothing stops a peer from being listed twice. */
    var peers: seq<Peer>
    var sealed: bool

    constructor (name: string, host: nat)
      ensures this.name == name && this.host == host && peers == [] && !sealed
    {
      this.name := name;
      this.host := host;
      peers := [];
      sealed := false;
    }

    /** Announces the joiner and the members to each other, then appends the joiner. */
    method Join(peer: Peer) returns (sent: seq<Event>)
      modifies this`peers
      ensures peers == old(peers) + [peer]
      ensures sent == JoinTraffic(host, old(peers), peer)
    {
      var handle := Handle(host, peer.id);
      sent := [Send(peer, Notice('I', handle))];
      var i := 0;
      while i < |peers|
        invariant 0 <= i <= |peers|
        invariant sent == JoinTraffic(host, peers[..i], peer)
      {
        var p := peers[i];
        assert peers[..i + 1][..i] == peers[..i];
        sent := sent + [Send(p, Notice('N', handle)), Send(peer, Notice('N', Handle(host, p.id)))];
        i := i + 1;
      }
      assert peers[..i] == peers;
      peers := peers + [peer];
    }

    /** Removes `peer` if it is listed; reports whether its handle is 1, in which case every
        listed connection is closed, otherwise every listed peer is told of the departure. */
    method Leave(peer: Peer) returns (hostLeft: bool, sent: seq<Event>)
      modifies this`peers
      ensures hostLeft == (peer in old(peers) && Handle(host, peer.id) == 1)
      ensures peer !in old(peers) ==> peers == old(peers) && sent == []
      ensures peer in old(peers) ==>
        peers == Without(old(peers), peer) && sent == LeaveTraffic(host, old(peers), peer)
    {
      var idx := IndexOf(peers, peer);
      if idx.None? {
        return false, [];
      }
      var handle := Handle(host, peer.id);
      var close := handle == 1;
      sent := [];
      var i := 0;
      while i < |peers|
        invariant 0 <= i <= |peers|
        invariant sent == if close then CloseAll(peers[..i]) else Broadcast(peers[..i], Notice('D', handle))
      {
        assert peers[..i + 1][..i] == peers[..i];
        if close {
          sent := sent + [Close(peers[i])];
        } else {
          sent := sent + [Send(peers[i], Notice('D', handle))];
        }
        i := i + 1;
      }
      assert peers[..i] == peers;
      peers := peers[..idx.value] + peers[idx.value + 1..];
      hostLeft := close;
    }

    /** Only the host may seal; sealing tells every member and keeps them all. */
    method Seal(peer: Peer) returns (ok: bool, sent: seq<Event>)
      modifies this`sealed
      ensures ok == (peer.id == host)
      ensures ok ==> sealed && sent == Broadcast(peers, SEAL_NOTICE)
      ensures !ok ==> sealed == old(sealed) && sent == []
    {
      if peer.id != host {
        return false, [];
      }
      sealed := true;
      sent := [];
      var i := 0;
      while i < |peers|
        invariant 0 <= i <= |peers|
        invariant sent == Broadcast(peers[..i], SEAL_NOTICE)
      {
        assert peers[..i + 1][..i] == peers[..i];
        sent := sent + [Send(peers[i], SEAL_NOTICE)];
        i := i + 1;
      }
      assert peers[..i] == peers;
      ok := true;
    }
  }
}
