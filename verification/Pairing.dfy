/** internal/peer/pairing.go and the responder of internal/daemon/peer_pair.go. */
module Pairing {
  import opened Text
  import PeerName

  /** HMAC-SHA256 taken as a free constructor; Junk is any other byte string. */
  datatype Proof = Mac(key: string, message: string) | Junk(n: nat)

  function ProofOf(code: string, senderFP: string, receiverFP: string): Proof {
    Mac(code, senderFP + "|" + receiverFP)
  }

  predicate VerifyProof(proof: Proof, code: string, senderFP: string, receiverFP: string) {
    proof == ProofOf(code, senderFP, receiverFP)
  }

  /** Fingerprints are hexadecimal, so the separator cannot occur in one. */
  predicate IsFingerprint(fp: string) {
    '|' !in fp
  }

  /** A proof determines the code and both fingerprints with their roles. */
  lemma ProofBindsRoles(c1: string, s1: string, r1: string, c2: string, s2: string, r2: string)
    requires IsFingerprint(s1) && IsFingerprint(s2)
    ensures ProofOf(c1, s1, r1) == ProofOf(c2, s2, r2) <==> c1 == c2 && s1 == s2 && r1 == r2
  {
    var m1, m2 := s1 + "|" + r1, s2 + "|" + r2;
    IndexOfFirst(s1, '|', r1);
    IndexOfFirst(s2, '|', r2);
    assert m1[..|s1|] == s1 && m2[..|s2|] == s2;
    assert m1[|s1| + 1..] == r1 && m2[|s2| + 1..] == r2;
  }

  datatype Peer = Peer(name: string, host: string, port: int, fingerprint: string, addedAt: int)

  /** storePeer's effect on peers.json order: update the first entry with this fingerprint, else append. */
  function Stored(peers: seq<Peer>, p: Peer): seq<Peer> {
    if peers == [] then [p]
    else if peers[0].fingerprint == p.fingerprint then [p.(addedAt := peers[0].addedAt)] + peers[1..]
    else [peers[0]] + Stored(peers[1..], p)
  }

  ghost function Fingerprints(peers: seq<Peer>): seq<string> {
    if peers == [] then [] else [peers[0].fingerprint] + Fingerprints(peers[1..])
  }

  /** A re-pair never reorders or duplicates: the fingerprints stay as they are, or one is appended. */
  lemma {:induction false} StoredKeepsOrder(peers: seq<Peer>, p: Peer)
    ensures Fingerprints(Stored(peers, p)) ==
            if p.fingerprint in Fingerprints(peers) then Fingerprints(peers) else Fingerprints(peers) + [p.fingerprint]
  {
    if peers != [] {
      if peers[0].fingerprint == p.fingerprint {
        assert Stored(peers, p)[1..] == peers[1..];
      } else {
        StoredKeepsOrder(peers[1..], p);
        assert Stored(peers, p)[1..] == Stored(peers[1..], p);
      }
    }
  }

  /** The first entry with the fingerprint is refreshed in its place, but for the time it was added; the others stay. */
  lemma {:induction false} StoredReplacesTheFirst(peers: seq<Peer>, p: Peer, i: nat)
    requires i < |peers| && peers[i].fingerprint == p.fingerprint
    requires forall j | 0 <= j < i :: peers[j].fingerprint != p.fingerprint
    ensures Stored(peers, p) == peers[i := Peer(p.name, p.host, p.port, p.fingerprint, peers[i].addedAt)]
  {
    if i > 0 {
      StoredReplacesTheFirst(peers[1..], p, i - 1);
    }
  }

  /** An unknown fingerprint is appended as it is. */
  lemma {:induction false} StoredAppends(peers: seq<Peer>, p: Peer)
    requires forall j | 0 <= j < |peers| :: peers[j].fingerprint != p.fingerprint
    ensures Stored(peers, p) == peers + [p]
  {
    if peers != [] {
      StoredAppends(peers[1..], p);
    }
  }

  datatype Request = Request(name: string, host: string, port: int, proof: Proof)

  /** One daemon's pairing state. */
  datatype Side = Side(fp: string, inviteCode: string, inviteExpires: int, peers: seq<Peer>)

  const INVITE_TTL := 300_000_000_000

  function Invited(side: Side, code: string, now: int): Side {
    side.(inviteCode := code, inviteExpires := now + INVITE_TTL)
  }

  function NewPeer(req: Request, remoteHost: string, clientFP: string, now: int): Peer {
    var host := TrimSpace(req.host);
    Peer(PeerName.Sanitized(req.name), if host == "" then remoteHost else host, req.port, clientFP, now)
  }

  predicate Accepts(side: Side, req: Option<Request>, clientFP: string, now: int) {
    && side.inviteCode != "" && now < side.inviteExpires
    && req.Some? && VerifyProof(req.value.proof, side.inviteCode, clientFP, side.fp)
  }

  /** handlePeerPair: the new state, and the proof sent back unless the request is denied. If
      persisting fails the peer stays listed in memory and the invite stays open. */
  function PairReply(side: Side, req: Option<Request>, remoteHost: string, clientFP: string, now: int, saveOk: bool)
    : (Side, Option<Proof>)
  {
    if !Accepts(side, req, clientFP, now) then (side, None)
    else
      var listed := side.(peers := Stored(side.peers, NewPeer(req.value, remoteHost, clientFP, now)));
      if saveOk then (listed.(inviteCode := ""), Some(ProofOf(side.inviteCode, side.fp, clientFP)))
      else (listed, None)
  }

  class Server {
    const peerFP: string
    var peerInviteCode: string
    var peerInviteExpires: int
    var peerList: seq<Peer>

    constructor (fp: string)
      ensures peerFP == fp && Now() == Side(fp, "", 0, [])
    {
      peerFP := fp;
      peerInviteCode, peerInviteExpires, peerList := "", 0, [];
    }

    ghost function Now(): Side
      reads this
    {
      Side(peerFP, peerInviteCode, peerInviteExpires, peerList)
    }

    method OpenPeerInvite(code: string, now: int)
      modifies this
      ensures Now() == Invited(old(Now()), code, now)
      ensures Now() == old(Now()).(inviteCode := code, inviteExpires := now + 300_000_000_000)
    {
      peerInviteCode := code;
      peerInviteExpires := now + INVITE_TTL;
    }

    method StorePeer(p: Peer, saveOk: bool) returns (ok: bool)
      modifies this`peerList
      ensures peerList == Stored(old(peerList), p) && ok == saveOk
    {
      var replaced := false;
      var i := 0;
      ghost var was := peerList;
      while i < |peerList| && !replaced
        invariant i <= |peerList|
        invariant !replaced ==> peerList == was && Stored(was, p) == was[..i] + Stored(was[i..], p)
        invariant replaced ==> peerList == Stored(was, p)
        decreases !replaced, |peerList| - i
      {
        assert was[i..] == [was[i]] + was[i + 1..];
        if peerList[i].fingerprint == p.fingerprint {
          peerList := peerList[i := p.(addedAt := peerList[i].addedAt)];
          replaced := true;
        } else {
          i := i + 1;
        }
      }
      if !replaced {
        peerList := peerList + [p];
      }
      return saveOk;
    }

    method HandlePeerPair(req: Option<Request>, remoteHost: string, clientFP: string, now: int, saveOk: bool)
      returns (reply: Option<Proof>)
      modifies this
      ensures (Now(), reply) == PairReply(old(Now()), req, remoteHost, clientFP, now, saveOk)
      ensures Now() == old(Now()).(inviteCode := if reply.Some? then "" else old(peerInviteCode), peers := peerList)
      ensures var host := if req.None? then "" else TrimSpace(req.value.host);
              if old(peerInviteCode) != "" && now < old(peerInviteExpires) && req.Some?
                 && req.value.proof == Mac(old(peerInviteCode), clientFP + "|" + peerFP)
              then
                && peerList == Stored(old(peerList), Peer(PeerName.Sanitized(req.value.name),
                                                          if host == "" then remoteHost else host, req.value.port,
                                                          clientFP, now))
                && reply == if saveOk then Some(Mac(old(peerInviteCode), peerFP + "|" + clientFP)) else None
              else peerList == old(peerList) && reply == None
    {
      var code := peerInviteCode;
      var open := code != "" && now < peerInviteExpires;
      if !open {
        return None;
      }
      if req == None {
        return None;
      }
      if !VerifyProof(req.value.proof, code, clientFP, peerFP) {
        return None;
      }
      var host := TrimSpace(req.value.host);
      if host == "" {
        host := remoteHost;
      }
      var name := PeerName.SanitizeName(req.value.name);
      var saved := StorePeer(Peer(name, host, req.value.port, clientFP, now), saveOk);
      if !saved {
        return None;
      }
      peerInviteCode := "";
      return Some(ProofOf(code, peerFP, clientFP));
    }
  }
}
