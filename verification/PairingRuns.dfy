/** Any number of daemons pairing over a network that relays, substitutes and replays at will. */
module PairingRuns {
  import opened Text
  import opened Pairing
  import opened Runs

  datatype Phase = Probed | Sent | Answered(proof: Proof) | Paired | Failed

  /** One run of pairWithPeer: serverFP is whoever really holds the other end of the TLS channel. */
  datatype Session = Session(initiator: string, code: string, serverFP: string, phase: Phase)

  /** A pairing that a responder listed; saved if it was also persisted and answered. */
  datatype Grant = Grant(owner: string, peer: string, code: string, saved: bool, at: int)

  datatype State = State(
    now: int,
    sides: map<string, Side>,        // the honest daemons, by fingerprint
    sessions: map<nat, Session>,
    air: set<Proof>,                 // every proof ever sent: the network remembers them all
    issued: map<string, string>,     // invite codes, and who generated them
    openedAt: map<string, int>,      // and when
    last: map<string, string>,       // the code each daemon generated last
    told: set<(string, string)>,     // (daemon, code): codes people typed in
    leaked: set<string>,             // codes the network knows
    grants: seq<Grant>)

  datatype Event =
    | Tick(d: nat)
    | OpenInvite(b: string, code: string)
    | Tell(a: string, code: string)
    | Leak(code: string)
    | Probe(id: nat, a: string, code: string, serverFP: string)
    | Send(id: nat)
    | Deliver(id: nat, req: Request, host: string, saveOk: bool)          // to the honest daemon at the other end
    | AttackRequest(b: string, clientFP: string, body: Option<Request>, host: string, saveOk: bool)
    | AttackReply(id: nat, proof: Proof)
    | Finish(id: nat, peer: Peer, saveOk: bool)

  /** What the network can put into a message: anything sent before, anything under a code it knows. */
  ghost predicate Derivable(s: State, p: Proof) {
    p in s.air || p.Junk? || p.key in s.leaked
  }

  ghost predicate Enabled(s: State, e: Event) {
    match e
    case Tick(_) => true
    case OpenInvite(b, code) => b in s.sides && code !in s.issued && code != ""
    case Tell(a, _) => a in s.sides
    case Leak(_) => true
    case Probe(id, a, code, serverFP) =>
      id !in s.sessions && a in s.sides && (a, code) in s.told && IsFingerprint(serverFP)
    case Send(id) => id in s.sessions && s.sessions[id].phase == Probed
    case Deliver(id, req, _, _) =>
      id in s.sessions && s.sessions[id].phase == Sent && s.sessions[id].serverFP in s.sides
      && req.proof == ProofOf(s.sessions[id].code, s.sessions[id].initiator, s.sessions[id].serverFP)
    case AttackRequest(b, clientFP, body, _, _) =>
      // a client certificate of the network's own, never an honest daemon's
      b in s.sides && clientFP !in s.sides && IsFingerprint(clientFP) && (body.Some? ==> Derivable(s, body.value.proof))
    case AttackReply(id, proof) =>
      id in s.sessions && s.sessions[id].phase == Sent && s.sessions[id].serverFP !in s.sides && Derivable(s, proof)
    case Finish(id, peer, _) =>
      id in s.sessions && s.sessions[id].phase.Answered? && peer.fingerprint == s.sessions[id].serverFP
  }

  /** Daemon b handles a pairing request from whoever holds clientFP. */
  ghost function Handle(s: State, b: string, clientFP: string, req: Option<Request>, host: string,
                        saveOk: bool): (State, Option<Proof>)
    requires b in s.sides
  {
    var (side, reply) := PairReply(s.sides[b], req, host, clientFP, s.now, saveOk);
    (s.(sides := s.sides[b := side],
        air := if reply.Some? then s.air + {reply.value} else s.air,
        grants := if Accepts(s.sides[b], req, clientFP, s.now)
                  then s.grants + [Grant(b, clientFP, s.sides[b].inviteCode, saveOk, s.now)] else s.grants),
     reply)
  }

  ghost function SetPhase(s: State, id: nat, phase: Phase): State
    requires id in s.sessions
  {
    s.(sessions := s.sessions[id := s.sessions[id].(phase := phase)])
  }

  ghost function Apply(s: State, e: Event): State {
    match e
    case Tick(d) => s.(now := s.now + d)
    case OpenInvite(b, code) =>
      if b in s.sides then
        s.(sides := s.sides[b := Invited(s.sides[b], code, s.now)], issued := s.issued[code := b],
           openedAt := s.openedAt[code := s.now], last := s.last[b := code])
      else s
    case Tell(a, code) => s.(told := s.told + {(a, code)})
    case Leak(code) => s.(leaked := s.leaked + {code})
    case Probe(id, a, code, serverFP) => s.(sessions := s.sessions[id := Session(a, code, serverFP, Probed)])
    case Send(id) =>
      if id in s.sessions then
        var n := s.sessions[id];
        SetPhase(s.(air := s.air + {ProofOf(n.code, n.initiator, n.serverFP)}), id, Sent)
      else s
    case Deliver(id, req, host, saveOk) =>
      if id in s.sessions && s.sessions[id].serverFP in s.sides then
        var n := s.sessions[id];
        var (t, reply) := Handle(s, n.serverFP, n.initiator, Some(req), host, saveOk);
        SetPhase(t, id, if reply.Some? then Answered(reply.value) else Failed)
      else s
    case AttackRequest(b, clientFP, body, host, saveOk) =>
      if b in s.sides then Handle(s, b, clientFP, body, host, saveOk).0 else s
    case AttackReply(id, proof) => if id in s.sessions then SetPhase(s, id, Answered(proof)) else s
    case Finish(id, peer, saveOk) =>
      if id in s.sessions && s.sessions[id].phase.Answered? && s.sessions[id].initiator in s.sides then
        var n := s.sessions[id];
        if VerifyProof(n.phase.proof, n.code, n.serverFP, n.initiator) then
          var a := s.sides[n.initiator];
          SetPhase(s.(sides := s.sides[n.initiator := a.(peers := Stored(a.peers, peer))]), id,
                   if saveOk then Paired else Failed)
        else SetPhase(s, id, Failed)
      else s
  }

  ghost function System(): Machine<State, Event> {
    Machine((s, e) => Enabled(s, e), (s, e) => Apply(s, e))
  }

  ghost predicate Initial(s: State) {
    && (forall b | b in s.sides :: IsFingerprint(b) && s.sides[b] == Side(b, "", 0, s.sides[b].peers))
    && s.sessions == map[] && s.air == {} && s.issued == map[] && s.told == {} && s.grants == []
    && s.openedAt == map[] && s.last == map[]
  }

  /** Only `a` was told the code, and the network does not know it. */
  ghost predicate Secret(s: State, code: string, a: string) {
    code !in s.leaked && forall x | (x, code) in s.told :: x == a
  }

  ghost predicate Shape(s: State) {
    && (forall b | b in s.sides :: IsFingerprint(b) && s.sides[b].fp == b)
    && (forall b | b in s.sides && s.sides[b].inviteCode != "" ::
          s.sides[b].inviteCode in s.issued && s.issued[s.sides[b].inviteCode] == b)
    && (forall id | id in s.sessions :: var n := s.sessions[id];
          n.initiator in s.sides && (n.initiator, n.code) in s.told && IsFingerprint(n.serverFP))
    && "" !in s.issued
    && (forall g | g in s.grants ::
          g.owner in s.sides && g.code in s.issued && g.peer in Fingerprints(s.sides[g.owner].peers))
  }

  ghost predicate Granted(s: State, b: string, a: string, code: string) {
    exists g | g in s.grants :: g.owner == b && g.peer == a && g.code == code && g.saved
  }

  /** The proofs under a secret code that are in the air: requests of a, and b's answer to a. */
  ghost predicate AirOk(s: State, code: string, a: string, b: string) {
    forall p | p in s.air && p.Mac? && p.key == code ::
      (exists r :: p == ProofOf(code, a, r)) || (p == ProofOf(code, b, a) && Granted(s, b, a, code))
  }

  ghost predicate SessionOk(s: State, n: Session, a: string, b: string) {
    && n.initiator == a
    && (n.phase.Answered? && VerifyProof(n.phase.proof, n.code, n.serverFP, n.initiator) ==>
          n.serverFP == b && Granted(s, b, n.initiator, n.code))
    && (n.phase == Paired ==>
          && n.serverFP == b && Granted(s, b, n.initiator, n.code) && n.initiator in s.sides
          && b in Fingerprints(s.sides[n.initiator].peers))
  }

  ghost function SavedUnder(grants: seq<Grant>, code: string): nat {
    if grants == [] then 0
    else SavedUnder(grants[..|grants| - 1], code)
         + if grants[|grants| - 1].code == code && grants[|grants| - 1].saved then 1 else 0
  }

  /** What holds of a code that is secret between its issuer b and the one daemon a told of it. */
  ghost predicate CodeOk(s: State, code: string, a: string, b: string) {
    && AirOk(s, code, a, b)
    && (forall id | id in s.sessions && s.sessions[id].code == code :: SessionOk(s, s.sessions[id], a, b))
    && (forall g | g in s.grants && g.code == code :: g.owner == b && g.peer == a)
    && SavedUnder(s.grants, code) <=
       (if code !in s.issued || (b in s.sides && s.sides[b].inviteCode == code) then 0 else 1)
  }

  ghost predicate Premise(s: State, code: string, a: string, b: string) {
    code != "" && a in s.sides && Secret(s, code, a) && (code in s.issued ==> s.issued[code] == b)
  }

  ghost predicate PairingInvariant(s: State, code: string, a: string, b: string) {
    Shape(s) && (Premise(s, code, a, b) ==> CodeOk(s, code, a, b))
  }

  lemma HandleShape(s: State, b: string, clientFP: string, req: Option<Request>, host: string, saveOk: bool)
    requires Shape(s) && b in s.sides
    ensures Shape(Handle(s, b, clientFP, req, host, saveOk).0)
  {
    var t := Handle(s, b, clientFP, req, host, saveOk).0;
    if Accepts(s.sides[b], req, clientFP, s.now) {
      StoredKeepsOrder(s.sides[b].peers, NewPeer(req.value, host, clientFP, s.now));
      assert t.grants == s.grants + [Grant(b, clientFP, s.sides[b].inviteCode, saveOk, s.now)];
    }
    assert forall x | x in s.sides && x != b :: t.sides[x] == s.sides[x];
  }

  lemma ShapeStep(s: State, e: Event)
    requires Shape(s) && Enabled(s, e)
    ensures Shape(Apply(s, e))
  {
    match e
    case Deliver(id, req, host, saveOk) =>
      HandleShape(s, s.sessions[id].serverFP, s.sessions[id].initiator, Some(req), host, saveOk);
    case AttackRequest(b, clientFP, body, host, saveOk) => HandleShape(s, b, clientFP, body, host, saveOk);
    case Finish(id, peer, saveOk) => FinishShape(s, id, peer, saveOk);
    case OpenInvite(_, _) => InviteShape(s, e);
    case _ => PlainShape(s, e);
  }

  lemma InviteShape(s: State, e: Event)
    requires Shape(s) && Enabled(s, e) && e.OpenInvite?
    ensures Shape(Apply(s, e))
  {
  }

  /** Finish touches only the session's phase and the initiator's peer list, which only grows. */
  lemma FinishFrame(s: State, id: nat, peer: Peer, saveOk: bool)
    ensures var t := Apply(s, Finish(id, peer, saveOk));
            && t == s.(sides := t.sides, sessions := t.sessions) && t.sides.Keys == s.sides.Keys
            && t.sessions.Keys == s.sessions.Keys
            && (forall i | i in s.sessions :: t.sessions[i] == s.sessions[i].(phase := t.sessions[i].phase))
            && (forall b | b in s.sides ::
                  && t.sides[b] == s.sides[b].(peers := t.sides[b].peers)
                  && forall fp | fp in Fingerprints(s.sides[b].peers) :: fp in Fingerprints(t.sides[b].peers))
  {
    if id in s.sessions && s.sessions[id].phase.Answered? && s.sessions[id].initiator in s.sides {
      var n, t := s.sessions[id], Apply(s, Finish(id, peer, saveOk));
      var a := s.sides[n.initiator];
      if VerifyProof(n.phase.proof, n.code, n.serverFP, n.initiator) {
        StoredKeepsOrder(a.peers, peer);
        assert t.sides == s.sides[n.initiator := a.(peers := Stored(a.peers, peer))];
      } else {
        assert t.sides == s.sides;
      }
    }
  }

  lemma FinishShape(s: State, id: nat, peer: Peer, saveOk: bool)
    requires Shape(s)
    ensures Shape(Apply(s, Finish(id, peer, saveOk)))
  {
    FinishFrame(s, id, peer, saveOk);
    var t := Apply(s, Finish(id, peer, saveOk));
    assert forall i | i in t.sessions :: i in s.sessions;
  }

  lemma PlainShape(s: State, e: Event)
    requires Shape(s) && Enabled(s, e)
    requires !e.Deliver? && !e.AttackRequest? && !e.Finish? && !e.OpenInvite?
    ensures Shape(Apply(s, e))
  {
  }

  /** A proof under the secret code that the network could send is in the air already. */
  lemma AirProof(s: State, code: string, a: string, b: string, sender: string, receiver: string)
    requires Shape(s) && Premise(s, code, a, b) && CodeOk(s, code, a, b)
    requires Derivable(s, ProofOf(code, sender, receiver)) && IsFingerprint(sender)
    ensures sender == a || (sender == b && receiver == a && Granted(s, b, a, code))
  {
    var p := ProofOf(code, sender, receiver);
    assert p in s.air && p.Mac? && p.key == code;
    if r :| p == ProofOf(code, a, r) {
      ProofBindsRoles(code, sender, receiver, code, a, r);
    } else {
      assert Granted(s, b, a, code);
      ProofBindsRoles(code, sender, receiver, code, b, a);
    }
  }

  lemma {:induction false} SavedUnderNone(grants: seq<Grant>, code: string)
    requires forall g | g in grants :: g.code != code
    ensures SavedUnder(grants, code) == 0
  {
    if grants != [] {
      SavedUnderNone(grants[..|grants| - 1], code);
    }
  }

  lemma HandleKeepsSessions(s: State, code: string, a: string, b: string,
                            x: string, clientFP: string, req: Option<Request>, host: string, saveOk: bool, id: nat)
    requires CodeOk(s, code, a, b) && x in s.sides && id in s.sessions && s.sessions[id].code == code
    ensures SessionOk(Handle(s, x, clientFP, req, host, saveOk).0, s.sessions[id], a, b)
  {
    var t := Handle(s, x, clientFP, req, host, saveOk).0;
    assert SessionOk(s, s.sessions[id], a, b);
    assert forall g | g in s.grants :: g in t.grants;
    if Accepts(s.sides[x], req, clientFP, s.now) {
      StoredKeepsOrder(s.sides[x].peers, NewPeer(req.value, host, clientFP, s.now));
    }
  }

  lemma HandleKeepsGrants(s: State, code: string, a: string, b: string,
                          x: string, clientFP: string, req: Option<Request>, host: string, saveOk: bool)
    requires Shape(s) && Premise(s, code, a, b) && CodeOk(s, code, a, b) && x in s.sides
    requires Accepts(s.sides[x], req, clientFP, s.now) && s.sides[x].inviteCode == code ==> x == b && clientFP == a
    ensures var t := Handle(s, x, clientFP, req, host, saveOk).0;
            && (forall g | g in s.grants :: g in t.grants)
            && (forall g | g in t.grants && g.code == code :: g.owner == b && g.peer == a)
            && SavedUnder(t.grants, code) <=
               (if code !in t.issued || (b in t.sides && t.sides[b].inviteCode == code) then 0 else 1)
  {
    var t := Handle(s, x, clientFP, req, host, saveOk).0;
    if Accepts(s.sides[x], req, clientFP, s.now) {
      var g := Grant(x, clientFP, s.sides[x].inviteCode, saveOk, s.now);
      assert t.grants == s.grants + [g] && t.grants[..|t.grants| - 1] == s.grants;
    }
  }

  /** Handling a request keeps what holds of the code. */
  lemma HandleKeepsCode(s: State, code: string, a: string, b: string,
                        x: string, clientFP: string, req: Option<Request>, host: string, saveOk: bool)
    requires Shape(s) && Premise(s, code, a, b) && CodeOk(s, code, a, b) && x in s.sides
    requires Accepts(s.sides[x], req, clientFP, s.now) && s.sides[x].inviteCode == code ==> x == b && clientFP == a
    ensures var (t, reply) := Handle(s, x, clientFP, req, host, saveOk);
            && CodeOk(t, code, a, b)
            && (reply.Some? ==> reply.value == ProofOf(s.sides[x].inviteCode, x, clientFP))
            && (reply.Some? && s.sides[x].inviteCode == code ==> x == b && clientFP == a && Granted(t, b, a, code))
  {
    var (t, reply) := Handle(s, x, clientFP, req, host, saveOk);
    forall id | id in t.sessions && t.sessions[id].code == code
      ensures SessionOk(t, t.sessions[id], a, b)
    {
      HandleKeepsSessions(s, code, a, b, x, clientFP, req, host, saveOk, id);
    }
    HandleKeepsGrants(s, code, a, b, x, clientFP, req, host, saveOk);
    if Accepts(s.sides[x], req, clientFP, s.now) {
      assert Grant(x, clientFP, s.sides[x].inviteCode, saveOk, s.now) in t.grants;
    }
  }

  lemma DeliverHandled(s: State, e: Event, code: string, a: string, b: string)
    requires e.Deliver? && Shape(s) && Enabled(s, e) && Premise(s, code, a, b) && CodeOk(s, code, a, b)
    ensures var n := s.sessions[e.id];
            var x := n.serverFP;
            var (t, reply) := Handle(s, x, n.initiator, Some(e.req), e.host, e.saveOk);
            && CodeOk(t, code, a, b) && t.sessions == s.sessions
            && (reply.Some? ==> reply.value == ProofOf(s.sides[x].inviteCode, x, n.initiator))
            && (reply.Some? && s.sides[x].inviteCode == code ==> x == b && n.initiator == a && Granted(t, b, a, code))
  {
    var n := s.sessions[e.id];
    var x := n.serverFP;
    if Accepts(s.sides[x], Some(e.req), n.initiator, s.now) && s.sides[x].inviteCode == code {
      ProofBindsRoles(n.code, n.initiator, x, code, n.initiator, x);
      assert SessionOk(s, n, a, b);
    }
    HandleKeepsCode(s, code, a, b, x, n.initiator, Some(e.req), e.host, e.saveOk);
  }

  lemma DeliverSession(s: State, e: Event, code: string, a: string, b: string)
    requires e.Deliver? && Shape(s) && Enabled(s, e) && Premise(s, code, a, b) && CodeOk(s, code, a, b)
    requires s.sessions[e.id].code == code
    ensures SessionOk(Apply(s, e), Apply(s, e).sessions[e.id], a, b)
  {
    var n := s.sessions[e.id];
    var x := n.serverFP;
    DeliverHandled(s, e, code, a, b);
    var (t, reply) := Handle(s, x, n.initiator, Some(e.req), e.host, e.saveOk);
    assert SessionOk(t, t.sessions[e.id], a, b);
    if reply.Some? && VerifyProof(reply.value, code, x, a) {
      ProofBindsRoles(s.sides[x].inviteCode, x, a, code, x, a);
    }
  }

  lemma DeliverKeepsCode(s: State, e: Event, code: string, a: string, b: string)
    requires e.Deliver? && Shape(s) && Enabled(s, e) && Premise(s, code, a, b) && CodeOk(s, code, a, b)
    ensures CodeOk(Apply(s, e), code, a, b)
  {
    var n := s.sessions[e.id];
    DeliverHandled(s, e, code, a, b);
    var (t, reply) := Handle(s, n.serverFP, n.initiator, Some(e.req), e.host, e.saveOk);
    var v := Apply(s, e);
    if n.code == code {
      DeliverSession(s, e, code, a, b);
    }
    forall id | id in v.sessions && v.sessions[id].code == code
      ensures SessionOk(v, v.sessions[id], a, b)
    {
      assert id != e.id ==> SessionOk(t, t.sessions[id], a, b);
    }
    assert AirOk(v, code, a, b);
  }

  lemma AttackKeepsCode(s: State, e: Event, code: string, a: string, b: string)
    requires e.AttackRequest? && Shape(s) && Enabled(s, e) && Premise(s, code, a, b) && CodeOk(s, code, a, b)
    ensures CodeOk(Apply(s, e), code, a, b)
  {
    if Accepts(s.sides[e.b], e.body, e.clientFP, s.now) && s.sides[e.b].inviteCode == code {
      AirProof(s, code, a, b, e.clientFP, e.b);
      assert false;
    }
    HandleKeepsCode(s, code, a, b, e.b, e.clientFP, e.body, e.host, e.saveOk);
  }

  lemma ReplyKeepsCode(s: State, e: Event, code: string, a: string, b: string)
    requires e.AttackReply? && Shape(s) && Enabled(s, e) && Premise(s, code, a, b) && CodeOk(s, code, a, b)
    ensures CodeOk(Apply(s, e), code, a, b)
  {
    var n, v := s.sessions[e.id], Apply(s, e);
    if n.code == code {
      assert SessionOk(s, n, a, b);
      if VerifyProof(e.proof, code, n.serverFP, a) {
        AirProof(s, code, a, b, n.serverFP, a);
      }
    }
    forall id | id in v.sessions && v.sessions[id].code == code
      ensures SessionOk(v, v.sessions[id], a, b)
    {
      assert SessionOk(s, s.sessions[id], a, b);
    }
    assert AirOk(v, code, a, b);
  }

  lemma FinishSession(s: State, e: Event, code: string, a: string, b: string, id: nat)
    requires e.Finish? && Enabled(s, e) && CodeOk(s, code, a, b)
    requires id in s.sessions && s.sessions[id].code == code
    ensures SessionOk(Apply(s, e), Apply(s, e).sessions[id], a, b)
  {
    assert SessionOk(s, s.sessions[id], a, b);
    if id == e.id && s.sessions[id].initiator in s.sides {
      StoredKeepsOrder(s.sides[s.sessions[id].initiator].peers, e.peer);
    } else {
      FinishFrame(s, e.id, e.peer, e.saveOk);
    }
  }

  lemma FinishKeepsCode(s: State, e: Event, code: string, a: string, b: string)
    requires e.Finish? && Shape(s) && Enabled(s, e) && Premise(s, code, a, b) && CodeOk(s, code, a, b)
    ensures CodeOk(Apply(s, e), code, a, b)
  {
    FinishFrame(s, e.id, e.peer, e.saveOk);
    var v := Apply(s, e);
    forall id | id in v.sessions && v.sessions[id].code == code
      ensures SessionOk(v, v.sessions[id], a, b)
    {
      assert id in s.sessions && s.sessions[id].code == code;
      FinishSession(s, e, code, a, b, id);
    }
  }

  lemma PlainAir(s: State, e: Event, code: string, a: string, b: string)
    requires e.Tick? || e.OpenInvite? || e.Tell? || e.Leak? || e.Probe? || e.Send?
    requires Shape(s) && Enabled(s, e) && Premise(s, code, a, b) && CodeOk(s, code, a, b)
    ensures AirOk(Apply(s, e), code, a, b)
  {
    assert Apply(s, e).grants == s.grants;
    if e.Send? && s.sessions[e.id].code == code {
      assert SessionOk(s, s.sessions[e.id], a, b);
    }
  }

  lemma PlainSession(s: State, e: Event, code: string, a: string, b: string, id: nat)
    requires e.Tick? || e.OpenInvite? || e.Tell? || e.Leak? || e.Probe? || e.Send?
    requires Shape(s) && Enabled(s, e) && CodeOk(s, code, a, b) && Premise(Apply(s, e), code, a, b)
    requires id in Apply(s, e).sessions && Apply(s, e).sessions[id].code == code
    ensures SessionOk(Apply(s, e), Apply(s, e).sessions[id], a, b)
  {
    var v := Apply(s, e);
    assert v.grants == s.grants && v.sides.Keys == s.sides.Keys;
    assert id in s.sessions ==> SessionOk(s, s.sessions[id], a, b);
  }

  lemma PlainKeepsCode(s: State, e: Event, code: string, a: string, b: string)
    requires e.Tick? || e.OpenInvite? || e.Tell? || e.Leak? || e.Probe? || e.Send?
    requires Shape(s) && Enabled(s, e) && Premise(s, code, a, b) && CodeOk(s, code, a, b)
    requires Premise(Apply(s, e), code, a, b)
    ensures CodeOk(Apply(s, e), code, a, b)
  {
    var v := Apply(s, e);
    if code !in s.issued {
      SavedUnderNone(s.grants, code);
    }
    forall id | id in v.sessions && v.sessions[id].code == code
      ensures SessionOk(v, v.sessions[id], a, b)
    {
      PlainSession(s, e, code, a, b, id);
    }
    PlainAir(s, e, code, a, b);
  }

  lemma PairingStep(s: State, e: Event, code: string, a: string, b: string)
    requires PairingInvariant(s, code, a, b) && Enabled(s, e)
    ensures PairingInvariant(Apply(s, e), code, a, b)
  {
    ShapeStep(s, e);
    if Premise(Apply(s, e), code, a, b) {
      PremiseWasTrue(s, e, code, a, b);
      match e
      case Deliver(_, _, _, _) => DeliverKeepsCode(s, e, code, a, b);
      case AttackRequest(_, _, _, _, _) => AttackKeepsCode(s, e, code, a, b);
      case AttackReply(_, _) => ReplyKeepsCode(s, e, code, a, b);
      case Finish(_, _, _) => FinishKeepsCode(s, e, code, a, b);
      case _ => PlainKeepsCode(s, e, code, a, b);
    }
  }

  lemma PremiseWasTrue(s: State, e: Event, code: string, a: string, b: string)
    requires Enabled(s, e) && Premise(Apply(s, e), code, a, b)
    ensures Premise(s, code, a, b)
  {
    var t := Apply(s, e);
    assert forall x | (x, code) in s.told :: (x, code) in t.told;
  }

  /** For any number of daemons, codes and runs, and whatever the network relays, replays or forges:
      if the code b issued stays known to b and a alone, then every run of pairWithPeer that succeeds
      with it was started by a, pinned b's own fingerprint and left it listed at a, and b had already
      listed, saved and answered a; everything b ever lists under that code is a's fingerprint; and at
      most one pairing is ever saved under it. */
  lemma PairingAgreement(s: State, events: seq<Event>, code: string, a: string, b: string)
    requires Initial(s) && Legal(System(), s, events)
    requires var t := After(System(), s, events);
             && code in t.issued && t.issued[code] == b && a in t.sides
             && Secret(t, code, a)
    ensures var t := After(System(), s, events);
            && (forall id | id in t.sessions && t.sessions[id].code == code && t.sessions[id].phase == Paired ::
                  && t.sessions[id].initiator == a && t.sessions[id].serverFP == b
                  && b in Fingerprints(t.sides[a].peers) && Granted(t, b, a, code))
            && (forall g | g in t.grants && g.code == code ::
                  g.owner == b && g.peer == a && b in t.sides && a in Fingerprints(t.sides[b].peers))
            && SavedUnder(t.grants, code) <= 1
  {
    forall t, e | PairingInvariant(t, code, a, b) && System().enabled(t, e)
      ensures PairingInvariant(System().apply(t, e), code, a, b)
    {
      PairingStep(t, e, code, a, b);
    }
    Invariant(System(), t => PairingInvariant(t, code, a, b), s, events);
    var t := After(System(), s, events);
    assert Premise(t, code, a, b) && CodeOk(t, code, a, b);
    forall id | id in t.sessions && t.sessions[id].code == code
      ensures SessionOk(t, t.sessions[id], a, b)
    {
    }
  }

  /** No proof under the code that the network holds can be turned against either side: what b would
      accept names a as the sender, and what a would accept names a, or b once b has listed a. */
  lemma ProofsCannotBeReflected(s: State, events: seq<Event>, code: string, a: string, b: string, sender: string,
                                receiver: string)
    requires Initial(s) && Legal(System(), s, events) && IsFingerprint(sender)
    requires var t := After(System(), s, events);
             && code in t.issued && t.issued[code] == b && a in t.sides
             && Secret(t, code, a)
    requires Derivable(After(System(), s, events), ProofOf(code, sender, receiver))
    ensures sender == a || (sender == b && receiver == a && Granted(After(System(), s, events), b, a, code))
  {
    forall t, e | PairingInvariant(t, code, a, b) && System().enabled(t, e)
      ensures PairingInvariant(System().apply(t, e), code, a, b)
    {
      PairingStep(t, e, code, a, b);
    }
    Invariant(System(), t => PairingInvariant(t, code, a, b), s, events);
    AirProof(After(System(), s, events), code, a, b, sender, receiver);
  }

  // ---- When a code is accepted ----

  /** What the invite fields of b say, read off the codes b opened and the pairings saved under them. */
  ghost predicate WindowOk(s: State, b: string) {
    && b in s.sides && s.sides[b].fp == b
    && if b in s.last then
         var code := s.last[b];
         && code != "" && code in s.issued && s.issued[code] == b && code in s.openedAt
         && s.sides[b].inviteExpires == s.openedAt[code] + 300_000_000_000
         && s.sides[b].inviteCode == if SavedUnder(s.grants, code) == 0 then code else ""
       else s.sides[b].inviteCode == ""
  }

  ghost predicate InTime(s: State, g: Grant) {
    && g.code in s.openedAt && g.code in s.issued
    && s.openedAt[g.code] <= g.at <= s.now && g.at < s.openedAt[g.code] + 300_000_000_000
  }

  ghost predicate TimeInvariant(s: State) {
    && (forall b | b in s.sides :: WindowOk(s, b))
    && (forall g | g in s.grants :: InTime(s, g))
    && s.openedAt.Keys == s.issued.Keys && (forall code | code in s.openedAt :: s.openedAt[code] <= s.now)
  }

  lemma HandleInTime(s: State, b: string, clientFP: string, req: Option<Request>, host: string, saveOk: bool)
    requires TimeInvariant(s) && b in s.sides
    ensures TimeInvariant(Handle(s, b, clientFP, req, host, saveOk).0)
  {
    assert WindowOk(s, b);
    var t := Handle(s, b, clientFP, req, host, saveOk).0;
    if Accepts(s.sides[b], req, clientFP, s.now) {
      assert t.grants[..|t.grants| - 1] == s.grants;
    }
    forall x | x in t.sides
      ensures WindowOk(t, x)
    {
      assert WindowOk(s, x);
    }
  }

  lemma InviteInTime(s: State, b: string, code: string)
    requires TimeInvariant(s) && Enabled(s, OpenInvite(b, code))
    ensures TimeInvariant(Apply(s, OpenInvite(b, code)))
  {
    var t := Apply(s, OpenInvite(b, code));
    SavedUnderNone(s.grants, code);
    forall x | x in t.sides
      ensures WindowOk(t, x)
    {
      assert WindowOk(s, x);
    }
  }

  lemma TimeStep(s: State, e: Event)
    requires TimeInvariant(s) && Enabled(s, e)
    ensures TimeInvariant(Apply(s, e))
  {
    match e
    case Deliver(id, req, host, saveOk) =>
      HandleInTime(s, s.sessions[id].serverFP, s.sessions[id].initiator, Some(req), host, saveOk);
    case AttackRequest(b, clientFP, body, host, saveOk) => HandleInTime(s, b, clientFP, body, host, saveOk);
    case OpenInvite(b, code) => InviteInTime(s, b, code);
    case Finish(id, peer, saveOk) =>
      FinishFrame(s, id, peer, saveOk);
      StillInTime(s, Apply(s, e));
    case _ => StillInTime(s, Apply(s, e));
  }

  /** Nothing else touches an invite or a grant. */
  lemma StillInTime(s: State, t: State)
    requires TimeInvariant(s) && s.now <= t.now && t.sides.Keys == s.sides.Keys
    requires t.issued == s.issued && t.openedAt == s.openedAt && t.last == s.last && t.grants == s.grants
    requires forall b | b in s.sides :: t.sides[b] == s.sides[b].(peers := t.sides[b].peers)
    ensures TimeInvariant(t)
  {
    forall b | b in t.sides
      ensures WindowOk(t, b)
    {
      assert WindowOk(s, b);
    }
    forall g | g in t.grants
      ensures InTime(t, g)
    {
      assert InTime(s, g);
    }
  }

  lemma TimeRun(s: State, events: seq<Event>)
    requires Initial(s) && Legal(System(), s, events)
    ensures TimeInvariant(After(System(), s, events))
  {
    forall t, e | TimeInvariant(t) && System().enabled(t, e)
      ensures TimeInvariant(System().apply(t, e))
    {
      TimeStep(t, e);
    }
    Invariant(System(), t => TimeInvariant(t), s, events);
  }

  /** In every run, each pairing was listed within five minutes of its code being opened; and a request to b lists the
      sender, and is answered if that is saved, exactly if b opened its last code less than five minutes ago, nothing
      was saved under it yet, and the proof is the one the code, the sender and b determine. Any other request
      leaves b as it was and unanswered. */
  lemma CodesAreAcceptedExactlyInTime(s: State, events: seq<Event>, b: string, clientFP: string, req: Option<Request>,
                                      host: string, saveOk: bool)
    requires Initial(s) && Legal(System(), s, events) && b in s.sides && b in After(System(), s, events).sides
    ensures var t := After(System(), s, events);
            && (forall g | g in t.grants ::
                  g.code in t.openedAt && t.openedAt[g.code] <= g.at < t.openedAt[g.code] + 300_000_000_000)
            && var (side, reply) := PairReply(t.sides[b], req, host, clientFP, t.now, saveOk);
               if && b in t.last && t.last[b] in t.openedAt && t.now < t.openedAt[t.last[b]] + 300_000_000_000
                  && SavedUnder(t.grants, t.last[b]) == 0
                  && req.Some? && req.value.proof == Mac(t.last[b], clientFP + "|" + b)
               then
                 && clientFP in Fingerprints(side.peers)
                 && reply == (if saveOk then Some(Mac(t.last[b], b + "|" + clientFP)) else None)
                 && side.inviteCode == if saveOk then "" else t.last[b]
               else side == t.sides[b] && reply == None
  {
    TimeRun(s, events);
    var t := After(System(), s, events);
    assert WindowOk(t, b);
    if Accepts(t.sides[b], req, clientFP, t.now) {
      StoredKeepsOrder(t.sides[b].peers, NewPeer(req.value, host, clientFP, t.now));
    }
  }

  // ---- What the network sees ----

  ghost predicate Overheard(s: State) {
    && (forall id | id in s.sessions && s.sessions[id].phase != Probed ::
          ProofOf(s.sessions[id].code, s.sessions[id].initiator, s.sessions[id].serverFP) in s.air)
    && (forall g | g in s.grants && g.saved :: ProofOf(g.code, g.owner, g.peer) in s.air)
  }

  lemma HandleOverheard(s: State, b: string, clientFP: string, req: Option<Request>, host: string, saveOk: bool)
    requires Overheard(s) && Shape(s) && b in s.sides
    ensures Overheard(Handle(s, b, clientFP, req, host, saveOk).0)
  {
  }

  lemma OverheardStep(s: State, e: Event)
    requires Overheard(s) && Shape(s) && Enabled(s, e)
    ensures Overheard(Apply(s, e)) && s.leaked <= Apply(s, e).leaked
  {
    match e
    case Deliver(id, req, host, saveOk) =>
      HandleOverheard(s, s.sessions[id].serverFP, s.sessions[id].initiator, Some(req), host, saveOk);
    case AttackRequest(b, clientFP, body, host, saveOk) => HandleOverheard(s, b, clientFP, body, host, saveOk);
    case Finish(id, peer, saveOk) => FinishFrame(s, id, peer, saveOk);
    case _ =>
  }

  lemma {:induction false} OverheardRun(s: State, events: seq<Event>)
    requires Overheard(s) && Shape(s) && Legal(System(), s, events)
    ensures var t := After(System(), s, events);
            Overheard(t) && s.leaked <= t.leaked && forall c | Leak(c) in events :: c in t.leaked
    decreases |events|
  {
    if events != [] {
      OverheardStep(s, events[0]);
      ShapeStep(s, events[0]);
      OverheardRun(Apply(s, events[0]), events[1..]);
      assert events == [events[0]] + events[1..];
    }
  }

  /** The network is as strong as it can be without breaking the proofs: after every run it has the proof of every
      request that was sent and of every pairing that was answered, and every code that leaked. */
  lemma NetworkKeepsEverything(s: State, events: seq<Event>)
    requires Initial(s) && Legal(System(), s, events)
    ensures var t := After(System(), s, events);
            && (forall id | id in t.sessions && t.sessions[id].phase != Probed ::
                  var n := t.sessions[id]; Mac(n.code, n.initiator + "|" + n.serverFP) in t.air)
            && (forall g | g in t.grants && g.saved :: Mac(g.code, g.owner + "|" + g.peer) in t.air)
            && (forall c | Leak(c) in events :: c in t.leaked)
  {
    OverheardRun(s, events);
  }

  /** pairWithPeer ends paired exactly if the answer is the one the code, the other end and this one determine, and
      the peer could be saved; it is listed in either case, and not if the answer is wrong. */
  lemma FinishExactly(s: State, id: nat, peer: Peer, saveOk: bool)
    requires Shape(s) && Enabled(s, Finish(id, peer, saveOk))
    ensures var n, t := s.sessions[id], Apply(s, Finish(id, peer, saveOk));
            var right := n.phase.proof == Mac(n.code, n.serverFP + "|" + n.initiator);
            && t.sessions == s.sessions[id := n.(phase := if right && saveOk then Paired else Failed)]
            && t.sides == if !right then s.sides
                          else s.sides[n.initiator := s.sides[n.initiator].(
                            peers := Stored(s.sides[n.initiator].peers, peer))]
  {
  }

  lemma Step(s: State, events: seq<Event>, e: Event) returns (t: State, longer: seq<Event>)
    requires Legal(System(), s, events) && Enabled(After(System(), s, events), e)
    ensures longer == events + [e] && Legal(System(), s, longer)
    ensures t == After(System(), s, longer) == Apply(After(System(), s, events), e)
  {
    Extend(System(), s, events, e);
    longer := events + [e];
    t := After(System(), s, longer);
  }

  /** The run below up to the request: b's code, told to a, who connects to b. */
  lemma HonestRequest(s: State, a: string, b: string, code: string, wait: nat) returns (t: State, events: seq<Event>)
    requires Initial(s) && a in s.sides && b in s.sides && a != b && code != "" && wait < 300_000_000_000
    ensures events == [OpenInvite(b, code), Tell(a, code), Probe(0, a, code, b), Tick(wait), Send(0)]
    ensures Legal(System(), s, events) && t == After(System(), s, events)
    ensures t.sessions == map[0 := Session(a, code, b, Sent)] && t.now == s.now + wait && t.grants == []
    ensures t.sides == s.sides[b := Side(b, code, s.now + 300_000_000_000, s.sides[b].peers)]
  {
    t, events := Step(s, [], OpenInvite(b, code));
    t, events := Step(s, events, Tell(a, code));
    t, events := Step(s, events, Probe(0, a, code, b));
    t, events := Step(s, events, Tick(wait));
    t, events := Step(s, events, Send(0));
  }

  /** Up to b's answer. */
  lemma HonestAnswer(s: State, a: string, b: string, code: string, wait: nat, toB: Request)
    returns (t: State, events: seq<Event>)
    requires Initial(s) && a in s.sides && b in s.sides && a != b && code != "" && wait < 300_000_000_000
    requires toB.proof == Mac(code, a + "|" + b)
    ensures events == [OpenInvite(b, code), Tell(a, code), Probe(0, a, code, b), Tick(wait), Send(0),
                       Deliver(0, toB, "", true)]
    ensures Legal(System(), s, events) && t == After(System(), s, events)
    ensures t.sessions == map[0 := Session(a, code, b, Answered(Mac(code, b + "|" + a)))]
    ensures t.grants == [Grant(b, a, code, true, s.now + wait)]
    ensures t.sides.Keys == s.sides.Keys && t.sides[a] == s.sides[a] && a in Fingerprints(t.sides[b].peers)
  {
    t, events := HonestRequest(s, a, b, code, wait);
    var p := NewPeer(toB, "", a, t.now);
    StoredKeepsOrder(t.sides[b].peers, p);
    assert PairReply(t.sides[b], Some(toB), "", a, t.now, true)
        == (Side(b, "", s.now + 300_000_000_000, Stored(s.sides[b].peers, p)), Some(Mac(code, b + "|" + a)));
    t, events := Step(s, events, Deliver(0, toB, "", true));
  }

  /** Left alone, two daemons do pair at any time before the five minutes are over. */
  lemma HonestPairingSucceeds(s: State, a: string, b: string, code: string, wait: nat, toB: Request, toA: Peer)
    returns (t: State, events: seq<Event>)
    requires Initial(s) && a in s.sides && b in s.sides && a != b && code != "" && wait < 300_000_000_000
    requires toB.proof == Mac(code, a + "|" + b) && toA.fingerprint == b
    ensures events == [OpenInvite(b, code), Tell(a, code), Probe(0, a, code, b), Tick(wait), Send(0),
                       Deliver(0, toB, "", true), Finish(0, toA, true)]
    ensures Legal(System(), s, events) && t == After(System(), s, events)
    ensures t.sessions == map[0 := Session(a, code, b, Paired)] && t.grants == [Grant(b, a, code, true, s.now + wait)]
    ensures t.sides.Keys == s.sides.Keys
    ensures b in Fingerprints(t.sides[a].peers) && a in Fingerprints(t.sides[b].peers)
  {
    t, events := HonestAnswer(s, a, b, code, wait, toB);
    StoredKeepsOrder(t.sides[a].peers, toA);
    t, events := Step(s, events, Finish(0, toA, true));
  }

  /** The secrecy of the code is needed: with a code that leaked the network pairs a certificate of its own. */
  lemma LeakedCodePairsAnyone(s: State, b: string, code: string, fp: string, req: Request)
    returns (t: State, events: seq<Event>)
    requires Initial(s) && b in s.sides && fp !in s.sides && IsFingerprint(fp) && code != ""
    requires req.proof == Mac(code, fp + "|" + b)
    ensures events == [OpenInvite(b, code), Leak(code), AttackRequest(b, fp, Some(req), "", true)]
    ensures Legal(System(), s, events) && t == After(System(), s, events)
    ensures t.grants == [Grant(b, fp, code, true, s.now)]
  {
    t, events := Step(s, [], OpenInvite(b, code));
    t, events := Step(s, events, Leak(code));
    t, events := Step(s, events, AttackRequest(b, fp, Some(req), "", true));
  }
}
