/**
 What a peer's version message must satisfy: the configuration checks and the peer checks of
 protocol_version_31402, the rejecting form of protocol_version_70002, and the parameters with
 which each session attaches them.
 */
module Version {
  import opened Codes

  /** A service word as the set of its one-bits: `a & b` is intersection, `a | b` is union. */
  type Services = set<nat>

  /** Protocol levels fixed by the message library. */
  datatype Levels = Levels(minimum: nat, maximum: nat, bip61: nat)

  datatype Settings = Settings(
    protocolMinimum: nat,
    protocolMaximum: nat,
    services: Services,
    invalidServices: Services)

  datatype VersionMessage = VersionMessage(value: nat, services: Services, nonce: nat)

  datatype Params = Params(
    ownVersion: nat,
    ownServices: Services,
    invalidServices: Services,
    minimumVersion: nat,
    minimumServices: Services)

  const NODE_NONE: Services := {}
  const NODE_NETWORK: Services := {0}
  const NODE_WITNESS: Services := {3}

  /** Inbound and manual sessions use the defaults; outbound and seed sessions override them. */
  datatype SessionKind = Defaulted | Outbound | Seed

  function SessionParams(kind: SessionKind, s: Settings): Params {
    match kind
    case Defaulted =>
      Params(s.protocolMaximum, s.services, s.invalidServices, s.protocolMinimum, NODE_NONE)
    case Outbound =>
      Params(s.protocolMaximum, s.services, s.invalidServices, s.protocolMinimum,
             (s.services * NODE_WITNESS) + NODE_NETWORK)
    case Seed =>
      Params(s.protocolMaximum, NODE_NONE, s.invalidServices, s.protocolMinimum, NODE_NONE)
  }

  /** Sessions attach the 70002 class when the configured maximum reaches the reject level. */
  predicate HandlesReject(s: Settings, levels: Levels) {
    s.protocolMaximum >= levels.bip61
  }

  predicate Configured(s: Settings, levels: Levels) {
    && s.protocolMinimum >= levels.minimum
    && s.protocolMaximum <= levels.maximum
    && s.protocolMinimum <= s.protocolMaximum
  }

  predicate SufficientPeer(p: Params, m: VersionMessage) {
    if m.services * p.invalidServices != {} then false
    else if m.services * p.minimumServices != p.minimumServices then false
    else if m.value < p.minimumVersion then false
    else true
  }

  datatype Rejection = InsufficientVersion | InsufficientServices

  /** The 70002 override: the reject message it sends, if any, then the inherited verdict. */
  function SufficientOrReject(p: Params, m: VersionMessage): (bool, Option<Rejection>) {
    var sent :=
      if m.value < p.minimumVersion then Some(InsufficientVersion)
      else if m.services * p.minimumServices != p.minimumServices then Some(InsufficientServices)
      else None;
    (SufficientPeer(p, m), sent)
  }

  function Negotiate(p: Params, m: VersionMessage): nat {
    Min(m.value, p.ownVersion)
  }

  /**
   The two classes give one verdict. A reject is sent only for a refused peer; it is withheld from
   a refused peer exactly when invalid service bits are the only ground for refusal.
   */
  lemma RejectOnlyRefused(p: Params, m: VersionMessage)
    ensures SufficientOrReject(p, m).0 == SufficientPeer(p, m)
    ensures SufficientOrReject(p, m).1.Some? ==> !SufficientPeer(p, m)
    ensures !SufficientPeer(p, m) && SufficientOrReject(p, m).1.None?
       <==> && m.services * p.invalidServices != {}
            && m.value >= p.minimumVersion
            && m.services * p.minimumServices == p.minimumServices
  {
  }

  /** What acceptance guarantees, for the parameters of every session. */
  ghost predicate Acceptable(kind: SessionKind, s: Settings, levels: Levels, m: VersionMessage, negotiated: nat) {
    && levels.minimum <= s.protocolMinimum <= negotiated <= s.protocolMaximum <= levels.maximum
    && negotiated <= m.value
    && (forall bit :: bit in s.invalidServices ==> bit !in m.services)
    && (kind.Outbound? ==> 0 in m.services)
    && (kind.Outbound? && 3 in s.services ==> 3 in m.services)
  }

  /** A configured node negotiates an acceptable version with exactly the peers it finds sufficient. */
  lemma AcceptedPeer(kind: SessionKind, s: Settings, levels: Levels, m: VersionMessage)
    ensures Configured(s, levels) && SufficientPeer(SessionParams(kind, s), m)
       <==> Acceptable(kind, s, levels, m, Negotiate(SessionParams(kind, s), m))
  {
    var p := SessionParams(kind, s);
    assert m.services * p.invalidServices == {} <==> forall bit :: bit in s.invalidServices ==> bit !in m.services by {
      forall bit | bit in s.invalidServices && bit in m.services ensures m.services * p.invalidServices != {} {
        assert bit in m.services * p.invalidServices;
      }
    }
    RequiredBits(m.services, p.minimumServices);
    if kind.Outbound? {
      assert 3 in s.services <==> 3 in p.minimumServices;
      assert forall bit :: bit in p.minimumServices ==> bit == 0 || bit == 3;
    }
  }

  /** Masking with the required word leaves it whole iff every required bit is present. */
  lemma RequiredBits(peer: Services, required: Services)
    ensures peer * required == required <==> forall bit :: bit in required ==> bit in peer
  {
    if forall bit :: bit in required ==> bit in peer {
      assert peer * required == required;
    } else {
      var bit :| bit in required && bit !in peer;
      assert bit !in peer * required;
    }
  }
}
