// One mount's own copy of a GitHub pair, and its renewal inside the agent's object (`GithubRefresher`).
//
// What the connector's renewal, GitHub and the registry answered are the caller's to say: they are parameters, so
// what is proved holds whatever they answered.
module MountRenewal {
  import opened Wrappers
  import opened ConnectorRow
  import Renewal

  datatype Grant = Grant(
    refresh: Option<Pair>,
    expiresAt: Option<int>,
    connectorId: Option<string>,
    rotatedAt: Option<int>,
    brokenAt: Option<int>)

  /** How `renewConnector` ended: a pair, a refusal, the connector missing, no verdict, or thrown. */
  datatype ViaConnector =
    | GotPair(access: Pair, refresh: Option<Pair>, expiresAt: Option<int>, rotated: bool)
    | ConnectorBroken
    | Missing
    | NoVerdict
    | ThrewUnstored(access: Pair, keptRefresh: Pair, keptUntil: int)
    | ThrewOther

  datatype Renewed =
    | Have(access: Pair, rotated: bool)
    | MustReconnect
    | NotNow
    | Rethrown(via: ViaConnector)

  /** What the object wrote to D1 about a dead connection. */
  datatype Mark = ConnectorMark(id: string) | AgentMark

  /** The record of a mount that keeps the pair D1 would not take. */
  function Kept(rec: Grant, via: ViaConnector): Grant
    requires via.ThrewUnstored?
  {
    rec.(refresh := Some(via.keptRefresh), expiresAt := Some(via.keptUntil), brokenAt := None)
  }

  class Mount {
    var access: Option<Pair>
    var grant: Option<Grant>
    const grants: bool          // the deployment keeps connectors
    const app: bool             // and has App credentials
    var marks: seq<Mark>
    var spent: seq<Pair>        // refresh tokens this object itself sent to GitHub

    constructor (access: Option<Pair>, grant: Option<Grant>, grants: bool, app: bool)
      ensures this.access == access && this.grant == grant && this.grants == grants && this.app == app
      ensures marks == [] && spent == []
    {
      this.access, this.grant, this.grants, this.app := access, grant, grants, app;
      marks, spent := [], [];
    }

    /** The authority for this mount's pair is the connector. */
    predicate OnConnector()
      reads this
    {
      grant.Some? && grant.value.connectorId.Some? && grants
    }

    /** Nothing the mount holds answers the call, so the connector is asked. */
    predicate AsksTheConnector(why: Renewal.Why, stale: Option<Pair>, now: int)
      reads this
    {
      && OnConnector() && access.Some?
      && !(why.Rejected? && stale.Some? && access != stale)
      && !(why.Expiring? && Renewal.Fresh(grant.value.expiresAt, now) && grant.value.brokenAt.None?)
    }

    /** By the record's own fields: it does not expire, or not within five minutes. */
    predicate Lasting(now: int)
      requires grant.Some?
      reads this
    {
      grant.value.expiresAt.None? || grant.value.expiresAt.value - now > 5 * 60_000
    }

    /**
     * The mount's own pair has to be traded: there is one, not marked broken, and a deployment that can; and it is about to
     * expire, or GitHub refused the very token held, which was not traded within the last minute, and calls it dead if it
     * should still last.
     */
    predicate MustTrade(why: Renewal.Why, stale: Option<Pair>, now: int, dead: bool)
      reads this
    {
      && app && access.Some? && grant.Some? && !OnConnector() && grant.value.brokenAt.None? && grant.value.refresh.Some?
      && match why
         case Adopt => false
         case Expiring => !Lasting(now)
         case Rejected =>
           && (stale.None? || stale == access) && (grant.value.rotatedAt.None? || now - grant.value.rotatedAt.value >= 60_000)
           && (stale.None? || !Lasting(now) || dead)
    }

    /** The two rows, written together; a write clears the mount's broken mark. */
    method Write(rec: Grant, newAccess: Pair)
      modifies this`access, this`grant
      ensures access == Some(newAccess) && grant == Some(rec.(brokenAt := None))
    {
      access := Some(newAccess);
      grant := Some(rec.(brokenAt := None));
    }

    method Broken(rec: Grant, now: int, recordInD1: bool)
      requires grant == Some(rec)
      modifies this`grant, this`marks
      ensures grant.Some? && grant.value.brokenAt.Some? && grant.value.(brokenAt := None) == rec.(brokenAt := None)
      ensures rec.brokenAt.None? ==> grant == Some(rec.(brokenAt := Some(now)))
      ensures marks == if recordInD1 && grants
        then old(marks) + [if rec.connectorId.Some? then ConnectorMark(rec.connectorId.value) else AgentMark]
        else old(marks)
    {
      if rec.brokenAt.Some? && !recordInD1 { return; }
      grant := Some(rec.(brokenAt := Some(now)));
      if recordInD1 && grants {
        if rec.connectorId.Some? {
          marks := marks + [ConnectorMark(rec.connectorId.value)];
        } else {
          marks := marks + [AgentMark];
        }
      }
    }

    /**
     * The mount's renewal. `bound` is what `grant` answers just before the write, `dead` what GitHub says of the
     * refused token, `github` what it answers a trade of the mount's own refresh token.
     */
    method Renew(why: Renewal.Why, stale: Option<Pair>, now: int, via: ViaConnector, bound: bool, dead: bool,
                 github: Renewal.Answer) returns (r: Renewed)
      modifies this
      // The connector is never marked from here: its mark is `renewConnector`'s, over the token that was refused.
      ensures forall m :: m in marks && m !in old(marks) ==> m == AgentMark
      ensures old(OnConnector()) ==> marks == old(marks) && spent == old(spent)
      // A pair D1 would not take is on the mount before the error goes on.
      ensures r.Rethrown? ==> r.via == via && old(OnConnector())
      ensures r.Rethrown? && via.ThrewUnstored? ==> access == Some(via.access)
      ensures r.Rethrown? && via.ThrewUnstored? ==> grant == Some(Kept(old(grant.value), via))
      ensures old(OnConnector()) && via.ThrewUnstored? ==> r == Rethrown(via) || Unchanged(old(access), old(grant))
      ensures old(AsksTheConnector(why, stale, now)) && via.ThrewUnstored? ==> r == Rethrown(via)
      ensures old(AsksTheConnector(why, stale, now)) && via.ThrewOther? ==> r == Rethrown(via) && Unchanged(old(access), old(grant))
      // The connector's pair is on the mount by the time it is answered.
      ensures old(AsksTheConnector(why, stale, now)) && via.GotPair? && bound ==> r == Have(via.access, via.rotated) && access == Some(via.access)
      ensures old(AsksTheConnector(why, stale, now)) && via.GotPair? && bound && old(access) != Some(via.access) ==>
        grant == Some(old(grant.value).(refresh := via.refresh, expiresAt := via.expiresAt, brokenAt := None))
      // A pair is never put back on a mount whose agent is gone.
      ensures old(OnConnector()) && via.GotPair? && !bound ==> Unchanged(old(access), old(grant))
      // What is answered is what the mount holds, or the connector's.
      ensures r.Have? ==> access == Some(r.access) || (OnConnector() && via.GotPair? && r.access == via.access)
      ensures r.Have? && r.rotated && !old(OnConnector()) ==> github.NewPair? && r.access == github.pair && grant.Some?
      ensures r.Have? && r.rotated && !old(OnConnector()) ==> grant.value.refresh == Some(github.pair) && grant.value.brokenAt.None?
      ensures r.Have? && r.rotated && !old(OnConnector()) ==> old(grant).Some? && old(grant.value).refresh.Some?
      ensures r.Have? && r.rotated && !old(OnConnector()) ==> spent == old(spent) + [old(grant.value.refresh.value)]
      // Its own token is spent at most once, never to adopt, and never by a mount already marked.
      ensures |old(spent)| <= |spent| <= |old(spent)| + 1
      ensures why.Adopt? || (old(grant).Some? && old(grant.value.brokenAt).Some?) ==> spent == old(spent)
      // Its own token is sent exactly when it has to be, and GitHub's answer is what becomes of the mount.
      ensures spent == if old(MustTrade(why, stale, now, dead)) then old(spent) + [old(grant.value.refresh.value)] else old(spent)
      ensures old(MustTrade(why, stale, now, dead)) && github.NewPair? ==>
        r == Have(github.pair, true) && access == Some(github.pair)
        && grant == Some(old(grant.value).(refresh := Some(github.pair), expiresAt := Some(github.expiresAt), rotatedAt := Some(now), brokenAt := None))
      ensures old(MustTrade(why, stale, now, dead)) && github.Refused? ==>
        r == MustReconnect && access == old(access) && grant == Some(old(grant.value).(brokenAt := Some(now)))
      ensures old(MustTrade(why, stale, now, dead)) && (github.NoRefreshToken? || github.Unavailable?) ==>
        r == NotNow && Unchanged(old(access), old(grant))
      // A mount that must be reconnected holds the pair it had.
      ensures r.MustReconnect? ==> access == old(access) && grant.Some? && old(grant).Some?
      ensures r.MustReconnect? ==> grant.value.(brokenAt := None) == old(grant.value).(brokenAt := None)
    {
      if grant.None? || access.None? { return NotNow; }
      var rec, current := grant.value, access.value;
      var viaConnector := rec.connectorId.Some? && grants;
      if rec.brokenAt.Some? && !viaConnector { return MustReconnect; }
      if why.Rejected? && stale.Some? && current != stale.value { return Have(current, false); }
      if why.Expiring? && Renewal.Fresh(rec.expiresAt, now) && rec.brokenAt.None? { return Have(current, false); }
      if why.Rejected? && !viaConnector && rec.rotatedAt.Some? && now - rec.rotatedAt.value < Renewal.RECENT_MS { return Have(current, false); }
      if viaConnector {
        match via
        case ThrewUnstored(a, f, e) =>
          Write(rec.(refresh := Some(f), expiresAt := Some(e)), a);
          return Rethrown(via);
        case ThrewOther => return Rethrown(via);
        case GotPair(a, f, e, rotated) =>
          if a != current || e != rec.expiresAt || rec.brokenAt.Some? {
            if !bound { return MustReconnect; }
            Write(rec.(refresh := f, expiresAt := e), a);
          }
          return Have(a, rotated);
        case ConnectorBroken =>
          Broken(rec, now, false);
          return MustReconnect;
        case Missing =>
          Broken(rec, now, false);
          return MustReconnect;
        case NoVerdict => return NotNow;
      }
      if why.Adopt? { return Have(current, false); }
      if rec.refresh.None? || !app { return NotNow; }
      if why.Rejected? && stale.Some? && Renewal.Fresh(rec.expiresAt, now) && !dead { return Have(current, false); }
      spent := spent + [rec.refresh.value];
      match github
      case NewPair(pair, expiresAt) =>
        Write(rec.(refresh := Some(pair), expiresAt := Some(expiresAt), rotatedAt := Some(now)), pair);
        return Have(pair, true);
      case Refused =>
        Broken(rec, now, true);
        return MustReconnect;
      case NoRefreshToken => return NotNow;
      case Unavailable => return NotNow;
    }

    predicate Unchanged(wasAccess: Option<Pair>, wasGrant: Option<Grant>)
      reads this
    {
      access == wasAccess && grant == wasGrant
    }
  }
}
