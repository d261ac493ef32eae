/** The consent store of lib/store/consent-store.ts: two fields, the consents
    in their stored order and the activity log with the newest entry first,
    replaced wholesale by four actions; and the selectors and metrics, which
    are filters and counts over the current fields. The clock and the
    generated ids are parameters of the actions. */
module Store {
  import opened Collections
  import opened Types
  import Clock
  import MockConsents

  /** `setDate(getDate() + 90)`, at a fixed length of day. */
  const RenewalMs: int := 90 * Clock.DayMs

  // ---------------------------------------------------------------------
  // The record updates of the actions

  /** The change `revokeConsent` makes to its target. */
  function Revoke(c: Consent, now: Time): (r: Consent)
    ensures r.status == Revoked && r.revokedAt == Some(now)
    ensures r.(status := c.status, revokedAt := c.revokedAt) == c
  {
    c.(status := Revoked, revokedAt := Some(now))
  }

  /** The change `renewConsent` makes to its target, whatever its status:
      revokedAt is left as it was. */
  function Renew(c: Consent, now: Time): (r: Consent)
    ensures r.status == Active && r.expiresAt == now + RenewalMs
    ensures r.(status := c.status, expiresAt := c.expiresAt) == c
  {
    c.(expiresAt := now + RenewalMs, status := Active)
  }

  datatype Update = RevokeAt(now: Time) | RenewAt(now: Time)

  function Apply(u: Update, c: Consent): Consent
  {
    match u
    case RevokeAt(now) => Revoke(c, now)
    case RenewAt(now) => Renew(c, now)
  }

  /** `consents.map(c => c.id === id ? change(c) : c)`: every record with the
      id is changed, every other record stays as it is and where it is. */
  function UpdateWhere(cs: seq<Consent>, id: string, u: Update): (r: seq<Consent>)
    ensures |r| == |cs|
    ensures forall i :: 0 <= i < |cs| && cs[i].id == id ==> r[i] == Apply(u, cs[i])
    ensures forall i :: 0 <= i < |cs| && cs[i].id != id ==> r[i] == cs[i]
  {
    if cs == [] then []
    else [if cs[0].id == id then Apply(u, cs[0]) else cs[0]] + UpdateWhere(cs[1..], id, u)
  }

  /** The record `addConsent` builds: an active grant of exactly the given
      permissions and accounts, authorized at its creation, valid for ninety
      days, never revoked or accessed; renewing it at once changes nothing. */
  function NewConsent(consentId: string, tppId: string, permissions: seq<Permission>,
                      accountIds: seq<string>, now: Time): (c: Consent)
    ensures c.id == consentId && c.tppId == tppId && c.status == Active
    ensures c.permissions == permissions && c.accountIds == accountIds
    ensures c.createdAt == now && c.authorizedAt == Some(c.createdAt)
    ensures c.expiresAt - c.createdAt == RenewalMs
    ensures c.revokedAt.None? && c.lastAccessedAt.None? && c.accessCount == 0
    ensures Renew(c, now) == c
  {
    Consent(consentId, tppId, "user-001", Active, permissions, accountIds,
            now, Some(now), now + RenewalMs, None, None, 0)
  }

  /** An activity log entry before `addActivityLog` gives it an id. */
  datatype LogDraft = LogDraft(consentId: string, tppId: string, action: LogAction,
                               timestamp: Time, details: string, endpoint: Option<string>)

  /** `{ ...log, id }`: the draft with an id added. */
  function WithId(d: LogDraft, id: string): (l: ActivityLog)
    ensures l.id == id
    ensures LogDraft(l.consentId, l.tppId, l.action, l.timestamp, l.details, l.endpoint) == d
  {
    ActivityLog(id, d.consentId, d.tppId, d.action, d.timestamp, d.details, d.endpoint)
  }

  // ---------------------------------------------------------------------
  // Selectors and metrics

  function HasId(id: string): Consent -> bool { (c: Consent) => c.id == id }
  function HasStatus(status: ConsentStatus): Consent -> bool { (c: Consent) => c.status == status }
  function OfTpp(tppId: string): Consent -> bool { (c: Consent) => c.tppId == tppId }
  function ForConsent(consentId: string): ActivityLog -> bool { (l: ActivityLog) => l.consentId == consentId }

  /** The condition of `getExpiringSoon(days)` evaluated at `now`. */
  predicate ExpiresWithin(c: Consent, days: int, now: Time)
  {
    c.status == Active && c.expiresAt <= now + days * Clock.DayMs && c.expiresAt > now
  }

  function ExpiringWithin(days: int, now: Time): Consent -> bool
  {
    (c: Consent) => ExpiresWithin(c, days, now)
  }

  /** `getConsentById`: the first consent with the id, or nothing. */
  function GetConsentById(cs: seq<Consent>, id: string): (r: Option<Consent>)
    ensures r.Some? ==> r.value in cs && r.value.id == id
    ensures r.Some? ==> exists i :: 0 <= i < |cs| && cs[i] == r.value
                                    && forall j :: 0 <= j < i ==> cs[j].id != id
    ensures r.None? <==> forall c :: c in cs ==> c.id != id
  {
    Find(cs, HasId(id))
  }

  /** `getConsentsByStatus`: exactly the consents with that status. */
  function GetConsentsByStatus(cs: seq<Consent>, status: ConsentStatus): (r: seq<Consent>)
    ensures forall c :: c in r <==> c in cs && c.status == status
  {
    Filter(cs, HasStatus(status))
  }

  /** `getConsentsByTPP`: exactly the consents given to that provider. */
  function GetConsentsByTpp(cs: seq<Consent>, tppId: string): (r: seq<Consent>)
    ensures forall c :: c in r <==> c in cs && c.tppId == tppId
  {
    Filter(cs, OfTpp(tppId))
  }

  /** `getActiveConsents`: exactly the active consents. */
  function GetActiveConsents(cs: seq<Consent>): (r: seq<Consent>)
    ensures forall c :: c in r <==> c in cs && c.status == Active
  {
    Filter(cs, HasStatus(Active))
  }

  /** `getExpiringSoon(days)`: in stored order, exactly the active consents
      whose expiry lies after now and at most `days` days ahead. */
  function GetExpiringSoon(cs: seq<Consent>, days: int, now: Time): (r: seq<Consent>)
    ensures forall c :: c in r <==>
              c in cs && c.status == Active && now < c.expiresAt <= now + days * Clock.DayMs
  {
    Filter(cs, ExpiringWithin(days, now))
  }

  /** `getActivityLogsForConsent`: exactly the entries about that consent, in
      log order. */
  function GetActivityLogsForConsent(logs: seq<ActivityLog>, consentId: string): (r: seq<ActivityLog>)
    ensures forall l :: l in r <==> l in logs && l.consentId == consentId
  {
    Filter(logs, ForConsent(consentId))
  }

  /** `getTotalActive`: the number of active consents. */
  function GetTotalActive(cs: seq<Consent>): (n: nat)
    ensures n <= |cs|
    ensures n == 0 <==> forall c :: c in cs ==> c.status != Active
  {
    FilterEmpty(cs, HasStatus(Active));
    |Filter(cs, HasStatus(Active))|
  }

  /** `getTotalExpiringSoon`: the size of the seven-day window, which never
      exceeds the number of active consents. */
  function GetTotalExpiringSoon(cs: seq<Consent>, now: Time): (n: nat)
    ensures n <= GetTotalActive(cs)
  {
    FilterStronger(cs, ExpiringWithin(7, now), HasStatus(Active));
    |GetExpiringSoon(cs, 7, now)|
  }

  /** The record `getConsentCountByStatus` returns: one key per status. */
  datatype StatusCounts = StatusCounts(pending: nat, authorized: nat, active: nat,
                                       expired: nat, revoked: nat, rejected: nat)

  /** Looking a status up in the record. */
  function CountOf(counts: StatusCounts, status: ConsentStatus): nat
  {
    match status
    case Pending => counts.pending
    case Authorized => counts.authorized
    case Active => counts.active
    case Expired => counts.expired
    case Revoked => counts.revoked
    case Rejected => counts.rejected
  }

  /** `getConsentCountByStatus`: the entry for each status is the number of
      consents with it, the six entries add up to the number of consents, and
      the active entry agrees with `getTotalActive` and `getActiveConsents`. */
  function GetConsentCountByStatus(cs: seq<Consent>): (r: StatusCounts)
    ensures forall s :: CountOf(r, s) == |GetConsentsByStatus(cs, s)|
    ensures r.pending + r.authorized + r.active + r.expired + r.revoked + r.rejected == |cs|
    ensures r.active == GetTotalActive(cs) == |GetActiveConsents(cs)|
  {
    StatusCountsSum(cs);
    StatusCounts(|Filter(cs, HasStatus(Pending))|, |Filter(cs, HasStatus(Authorized))|,
                 |Filter(cs, HasStatus(Active))|, |Filter(cs, HasStatus(Expired))|,
                 |Filter(cs, HasStatus(Revoked))|, |Filter(cs, HasStatus(Rejected))|)
  }

  /** Every consent has exactly one of the six statuses. */
  lemma {:induction false} StatusCountsSum(cs: seq<Consent>)
    ensures |Filter(cs, HasStatus(Pending))| + |Filter(cs, HasStatus(Authorized))|
            + |Filter(cs, HasStatus(Active))| + |Filter(cs, HasStatus(Expired))|
            + |Filter(cs, HasStatus(Revoked))| + |Filter(cs, HasStatus(Rejected))| == |cs|
  {
    if cs != [] {
      StatusCountsSum(cs[1..]);
    }
  }

  // ---------------------------------------------------------------------
  // The store invariant

  /** A revoked consent carries the time it was revoked. Every action keeps
      this. */
  predicate RevokedStamped(cs: seq<Consent>)
  {
    forall c :: c in cs ==> (c.status == Revoked ==> c.revokedAt.Some?)
  }

  /** The converse as well: a revocation time only on a revoked consent. The
      seed data has it; renewing a revoked consent breaks it. */
  predicate StampOnlyWhenRevoked(cs: seq<Consent>)
  {
    forall c :: c in cs ==> (c.revokedAt.Some? ==> c.status == Revoked)
  }

  /** The ids of the consents, in stored order. */
  function Ids(cs: seq<Consent>): (r: seq<string>)
    ensures |r| == |cs| && forall i :: 0 <= i < |cs| ==> r[i] == cs[i].id
  {
    if cs == [] then [] else [cs[0].id] + Ids(cs[1..])
  }

  /** The access counters of the consents, in stored order. */
  function AccessCounts(cs: seq<Consent>): seq<nat>
  {
    if cs == [] then [] else [cs[0].accessCount] + AccessCounts(cs[1..])
  }

  /** The seed state satisfies both directions of the invariant. */
  lemma SeedIsValid(now: Time)
    ensures RevokedStamped(MockConsents.InitialConsents(now))
    ensures StampOnlyWhenRevoked(MockConsents.InitialConsents(now))
  {
    MockConsents.SeedConsentShapes(now);
  }

  /** Revoking or renewing keeps a revoked consent stamped. */
  lemma UpdateKeepsRevokedStamped(cs: seq<Consent>, id: string, u: Update)
    requires RevokedStamped(cs)
    ensures RevokedStamped(UpdateWhere(cs, id, u))
  {
    var r := UpdateWhere(cs, id, u);
    forall c | c in r ensures c.status == Revoked ==> c.revokedAt.Some? {
      var i :| 0 <= i < |r| && r[i] == c;
      assert cs[i] in cs;
    }
  }

  /** Revoking or renewing changes neither the number nor the order of the
      consents, nor any access counter. */
  lemma {:induction false} UpdateKeepsOrderAndCounters(cs: seq<Consent>, id: string, u: Update)
    ensures Ids(UpdateWhere(cs, id, u)) == Ids(cs)
    ensures AccessCounts(UpdateWhere(cs, id, u)) == AccessCounts(cs)
  {
    if cs != [] {
      UpdateKeepsOrderAndCounters(cs[1..], id, u);
      assert UpdateWhere(cs, id, u)[1..] == UpdateWhere(cs[1..], id, u);
    }
  }

  /** Revocation does not look at the prior status: revoking twice is revoking
      once at the later time, so the second call re-stamps revokedAt. */
  lemma RevokeTwiceRestamps(cs: seq<Consent>, id: string, t1: Time, t2: Time)
    ensures UpdateWhere(UpdateWhere(cs, id, RevokeAt(t1)), id, RevokeAt(t2))
            == UpdateWhere(cs, id, RevokeAt(t2))
  {
    var once := UpdateWhere(cs, id, RevokeAt(t1));
    var twice := UpdateWhere(once, id, RevokeAt(t2));
    var direct := UpdateWhere(cs, id, RevokeAt(t2));
    forall i | 0 <= i < |cs| ensures twice[i] == direct[i] {
      assert once[i].id == cs[i].id;
    }
  }

  /** Renewal does not check the status nor clear revokedAt: renewing the
      revoked seed consent yields an active consent that still carries a
      revocation time, so the converse invariant is lost. */
  lemma RenewRevokedKeepsStamp(now: Time)
    ensures var cs := MockConsents.InitialConsents(now);
            var r := UpdateWhere(cs, "consent-006", RenewAt(now));
            && StampOnlyWhenRevoked(cs)
            && r[6].id == "consent-006" && r[6].status == Active && r[6].revokedAt.Some?
            && !StampOnlyWhenRevoked(r)
  {
    var cs := MockConsents.InitialConsents(now);
    var r := UpdateWhere(cs, "consent-006", RenewAt(now));
    SeedIsValid(now);
    assert cs[6].id == "consent-006" && cs[6].revokedAt.Some? by {
      assert cs[6] in cs && MockConsents.SeedShape(cs[6]);
    }
    assert r[6] in r;
  }

  /** A renewed consent is active and falls outside the seven-day window. */
  lemma RenewedLeavesExpiringWindow(cs: seq<Consent>, id: string, now: Time)
    ensures forall c :: c in UpdateWhere(cs, id, RenewAt(now)) && c.id == id ==>
              c in GetActiveConsents(UpdateWhere(cs, id, RenewAt(now)))
              && c !in GetExpiringSoon(UpdateWhere(cs, id, RenewAt(now)), 7, now)
  {
    var r := UpdateWhere(cs, id, RenewAt(now));
    forall c | c in r && c.id == id ensures c.status == Active && c.expiresAt == now + RenewalMs {
      var i :| 0 <= i < |r| && r[i] == c;
    }
  }

  /** Prepending an entry adds it in front of its consent's log and leaves
      every other consent's log as it was. */
  lemma {:induction false} PrependedLogComesFirst(logs: seq<ActivityLog>, entry: ActivityLog, consentId: string)
    ensures GetActivityLogsForConsent([entry] + logs, consentId)
            == (if entry.consentId == consentId then [entry] else [])
               + GetActivityLogsForConsent(logs, consentId)
  {
    FilterConcat([entry], logs, ForConsent(consentId));
  }

  /** A consent put in front is what a lookup of its id finds, and the counts
      by status grow by one at its status. */
  lemma {:induction false} PrependedConsentCounts(cs: seq<Consent>, c: Consent)
    ensures GetConsentById([c] + cs, c.id) == Some(c)
    ensures forall s :: CountOf(GetConsentCountByStatus([c] + cs), s)
                        == CountOf(GetConsentCountByStatus(cs), s) + (if s == c.status then 1 else 0)
  {
    forall s ensures CountOf(GetConsentCountByStatus([c] + cs), s)
                     == CountOf(GetConsentCountByStatus(cs), s) + (if s == c.status then 1 else 0) {
      FilterConcat([c], cs, HasStatus(s));
    }
  }

  /** In the seed state the seven-day window holds exactly consent-005 and
      consent-008. */
  lemma SeedExpiringSoon(now: Time)
    ensures var r := GetExpiringSoon(MockConsents.InitialConsents(now), 7, now);
            |r| == 2 && r[0].id == "consent-005" && r[1].id == "consent-008"
  {
    SeedWindowParts(now);
    FilterKeepsMiddle(MockConsents.InitialConsents(now), 4, 6, ExpiringWithin(7, now));
  }

  /** The seed consents outside the window lie more than a week ahead, or are
      no longer active. */
  lemma SeedWindowParts(now: Time)
    ensures var cs := MockConsents.InitialConsents(now);
            var p := ExpiringWithin(7, now);
            && Filter(cs[..4], p) == []
            && Filter(cs[4..6], p) == cs[4..6]
            && Filter(cs[6..], p) == []
            && cs[4].id == "consent-005" && cs[5].id == "consent-008"
  {
    var cs := MockConsents.InitialConsents(now);
    var p := ExpiringWithin(7, now);
    var head, mid, tail := cs[..4], cs[4..6], cs[6..];
    assert forall i :: 0 <= i < 4 ==> !p(head[i]) by {
      assert head[0].expiresAt == now + 45 * Clock.DayMs;
      assert head[1].expiresAt == now + 60 * Clock.DayMs;
      assert head[2].expiresAt == now + 30 * Clock.DayMs;
      assert head[3].expiresAt == now + 75 * Clock.DayMs;
    }
    assert forall i :: 0 <= i < 2 ==> p(mid[i]) by {
      assert mid[0].status == Active && mid[0].expiresAt == now + 5 * Clock.DayMs;
      assert mid[1].status == Active && mid[1].expiresAt == now + 3 * Clock.DayMs;
    }
    assert forall i :: 0 <= i < 2 ==> !p(tail[i]) by {
      assert tail[0].status == Revoked && tail[1].status == Expired;
    }
    FilterEmpty(head, p);
    FilterEmpty(tail, p);
    FilterKeepsAll(mid, p);
  }

  // ---------------------------------------------------------------------
  // The store

  class ConsentStore {
    var consents: seq<Consent>
    var activityLogs: seq<ActivityLog>

    /** The store invariant of the consents. */
    predicate Valid()
      reads this
    {
      RevokedStamped(consents)
    }

    /** The store as created, holding the seed data of load time `now`. */
    constructor (now: Time)
      ensures consents == MockConsents.InitialConsents(now)
      ensures activityLogs == MockConsents.InitialActivityLogs(now)
      ensures Valid() && StampOnlyWhenRevoked(consents)
    {
      consents := MockConsents.InitialConsents(now);
      activityLogs := MockConsents.InitialActivityLogs(now);
      SeedIsValid(now);
    }

    /** `revokeConsent`: with an unknown id nothing changes; otherwise every
        consent with the id is revoked at `now` and one 'revoked' entry,
        carrying the id and the consent's provider, is put in front of the log. */
    method RevokeConsent(consentId: string, now: Time, logId: string)
      modifies this
      ensures old(Valid()) ==> Valid()
      ensures GetConsentById(old(consents), consentId).None? ==>
                consents == old(consents) && activityLogs == old(activityLogs)
      ensures GetConsentById(old(consents), consentId).Some? ==>
                && consents == UpdateWhere(old(consents), consentId, RevokeAt(now))
                && activityLogs == [ActivityLog(logId, consentId,
                                                GetConsentById(old(consents), consentId).value.tppId,
                                                LogRevoked, now, "User revoked consent", None)]
                                   + old(activityLogs)
    {
      var consent := GetConsentById(consents, consentId);
      if consent.None? {
        return;
      }
      if Valid() {
        UpdateKeepsRevokedStamped(consents, consentId, RevokeAt(now));
      }
      consents := UpdateWhere(consents, consentId, RevokeAt(now));
      activityLogs := [ActivityLog(logId, consentId, consent.value.tppId, LogRevoked, now,
                                   "User revoked consent", None)] + activityLogs;
    }

    /** `renewConsent`: with an unknown id nothing changes; otherwise every
        consent with the id is made active and expires 90 days after `now`, and
        one 'renewed' entry is put in front of the log. */
    method RenewConsent(consentId: string, now: Time, logId: string)
      modifies this
      ensures old(Valid()) ==> Valid()
      ensures GetConsentById(old(consents), consentId).None? ==>
                consents == old(consents) && activityLogs == old(activityLogs)
      ensures GetConsentById(old(consents), consentId).Some? ==>
                && consents == UpdateWhere(old(consents), consentId, RenewAt(now))
                && activityLogs == [ActivityLog(logId, consentId,
                                                GetConsentById(old(consents), consentId).value.tppId,
                                                LogRenewed, now, "User renewed consent for 90 days", None)]
                                   + old(activityLogs)
    {
      var consent := GetConsentById(consents, consentId);
      if consent.None? {
        return;
      }
      if Valid() {
        UpdateKeepsRevokedStamped(consents, consentId, RenewAt(now));
      }
      consents := UpdateWhere(consents, consentId, RenewAt(now));
      activityLogs := [ActivityLog(logId, consentId, consent.value.tppId, LogRenewed, now,
                                   "User renewed consent for 90 days", None)] + activityLogs;
    }

    /** `addConsent`: an active consent with exactly the given permissions and
        accounts, created and authorized at `now` and expiring 90 days later, is
        put in front, and one 'authorized' entry in front of the log. Nothing
        checks that the lists are non-empty. */
    method AddConsent(tppId: string, permissions: seq<Permission>, accountIds: seq<string>,
                      now: Time, consentId: string, logId: string)
      modifies this
      ensures old(Valid()) ==> Valid()
      ensures consents == [NewConsent(consentId, tppId, permissions, accountIds, now)] + old(consents)
      ensures activityLogs == [ActivityLog(logId, consentId, tppId, LogAuthorized, now,
                                           "User authorized new consent", None)] + old(activityLogs)
    {
      var newConsent := NewConsent(consentId, tppId, permissions, accountIds, now);
      consents := [newConsent] + consents;
      activityLogs := [ActivityLog(logId, consentId, tppId, LogAuthorized, now,
                                   "User authorized new consent", None)] + activityLogs;
    }

    /** `addActivityLog`: the entry, given its id, is put in front of the log;
        the consents are untouched. */
    method AddActivityLog(draft: LogDraft, logId: string)
      modifies this
      ensures consents == old(consents)
      ensures activityLogs == [WithId(draft, logId)] + old(activityLogs)
    {
      activityLogs := [WithId(draft, logId)] + activityLogs;
    }
  }
}
