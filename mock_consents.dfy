/** The seed data of lib/data/mock-consents.ts. The module reads the clock
    once when it loads; here that instant is the parameter `now`, and the
    calendar-day helpers move by a fixed 86,400,000 ms per day. */
module MockConsents {
  import opened Collections
  import opened Types
  import Clock

  /** `daysAgo(n)` relative to the load time. */
  function DaysAgo(now: Time, days: nat): (t: Time)
    ensures t <= now && now - t == days * Clock.DayMs
  {
    now - days * Clock.DayMs
  }

  /** `daysFromNow(n)` relative to the load time. */
  function DaysFromNow(now: Time, days: nat): (t: Time)
    ensures t >= now && t - now == days * Clock.DayMs
  {
    now + days * Clock.DayMs
  }

  /** `hoursAgo(n)` relative to the load time. */
  function HoursAgo(now: Time, hours: nat): (t: Time)
    ensures t <= now && now - t == hours * Clock.HourMs
  {
    now - hours * Clock.HourMs
  }

  /** A seed entry is revoked exactly when it carries a revocation time, has
      permissions and accounts, was authorized when it was created and expires
      after that. */
  predicate SeedShape(c: Consent)
  {
    && (c.status == Revoked <==> c.revokedAt.Some?)
    && |c.permissions| > 0 && |c.accountIds| > 0
    && c.authorizedAt == Some(c.createdAt) && c.createdAt < c.expiresAt
  }

  /** `initialConsents`: six active consents (two of them expiring within a
      week), one revoked and one expired; `SeedConsentShapes` and
      `SeedConsentIds` state what holds of them. */
  function InitialConsents(now: Time): (cs: seq<Consent>)
    ensures |cs| == 8
  {
    [ Consent("consent-001", "tpp-001", "user-001", Active,
              [ReadAccountsBasic, ReadAccountsDetail, ReadBalances, ReadTransactionsDetail],
              ["acc-001", "acc-002"],
              DaysAgo(now, 45), Some(DaysAgo(now, 45)), DaysFromNow(now, 45),
              None, Some(HoursAgo(now, 2)), 127),
      Consent("consent-002", "tpp-003", "user-001", Active,
              [ReadAccountsBasic, ReadBalances],
              ["acc-001", "acc-002"],
              DaysAgo(now, 30), Some(DaysAgo(now, 30)), DaysFromNow(now, 60),
              None, Some(DaysAgo(now, 3)), 45),
      Consent("consent-003", "tpp-004", "user-001", Active,
              [ReadAccountsDetail, ReadTransactionsDetail, InitiatePayments],
              ["acc-003"],
              DaysAgo(now, 60), Some(DaysAgo(now, 60)), DaysFromNow(now, 30),
              None, Some(HoursAgo(now, 5)), 312),
      Consent("consent-004", "tpp-006", "user-001", Active,
              [ReadAccountsBasic, ReadBalances, ReadTransactionsBasic],
              ["acc-001"],
              DaysAgo(now, 15), Some(DaysAgo(now, 15)), DaysFromNow(now, 75),
              None, Some(DaysAgo(now, 2)), 28),
      Consent("consent-005", "tpp-007", "user-001", Active,
              [ReadAccountsBasic, ReadAccountsDetail, ReadBalances],
              ["acc-001", "acc-002", "acc-003"],
              DaysAgo(now, 85), Some(DaysAgo(now, 85)), DaysFromNow(now, 5),
              None, Some(HoursAgo(now, 18)), 203),
      Consent("consent-008", "tpp-008", "user-001", Active,
              [ReadAccountsBasic, ReadBalances, InitiatePayments],
              ["acc-001"],
              DaysAgo(now, 87), Some(DaysAgo(now, 87)), DaysFromNow(now, 3),
              None, Some(DaysAgo(now, 1)), 156),
      Consent("consent-006", "tpp-005", "user-001", Revoked,
              [ReadAccountsDetail, ReadTransactionsDetail],
              ["acc-001"],
              DaysAgo(now, 120), Some(DaysAgo(now, 120)), DaysAgo(now, 30),
              Some(DaysAgo(now, 60)), Some(DaysAgo(now, 60)), 89),
      Consent("consent-007", "tpp-002", "user-001", Expired,
              [InitiatePayments],
              ["acc-001"],
              DaysAgo(now, 100), Some(DaysAgo(now, 100)), DaysAgo(now, 10),
              None, Some(DaysAgo(now, 15)), 42) ]
  }

  /** Every seed consent is revoked exactly when it carries a revocation
      time, has permissions and accounts, was authorized when it was created
      and expires after that. */
  lemma SeedConsentShapes(now: Time)
    ensures forall c :: c in InitialConsents(now) ==> SeedShape(c)
  {
  }

  /** Only consent-006 is revoked, and the seed ids are pairwise distinct. */
  lemma SeedConsentIds(now: Time)
    ensures forall c :: c in InitialConsents(now) ==> (c.status == Revoked <==> c.id == "consent-006")
    ensures forall i, j :: 0 <= i < j < |InitialConsents(now)| ==>
              InitialConsents(now)[i].id != InitialConsents(now)[j].id
  {
    var cs := InitialConsents(now);
    forall i, j | 0 <= i < j < |cs| ensures cs[i].id != cs[j].id {
      assert cs[i].id[10] != cs[j].id[10];
    }
  }

  /** A consent of `cs` has this id and this provider. */
  predicate References(cs: seq<Consent>, consentId: string, tppId: string)
  {
    exists c :: c in cs && c.id == consentId && c.tppId == tppId
  }

  /** A log entry has an endpoint exactly when it records an access. */
  predicate LogShape(l: ActivityLog)
  {
    l.endpoint.Some? <==> l.action == LogAccessed
  }

  /** `initialActivityLogs`: five accesses, one revocation, one
      authorization and one more access, newest first. */
  function InitialActivityLogs(now: Time): (logs: seq<ActivityLog>)
    ensures |logs| == 8
  {
      [ ActivityLog("log-001", "consent-001", "tpp-001", LogAccessed, HoursAgo(now, 2),
                    "Retrieved account balances", Some("GET /accounts/{accountId}/balances")),
        ActivityLog("log-002", "consent-001", "tpp-001", LogAccessed, HoursAgo(now, 2),
                    "Retrieved transactions (last 30 days)", Some("GET /accounts/{accountId}/transactions")),
        ActivityLog("log-003", "consent-003", "tpp-004", LogAccessed, HoursAgo(now, 5),
                    "Initiated payment of \U{20AC}1,250.00", Some("POST /payments")),
        ActivityLog("log-004", "consent-003", "tpp-004", LogAccessed, DaysAgo(now, 1),
                    "Retrieved transaction history", Some("GET /accounts/{accountId}/transactions")),
        ActivityLog("log-005", "consent-005", "tpp-007", LogAccessed, HoursAgo(now, 18),
                    "Retrieved account list", Some("GET /accounts")),
        ActivityLog("log-006", "consent-006", "tpp-005", LogRevoked, DaysAgo(now, 60),
                    "User revoked consent", None),
        ActivityLog("log-007", "consent-001", "tpp-001", LogAuthorized, DaysAgo(now, 45),
                    "User authorized new consent", None),
        ActivityLog("log-008", "consent-002", "tpp-003", LogAccessed, DaysAgo(now, 3),
                    "Retrieved account balances", Some("GET /accounts/{accountId}/balances")) ]
  }

  /** The seed log ids are pairwise distinct and every entry has an endpoint
      exactly when it records an access. */
  lemma SeedLogShapes(now: Time)
    ensures forall i, j :: 0 <= i < j < |InitialActivityLogs(now)| ==>
              InitialActivityLogs(now)[i].id != InitialActivityLogs(now)[j].id
    ensures forall l :: l in InitialActivityLogs(now) ==> LogShape(l)
  {
    var logs := InitialActivityLogs(now);
    forall i, j | 0 <= i < j < |logs| ensures logs[i].id != logs[j].id {
      assert logs[i].id[6] != logs[j].id[6];
    }
  }

  /** Every seed log entry refers to a seed consent and copies that consent's
      provider. */
  lemma SeedLogsReferenceSeedConsents(now: Time)
    ensures forall i :: 0 <= i < |InitialActivityLogs(now)| ==>
              References(InitialConsents(now), InitialActivityLogs(now)[i].consentId,
                         InitialActivityLogs(now)[i].tppId)
  {
    var cs := InitialConsents(now);
    var logs := InitialActivityLogs(now);
    forall i | 0 <= i < |logs|
      ensures References(cs, logs[i].consentId, logs[i].tppId)
    {
      if i == 0 || i == 1 || i == 6 { assert cs[0] in cs; }
      else if i == 7 { assert cs[1] in cs; }
      else if i == 2 || i == 3 { assert cs[2] in cs; }
      else if i == 4 { assert cs[4] in cs; }
      else { assert cs[6] in cs; }
    }
  }

  /** `funnelData`: each stage of the funnel keeps at most as many as the one
      before it. */
  function FunnelData(): (f: FunnelMetrics)
    ensures f.initiated >= f.redirected >= f.authenticated >= f.authorized >= f.active
  {
    FunnelMetrics(156, 142, 128, 118, 98)
  }
}
