/** The metrics the bank dashboard (app/bank/page.tsx) computes from the
    store: the per-provider table with its revocation risk, last activity and
    ordering, the "today" counters, the status chart and the expiry alerts.
    The current time is a parameter, and the calendar date of a timestamp is
    an opaque parameter `dayOf`. */
module BankDashboard {
  import opened Collections
  import opened Types
  import Clock
  import MockTpps
  import MockConsents
  import opened Store

  // ---------------------------------------------------------------------
  // Revocation rate and risk

  /** `(revoked / total) * 100`, and 0 for a provider without consents. */
  function RevocationRate(revoked: nat, total: nat): (rate: real)
    requires revoked <= total
    ensures 0.0 <= rate <= 100.0
    ensures total == 0 ==> rate == 0.0
  {
    if total > 0 then (revoked as real / total as real) * 100.0 else 0.0
  }

  /** The risk score, decided by cross-multiplication: high above 10%,
      medium above 5%, low otherwise. */
  function Risk(revoked: nat, total: nat): (r: RiskLevel)
    ensures r != Low ==> revoked > 0
    ensures revoked == total && total > 0 ==> r == High
  {
    if revoked * 100 > 10 * total then High
    else if revoked * 100 > 5 * total then Medium
    else Low
  }

  /** The integer decision agrees with the thresholds on the exact rate. */
  lemma RiskMatchesRate(revoked: nat, total: nat)
    requires revoked <= total
    ensures Risk(revoked, total) == High <==> RevocationRate(revoked, total) > 10.0
    ensures Risk(revoked, total) == Medium <==> 5.0 < RevocationRate(revoked, total) <= 10.0
    ensures Risk(revoked, total) == Low <==> RevocationRate(revoked, total) <= 5.0
  {
    if total > 0 {
      var rate := RevocationRate(revoked, total);
      RateAboveIff(revoked, total, 10);
      RateAboveIff(revoked, total, 5);
      assert rate > 10.0 <==> revoked * 100 > 10 * total;
      assert rate > 5.0 <==> revoked * 100 > 5 * total;
    }
  }

  /** The rate exceeds a whole percentage exactly when the cross-multiplied
      integers say so. */
  lemma RateAboveIff(revoked: nat, total: nat, percent: nat)
    requires revoked <= total && total > 0
    ensures RevocationRate(revoked, total) > percent as real <==> revoked * 100 > percent * total
  {
    var t := total as real;
    var rate := (revoked as real / t) * 100.0;
    assert rate == RevocationRate(revoked, total);
    assert rate * t == revoked as real * 100.0;
    assert revoked * 100 > percent * total <==> revoked as real * 100.0 > percent as real * t;
    ScalePositive(rate, percent as real, t);
  }

  /** Multiplying both sides by a positive number keeps the order. */
  lemma ScalePositive(a: real, b: real, t: real)
    requires t > 0.0
    ensures a > b <==> a * t > b * t
  {
    if a > b {
      assert (a - b) * t > 0.0;
    } else {
      assert (b - a) * t >= 0.0;
    }
  }

  /** At the boundaries: exactly 10% is medium and exactly 5% is low. */
  lemma RiskBoundaries(n: nat)
    requires n > 0
    ensures Risk(n, 10 * n) == Medium
    ensures Risk(n, 20 * n) == Low
    ensures Risk(n + 1, 10 * n) == High
  {
  }

  // ---------------------------------------------------------------------
  // Last activity

  /** `c.lastAccessedAt || c.createdAt`. */
  function ActivityTime(c: Consent): (t: Time)
    ensures t == c.createdAt || c.lastAccessedAt == Some(t)
    ensures AccessedAfterCreation([c]) ==> t >= c.createdAt
  {
    if c.lastAccessedAt.Some? then c.lastAccessedAt.value else c.createdAt
  }

  /** The `reduce` over a provider's consents starting from `latest`: a
      consent's activity time replaces the running value when it is strictly
      later. The result is the largest of the start value and the activity
      times. */
  function LatestActivity(latest: Time, cs: seq<Consent>): (r: Time)
    ensures r >= latest
    ensures forall c :: c in cs ==> ActivityTime(c) <= r
    ensures r == latest || exists c :: c in cs && r == ActivityTime(c)
    decreases |cs|
  {
    if cs == [] then latest
    else
      var r := LatestActivity(if ActivityTime(cs[0]) > latest then ActivityTime(cs[0]) else latest, cs[1..]);
      assert forall c :: c in cs[1..] ==> c in cs;
      assert forall c :: c in cs ==> c == cs[0] || c in cs[1..];
      r
  }

  /** No consent was used before it was created. */
  predicate AccessedAfterCreation(cs: seq<Consent>)
  {
    forall c :: c in cs ==> (c.lastAccessedAt.Some? ==> c.createdAt <= c.lastAccessedAt.value)
  }

  /** Started from the first consent's creation time, the reduce yields the
      latest activity time of the consents, when none was used before it was
      created. */
  lemma LastActivityIsLatest(cs: seq<Consent>)
    requires cs != [] && AccessedAfterCreation(cs)
    ensures var r := LatestActivity(cs[0].createdAt, cs);
            (exists c :: c in cs && r == ActivityTime(c))
            && forall c :: c in cs ==> ActivityTime(c) <= r
  {
    assert cs[0] in cs;
    assert ActivityTime(cs[0]) >= cs[0].createdAt;
  }

  // ---------------------------------------------------------------------
  // The provider table

  /** One row of the provider table. */
  datatype TppMetric = TppMetric(tpp: Tpp, activeConsents: nat, totalConsents: nat,
                                 revokedConsents: nat, riskScore: RiskLevel,
                                 lastActivity: Option<Time>)

  /** The row of one catalog provider: its consent count, its active and
      revoked counts, the risk of its revocation rate, and its last activity,
      which is at least every activity time of its consents and, when none of
      them was used before it was created, is the latest of them. */
  function MetricFor(tpp: Tpp, cs: seq<Consent>): (m: TppMetric)
    ensures m.tpp == tpp
    ensures m.totalConsents == |GetConsentsByTpp(cs, tpp.id)|
    ensures m.activeConsents == |GetActiveConsents(GetConsentsByTpp(cs, tpp.id))|
    ensures m.revokedConsents == |GetConsentsByStatus(GetConsentsByTpp(cs, tpp.id), Revoked)|
    ensures 0 <= m.activeConsents <= m.totalConsents && m.revokedConsents <= m.totalConsents
    ensures m.riskScore == Risk(m.revokedConsents, m.totalConsents)
    ensures m.lastActivity.None? <==> m.totalConsents == 0
    ensures m.lastActivity.Some? ==>
              && (forall c :: c in cs && c.tppId == tpp.id ==> ActivityTime(c) <= m.lastActivity.value)
              && exists c :: c in cs && c.tppId == tpp.id
                             && (m.lastActivity.value == ActivityTime(c) || m.lastActivity.value == c.createdAt)
    ensures m.lastActivity.Some? && AccessedAfterCreation(GetConsentsByTpp(cs, tpp.id)) ==>
              exists c :: c in cs && c.tppId == tpp.id && m.lastActivity.value == ActivityTime(c)
  {
    var mine := GetConsentsByTpp(cs, tpp.id);
    var active := |GetActiveConsents(mine)|;
    var revoked := |GetConsentsByStatus(mine, Revoked)|;
    if mine != [] then
      assert mine[0] in mine;
      var latest := LatestActivity(mine[0].createdAt, mine);
      assert AccessedAfterCreation(mine) ==> exists c :: c in mine && latest == ActivityTime(c) by {
        if AccessedAfterCreation(mine) {
          LastActivityIsLatest(mine);
        }
      }
      TppMetric(tpp, active, |mine|, revoked, Risk(revoked, |mine|), Some(latest))
    else
      TppMetric(tpp, active, |mine|, revoked, Risk(revoked, |mine|), None)
  }

  /** `mockTPPs.map(...)`: one row per provider, in the providers' order. */
  function MetricsFor(tpps: seq<Tpp>, cs: seq<Consent>): (rows: seq<TppMetric>)
    ensures |rows| == |tpps|
    ensures forall i :: 0 <= i < |tpps| ==> rows[i] == MetricFor(tpps[i], cs)
  {
    if tpps == [] then [] else [MetricFor(tpps[0], cs)] + MetricsFor(tpps[1..], cs)
  }

  /** Every row belongs to a listed provider. */
  lemma RowsOfListed(tpps: seq<Tpp>, cs: seq<Consent>)
    ensures forall m :: m in MetricsFor(tpps, cs) ==> m.tpp in tpps
  {
    var all := MetricsFor(tpps, cs);
    forall m | m in all ensures m.tpp in tpps {
      var i :| 0 <= i < |all| && all[i] == m;
    }
  }

  function HasConsents(): TppMetric -> bool { (m: TppMetric) => m.totalConsents > 0 }

  /** The sort comparator `b.activeConsents - a.activeConsents`: `a` may stay
      before `b`. */
  predicate Before(a: TppMetric, b: TppMetric)
  {
    a.activeConsents >= b.activeConsents
  }

  /** Inserting a row in front of every row with no more active consents. */
  function Insert(m: TppMetric, sorted: seq<TppMetric>): (r: seq<TppMetric>)
    ensures multiset(r) == multiset(sorted) + multiset{m}
    ensures |r| == |sorted| + 1
    ensures forall x :: x in r <==> x == m || x in sorted
  {
    if sorted == [] || Before(m, sorted[0]) then [m] + sorted
    else
      assert sorted == [sorted[0]] + sorted[1..];
      [sorted[0]] + Insert(m, sorted[1..])
  }

  /** Array.prototype.sort, which is stable, with that comparator. */
  function SortByActive(rows: seq<TppMetric>): (r: seq<TppMetric>)
    ensures multiset(r) == multiset(rows)
    ensures |r| == |rows|
    ensures forall x :: x in r <==> x in rows
  {
    if rows == [] then []
    else
      assert rows == [rows[0]] + rows[1..];
      Insert(rows[0], SortByActive(rows[1..]))
  }

  predicate SortedByActive(s: seq<TppMetric>)
  {
    forall i, j :: 0 <= i < j < |s| ==> s[i].activeConsents >= s[j].activeConsents
  }

  /** Inserting keeps the rows ordered. */
  lemma {:induction false} InsertSorted(m: TppMetric, sorted: seq<TppMetric>)
    requires SortedByActive(sorted)
    ensures SortedByActive(Insert(m, sorted))
  {
    if sorted != [] && !Before(m, sorted[0]) {
      InsertSorted(m, sorted[1..]);
      var rest := Insert(m, sorted[1..]);
      forall j | 0 <= j < |rest| ensures sorted[0].activeConsents >= rest[j].activeConsents {
        assert rest[j] in rest;
      }
    }
  }

  /** The sort orders the rows non-increasingly by active consents. */
  lemma {:induction false} SortSorted(rows: seq<TppMetric>)
    ensures SortedByActive(SortByActive(rows))
  {
    if rows != [] {
      SortSorted(rows[1..]);
      InsertSorted(rows[0], SortByActive(rows[1..]));
    }
  }

  function ActiveIs(k: nat): TppMetric -> bool { (m: TppMetric) => m.activeConsents == k }

  /** Inserting a row puts it before the rows with its own count. */
  lemma {:induction false} InsertStable(m: TppMetric, sorted: seq<TppMetric>, k: nat)
    requires SortedByActive(sorted)
    ensures Filter(Insert(m, sorted), ActiveIs(k))
            == (if m.activeConsents == k then [m] else []) + Filter(sorted, ActiveIs(k))
  {
    var p := ActiveIs(k);
    if sorted == [] || Before(m, sorted[0]) {
      FilterConcat([m], sorted, p);
    } else {
      InsertStable(m, sorted[1..], k);
      assert sorted == [sorted[0]] + sorted[1..];
      FilterConcat([sorted[0]], sorted[1..], p);
      FilterConcat([sorted[0]], Insert(m, sorted[1..]), p);
      if m.activeConsents == k {
        assert !p(sorted[0]);
        assert Filter([sorted[0]], p) == [];
      }
    }
  }

  /** The sort is stable: the rows with any one count keep their relative
      order. */
  lemma {:induction false} SortStable(rows: seq<TppMetric>, k: nat)
    ensures Filter(SortByActive(rows), ActiveIs(k)) == Filter(rows, ActiveIs(k))
  {
    if rows != [] {
      SortStable(rows[1..], k);
      SortSorted(rows[1..]);
      InsertStable(rows[0], SortByActive(rows[1..]), k);
      assert rows == [rows[0]] + rows[1..];
      FilterConcat([rows[0]], rows[1..], ActiveIs(k));
    }
  }

  /** The table over a list of providers: the rows of the providers with at
      least one consent, sorted by active consents. */
  function TableOver(tpps: seq<Tpp>, cs: seq<Consent>): (rows: seq<TppMetric>)
    ensures forall m :: m in rows ==> m.tpp in tpps && m.totalConsents > 0
    ensures multiset(rows) == multiset(Filter(MetricsFor(tpps, cs), HasConsents()))
  {
    RowsOfListed(tpps, cs);
    SortByActive(Filter(MetricsFor(tpps, cs), HasConsents()))
  }

  /** `tppMetrics`: the table over the provider catalog. */
  function TppMetrics(cs: seq<Consent>): (rows: seq<TppMetric>)
    ensures forall m :: m in rows ==> m.tpp in MockTpps.Catalog() && m.totalConsents > 0
  {
    TableOver(MockTpps.Catalog(), cs)
  }

  /** The table is ordered non-increasingly by active consents, and rows of
      equal count keep the providers' order. */
  lemma TableOrder(tpps: seq<Tpp>, cs: seq<Consent>)
    ensures SortedByActive(TableOver(tpps, cs))
    ensures forall k: nat :: Filter(TableOver(tpps, cs), ActiveIs(k))
                             == Filter(Filter(MetricsFor(tpps, cs), HasConsents()), ActiveIs(k))
  {
    var rows := Filter(MetricsFor(tpps, cs), HasConsents());
    SortSorted(rows);
    forall k: nat ensures Filter(TableOver(tpps, cs), ActiveIs(k)) == Filter(rows, ActiveIs(k)) {
      SortStable(rows, k);
    }
  }

  /** A listed provider has a row exactly when some consent was given to it. */
  lemma TableRows(tpps: seq<Tpp>, cs: seq<Consent>, t: Tpp)
    requires t in tpps
    ensures MetricFor(t, cs) in TableOver(tpps, cs) <==> exists c :: c in cs && c.tppId == t.id
  {
    var all := MetricsFor(tpps, cs);
    var i :| 0 <= i < |tpps| && tpps[i] == t;
    assert all[i] == MetricFor(t, cs) && all[i] in all;
    var mine := GetConsentsByTpp(cs, t.id);
    if exists c :: c in cs && c.tppId == t.id {
      var c :| c in cs && c.tppId == t.id;
      assert c in mine;
    }
  }

  /** The row of a provider ignores consents given to other providers. */
  lemma MetricIgnoresOthers(t: Tpp, cs: seq<Consent>, c: Consent)
    requires t.id != c.tppId
    ensures MetricFor(t, [c] + cs) == MetricFor(t, cs)
  {
    FilterConcat([c], cs, OfTpp(t.id));
    assert Filter([c], OfTpp(t.id)) == [];
    assert GetConsentsByTpp([c] + cs, t.id) == GetConsentsByTpp(cs, t.id);
  }

  /** A consent given to a provider outside the list changes no row. */
  lemma UnknownProviderIgnored(tpps: seq<Tpp>, cs: seq<Consent>, c: Consent)
    requires forall t :: t in tpps ==> t.id != c.tppId
    ensures TableOver(tpps, [c] + cs) == TableOver(tpps, cs)
  {
    forall i | 0 <= i < |tpps| ensures MetricFor(tpps[i], [c] + cs) == MetricFor(tpps[i], cs) {
      MetricIgnoresOthers(tpps[i], cs, c);
    }
    assert MetricsFor(tpps, [c] + cs) == MetricsFor(tpps, cs);
  }

  // ---------------------------------------------------------------------
  // Today's counters

  /** The condition of `revokedToday`. */
  function RevokedOn(today: int, dayOf: Time -> int): Consent -> bool
  {
    (c: Consent) => c.status == Revoked && c.revokedAt.Some? && dayOf(c.revokedAt.value) == today
  }

  /** `revokedToday`: the revoked consents whose revocation falls on today's
      date; never more than the revoked count. */
  function RevokedToday(cs: seq<Consent>, now: Time, dayOf: Time -> int): (n: nat)
    ensures n <= GetConsentCountByStatus(cs).revoked
  {
    FilterStronger(cs, RevokedOn(dayOf(now), dayOf), HasStatus(Revoked));
    |Filter(cs, RevokedOn(dayOf(now), dayOf))|
  }

  function CreatedOn(today: int, dayOf: Time -> int): Consent -> bool
  {
    (c: Consent) => dayOf(c.createdAt) == today
  }

  /** `newToday`: the consents created on today's date. */
  function NewToday(cs: seq<Consent>, now: Time, dayOf: Time -> int): (n: nat)
    ensures n <= |cs|
  {
    |Filter(cs, CreatedOn(dayOf(now), dayOf))|
  }

  /** A consent added now counts as new today. */
  lemma AddedConsentIsNewToday(cs: seq<Consent>, consentId: string, tppId: string,
                               permissions: seq<Permission>, accountIds: seq<string>,
                               now: Time, dayOf: Time -> int)
    ensures NewToday([NewConsent(consentId, tppId, permissions, accountIds, now)] + cs, now, dayOf)
            == NewToday(cs, now, dayOf) + 1
  {
    FilterConcat([NewConsent(consentId, tppId, permissions, accountIds, now)], cs,
                 CreatedOn(dayOf(now), dayOf));
  }

  /** Revoking now never lowers today's revocation count, and the revoked
      consent is counted afterwards. */
  lemma RevokeCountsToday(cs: seq<Consent>, id: string, now: Time, dayOf: Time -> int)
    ensures RevokedToday(cs, now, dayOf) <= RevokedToday(UpdateWhere(cs, id, RevokeAt(now)), now, dayOf)
    ensures forall c :: c in UpdateWhere(cs, id, RevokeAt(now)) && c.id == id ==>
              RevokedOn(dayOf(now), dayOf)(c)
  {
    var r := UpdateWhere(cs, id, RevokeAt(now));
    FilterPointwise(cs, r, RevokedOn(dayOf(now), dayOf), RevokedOn(dayOf(now), dayOf));
    forall c | c in r && c.id == id ensures RevokedOn(dayOf(now), dayOf)(c) {
      var i :| 0 <= i < |r| && r[i] == c;
    }
  }

  // ---------------------------------------------------------------------
  // Charts and alerts

  datatype Slice = Slice(name: string, value: nat, color: string)

  function Positive(): Slice -> bool { (s: Slice) => s.value > 0 }

  /** The four candidate slices of the status chart. */
  function Slices(counts: StatusCounts, expiring: nat): seq<Slice>
  {
    [ Slice("Active", counts.active, "#22c55e"),
      Slice("Expiring Soon", expiring, "#f59e0b"),
      Slice("Expired", counts.expired, "#94a3b8"),
      Slice("Revoked", counts.revoked, "#ef4444") ]
  }

  /** The place of a slice among the candidates. */
  function Rank(name: string): nat
  {
    if name == "Active" then 0
    else if name == "Expiring Soon" then 1
    else if name == "Expired" then 2
    else 3
  }

  function SliceRank(): Slice -> int { (sl: Slice) => Rank(sl.name) }

  /** `pieData`: the candidate slices in their order, minus those of value 0. */
  function PieData(counts: StatusCounts, expiring: nat): (r: seq<Slice>)
    ensures |r| <= 4
    ensures forall i :: 0 <= i < |r| ==> r[i].value > 0
    ensures forall s :: s in r ==> s in Slices(counts, expiring)
    ensures forall s :: s in Slices(counts, expiring) ==> (s in r <==> s.value > 0)
    ensures IncreasingBy(r, SliceRank())
  {
    FilterKeepsOrder(Slices(counts, expiring), Positive(), SliceRank());
    Filter(Slices(counts, expiring), Positive())
  }

  /** The chart as the dashboard builds it from the store. */
  function StatusChart(cs: seq<Consent>, now: Time): (r: seq<Slice>)
    ensures |r| <= 4
    ensures forall i :: 0 <= i < |r| ==> r[i].value > 0
  {
    PieData(GetConsentCountByStatus(cs), |GetExpiringSoon(cs, 7, now)|)
  }

  /** With no consent at all the chart is empty; otherwise an "Active" slice
      appears exactly when some consent is active. */
  lemma StatusChartSlices(cs: seq<Consent>, now: Time)
    ensures cs == [] ==> StatusChart(cs, now) == []
    ensures (exists s :: s in StatusChart(cs, now) && s.name == "Active")
            <==> exists c :: c in cs && c.status == Active
  {
    var counts := GetConsentCountByStatus(cs);
    var slices := Slices(counts, |GetExpiringSoon(cs, 7, now)|);
    var r := StatusChart(cs, now);
    assert slices[0] in slices;
    if cs == [] {
      FilterEmpty(slices, Positive());
    }
    if exists c :: c in cs && c.status == Active {
      var c :| c in cs && c.status == Active;
      assert c in GetActiveConsents(cs);
    }
  }

  datatype Bar = Bar(name: string, value: nat, fill: string)

  /** `funnelChartData`: one bar per funnel stage, in stage order. */
  function FunnelChart(f: FunnelMetrics): (bars: seq<Bar>)
    ensures |bars| == 5
  {
    [ Bar("Initiated", f.initiated, "#93c5fd"),
      Bar("Redirected", f.redirected, "#60a5fa"),
      Bar("Authenticated", f.authenticated, "#3b82f6"),
      Bar("Authorized", f.authorized, "#2563eb"),
      Bar("Active", f.active, "#1d4ed8") ]
  }

  /** The bars of the seed funnel never grow from one stage to the next. */
  lemma FunnelChartNonIncreasing()
    ensures var bars := FunnelChart(MockConsents.FunnelData());
            forall i, j :: 0 <= i < j < |bars| ==> bars[i].value >= bars[j].value
  {
  }

  /** The alert's `daysLeft` for an expiring consent. */
  function AlertDaysLeft(c: Consent, now: Time): (d: int)
    ensures (d - 1) * Clock.DayMs < c.expiresAt - now <= d * Clock.DayMs
  {
    Clock.DaysUntil(c.expiresAt, now)
  }

  /** Every alert, computed at the same instant as the window, shows 1 to 7
      days. */
  lemma AlertDaysLeftInRange(cs: seq<Consent>, now: Time)
    ensures forall c :: c in GetExpiringSoon(cs, 7, now) ==> 1 <= AlertDaysLeft(c, now) <= 7
  {
  }
}
