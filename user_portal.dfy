/** The user portal (app/user/page.tsx): the split of the consents into the
    connected and the inactive apps, the predicates and badges of a connected
    app's card, the label of an inactive card, and the card's revoke and renew
    handlers over the store. */
module UserPortal {
  import opened Collections
  import opened Types
  import Clock
  import MockTpps
  import opened Store

  // ---------------------------------------------------------------------
  // The two lists

  function IsInactive(): Consent -> bool
  {
    (c: Consent) => c.status == Revoked || c.status == Expired
  }

  // `activeConsents`, the connected apps, is the store's `GetActiveConsents`.

  /** `inactiveConsents`: the revoked and the expired consents. */
  function InactiveList(cs: seq<Consent>): (r: seq<Consent>)
    ensures forall c :: c in r <==> c in cs && (c.status == Revoked || c.status == Expired)
  {
    Filter(cs, IsInactive())
  }

  /** The two lists never share a consent, and pending, authorized and
      rejected consents appear in neither, so together they hold at most all
      consents, and exactly all when no consent has one of those statuses. */
  lemma ListsPartition(cs: seq<Consent>)
    ensures forall c :: !(c in GetActiveConsents(cs) && c in InactiveList(cs))
    ensures forall c :: c in cs && c.status in {Pending, Authorized, Rejected} ==>
              c !in GetActiveConsents(cs) && c !in InactiveList(cs)
    ensures |GetActiveConsents(cs)| + |InactiveList(cs)|
            == |cs| - |GetConsentsByStatus(cs, Pending)| - |GetConsentsByStatus(cs, Authorized)|
               - |GetConsentsByStatus(cs, Rejected)|
  {
    ListCounts(cs);
  }

  lemma {:induction false} ListCounts(cs: seq<Consent>)
    ensures |Filter(cs, HasStatus(Active))| + |Filter(cs, IsInactive())|
            + |Filter(cs, HasStatus(Pending))| + |Filter(cs, HasStatus(Authorized))|
            + |Filter(cs, HasStatus(Rejected))| == |cs|
  {
    if cs != [] {
      ListCounts(cs[1..]);
    }
  }

  // ---------------------------------------------------------------------
  // A connected app's card

  /** `isExpiringSoon`: `daysUntil(expiresAt)` lies in 1..7, which is the
      expiry lying after now and at most seven days ahead. */
  function IsExpiringSoon(c: Consent, now: Time): (b: bool)
    ensures b <==> now < c.expiresAt <= now + 7 * Clock.DayMs
  {
    var daysLeft := Clock.DaysUntil(c.expiresAt, now);
    daysLeft <= 7 && daysLeft > 0
  }

  /** An active consent's card reads "Expiring Soon" exactly when the store
      counts it in its seven-day window. */
  lemma ExpiringSoonAgreesWithStore(cs: seq<Consent>, c: Consent, now: Time)
    requires c in cs && c.status == Active
    ensures IsExpiringSoon(c, now) <==> c in GetExpiringSoon(cs, 7, now)
  {
  }

  /** `hasPaymentPermission`: the card may make payments exactly when one of
      its permissions is of the payment category. */
  function HasPaymentPermission(c: Consent): (b: bool)
    ensures b <==> exists p :: p in c.permissions && PermissionDetails(p).category == PaymentCategory
  {
    assert PermissionDetails(InitiatePayments).category == PaymentCategory;
    InitiatePayments in c.permissions
  }

  datatype Badge = ActiveBadge | ExpiringSoonBadge

  /** The status badges of a card, in the order they are rendered. */
  function Badges(c: Consent, now: Time): (bs: seq<Badge>)
    ensures ActiveBadge in bs <==> c.status == Active && !IsExpiringSoon(c, now)
    ensures ExpiringSoonBadge in bs <==> IsExpiringSoon(c, now)
    ensures |bs| <= 2
  {
    (if c.status == Active && !IsExpiringSoon(c, now) then [ActiveBadge] else [])
    + (if IsExpiringSoon(c, now) then [ExpiringSoonBadge] else [])
  }

  /** A card is rendered only for an active consent, and then it shows
      exactly one badge: "Expiring Soon" inside the seven-day window, "Active"
      outside it. */
  lemma OneBadge(c: Consent, now: Time)
    requires c.status == Active
    ensures |Badges(c, now)| == 1
    ensures Badges(c, now)[0] == ExpiringSoonBadge <==> now < c.expiresAt <= now + 7 * Clock.DayMs
  {
  }

  /** `if (!tpp) return null`: a card is drawn only for a catalog provider. */
  function CardShown(c: Consent): (b: bool)
    ensures b <==> exists t :: t in MockTpps.Catalog() && t.id == c.tppId
  {
    MockTpps.GetTppById(c.tppId).Some?
  }

  // ---------------------------------------------------------------------
  // An inactive app's card

  /** The line under an inactive card's name: when it was revoked or when it
      expired. A missing revocation time reads as `new Date(null)`, the epoch. */
  datatype InactiveLine = RevokedLine(when: Clock.RelativeTime) | ExpiredLine(when: Clock.RelativeTime)

  function InactiveCardLine(c: Consent, now: Time): (l: InactiveLine)
    ensures l.RevokedLine? <==> c.status == Revoked
    ensures l.RevokedLine? && c.revokedAt.Some? ==> l.when == Clock.FormatRelativeTime(c.revokedAt.value, now)
    ensures l.ExpiredLine? ==> l.when == Clock.FormatRelativeTime(c.expiresAt, now)
  {
    if c.status == Revoked then
      RevokedLine(Clock.FormatRelativeTime(if c.revokedAt.Some? then c.revokedAt.value else 0, now))
    else ExpiredLine(Clock.FormatRelativeTime(c.expiresAt, now))
  }

  /** `status.charAt(0).toUpperCase() + status.slice(1)`. */
  function StatusLabel(s: ConsentStatus): (name: string)
    ensures |name| > 0 && 'A' <= name[0] <= 'Z'
  {
    match s
    case Pending => "Pending"
    case Authorized => "Authorized"
    case Active => "Active"
    case Expired => "Expired"
    case Revoked => "Revoked"
    case Rejected => "Rejected"
  }

  /** Different statuses are labelled differently. */
  lemma StatusLabelInjective(s: ConsentStatus, t: ConsentStatus)
    ensures StatusLabel(s) == StatusLabel(t) ==> s == t
  {
    if StatusLabel(s) == StatusLabel(t) {
      assert StatusLabel(s)[0] == StatusLabel(t)[0] && StatusLabel(s)[1] == StatusLabel(t)[1];
    }
  }

  /** An inactive card is labelled Revoked when its consent is revoked and
      Expired otherwise. */
  lemma InactiveLabel(c: Consent)
    requires c.status == Revoked || c.status == Expired
    ensures StatusLabel(c.status) == (if c.status == Revoked then "Revoked" else "Expired")
    ensures StatusLabel(c.status) == "Revoked" <==> c.status == Revoked
  {
  }

  // ---------------------------------------------------------------------
  // The card's handlers

  /** `ConnectedAppCard`: the consent it shows, the store its handlers act on,
      and its one piece of state, whether the revoke dialog is open. */
  class ConnectedAppCard {
    const consent: Consent
    const store: ConsentStore
    var showRevokeModal: bool

    constructor (consent: Consent, store: ConsentStore)
      ensures this.consent == consent && this.store == store
      ensures !showRevokeModal
    {
      this.consent := consent;
      this.store := store;
      showRevokeModal := false;
    }

    /** The "Revoke Access" button opens the dialog. */
    method OpenRevokeModal()
      modifies this
      ensures showRevokeModal
    {
      showRevokeModal := true;
    }

    /** The dialog's Cancel button and its backdrop close it; the store is
        untouched. */
    method CloseRevokeModal()
      modifies this
      ensures !showRevokeModal
    {
      showRevokeModal := false;
    }

    /** `handleRevoke`, the confirm button of the open dialog: revokes this
        card's consent in the store and closes the dialog. */
    method HandleRevoke(now: Time, logId: string)
      requires showRevokeModal
      modifies this, store
      ensures !showRevokeModal
      ensures old(store.Valid()) ==> store.Valid()
      ensures GetConsentById(old(store.consents), consent.id).Some? ==>
                && store.consents == UpdateWhere(old(store.consents), consent.id, RevokeAt(now))
                && store.activityLogs
                   == [ActivityLog(logId, consent.id,
                                   GetConsentById(old(store.consents), consent.id).value.tppId,
                                   LogRevoked, now, "User revoked consent", None)]
                      + old(store.activityLogs)
      ensures GetConsentById(old(store.consents), consent.id).None? ==>
                store.consents == old(store.consents) && store.activityLogs == old(store.activityLogs)
    {
      store.RevokeConsent(consent.id, now, logId);
      showRevokeModal := false;
    }

    /** `handleRenew`, behind the "Renew Access" button that the card shows
        only when it was rendered, at `shownAt`, inside the expiry window; the
        click at `now` renews this card's consent in the store without checking
        the window again. */
    method HandleRenew(shownAt: Time, now: Time, logId: string)
      requires IsExpiringSoon(consent, shownAt)
      modifies store
      ensures old(store.Valid()) ==> store.Valid()
      ensures GetConsentById(old(store.consents), consent.id).Some? ==>
                && store.consents == UpdateWhere(old(store.consents), consent.id, RenewAt(now))
                && store.activityLogs
                   == [ActivityLog(logId, consent.id,
                                   GetConsentById(old(store.consents), consent.id).value.tppId,
                                   LogRenewed, now, "User renewed consent for 90 days", None)]
                      + old(store.activityLogs)
      ensures GetConsentById(old(store.consents), consent.id).None? ==>
                store.consents == old(store.consents) && store.activityLogs == old(store.activityLogs)
    {
      store.RenewConsent(consent.id, now, logId);
    }
  }
}
