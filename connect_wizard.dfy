/** The connect-an-app wizard (app/user/connect/page.tsx): five steps, the
    provider search, the permission presets, the account and permission
    toggles, and the final step that records the new consent in the store.
    The two-second authentication delay is not modelled: authenticating is one
    step. */
module ConnectWizard {
  import opened Collections
  import opened Types
  import MockTpps
  import opened Store

  // ---------------------------------------------------------------------
  // Steps

  datatype Step = SelectTpp | SelectAccounts | ReviewPermissions | Authenticate | Success

  /** `stepNumber`: the five steps numbered 1 to 5. */
  function StepNumber(s: Step): (n: nat)
    ensures 1 <= n <= 5
  {
    match s
    case SelectTpp => 1
    case SelectAccounts => 2
    case ReviewPermissions => 3
    case Authenticate => 4
    case Success => 5
  }

  /** No two steps share a number. */
  lemma StepNumberInjective(s: Step, t: Step)
    ensures StepNumber(s) == StepNumber(t) ==> s == t
  {
  }

  /** The step each forward action leads to. */
  function Forward(s: Step): (t: Step)
    requires s != Success
    ensures StepNumber(t) == StepNumber(s) + 1
  {
    match s
    case SelectTpp => SelectAccounts
    case SelectAccounts => ReviewPermissions
    case ReviewPermissions => Authenticate
    case Authenticate => Success
  }

  /** The step the Back button leads to; on the first step it leaves the
      wizard instead, and on the last there is no Back button. */
  function Backward(s: Step): (t: Step)
    requires s != SelectTpp && s != Success
    ensures StepNumber(t) == StepNumber(s) - 1
  {
    match s
    case SelectAccounts => SelectTpp
    case ReviewPermissions => SelectAccounts
    case Authenticate => ReviewPermissions
  }

  /** Back undoes a forward move and a forward move undoes Back, except that
      there is no way back from the success step. */
  lemma BackUndoesForward(s: Step)
    ensures s != Success && s != Authenticate ==> Backward(Forward(s)) == s
    ensures s != SelectTpp && s != Success ==> Forward(Backward(s)) == s
  {
  }

  // ---------------------------------------------------------------------
  // Toggles

  function Other<T(==)>(x: T): T -> bool
  {
    (y: T) => y != x
  }

  /** `prev.includes(x) ? prev.filter(y => y !== x) : [...prev, x]`. */
  function Toggle<T(==,!new)>(s: seq<T>, x: T): (r: seq<T>)
    ensures x in r <==> x !in s
    ensures forall y :: y != x ==> (y in r <==> y in s)
    ensures x !in s ==> r == s + [x]
  {
    if x in s then Filter(s, Other(x)) else s + [x]
  }

  /** Toggling twice restores membership, and restores the list itself when
      the element was absent. */
  lemma ToggleTwice<T(!new)>(s: seq<T>, x: T)
    ensures forall y :: y in Toggle(Toggle(s, x), x) <==> y in s
    ensures x !in s ==> Toggle(Toggle(s, x), x) == s
  {
    if x !in s {
      FilterKeepsAll(s, Other(x));
      FilterConcat(s, [x], Other(x));
      assert Filter([x], Other(x)) == [];
    }
  }

  /** A duplicate-free list stays duplicate-free. */
  lemma ToggleKeepsDistinct<T(!new)>(s: seq<T>, x: T)
    requires NoDuplicates(s)
    ensures NoDuplicates(Toggle(s, x))
  {
    if x in s {
      FilterKeepsDistinct(s, Other(x));
    }
  }

  // ---------------------------------------------------------------------
  // Provider search

  /** ASCII `toLowerCase`. */
  function LowerChar(c: char): (d: char)
    ensures 'A' <= c <= 'Z' ==> 'a' <= d <= 'z' && d as int == c as int + 32
    ensures !('A' <= c <= 'Z') ==> d == c
  {
    if 'A' <= c <= 'Z' then (c as int + 32) as char else c
  }

  function Lower(s: string): (r: string)
    ensures |r| == |s| && forall i :: 0 <= i < |s| ==> r[i] == LowerChar(s[i])
  {
    if s == [] then [] else [LowerChar(s[0])] + Lower(s[1..])
  }

  /** Lower-casing twice changes nothing more. */
  lemma LowerIdempotent(s: string)
    ensures Lower(Lower(s)) == Lower(s)
  {
  }

  /** `text.includes(part)`: `part` is a prefix of some suffix of `text`. */
  predicate Contains(text: string, part: string)
    decreases |text|
  {
    part <= text || (text != [] && Contains(text[1..], part))
  }

  /** The providers with an active consent. */
  predicate Connected(cs: seq<Consent>, tppId: string)
  {
    exists c :: c in cs && c.status == Active && c.tppId == tppId
  }

  /** The tppIds of the active consents, `activeTPPIds`. */
  function ActiveTppIds(cs: seq<Consent>): (ids: seq<string>)
    ensures forall id :: id in ids <==> Connected(cs, id)
  {
    if cs == [] then []
    else
      var rest := ActiveTppIds(cs[1..]);
      assert forall c :: c in cs <==> c == cs[0] || c in cs[1..];
      (if cs[0].status == Active then [cs[0].tppId] else []) + rest
  }

  /** The search condition on a provider's name and description. */
  predicate MatchesQuery(t: Tpp, query: string)
  {
    Contains(Lower(t.name), Lower(query)) || Contains(Lower(t.description), Lower(query))
  }

  function Offered(ids: seq<string>, query: string): Tpp -> bool
  {
    (t: Tpp) => t.id !in ids && MatchesQuery(t, query)
  }

  /** The search of the provider step over any list of providers: in list
      order, the providers without an active consent whose name or
      description contains the query, ignoring case. */
  function SearchOver(tpps: seq<Tpp>, cs: seq<Consent>, query: string): (r: seq<Tpp>)
    ensures forall t :: t in r <==> t in tpps && !Connected(cs, t.id) && MatchesQuery(t, query)
  {
    Filter(tpps, Offered(ActiveTppIds(cs), query))
  }

  /** `availableTPPs`: the search over the catalog. */
  function AvailableTpps(cs: seq<Consent>, query: string): (r: seq<Tpp>)
    ensures forall t :: t in r <==> t in MockTpps.Catalog() && !Connected(cs, t.id) && MatchesQuery(t, query)
  {
    SearchOver(MockTpps.Catalog(), cs, query)
  }

  /** An empty query keeps every provider not yet connected, and the case of
      the query does not matter. */
  lemma SearchProperties(tpps: seq<Tpp>, cs: seq<Consent>, query: string)
    ensures forall t :: t in SearchOver(tpps, cs, "") <==> t in tpps && !Connected(cs, t.id)
    ensures SearchOver(tpps, cs, Lower(query)) == SearchOver(tpps, cs, query)
  {
    assert forall t: Tpp :: MatchesQuery(t, "");
    LowerIdempotent(query);
    FilterExt(tpps, Offered(ActiveTppIds(cs), Lower(query)), Offered(ActiveTppIds(cs), query));
  }

  // ---------------------------------------------------------------------
  // Presets

  /** The permissions `handleSelectTPP` preselects: payments for a provider
      allowed to initiate them, transactions otherwise (also when the id is
      not in the catalog). */
  function Preset(tpp: Option<Tpp>): (ps: seq<Permission>)
    ensures |ps| == 3 && ps[0] == ReadAccountsBasic && ps[1] == ReadBalances && NoDuplicates(ps)
    ensures InitiatePayments in ps <==>
              tpp.Some? && (tpp.value.authorizationType == PISP || tpp.value.authorizationType == AISP_PISP)
    ensures ReadTransactionsBasic in ps <==> !(InitiatePayments in ps)
  {
    if tpp.Some? && (tpp.value.authorizationType == PISP || tpp.value.authorizationType == AISP_PISP)
    then [ReadAccountsBasic, ReadBalances, InitiatePayments]
    else [ReadAccountsBasic, ReadBalances, ReadTransactionsBasic]
  }

  /** The permissions the review step lists, in this order: every account and
      payment permission, and of the transaction permissions only the basic
      and the detailed read. */
  function AvailablePermissions(): (ps: seq<Permission>)
    ensures |ps| == 6 && NoDuplicates(ps)
    ensures forall p :: p in ps <==>
              PermissionDetails(p).category != TransactionCategory
              || p == ReadTransactionsBasic || p == ReadTransactionsDetail
  {
    [ReadAccountsBasic, ReadAccountsDetail, ReadBalances,
     ReadTransactionsBasic, ReadTransactionsDetail, InitiatePayments]
  }

  // ---------------------------------------------------------------------
  // The wizard

  class Wizard {
    var step: Step
    var selectedTpp: Option<string>
    var selectedAccounts: seq<string>
    var selectedPermissions: seq<Permission>
    var searchQuery: string
    const store: ConsentStore
    /** The provider list the page imports, `mockTPPs`. */
    const catalog: seq<Tpp>

    /** What the guards of the page keep true: the required permission is
        always selected, no permission or account is listed twice, a provider
        is chosen after the first step, and at least one account is chosen
        from the review step on. */
    predicate Valid()
      reads this
    {
      && ReadAccountsBasic in selectedPermissions
      && NoDuplicates(selectedPermissions) && NoDuplicates(selectedAccounts)
      && (step != SelectTpp ==> selectedTpp.Some?)
      && (step == ReviewPermissions || step == Authenticate ==> |selectedAccounts| > 0)
    }

    /** The initial state of the page. */
    constructor (store: ConsentStore)
      ensures Valid() && this.store == store && catalog == MockTpps.Catalog()
      ensures step == SelectTpp && selectedTpp == None && selectedAccounts == []
      ensures selectedPermissions == [ReadAccountsBasic, ReadBalances] && searchQuery == ""
    {
      step := SelectTpp;
      selectedTpp := None;
      selectedAccounts := [];
      selectedPermissions := [ReadAccountsBasic, ReadBalances];
      searchQuery := "";
      this.store := store;
      catalog := MockTpps.Catalog();
    }

    /** Typing in the search box of the first step. */
    method SetSearchQuery(query: string)
      requires Valid() && step == SelectTpp
      modifies this
      ensures Valid() && searchQuery == query
      ensures step == old(step) && selectedTpp == old(selectedTpp)
      ensures selectedAccounts == old(selectedAccounts) && selectedPermissions == old(selectedPermissions)
    {
      searchQuery := query;
    }

    /** `handleSelectTPP`: remembers the provider, replaces the permissions by
        its preset and moves to the accounts step. */
    method HandleSelectTpp(tppId: string)
      requires Valid() && step == SelectTpp
      modifies this
      ensures Valid()
      ensures selectedTpp == Some(tppId)
      ensures selectedPermissions == Preset(MockTpps.FindTpp(catalog, tppId))
      ensures step == Forward(old(step))
      ensures selectedAccounts == old(selectedAccounts) && searchQuery == old(searchQuery)
    {
      var tpp := MockTpps.FindTpp(catalog, tppId);
      selectedTpp := Some(tppId);
      selectedPermissions := Preset(tpp);
      step := SelectAccounts;
    }

    /** `handleToggleAccount`, clicking an account on the accounts step. */
    method ToggleAccount(accountId: string)
      requires Valid() && step == SelectAccounts
      modifies this
      ensures Valid()
      ensures selectedAccounts == Toggle(old(selectedAccounts), accountId)
      ensures step == old(step) && selectedTpp == old(selectedTpp)
      ensures selectedPermissions == old(selectedPermissions) && searchQuery == old(searchQuery)
    {
      ToggleKeepsDistinct(selectedAccounts, accountId);
      selectedAccounts := Toggle(selectedAccounts, accountId);
    }

    /** Continue on the accounts step, disabled while no account is chosen. */
    method ContinueFromAccounts()
      requires Valid() && step == SelectAccounts
      modifies this
      ensures Valid()
      ensures step == if |selectedAccounts| > 0 then Forward(old(step)) else old(step)
      ensures selectedTpp == old(selectedTpp) && selectedAccounts == old(selectedAccounts)
      ensures selectedPermissions == old(selectedPermissions) && searchQuery == old(searchQuery)
    {
      if |selectedAccounts| > 0 {
        step := ReviewPermissions;
      }
    }

    /** Clicking one of the listed permissions on the review step; the
        required one is disabled. */
    method TogglePermission(p: Permission)
      requires Valid() && step == ReviewPermissions && p in AvailablePermissions()
      modifies this
      ensures Valid()
      ensures selectedPermissions
              == if p == ReadAccountsBasic then old(selectedPermissions)
                 else Toggle(old(selectedPermissions), p)
      ensures step == old(step) && selectedTpp == old(selectedTpp)
      ensures selectedAccounts == old(selectedAccounts) && searchQuery == old(searchQuery)
    {
      if p != ReadAccountsBasic {
        ToggleKeepsDistinct(selectedPermissions, p);
        selectedPermissions := Toggle(selectedPermissions, p);
      }
    }

    /** Continue on the review step. */
    method ContinueToAuthenticate()
      requires Valid() && step == ReviewPermissions
      modifies this
      ensures Valid() && step == Forward(old(step))
      ensures selectedTpp == old(selectedTpp) && selectedAccounts == old(selectedAccounts)
      ensures selectedPermissions == old(selectedPermissions) && searchQuery == old(searchQuery)
    {
      step := Authenticate;
    }

    /** The Back button, absent on the success step: on the first step it
        leaves the wizard, otherwise it goes one step back. */
    method Back() returns (leave: bool)
      requires Valid() && step != Success
      modifies this
      ensures Valid()
      ensures leave <==> old(step) == SelectTpp
      ensures step == if leave then old(step) else Backward(old(step))
      ensures selectedTpp == old(selectedTpp) && selectedAccounts == old(selectedAccounts)
      ensures selectedPermissions == old(selectedPermissions) && searchQuery == old(searchQuery)
    {
      leave := step == SelectTpp;
      if !leave {
        step := Backward(step);
      }
    }

    /** `handleAuthenticate`: moves to the success step and, when the chosen
        provider id is truthy (chosen, which the invariant guarantees, and not
        empty), records the consent with the chosen permissions and accounts;
        so the store never receives an empty account list or a permission list
        without the required one. */
    method HandleAuthenticate(now: Time, consentId: string, logId: string)
      requires Valid() && step == Authenticate
      modifies this, store
      ensures Valid() && step == Forward(old(step))
      ensures selectedTpp == old(selectedTpp) && selectedAccounts == old(selectedAccounts)
      ensures selectedPermissions == old(selectedPermissions) && searchQuery == old(searchQuery)
      ensures old(store.Valid()) ==> store.Valid()
      ensures selectedTpp.value != "" ==>
                && store.consents
                   == [NewConsent(consentId, selectedTpp.value, selectedPermissions, selectedAccounts, now)]
                      + old(store.consents)
                && |store.consents[0].accountIds| > 0
                && ReadAccountsBasic in store.consents[0].permissions
                && store.activityLogs
                   == [ActivityLog(logId, consentId, selectedTpp.value, LogAuthorized, now,
                                   "User authorized new consent", None)]
                      + old(store.activityLogs)
      ensures selectedTpp.value == "" ==>
                store.consents == old(store.consents) && store.activityLogs == old(store.activityLogs)
    {
      step := Success;
      if selectedTpp.value != "" {
        store.AddConsent(selectedTpp.value, selectedPermissions, selectedAccounts, now, consentId, logId);
      }
    }
  }
}
