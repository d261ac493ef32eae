/** The domain types of lib/types/index.ts: providers, accounts, permissions
    with their constant metadata table, consents and activity-log entries.
    Timestamps are milliseconds since the epoch. */
module Types {
  import opened Collections

  /** Millisecond timestamp. */
  type Time = int

  datatype AuthorizationType = AISP | PISP | AISP_PISP | CBPII

  datatype TppCategory = Budgeting | Accounting | Payments | Lending | Wealth

  /** A third-party provider of the catalog. */
  datatype Tpp = Tpp(
    id: string,
    name: string,
    logo: string,
    website: string,
    authorizationType: AuthorizationType,
    ncaRegistration: string,
    registeredCountry: string,
    description: string,
    category: TppCategory)

  datatype AccountType = Current | Savings | Business

  /** A bank account of the user. */
  datatype Account = Account(
    id: string,
    iban: string,
    name: string,
    accountType: AccountType,
    currency: string,
    balance: real)

  datatype Permission =
    | ReadAccountsBasic
    | ReadAccountsDetail
    | ReadBalances
    | ReadTransactionsBasic
    | ReadTransactionsDetail
    | ReadStandingOrdersBasic
    | ReadStandingOrdersDetail
    | ReadDirectDebits
    | ReadBeneficiariesBasic
    | ReadBeneficiariesDetail
    | InitiatePayments

  datatype PermissionCategory = AccountCategory | TransactionCategory | PaymentCategory

  datatype RiskLevel = Low | Medium | High

  datatype PermissionDetail = PermissionDetail(
    code: Permission,
    name: string,
    description: string,
    category: PermissionCategory,
    riskLevel: RiskLevel)

  datatype ConsentStatus = Pending | Authorized | Active | Expired | Revoked | Rejected

  /** A grant of access from the user to one provider. */
  datatype Consent = Consent(
    id: string,
    tppId: string,
    userId: string,
    status: ConsentStatus,
    permissions: seq<Permission>,
    accountIds: seq<string>,
    createdAt: Time,
    authorizedAt: Option<Time>,
    expiresAt: Time,
    revokedAt: Option<Time>,
    lastAccessedAt: Option<Time>,
    accessCount: nat)

  /** The `action` of an activity-log entry. */
  datatype LogAction = LogCreated | LogAuthorized | LogAccessed | LogRevoked | LogExpired | LogRenewed

  /** An audit entry about one consent. */
  datatype ActivityLog = ActivityLog(
    id: string,
    consentId: string,
    tppId: string,
    action: LogAction,
    timestamp: Time,
    details: string,
    endpoint: Option<string>)

  /** The consent funnel counters. */
  datatype FunnelMetrics = FunnelMetrics(
    initiated: nat,
    redirected: nat,
    authenticated: nat,
    authorized: nat,
    active: nat)

  /** Every permission, in declaration order; the type has exactly eleven values. */
  function AllPermissions(): (ps: seq<Permission>)
    ensures |ps| == 11 && NoDuplicates(ps)
    ensures forall p: Permission :: p in ps
  {
    var ps := [ReadAccountsBasic, ReadAccountsDetail, ReadBalances,
               ReadTransactionsBasic, ReadTransactionsDetail,
               ReadStandingOrdersBasic, ReadStandingOrdersDetail,
               ReadDirectDebits, ReadBeneficiariesBasic, ReadBeneficiariesDetail,
               InitiatePayments];
    assert forall p: Permission :: p in ps by {
      forall p: Permission ensures p in ps {
        if p.ReadAccountsBasic? {
          assert ps[0] == p;
        } else if p.ReadAccountsDetail? {
          assert ps[1] == p;
        } else if p.ReadBalances? {
          assert ps[2] == p;
        } else if p.ReadTransactionsBasic? {
          assert ps[3] == p;
        } else if p.ReadTransactionsDetail? {
          assert ps[4] == p;
        } else if p.ReadStandingOrdersBasic? {
          assert ps[5] == p;
        } else if p.ReadStandingOrdersDetail? {
          assert ps[6] == p;
        } else if p.ReadDirectDebits? {
          assert ps[7] == p;
        } else if p.ReadBeneficiariesBasic? {
          assert ps[8] == p;
        } else if p.ReadBeneficiariesDetail? {
          assert ps[9] == p;
        } else {
          assert ps[10] == p;
        }
      }
    }
    ps
  }

  /** Every consent status; a status-to-count record therefore has six keys. */
  function AllStatuses(): (ss: seq<ConsentStatus>)
    ensures |ss| == 6 && NoDuplicates(ss)
    ensures forall s: ConsentStatus :: s in ss
  {
    var ss := [Pending, Authorized, Active, Expired, Revoked, Rejected];
    assert forall s: ConsentStatus :: s in ss by {
      forall s: ConsentStatus ensures s in ss {
        if s.Pending? {
          assert ss[0] == s;
        } else if s.Authorized? {
          assert ss[1] == s;
        } else if s.Active? {
          assert ss[2] == s;
        } else if s.Expired? {
          assert ss[3] == s;
        } else if s.Revoked? {
          assert ss[4] == s;
        } else {
          assert ss[5] == s;
        }
      }
    }
    ss
  }

  /** Every activity-log action; there are exactly six. */
  function AllLogActions(): (acts: seq<LogAction>)
    ensures |acts| == 6 && NoDuplicates(acts)
    ensures forall a: LogAction :: a in acts
  {
    var acts := [LogCreated, LogAuthorized, LogAccessed, LogRevoked, LogExpired, LogRenewed];
    assert forall a: LogAction :: a in acts by {
      forall a: LogAction ensures a in acts {
        if a.LogCreated? {
          assert acts[0] == a;
        } else if a.LogAuthorized? {
          assert acts[1] == a;
        } else if a.LogAccessed? {
          assert acts[2] == a;
        } else if a.LogRevoked? {
          assert acts[3] == a;
        } else if a.LogExpired? {
          assert acts[4] == a;
        } else {
          assert acts[5] == a;
        }
      }
    }
    acts
  }

  /** The three account-level permissions. */
  predicate IsAccountPermission(p: Permission)
  {
    p == ReadAccountsBasic || p == ReadAccountsDetail || p == ReadBalances
  }

  /** `PERMISSION_DETAILS[p]`: the table is total, each entry's code is its key,
      and category and risk level go together. */
  function PermissionDetails(p: Permission): (d: PermissionDetail)
    ensures d.code == p
    ensures d.riskLevel == High <==> d.category == PaymentCategory
    ensures d.category == PaymentCategory <==> p == InitiatePayments
    ensures d.category == AccountCategory <==> IsAccountPermission(p)
    ensures d.category == AccountCategory ==> d.riskLevel == Low
    ensures d.category == TransactionCategory <==> !IsAccountPermission(p) && p != InitiatePayments
    ensures d.category == TransactionCategory ==> d.riskLevel == Medium
  {
    match p
    case ReadAccountsBasic =>
      PermissionDetail(p, "View account names", "Can see your account names and types",
                       AccountCategory, Low)
    case ReadAccountsDetail =>
      PermissionDetail(p, "View account details", "Can see your account names, IBANs, and types",
                       AccountCategory, Low)
    case ReadBalances =>
      PermissionDetail(p, "View balances", "Can see your current account balances",
                       AccountCategory, Low)
    case ReadTransactionsBasic =>
      PermissionDetail(p, "View transaction summaries", "Can see basic transaction information",
                       TransactionCategory, Medium)
    case ReadTransactionsDetail =>
      PermissionDetail(p, "View transaction details", "Can see your full transaction history (last 90 days)",
                       TransactionCategory, Medium)
    case ReadStandingOrdersBasic =>
      PermissionDetail(p, "View standing orders", "Can see your scheduled payments",
                       TransactionCategory, Medium)
    case ReadStandingOrdersDetail =>
      PermissionDetail(p, "View standing order details", "Can see full details of your scheduled payments",
                       TransactionCategory, Medium)
    case ReadDirectDebits =>
      PermissionDetail(p, "View direct debits", "Can see your direct debit mandates",
                       TransactionCategory, Medium)
    case ReadBeneficiariesBasic =>
      PermissionDetail(p, "View saved payees", "Can see your saved payment recipients",
                       TransactionCategory, Medium)
    case ReadBeneficiariesDetail =>
      PermissionDetail(p, "View payee details", "Can see full details of your saved recipients",
                       TransactionCategory, Medium)
    case InitiatePayments =>
      PermissionDetail(p, "Make payments", "Can initiate payments from your accounts",
                       PaymentCategory, High)
  }
}
