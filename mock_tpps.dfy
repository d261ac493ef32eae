/** The provider catalog of lib/data/mock-tpps.ts and its two lookups. */
module MockTpps {
  import opened Collections
  import opened Types

  /** No two providers of `ts` share an id. */
  predicate DistinctIds(ts: seq<Tpp>)
  {
    forall i, j :: 0 <= i < j < |ts| ==> ts[i].id != ts[j].id
  }

  /** `mockTPPs`: the eight providers (their facts are `CatalogShape`). */
  function Catalog(): seq<Tpp>
  {
    [ Tpp("tpp-001", "Budget Buddy", "\U{1F4B0}", "https://budgetbuddy.example.com", AISP,
          "FCA-123456", "UK", "Personal budgeting and expense tracking app", Budgeting),
      Tpp("tpp-002", "QuickPay Pro", "\U{26A1}", "https://quickpay.example.com", PISP,
          "BaFin-789012", "DE", "Fast payment initiation for e-commerce", Payments),
      Tpp("tpp-003", "WealthView", "\U{1F4CA}", "https://wealthview.example.com", AISP,
          "CSSF-345678", "LU", "Investment portfolio aggregation and analysis", Wealth),
      Tpp("tpp-004", "InvoiceFlow", "\U{1F4C4}", "https://invoiceflow.example.com", AISP_PISP,
          "DNB-901234", "NL", "Business invoicing with automatic payment reconciliation", Accounting),
      Tpp("tpp-005", "LendSmart", "\U{1F3E6}", "https://lendsmart.example.com", AISP,
          "CBI-567890", "IE", "Credit scoring and loan comparison", Lending),
      Tpp("tpp-006", "Tink", "\U{1F517}", "https://tink.com", AISP_PISP,
          "FI-FSA-112233", "SE", "Open banking platform for financial services", Budgeting),
      Tpp("tpp-007", "Plaid", "\U{1F50C}", "https://plaid.com", AISP,
          "FCA-445566", "UK", "Financial data connectivity platform", Accounting),
      Tpp("tpp-008", "TrueLayer", "\U{1F4B3}", "https://truelayer.com", AISP_PISP,
          "FCA-778899", "UK", "Open banking payments and data", Payments) ]
  }

  /** The catalog holds eight providers with pairwise distinct ids. */
  lemma CatalogShape()
    ensures |Catalog()| == 8
    ensures DistinctIds(Catalog())
  {
    var ts := Catalog();
    forall i, j | 0 <= i < j < |ts| ensures ts[i].id != ts[j].id {
      assert ts[i].id[6] != ts[j].id[6];
    }
  }

  /** The condition of `getTPPById`'s `find`. */
  function HasTppId(id: string): Tpp -> bool
  {
    (t: Tpp) => t.id == id
  }

  /** `find(t => t.id === id)` over any list of providers: the first provider
      with that id, or nothing when none has it; when the ids are distinct,
      the one provider with that id. */
  function FindTpp(ts: seq<Tpp>, id: string): (r: Option<Tpp>)
    ensures r.Some? ==> r.value in ts && r.value.id == id
    ensures r.None? <==> forall t :: t in ts ==> t.id != id
    ensures DistinctIds(ts) ==> forall t :: t in ts && t.id == id ==> r == Some(t)
  {
    var p := HasTppId(id);
    if DistinctIds(ts) then
      assert forall t :: t in ts && t.id == id ==> Find(ts, p) == Some(t) by {
        forall t | t in ts && t.id == id {
          FindSingle(ts, p, t);
        }
      }
      Find(ts, p)
    else Find(ts, p)
  }

  /** `getTPPById`: the catalog entry with that id, or nothing. */
  function GetTppById(id: string): (r: Option<Tpp>)
    ensures r.Some? ==> r.value in Catalog() && r.value.id == id
    ensures r.None? <==> forall t :: t in Catalog() ==> t.id != id
  {
    FindTpp(Catalog(), id)
  }

  /** The catalog's ids are unique, so the entry `getTPPById` returns is the
      only one with that id. */
  lemma GetTppByIdUnique(id: string)
    ensures forall t :: t in Catalog() && t.id == id ==> GetTppById(id) == Some(t)
  {
    CatalogShape();
  }

  /** The filter condition of `getTPPsByCategory`. */
  function InCategory(category: TppCategory): Tpp -> bool
  {
    (t: Tpp) => t.category == category
  }

  /** The filter of `getTPPsByCategory` over any provider list. */
  function OfCategory(ts: seq<Tpp>, category: TppCategory): (r: seq<Tpp>)
    ensures forall t :: t in r <==> t in ts && t.category == category
    ensures |r| <= |ts|
  {
    Filter(ts, InCategory(category))
  }

  /** `getTPPsByCategory`: the catalog entries of that category, in catalog
      order; `CategoriesPartition` shows the categories split any list. */
  function GetTppsByCategory(category: TppCategory): (r: seq<Tpp>)
    ensures forall t :: t in r <==> t in Catalog() && t.category == category
  {
    OfCategory(Catalog(), category)
  }

  /** The five category filters partition any list of providers: every
      provider is kept by exactly the filter of its own category, and the
      filtered lengths add up to the length of the list. `getTPPsByCategory`
      is this filter over the catalog. */
  lemma {:induction false} CategoriesPartition(ts: seq<Tpp>)
    ensures forall t, c :: t in ts ==> (t in Filter(ts, InCategory(c)) <==> c == t.category)
    ensures |Filter(ts, InCategory(Budgeting))| + |Filter(ts, InCategory(Accounting))|
            + |Filter(ts, InCategory(Payments))| + |Filter(ts, InCategory(Lending))|
            + |Filter(ts, InCategory(Wealth))| == |ts|
  {
    if ts != [] {
      CategoriesPartition(ts[1..]);
    }
  }
}
