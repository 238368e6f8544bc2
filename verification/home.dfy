/**
 * The home page: the landing page for visitors and, for a signed-in user,
 * the dashboard of that user's own listings, one tab per resource.
 */
module Home {
  import opened Wrappers
  import opened Text
  import opened Seqs
  import opened Schema
  import opened Storage
  import opened Listings
  import Server
  import T = Table

  datatype View = Landing | Dashboard(user: User)

  /** `if (user) return <Dashboard .../>`, else the landing page. */
  function HomeView(user: Option<User>): (v: View)
    ensures v.Dashboard? <==> user.Some?
    ensures v.Dashboard? ==> v.user == user.value
  {
    match user
    case None => Landing
    case Some(u) => Dashboard(u)
  }

  // ---------------------------------------------------------------------------
  // Owner filters

  /**
   * `list?.filter(x => owner(x) === userId) || []`: the rows the user owns, in
   * fetched order; an array is truthy even when empty, so only a list that
   * has not arrived falls back to `[]`.
   */
  function Mine<X>(list: Option<seq<X>>, owner: X -> int, userId: int): (r: seq<X>)
    ensures list.None? ==> r == []
    ensures list.Some? ==> IsSubsequence(r, list.value)
    ensures list.Some? ==> forall i :: 0 <= i < |r| ==> r[i] in list.value && owner(r[i]) == userId
    ensures list.Some? ==> forall i :: 0 <= i < |list.value| && owner(list.value[i]) == userId ==> list.value[i] in r
  {
    match list
    case None => []
    case Some(xs) =>
      var keep := (x: X) => owner(x) == userId;
      assert IsSubsequence(Filter(xs, keep), xs) by {
        FilterIsSubsequence(xs, keep);
      }
      Filter(xs, keep)
  }

  function Seller(p: Product): int { p.data.sellerId }
  function Employer(j: Job): int { j.data.employerId }
  function Requester(r: Request): int { r.data.requesterId }

  /** `myProducts`. */
  function MyProducts(products: Option<seq<Product>>, user: User): (r: seq<Product>)
    ensures products.None? ==> r == []
    ensures products.Some? ==> IsSubsequence(r, products.value)
    ensures forall p :: p in r <==> products.Some? && p in products.value && p.data.sellerId == user.id
  {
    Mine(products, Seller, user.id)
  }

  /** `myJobs`. */
  function MyJobs(jobs: Option<seq<Job>>, user: User): (r: seq<Job>)
    ensures jobs.None? ==> r == []
    ensures jobs.Some? ==> IsSubsequence(r, jobs.value)
    ensures forall j :: j in r <==> jobs.Some? && j in jobs.value && j.data.employerId == user.id
  {
    Mine(jobs, Employer, user.id)
  }

  /** `myRequests`. */
  function MyRequests(requests: Option<seq<Request>>, user: User): (r: seq<Request>)
    ensures requests.None? ==> r == []
    ensures requests.Some? ==> IsSubsequence(r, requests.value)
    ensures forall q :: q in r <==> requests.Some? && q in requests.value && q.data.requesterId == user.id
  {
    Mine(requests, Requester, user.id)
  }

  /** Over a fetched products table, the user's tab holds exactly the stored rows the user sells. */
  lemma MyProductsOfStore(s: Store, user: User)
    requires Valid(s)
    ensures forall p :: p in MyProducts(Some(GetProducts(s)), user) <==>
      p.id in s.products.rows && s.products.rows[p.id] == p.data && p.data.sellerId == user.id
  {
    T.AllIsRows(s.products);
  }

  /** A product the user lists through the server shows up in that user's tab after the refetch. */
  lemma CreatedProductIsMine(user: User, x: ProductInput, claimed: Option<int>, s: Store)
    requires Valid(s)
    requires ProductNullColumn(x).None?
    ensures var (resp, s') := Server.Handle(Server.SignedIn(user.id), Server.CreateProductCall(x, claimed), s, None);
      resp.payload.ProductJson? && resp.payload.product in MyProducts(Some(GetProducts(s')), user)
  {
    Server.CreateProductStampsOwner(user.id, x, claimed, s);
  }

  /** A tab shows its empty-state message exactly when the list has not arrived or the user owns none of its rows. */
  lemma EmptyStateIffNoneOwned<X>(list: Option<seq<X>>, owner: X -> int, userId: int)
    ensures |Mine(list, owner, userId)| == 0 <==>
      list.None? || forall i :: 0 <= i < |list.value| ==> owner(list.value[i]) != userId
  {
    var r := Mine(list, owner, userId);
    if list.Some? && r != [] {
      assert r[0] in list.value;
    }
  }

  // ---------------------------------------------------------------------------
  // Subtitles

  /** A product row's subtitle: `R` and the price in decimal. */
  function ProductSubtitle(price: int): (r: string)
    ensures |r| >= 2 && r[0] == 'R'
  {
    "R" + IntToString(price)
  }

  /** The price can be read back from the subtitle, so distinct prices give distinct subtitles. */
  lemma ProductSubtitleRoundTrip(price: int)
    ensures ParseInt(ProductSubtitle(price)[1..]) == price
  {
    assert ProductSubtitle(price)[1..] == IntToString(price);
    ParseIntToString(price);
  }

  /** A request row's subtitle: the budget when it is truthy, otherwise a fixed notice. */
  function RequestSubtitle(budget: Option<string>): (r: string)
  {
    if Truthy(budget) then "Budget: " + budget.value else "No budget specified"
  }

  const BudgetPrefix := "Budget: "

  /**
   * The subtitle starts with "Budget: " exactly when the request has a
   * (non-empty) budget, and then the rest of it is that budget.
   */
  lemma RequestSubtitleReadBack(budget: Option<string>)
    ensures StartsWith(RequestSubtitle(budget), BudgetPrefix) <==> budget.Some? && budget.value != ""
    ensures budget.Some? && budget.value != "" ==> RequestSubtitle(budget)[|BudgetPrefix|..] == budget.value
  {
    if !Truthy(budget) {
      assert RequestSubtitle(budget)[0] == 'N';
    }
  }

  /** The dashboard names a budget exactly when the requests page shows a budget badge, and names the same text. */
  lemma RequestSubtitleAgreesWithBadge(budget: Option<string>)
    ensures BudgetBadge(budget).Some? ==> RequestSubtitle(budget) == BudgetPrefix + BudgetBadge(budget).value
    ensures BudgetBadge(budget).None? ==> RequestSubtitle(budget) == "No budget specified"
  {
  }
}
