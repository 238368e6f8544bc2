/**
 * `registerRoutes`: the decision each product, job and request endpoint makes,
 * as a pure step `(session, call, store) -> (response, store')`, and `seed`.
 *
 * The session stands in for `req.isAuthenticated()` / `req.user`. A database
 * failure that the storage call would throw (the connection, the driver) is
 * the parameter `fault`: `Some(message)` makes the storage call throw with that
 * message. Constraint violations come from the storage model itself.
 */
module Server {
  import opened Wrappers
  import opened Text
  import opened Schema
  import opened ApiRoutes
  import opened Storage
  import T = Table

  datatype Session = Anonymous | SignedIn(userId: int)

  /** A request to one of the nine resource endpoints, with its parsed body or id. */
  datatype Call =
    | ListCall(resource: Resource)
    | CreateProductCall(product: ProductInput, claimedSellerId: Option<int>)
    | CreateJobCall(job: JobInput, claimedEmployerId: Option<int>)
    | CreateRequestCall(request: RequestInput, claimedRequesterId: Option<int>)
    | DeleteCall(target: Resource, id: int)

  /** The JSON (or text) body of a response. */
  datatype Payload =
    | Message(text: string)
    | ProductJson(product: Product)
    | JobJson(job: Job)
    | RequestJson(request: Request)
    | ProductsJson(products: seq<Product>)
    | JobsJson(jobs: seq<Job>)
    | RequestsJson(requests: seq<Request>)
    | StatusText  // `res.sendStatus(200)`

  datatype Response = Response(status: int, payload: Payload)

  const AuthRequired := "Authentication required"

  function Noun(r: Resource): string
  {
    match r
    case Products => "product"
    case Jobs => "job"
    case Requests => "request"
  }

  function FetchFailed(r: Resource): string
  {
    match r
    case Products => "Failed to fetch products"
    case Jobs => "Failed to fetch jobs"
    case Requests => "Failed to fetch requests"
  }

  function CreateFailed(r: Resource): string { "Failed to create " + Noun(r) }
  function DeleteFailed(r: Resource): string { "Failed to delete " + Noun(r) }

  predicate IsMutation(c: Call) { !c.ListCall? }

  /** The resource a call addresses. */
  function Target(c: Call): Resource
  {
    match c
    case ListCall(r) => r
    case CreateProductCall(_, _) => Products
    case CreateJobCall(_, _) => Jobs
    case CreateRequestCall(_, _) => Requests
    case DeleteCall(r, _) => r
  }

  /** The whole table of a resource, as `getX()` returns it. */
  function ListPayload(r: Resource, s: Store): Payload
  {
    match r
    case Products => ProductsJson(GetProducts(s))
    case Jobs => JobsJson(GetJobs(s))
    case Requests => RequestsJson(GetRequests(s))
  }

  /** `deleteX(id)` for the addressed resource. */
  function DeleteIn(r: Resource, s: Store, id: int): Store
  {
    match r
    case Products => DeleteProduct(s, id)
    case Jobs => DeleteJob(s, id)
    case Requests => DeleteRequest(s, id)
  }

  /**
   * The owner column of `{ ...req.body, <key>: req.user.id }`: the body's own
   * `key`, when it sends one, is overwritten by the later session entry.
   */
  function SpreadOwner(key: string, claimed: Option<int>, sessionUser: int): (owner: int)
    ensures owner == sessionUser
  {
    var body: map<string, int> := if claimed.Some? then map[key := claimed.value] else map[];
    (body + map[key := sessionUser])[key]
  }

  /** The storage write of an authenticated create, with the session user stamped as owner. */
  function CreateIn(c: Call, s: Store, owner: int): Result<(Store, Payload)>
    requires c.CreateProductCall? || c.CreateJobCall? || c.CreateRequestCall?
  {
    match c
    case CreateProductCall(x, claimed) =>
      (match CreateProduct(s, x, SpreadOwner("sellerId", claimed, owner))
       case Err(m) => Err(m)
       case Ok((s', row)) => Ok((s', ProductJson(row))))
    case CreateJobCall(x, claimed) =>
      (match CreateJob(s, x, SpreadOwner("employerId", claimed, owner))
       case Err(m) => Err(m)
       case Ok((s', row)) => Ok((s', JobJson(row))))
    case CreateRequestCall(x, claimed) =>
      (match CreateRequest(s, x, SpreadOwner("requesterId", claimed, owner))
       case Err(m) => Err(m)
       case Ok((s', row)) => Ok((s', RequestJson(row))))
  }

  /** One request through its route handler. */
  function Handle(session: Session, call: Call, s: Store, fault: Option<string>): (res: (Response, Store))
    ensures IsMutation(call) && session.Anonymous? ==>
      res == (Response(401, Message(AuthRequired)), s)
    ensures res.0.status in {200, 201, 400, 401, 500}
    ensures res.0.status != 200 && res.0.status != 201 ==> res.1 == s
    ensures res.0.status == 201 ==> !call.ListCall? && !call.DeleteCall? && session.SignedIn? && fault.None?
    ensures res.0.status == 400 ==> IsMutation(call) && session.SignedIn?
    ensures Valid(s) ==> Valid(res.1)
  {
    match call
    case ListCall(r) =>
      if fault.Some? then (Response(500, Message(FetchFailed(r))), s)
      else (Response(200, ListPayload(r, s)), s)
    case DeleteCall(r, id) =>
      if session.Anonymous? then (Response(401, Message(AuthRequired)), s)
      else if fault.Some? then (Response(400, Message(OrElse(fault.value, DeleteFailed(r)))), s)
      else (Response(200, StatusText), DeleteIn(r, s, id))
    case _ =>
      if session.Anonymous? then (Response(401, Message(AuthRequired)), s)
      else if fault.Some? then (Response(400, Message(OrElse(fault.value, CreateFailed(Target(call))))), s)
      else
        match CreateIn(call, s, session.userId)
        case Err(m) => (Response(400, Message(OrElse(m, CreateFailed(Target(call))))), s)
        case Ok((s', body)) => (Response(201, body), s')
  }

  // ---------------------------------------------------------------------------
  // Handler properties

  /** Listing needs no session and returns the whole table, whoever asks. */
  lemma ListNeedsNoAuth(session: Session, r: Resource, s: Store)
    ensures Handle(session, ListCall(r), s, None) == (Response(200, ListPayload(r, s)), s)
    ensures Handle(session, ListCall(r), s, None) == Handle(Anonymous, ListCall(r), s, None)
  {
  }

  /** A successful product create stores the body's columns with the session user as seller and answers 201 with that row. */
  lemma CreateProductStampsOwner(uid: int, x: ProductInput, claimed: Option<int>, s: Store)
    requires Valid(s)
    requires ProductNullColumn(x).None?
    ensures var (resp, s') := Handle(SignedIn(uid), CreateProductCall(x, claimed), s, None);
      && resp.status == 201 && resp.payload.ProductJson?
      && var row := resp.payload.product;
      && row.data == ProductFields(x.title.value, x.description.value, x.price.value,
                                   x.image.value, x.whatsapp.value, uid)
      && row.id !in s.products.rows
      && s'.products.rows == s.products.rows[row.id := row.data]
      && row in GetProducts(s')
      && s'.users == s.users && s'.jobs == s.jobs && s'.requests == s.requests
  {
    var (resp, s') := Handle(SignedIn(uid), CreateProductCall(x, claimed), s, None);
    T.AllIsRows(s'.products);
  }

  lemma CreateJobStampsOwner(uid: int, x: JobInput, claimed: Option<int>, s: Store)
    requires Valid(s)
    requires JobNullColumn(x).None?
    ensures var (resp, s') := Handle(SignedIn(uid), CreateJobCall(x, claimed), s, None);
      && resp.status == 201 && resp.payload.JobJson?
      && var row := resp.payload.job;
      && row.data == JobFields(x.title.value, x.description.value, x.salary.value, x.whatsapp.value, uid)
      && row.id !in s.jobs.rows
      && s'.jobs.rows == s.jobs.rows[row.id := row.data]
      && row in GetJobs(s')
      && s'.users == s.users && s'.products == s.products && s'.requests == s.requests
  {
    var (resp, s') := Handle(SignedIn(uid), CreateJobCall(x, claimed), s, None);
    T.AllIsRows(s'.jobs);
  }

  lemma CreateRequestStampsOwner(uid: int, x: RequestInput, claimed: Option<int>, s: Store)
    requires Valid(s)
    requires RequestNullColumn(x).None?
    ensures var (resp, s') := Handle(SignedIn(uid), CreateRequestCall(x, claimed), s, None);
      && resp.status == 201 && resp.payload.RequestJson?
      && var row := resp.payload.request;
      && row.data == RequestFields(x.title.value, x.description.value, x.budget, uid)
      && row.id !in s.requests.rows
      && s'.requests.rows == s.requests.rows[row.id := row.data]
      && row in GetRequests(s')
      && s'.users == s.users && s'.products == s.products && s'.jobs == s.jobs
  {
    var (resp, s') := Handle(SignedIn(uid), CreateRequestCall(x, claimed), s, None);
    T.AllIsRows(s'.requests);
  }

  /** An owner id sent in the body has no effect on the outcome. */
  lemma ClaimedOwnerIgnored(session: Session, s: Store, fault: Option<string>,
                            p: ProductInput, j: JobInput, q: RequestInput, a: Option<int>, b: Option<int>)
    ensures Handle(session, CreateProductCall(p, a), s, fault) == Handle(session, CreateProductCall(p, b), s, fault)
    ensures Handle(session, CreateJobCall(j, a), s, fault) == Handle(session, CreateJobCall(j, b), s, fault)
    ensures Handle(session, CreateRequestCall(q, a), s, fault) == Handle(session, CreateRequestCall(q, b), s, fault)
  {
    if session.SignedIn? {
      var u := session.userId;
      assert CreateIn(CreateProductCall(p, a), s, u) == CreateIn(CreateProductCall(p, b), s, u);
      assert CreateIn(CreateJobCall(j, a), s, u) == CreateIn(CreateJobCall(j, b), s, u);
      assert CreateIn(CreateRequestCall(q, a), s, u) == CreateIn(CreateRequestCall(q, b), s, u);
    }
  }

  /**
   * The server runs no insert schema: a body the shared validator refuses
   * (short title, short description, price 0) is stored all the same.
   */
  lemma CreateSkipsValidation(uid: int, s: Store)
    ensures var x := ProductInput(Some(""), Some(""), Some(0), Some(""), Some(""));
      && ValidateProduct(x) == {Issue(Title, TitleTooShort), Issue(Description, DescriptionTooShort), Issue(Price, PriceTooLow)}
      && Handle(SignedIn(uid), CreateProductCall(x, None), s, None).0.status == 201
  {
    var x := ProductInput(Some(""), Some(""), Some(0), Some(""), Some(""));
    var v := ValidateProduct(x);
    assert v == TitleIssues("") + DescriptionIssues("") + PriceIssues(0.0) + {} + {};
  }

  /** A missing not-null column is reported as 400 with the database's message. */
  lemma CreateMissingColumnIs400(uid: int, x: ProductInput, s: Store)
    requires ProductNullColumn(x).Some?
    ensures Handle(SignedIn(uid), CreateProductCall(x, None), s, None)
      == (Response(400, Message(NotNullMessage(ProductNullColumn(x).value, "products"))), s)
  {
  }

  /**
   * Delete checks only the session: any signed-in user deletes any id,
   * another user's row or one that does not exist, and gets 200.
   */
  lemma DeleteWithoutOwnershipCheck(uid: int, r: Resource, id: int, s: Store)
    requires Valid(s)
    ensures var (resp, s') := Handle(SignedIn(uid), DeleteCall(r, id), s, None);
      && resp == Response(200, StatusText)
      && s' == DeleteIn(r, s, id)
      && (r == Products ==> forall p :: p in GetProducts(s') <==> p in GetProducts(s) && p.id != id)
      && (r == Jobs ==> forall j :: j in GetJobs(s') <==> j in GetJobs(s) && j.id != id)
      && (r == Requests ==> forall q :: q in GetRequests(s') <==> q in GetRequests(s) && q.id != id)
  {
    var s' := DeleteIn(r, s, id);
    match r {
      case Products => T.DeleteThenAll(s.products, id);
      case Jobs => T.DeleteThenAll(s.jobs, id);
      case Requests => T.DeleteThenAll(s.requests, id);
    }
  }

  /** A storage failure on create or delete is a 400 carrying its message, or the resource's fallback when the message is empty. */
  lemma FaultIs400(uid: int, call: Call, s: Store, m: string)
    requires IsMutation(call)
    ensures var fallback := if call.DeleteCall? then DeleteFailed(Target(call)) else CreateFailed(Target(call));
      Handle(SignedIn(uid), call, s, Some(m)) == (Response(400, Message(if m == "" then fallback else m)), s)
  {
  }

  // ---------------------------------------------------------------------------
  // seed

  const DemoUsername := "demo"
  const DemoRawPassword := "password"

  const DemoProducts: seq<ProductInput> :=
    [ ProductInput(Some("MacBook Pro 2021"), Some("M1 Pro, 16GB RAM, 512GB SSD. Great condition."), Some(15000),
                   Some("https://placehold.co/600x400/007AFF/ffffff?text=MacBook"), Some("27123456789")),
      ProductInput(Some("Leather Sofa"), Some("3-seater black leather sofa. Pick up only."), Some(3500),
                   Some("https://placehold.co/600x400/007AFF/ffffff?text=Sofa"), Some("27123456789")) ]

  const DemoJobs: seq<JobInput> :=
    [ JobInput(Some("Gardener Needed"), Some("Need someone to clean my garden once a week."),
               Some("R300/day"), Some("27987654321")),
      JobInput(Some("React Developer"), Some("Looking for a freelance React developer for a small project."),
               Some("R500/hr"), Some("27987654321")) ]

  const DemoRequest: RequestInput :=
    RequestInput(Some("Plumber Needed"), Some("Leaking tap in kitchen. Urgent."), Some("R500"))

  /** Where a run of awaited inserts got to: the store so far, and whether every insert returned. */
  datatype Progress = Progress(store: Store, completed: bool)

  /**
   * Awaited product inserts in order: the first one that throws ends the
   * run, keeping the rows written before it. The run completes exactly when
   * every body fills every not-null column.
   */
  function InsertProducts(s: Store, xs: seq<ProductInput>, owner: int): (r: Progress)
    ensures r.store.users == s.users && r.store.jobs == s.jobs && r.store.requests == s.requests
    ensures Valid(s) ==> Valid(r.store)
    ensures r.completed <==> forall i | 0 <= i < |xs| :: ProductNullColumn(xs[i]).None?
    decreases |xs|
  {
    if xs == [] then Progress(s, true)
    else
      match CreateProduct(s, xs[0], owner)
      case Err(_) => Progress(s, false)
      case Ok((s1, _)) =>
        var r := InsertProducts(s1, xs[1..], owner);
        assert forall i | 1 <= i < |xs| :: xs[i] == xs[1..][i - 1];
        r
  }

  /**
   * Awaited job inserts in order: the first one that throws ends the run,
   * keeping the rows written before it. The run completes exactly when every
   * body fills every not-null column.
   */
  function InsertJobs(s: Store, xs: seq<JobInput>, owner: int): (r: Progress)
    ensures r.store.users == s.users && r.store.products == s.products && r.store.requests == s.requests
    ensures Valid(s) ==> Valid(r.store)
    ensures r.completed <==> forall i | 0 <= i < |xs| :: JobNullColumn(xs[i]).None?
    decreases |xs|
  {
    if xs == [] then Progress(s, true)
    else
      match CreateJob(s, xs[0], owner)
      case Err(_) => Progress(s, false)
      case Ok((s1, _)) =>
        var r := InsertJobs(s1, xs[1..], owner);
        assert forall i | 1 <= i < |xs| :: xs[i] == xs[1..][i - 1];
        r
  }

  /** `s'` keeps every product of `s` and adds exactly `n` more, all sold by `owner`. */
  predicate ProductsGrown(s: Store, s': Store, n: nat, owner: int)
  {
    && |s'.products.rows| == |s.products.rows| + n
    && (forall k | k in s.products.rows :: k in s'.products.rows && s'.products.rows[k] == s.products.rows[k])
    && (forall k | k in s'.products.rows && k !in s.products.rows :: s'.products.rows[k].sellerId == owner)
  }

  /** `s'` keeps every job of `s` and adds exactly `n` more, all offered by `owner`. */
  predicate JobsGrown(s: Store, s': Store, n: nat, owner: int)
  {
    && |s'.jobs.rows| == |s.jobs.rows| + n
    && (forall k | k in s.jobs.rows :: k in s'.jobs.rows && s'.jobs.rows[k] == s.jobs.rows[k])
    && (forall k | k in s'.jobs.rows && k !in s.jobs.rows :: s'.jobs.rows[k].employerId == owner)
  }

  lemma ProductsGrownTrans(s: Store, s1: Store, s2: Store, m: nat, n: nat, owner: int)
    requires ProductsGrown(s, s1, m, owner) && ProductsGrown(s1, s2, n, owner)
    ensures ProductsGrown(s, s2, m + n, owner)
  {
  }

  lemma JobsGrownTrans(s: Store, s1: Store, s2: Store, m: nat, n: nat, owner: int)
    requires JobsGrown(s, s1, m, owner) && JobsGrown(s1, s2, n, owner)
    ensures JobsGrown(s, s2, m + n, owner)
  {
  }

  /** Inserting complete products one by one adds one row per product, owned by `owner`, and keeps every earlier row. */
  lemma {:induction false} InsertProductsGrows(s: Store, xs: seq<ProductInput>, owner: int)
    requires Valid(s)
    requires forall i | 0 <= i < |xs| :: ProductNullColumn(xs[i]).None?
    ensures ProductsGrown(s, InsertProducts(s, xs, owner).store, |xs|, owner)
    decreases |xs|
  {
    if xs != [] {
      var (s1, row) := CreateProduct(s, xs[0], owner).value;
      assert InsertProducts(s, xs, owner) == InsertProducts(s1, xs[1..], owner);
      assert ProductsGrown(s, s1, 1, owner);
      InsertProductsGrows(s1, xs[1..], owner);
      ProductsGrownTrans(s, s1, InsertProducts(s1, xs[1..], owner).store, 1, |xs| - 1, owner);
    }
  }

  /** Inserting complete jobs one by one adds one row per job, owned by `owner`, and keeps every earlier row. */
  lemma {:induction false} InsertJobsGrows(s: Store, xs: seq<JobInput>, owner: int)
    requires Valid(s)
    requires forall i | 0 <= i < |xs| :: JobNullColumn(xs[i]).None?
    ensures JobsGrown(s, InsertJobs(s, xs, owner).store, |xs|, owner)
    decreases |xs|
  {
    if xs != [] {
      var (s1, row) := CreateJob(s, xs[0], owner).value;
      assert InsertJobs(s, xs, owner) == InsertJobs(s1, xs[1..], owner);
      assert JobsGrown(s, s1, 1, owner);
      InsertJobsGrows(s1, xs[1..], owner);
      JobsGrownTrans(s, s1, InsertJobs(s1, xs[1..], owner).store, 1, |xs| - 1, owner);
    }
  }

  /** The listings `seed` writes for its user: two products, two jobs and a request. */
  datatype SeedData = SeedData(products: seq<ProductInput>, jobs: seq<JobInput>, request: RequestInput)

  const DemoData: SeedData :=
    SeedData(DemoProducts, DemoJobs, DemoRequest)

  /**
   * Writes the listings for `owner` in source order: products, then jobs,
   * then the request. `seed()` awaits each insert, so the first one that
   * throws ends it and nothing after it is written.
   */
  function SeedListings(s: Store, owner: int, d: SeedData): Store
  {
    var p := InsertProducts(s, d.products, owner);
    if !p.completed then p.store
    else
      var j := InsertJobs(p.store, d.jobs, owner);
      if !j.completed then j.store
      else
        match CreateRequest(j.store, d.request, owner)
        case Err(_) => j.store
        case Ok((s4, _)) => s4
  }

  /** A product that fails to insert ends the seeding: no job and no request is written. */
  lemma FailedProductStopsSeed(s: Store, owner: int, d: SeedData, i: nat)
    requires i < |d.products| && ProductNullColumn(d.products[i]).Some?
    ensures SeedListings(s, owner, d).jobs == s.jobs
    ensures SeedListings(s, owner, d).requests == s.requests
  {
    assert !InsertProducts(s, d.products, owner).completed;
  }

  /** A job that fails to insert ends the seeding: the request is not written. */
  lemma FailedJobStopsSeed(s: Store, owner: int, d: SeedData, i: nat)
    requires i < |d.jobs| && JobNullColumn(d.jobs[i]).Some?
    ensures SeedListings(s, owner, d).requests == s.requests
  {
    var p := InsertProducts(s, d.products, owner);
    if p.completed {
      assert !InsertJobs(p.store, d.jobs, owner).completed;
    }
  }

  /** When the first product already throws, seeding the listings writes nothing at all. */
  lemma FailedFirstProductWritesNothing(s: Store, owner: int, d: SeedData)
    requires |d.products| > 0 && ProductNullColumn(d.products[0]).Some?
    ensures SeedListings(s, owner, d) == s
  {
    assert InsertProducts(s, d.products, owner) == Progress(s, false);
  }

  /**
   * `seed()` with its listings as a parameter: when no user "demo" exists,
   * create it with the given password hash, then write the listings for it;
   * otherwise write nothing.
   */
  function SeedWith(s: Store, hashedPassword: string, d: SeedData): Store
  {
    if GetUserByUsername(s, DemoUsername).Some? then s
    else
      match CreateUser(s, UserFields(DemoUsername, hashedPassword))
      case Err(_) => s
      case Ok((s1, user)) => SeedListings(s1, user.id, d)
  }

  /** `seed()`: the hash of "password" is given as `hashedPassword`; the listings are the demo ones. */
  function Seed(s: Store, hashedPassword: string): Store
  {
    SeedWith(s, hashedPassword, DemoData)
  }

  /** Both of two product bodies fill every not-null column. */
  predicate Complete2Products(xs: seq<ProductInput>)
  {
    |xs| == 2 && ProductNullColumn(xs[0]).None? && ProductNullColumn(xs[1]).None?
  }

  /** Both of two job bodies fill every not-null column. */
  predicate Complete2Jobs(xs: seq<JobInput>)
  {
    |xs| == 2 && JobNullColumn(xs[0]).None? && JobNullColumn(xs[1]).None?
  }

  /** Two complete products, two complete jobs and a complete request. */
  predicate CompleteSeedData(d: SeedData)
  {
    Complete2Products(d.products) && Complete2Jobs(d.jobs) && RequestNullColumn(d.request).None?
  }

  /** The two seeded products fill every not-null column. */
  lemma DemoProductsComplete()
    ensures Complete2Products(DemoProducts)
  {
  }

  /** The two seeded jobs fill every not-null column. */
  lemma DemoJobsComplete()
    ensures Complete2Jobs(DemoJobs)
  {
  }

  /** Every seeded body fills every not-null column, so no seeded insert fails. */
  lemma DemoInputsComplete()
    ensures CompleteSeedData(DemoData)
  {
    DemoProductsComplete();
    DemoJobsComplete();
  }

  /**
   * `s'` holds what `s` holds plus exactly 2 new products, 2 new jobs and 1 new
   * request, every new row owned by `owner`.
   */
  predicate DemoListingsAdded(s: Store, s': Store, owner: int)
  {
    && |s'.products.rows| == |s.products.rows| + 2
    && |s'.jobs.rows| == |s.jobs.rows| + 2
    && |s'.requests.rows| == |s.requests.rows| + 1
    && (forall k | k in s'.products.rows && k !in s.products.rows :: s'.products.rows[k].sellerId == owner)
    && (forall k | k in s'.jobs.rows && k !in s.jobs.rows :: s'.jobs.rows[k].employerId == owner)
    && (forall k | k in s'.requests.rows && k !in s.requests.rows :: s'.requests.rows[k].requesterId == owner)
  }

  /** Complete listings are all written, owned by `owner`; users are untouched. */
  lemma SeedListingsWrites(s: Store, owner: int, d: SeedData)
    requires Valid(s)
    requires CompleteSeedData(d)
    ensures var s' := SeedListings(s, owner, d);
      Valid(s') && s'.users == s.users && DemoListingsAdded(s, s', owner)
  {
    var s2 := InsertProducts(s, d.products, owner).store;
    var s3 := InsertJobs(s2, d.jobs, owner).store;
    InsertProductsGrows(s, d.products, owner);
    InsertJobsGrows(s2, d.jobs, owner);
    var (s4, q) := CreateRequest(s3, d.request, owner).value;
    assert q.id !in s3.requests.rows;
  }

  /** Writing listings, complete or not, never touches the users table. */
  lemma SeedListingsKeepsUsers(s: Store, owner: int, d: SeedData)
    ensures SeedListings(s, owner, d).users == s.users
  {
  }

  /** Seeding a store without "demo" adds the demo user and all of complete listings, owned by it. */
  lemma SeedWithWrites(s: Store, hashedPassword: string, d: SeedData)
    requires Valid(s)
    requires CompleteSeedData(d)
    requires GetUserByUsername(s, DemoUsername).None?
    ensures var s' := SeedWith(s, hashedPassword, d);
      && Valid(s')
      && GetUserByUsername(s', DemoUsername).Some?
      && var demo := GetUserByUsername(s', DemoUsername).value;
      && demo.id !in s.users.rows
      && s'.users.rows == s.users.rows[demo.id := UserFields(DemoUsername, hashedPassword)]
      && DemoListingsAdded(s, s', demo.id)
  {
    var (s1, user) := CreateUser(s, UserFields(DemoUsername, hashedPassword)).value;
    SeedListingsWrites(s1, user.id, d);
    var s' := SeedListings(s1, user.id, d);
    GetUserByUsernameIff(s', DemoUsername, user);
  }

  /** Seeding twice writes nothing the second time, whatever the listings. */
  lemma SeedWithIdempotent(s: Store, h1: string, h2: string, d: SeedData)
    requires Valid(s)
    ensures SeedWith(SeedWith(s, h1, d), h2, d) == SeedWith(s, h1, d)
  {
    if GetUserByUsername(s, DemoUsername).None? {
      var (s1, user) := CreateUser(s, UserFields(DemoUsername, h1)).value;
      SeedListingsKeepsUsers(s1, user.id, d);
      var s' := SeedListings(s1, user.id, d);
      assert GetUserByUsername(s', DemoUsername) == GetUserByUsername(s1, DemoUsername);
      GetUserByUsernameIff(s1, DemoUsername, user);
    }
  }

  /** `seed()` on a store without "demo": the demo user, 2 products, 2 jobs and 1 request, all owned by it. */
  lemma SeedWrites(s: Store, hashedPassword: string)
    requires Valid(s)
    requires GetUserByUsername(s, DemoUsername).None?
    ensures var s' := Seed(s, hashedPassword);
      && Valid(s')
      && GetUserByUsername(s', DemoUsername).Some?
      && var demo := GetUserByUsername(s', DemoUsername).value;
      && demo.id !in s.users.rows
      && s'.users.rows == s.users.rows[demo.id := UserFields(DemoUsername, hashedPassword)]
      && DemoListingsAdded(s, s', demo.id)
  {
    DemoInputsComplete();
    SeedWithWrites(s, hashedPassword, DemoData);
  }

  /** Running `seed()` a second time writes nothing. */
  lemma SeedIdempotent(s: Store, h1: string, h2: string)
    requires Valid(s)
    ensures Seed(Seed(s, h1), h2) == Seed(s, h1)
  {
    SeedWithIdempotent(s, h1, h2, DemoData);
  }

  /** The seeded raw password breaks two password rules: seeding bypasses validation. */
  lemma SeedPasswordBreaksRules()
    ensures PasswordIssues(DemoRawPassword) == {Issue(Password, PasswordNoUpper), Issue(Password, PasswordNoDigit)}
    ensures !ValidPassword(DemoRawPassword)
  {
    var p := DemoRawPassword;
    assert |p| == 8 && forall i :: 0 <= i < |p| ==> IsLower(p[i]);
  }
}
