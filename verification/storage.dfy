/**
 * `DatabaseStorage`: the four tables and the operations the server calls on
 * them. Each operation is a pure function from the store before to the store
 * after (and its result); a failed write leaves the store as it was.
 */
module Storage {
  import opened Wrappers
  import opened Schema
  import T = Table

  type User = T.Row<UserFields>
  type Product = T.Row<ProductFields>
  type Job = T.Row<JobFields>
  type Request = T.Row<RequestFields>

  datatype Store = Store(
    users: T.Table<UserFields>,
    products: T.Table<ProductFields>,
    jobs: T.Table<JobFields>,
    requests: T.Table<RequestFields>)

  function EmptyStore(): (s: Store)
    ensures Valid(s)
  {
    Store(T.Empty(), T.Empty(), T.Empty(), T.Empty())
  }

  /** The `unique()` constraint on `users.username`. */
  predicate UniqueUsernames(users: map<int, UserFields>)
  {
    forall a, b | a in users && b in users && users[a].username == users[b].username :: a == b
  }

  /** What the database guarantees: serial ids and unique usernames. */
  predicate Valid(s: Store)
  {
    && T.Valid(s.users) && T.Valid(s.products) && T.Valid(s.jobs) && T.Valid(s.requests)
    && UniqueUsernames(s.users.rows)
  }

  /** The error a not-null column raises when the insert leaves it empty. */
  function NotNullMessage(column: string, table: string): string
  {
    "null value in column \"" + column + "\" of relation \"" + table + "\" violates not-null constraint"
  }

  const DuplicateUsername := "duplicate key value violates unique constraint \"users_username_unique\""

  // ---------------------------------------------------------------------------
  // Users

  /** `getUser(id)`. */
  function GetUser(s: Store, id: int): (r: Option<User>)
    ensures r.Some? <==> id in s.users.rows
    ensures r.Some? ==> r.value.id == id && r.value.data == s.users.rows[id]
  {
    T.Get(s.users, id)
  }

  /** The first listed user with the given name. */
  function FindByUsername(users: seq<User>, name: string): (r: Option<User>)
    ensures r.Some? ==> r.value in users && r.value.data.username == name
    ensures r.None? ==> forall u | u in users :: u.data.username != name
  {
    if users == [] then None
    else if users[0].data.username == name then Some(users[0])
    else FindByUsername(users[1..], name)
  }

  /** `getUserByUsername(name)`. */
  function GetUserByUsername(s: Store, name: string): Option<User>
  {
    FindByUsername(T.All(s.users), name)
  }

  /** In a valid store the lookup by name finds the one stored user of that name, or nothing. */
  lemma GetUserByUsernameIff(s: Store, name: string, u: User)
    requires Valid(s)
    ensures GetUserByUsername(s, name) == Some(u) <==>
      u.id in s.users.rows && s.users.rows[u.id] == u.data && u.data.username == name
    ensures GetUserByUsername(s, name).None? <==>
      forall id | id in s.users.rows :: s.users.rows[id].username != name
  {
    T.AllIsRows(s.users);
    if GetUserByUsername(s, name).None? {
      forall id | id in s.users.rows ensures s.users.rows[id].username != name {
        assert T.Row(id, s.users.rows[id]) in T.All(s.users);
      }
    }
  }

  /** `createUser(user)`: fails on a taken username, otherwise stores the user under a fresh id. */
  function CreateUser(s: Store, u: UserFields): (r: Result<(Store, User)>)
    ensures GetUserByUsername(s, u.username).Some? <==> r.Err?
    ensures r.Err? ==> r.message == DuplicateUsername
    ensures r.Ok? ==> var (s', row) := r.value;
      && row.data == u
      && s'.users.rows == s.users.rows[row.id := u]
      && s'.products == s.products && s'.jobs == s.jobs && s'.requests == s.requests
      && (Valid(s) ==> Valid(s') && row.id !in s.users.rows)
  {
    if GetUserByUsername(s, u.username).Some? then Err(DuplicateUsername)
    else
      var (users', row) := T.Insert(s.users, u);
      assert Valid(s) ==> UniqueUsernames(users'.rows) by {
        if Valid(s) {
          GetUserByUsernameIff(s, u.username, row);
        }
      }
      Ok((s.(users := users'), row))
  }

  /** Registering a name twice fails the second time. */
  lemma CreateUserTwiceFails(s: Store, u: UserFields, v: UserFields)
    requires Valid(s)
    requires CreateUser(s, u).Ok?
    requires v.username == u.username
    ensures CreateUser(CreateUser(s, u).value.0, v).Err?
  {
    var (s', row) := CreateUser(s, u).value;
    GetUserByUsernameIff(s', u.username, row);
  }

  // ---------------------------------------------------------------------------
  // Products

  /** `getProducts()`: every row, unfiltered. */
  function GetProducts(s: Store): (r: seq<Product>)
    ensures Valid(s) ==> forall p :: p in r <==> p.id in s.products.rows && s.products.rows[p.id] == p.data
  {
    assert Valid(s) ==> forall p :: p in T.All(s.products) <==> p.id in s.products.rows && s.products.rows[p.id] == p.data by {
      if Valid(s) { T.AllIsRows(s.products); }
    }
    T.All(s.products)
  }

  /** The not-null column an insert would leave empty, first in column order. */
  function ProductNullColumn(x: ProductInput): (r: Option<string>)
    ensures r.None? <==> x.title.Some? && x.description.Some? && x.price.Some? && x.image.Some? && x.whatsapp.Some?
  {
    if x.title.None? then Some("title")
    else if x.description.None? then Some("description")
    else if x.price.None? then Some("price")
    else if x.image.None? then Some("image")
    else if x.whatsapp.None? then Some("whatsapp")
    else None
  }

  /** `createProduct({...input, sellerId})`. */
  function CreateProduct(s: Store, x: ProductInput, sellerId: int): (r: Result<(Store, Product)>)
    ensures r.Err? <==> ProductNullColumn(x).Some?
    ensures r.Err? ==> r.message == NotNullMessage(ProductNullColumn(x).value, "products")
    ensures r.Ok? ==> var (s', row) := r.value;
      && row.data == ProductFields(x.title.value, x.description.value, x.price.value,
                                   x.image.value, x.whatsapp.value, sellerId)
      && s'.products.rows == s.products.rows[row.id := row.data]
      && s'.users == s.users && s'.jobs == s.jobs && s'.requests == s.requests
      && (Valid(s) ==> Valid(s') && row.id !in s.products.rows)
  {
    match ProductNullColumn(x)
    case Some(column) => Err(NotNullMessage(column, "products"))
    case None =>
      var data := ProductFields(x.title.value, x.description.value, x.price.value,
                                x.image.value, x.whatsapp.value, sellerId);
      var (products', row) := T.Insert(s.products, data);
      Ok((s.(products := products'), row))
  }

  /** `deleteProduct(id)`: a missing id is a silent no-op. */
  function DeleteProduct(s: Store, id: int): (s': Store)
    ensures id !in s'.products.rows
    ensures forall k | k in s.products.rows && k != id :: k in s'.products.rows && s'.products.rows[k] == s.products.rows[k]
    ensures forall k | k in s'.products.rows :: k in s.products.rows
    ensures id !in s.products.rows ==> s' == s
    ensures s'.users == s.users && s'.jobs == s.jobs && s'.requests == s.requests
    ensures Valid(s) ==> Valid(s')
  {
    assert id !in s.products.rows ==> T.Delete(s.products, id) == s.products by {
      if id !in s.products.rows { T.DeleteAbsent(s.products, id); }
    }
    s.(products := T.Delete(s.products, id))
  }

  // ---------------------------------------------------------------------------
  // Jobs

  /** `getJobs()`: every row, unfiltered. */
  function GetJobs(s: Store): (r: seq<Job>)
    ensures Valid(s) ==> forall j :: j in r <==> j.id in s.jobs.rows && s.jobs.rows[j.id] == j.data
  {
    assert Valid(s) ==> forall j :: j in T.All(s.jobs) <==> j.id in s.jobs.rows && s.jobs.rows[j.id] == j.data by {
      if Valid(s) { T.AllIsRows(s.jobs); }
    }
    T.All(s.jobs)
  }

  function JobNullColumn(x: JobInput): (r: Option<string>)
    ensures r.None? <==> x.title.Some? && x.description.Some? && x.salary.Some? && x.whatsapp.Some?
  {
    if x.title.None? then Some("title")
    else if x.description.None? then Some("description")
    else if x.salary.None? then Some("salary")
    else if x.whatsapp.None? then Some("whatsapp")
    else None
  }

  /** `createJob({...input, employerId})`. */
  function CreateJob(s: Store, x: JobInput, employerId: int): (r: Result<(Store, Job)>)
    ensures r.Err? <==> JobNullColumn(x).Some?
    ensures r.Err? ==> r.message == NotNullMessage(JobNullColumn(x).value, "jobs")
    ensures r.Ok? ==> var (s', row) := r.value;
      && row.data == JobFields(x.title.value, x.description.value, x.salary.value,
                               x.whatsapp.value, employerId)
      && s'.jobs.rows == s.jobs.rows[row.id := row.data]
      && s'.users == s.users && s'.products == s.products && s'.requests == s.requests
      && (Valid(s) ==> Valid(s') && row.id !in s.jobs.rows)
  {
    match JobNullColumn(x)
    case Some(column) => Err(NotNullMessage(column, "jobs"))
    case None =>
      var data := JobFields(x.title.value, x.description.value, x.salary.value,
                            x.whatsapp.value, employerId);
      var (jobs', row) := T.Insert(s.jobs, data);
      Ok((s.(jobs := jobs'), row))
  }

  /** `deleteJob(id)`: a missing id is a silent no-op. */
  function DeleteJob(s: Store, id: int): (s': Store)
    ensures id !in s'.jobs.rows
    ensures forall k | k in s.jobs.rows && k != id :: k in s'.jobs.rows && s'.jobs.rows[k] == s.jobs.rows[k]
    ensures forall k | k in s'.jobs.rows :: k in s.jobs.rows
    ensures id !in s.jobs.rows ==> s' == s
    ensures s'.users == s.users && s'.products == s.products && s'.requests == s.requests
    ensures Valid(s) ==> Valid(s')
  {
    assert id !in s.jobs.rows ==> T.Delete(s.jobs, id) == s.jobs by {
      if id !in s.jobs.rows { T.DeleteAbsent(s.jobs, id); }
    }
    s.(jobs := T.Delete(s.jobs, id))
  }

  // ---------------------------------------------------------------------------
  // Requests

  /** `getRequests()`: every row, unfiltered. */
  function GetRequests(s: Store): (r: seq<Request>)
    ensures Valid(s) ==> forall q :: q in r <==> q.id in s.requests.rows && s.requests.rows[q.id] == q.data
  {
    assert Valid(s) ==> forall q :: q in T.All(s.requests) <==> q.id in s.requests.rows && s.requests.rows[q.id] == q.data by {
      if Valid(s) { T.AllIsRows(s.requests); }
    }
    T.All(s.requests)
  }

  /** Only title and description are not-null; a missing budget is stored as NULL. */
  function RequestNullColumn(x: RequestInput): (r: Option<string>)
    ensures r.None? <==> x.title.Some? && x.description.Some?
  {
    if x.title.None? then Some("title")
    else if x.description.None? then Some("description")
    else None
  }

  /** `createRequest({...input, requesterId})`. */
  function CreateRequest(s: Store, x: RequestInput, requesterId: int): (r: Result<(Store, Request)>)
    ensures r.Err? <==> RequestNullColumn(x).Some?
    ensures r.Err? ==> r.message == NotNullMessage(RequestNullColumn(x).value, "requests")
    ensures r.Ok? ==> var (s', row) := r.value;
      && row.data == RequestFields(x.title.value, x.description.value, x.budget, requesterId)
      && s'.requests.rows == s.requests.rows[row.id := row.data]
      && s'.users == s.users && s'.products == s.products && s'.jobs == s.jobs
      && (Valid(s) ==> Valid(s') && row.id !in s.requests.rows)
  {
    match RequestNullColumn(x)
    case Some(column) => Err(NotNullMessage(column, "requests"))
    case None =>
      var data := RequestFields(x.title.value, x.description.value, x.budget, requesterId);
      var (requests', row) := T.Insert(s.requests, data);
      Ok((s.(requests := requests'), row))
  }

  /** `deleteRequest(id)`: a missing id is a silent no-op. */
  function DeleteRequest(s: Store, id: int): (s': Store)
    ensures id !in s'.requests.rows
    ensures forall k | k in s.requests.rows && k != id :: k in s'.requests.rows && s'.requests.rows[k] == s.requests.rows[k]
    ensures forall k | k in s'.requests.rows :: k in s.requests.rows
    ensures id !in s.requests.rows ==> s' == s
    ensures s'.users == s.users && s'.products == s.products && s'.jobs == s.jobs
    ensures Valid(s) ==> Valid(s')
  {
    assert id !in s.requests.rows ==> T.Delete(s.requests, id) == s.requests by {
      if id !in s.requests.rows { T.DeleteAbsent(s.requests, id); }
    }
    s.(requests := T.Delete(s.requests, id))
  }

  // ---------------------------------------------------------------------------
  // Create-then-list and delete-then-list

  /** After `createProduct`, the next `getProducts` contains the returned row and all earlier ones. */
  lemma CreateProductThenList(s: Store, x: ProductInput, sellerId: int)
    requires Valid(s)
    requires CreateProduct(s, x, sellerId).Ok?
    ensures var (s', row) := CreateProduct(s, x, sellerId).value;
      row in GetProducts(s') && forall p | p in GetProducts(s) :: p in GetProducts(s')
  {
  }

  /** After `deleteProduct(id)`, no listed product has that id and every other row is still listed. */
  lemma DeleteProductThenList(s: Store, id: int)
    requires Valid(s)
    ensures forall p :: p in GetProducts(DeleteProduct(s, id)) <==> p in GetProducts(s) && p.id != id
  {
  }

  lemma CreateJobThenList(s: Store, x: JobInput, employerId: int)
    requires Valid(s)
    requires CreateJob(s, x, employerId).Ok?
    ensures var (s', row) := CreateJob(s, x, employerId).value;
      row in GetJobs(s') && forall j | j in GetJobs(s) :: j in GetJobs(s')
  {
  }

  lemma DeleteJobThenList(s: Store, id: int)
    requires Valid(s)
    ensures forall j :: j in GetJobs(DeleteJob(s, id)) <==> j in GetJobs(s) && j.id != id
  {
  }

  lemma CreateRequestThenList(s: Store, x: RequestInput, requesterId: int)
    requires Valid(s)
    requires CreateRequest(s, x, requesterId).Ok?
    ensures var (s', row) := CreateRequest(s, x, requesterId).value;
      row in GetRequests(s') && forall q | q in GetRequests(s) :: q in GetRequests(s')
  {
  }

  lemma DeleteRequestThenList(s: Store, id: int)
    requires Valid(s)
    ensures forall q :: q in GetRequests(DeleteRequest(s, id)) <==> q in GetRequests(s) && q.id != id
  {
  }
}
