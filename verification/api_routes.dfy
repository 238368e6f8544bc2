/**
 * The shared API contract: the endpoint table and `buildUrl`, which fills
 * `:key` placeholders of a path with parameter values.
 */
module ApiRoutes {
  import opened Wrappers
  import opened Text
  import opened Schema

  datatype Resource = Products | Jobs | Requests

  datatype Verb = GET | POST | DELETE

  datatype Action = List | Create | Remove

  datatype Endpoint = Endpoint(verb: Verb, path: string)

  /** The `api` table of products, jobs and requests: the verb and path of each endpoint, as written. */
  function Api(r: Resource, a: Action): Endpoint
  {
    match (r, a)
    case (Products, List) => Endpoint(GET, "/api/products")
    case (Products, Create) => Endpoint(POST, "/api/products")
    case (Products, Remove) => Endpoint(DELETE, "/api/products/:id")
    case (Jobs, List) => Endpoint(GET, "/api/jobs")
    case (Jobs, Create) => Endpoint(POST, "/api/jobs")
    case (Jobs, Remove) => Endpoint(DELETE, "/api/jobs/:id")
    case (Requests, List) => Endpoint(GET, "/api/requests")
    case (Requests, Create) => Endpoint(POST, "/api/requests")
    case (Requests, Remove) => Endpoint(DELETE, "/api/requests/:id")
  }

  /** The collection path of a resource: the path its list endpoint serves. */
  function Collection(r: Resource): string
  {
    Api(r, List).path
  }

  /**
   * The table is regular: every resource lists with GET, creates with POST on
   * the same path, and deletes with DELETE one row under it through `:id`.
   */
  lemma ResourcePaths(r: Resource)
    ensures Api(r, List).verb == GET && Api(r, Create).verb == POST && Api(r, Remove).verb == DELETE
    ensures Api(r, Create).path == Api(r, List).path
    ensures Api(r, Remove).path == Api(r, List).path + "/:id"
    ensures StartsWith(Api(r, List).path, "/api/")
  {
    match r
    case Products => assert "/api/products/:id" == "/api/products" + "/:id";
    case Jobs => assert "/api/jobs/:id" == "/api/jobs" + "/:id";
    case Requests => assert "/api/requests/:id" == "/api/requests" + "/:id";
  }

  /** No two entries of the table share both verb and path, so each request reaches one handler. */
  lemma EndpointsDistinct(r: Resource, a: Action, r': Resource, a': Action)
    requires (r, a) != (r', a')
    ensures Api(r, a) != Api(r', a')
  {
    if a == a' {
      assert Api(r, a).path[5] != Api(r', a').path[5];
    }
  }

  // ---------------------------------------------------------------------------
  // buildUrl

  /** A parameter value: `string | number` (numbers are integers here). */
  datatype ParamValue = Str(s: string) | Num(n: int)

  /** `String(value)`. */
  function ValueText(v: ParamValue): string
  {
    match v
    case Str(s) => s
    case Num(n) => IntToString(n)
  }

  function Placeholder(key: string): string
  {
    ":" + key
  }

  /** One `forEach` step: replace the first `:key` if the url includes it. */
  function Substitute(url: string, key: string, v: ParamValue): (r: string)
    ensures !Contains(url, Placeholder(key)) ==> r == url
    ensures Contains(url, Placeholder(key)) ==>
      var i := IndexOf(url, Placeholder(key)).value;
      var j := i + |Placeholder(key)|;
      r == url[..i] + Expand(ValueText(v), url[..i], Placeholder(key), url[j..]) + url[j..]
  {
    if Contains(url, Placeholder(key)) then ReplaceFirst(url, Placeholder(key), ValueText(v)) else url
  }

  /** The `forEach` over `Object.entries(params)`, in entry order. */
  function SubstituteAll(url: string, entries: seq<(string, ParamValue)>): (r: string)
    ensures (forall e | e in entries :: !Contains(url, Placeholder(e.0))) ==> r == url
    decreases |entries|
  {
    if entries == [] then url
    else SubstituteAll(Substitute(url, entries[0].0, entries[0].1), entries[1..])
  }

  /** The `forEach` over two runs of entries is the run over the first, then the run over the second. */
  lemma {:induction false} SubstituteAllConcat(url: string, a: seq<(string, ParamValue)>, b: seq<(string, ParamValue)>)
    ensures SubstituteAll(url, a + b) == SubstituteAll(SubstituteAll(url, a), b)
    decreases |a|
  {
    if a == [] {
      assert a + b == b;
    } else {
      var u := Substitute(url, a[0].0, a[0].1);
      assert (a + b)[0] == a[0] && (a + b)[1..] == a[1..] + b;
      assert SubstituteAll(url, a + b) == SubstituteAll(u, a[1..] + b);
      assert SubstituteAll(url, a) == SubstituteAll(u, a[1..]);
      SubstituteAllConcat(u, a[1..], b);
    }
  }

  /**
   * An entry whose placeholder is absent from the url at its turn can be
   * dropped. "At its turn" matters: an earlier value may bring in a placeholder
   * the original path did not have.
   */
  lemma DropAbsentEntry(url: string, a: seq<(string, ParamValue)>, e: (string, ParamValue), b: seq<(string, ParamValue)>)
    requires !Contains(SubstituteAll(url, a), Placeholder(e.0))
    ensures SubstituteAll(url, a + [e] + b) == SubstituteAll(url, a + b)
  {
    var mid := SubstituteAll(url, a);
    SubstituteAllConcat(url, a, [e] + b);
    SubstituteAllConcat(url, a, b);
    assert a + [e] + b == a + ([e] + b);
    assert ([e] + b)[0] == e && ([e] + b)[1..] == b;
    assert Substitute(mid, e.0, e.1) == mid;
  }

  /**
   * A value can bring in a placeholder that a later entry fills: `{k1: ":k2",
   * k2: n}` on `prefix:k1` gives `prefix` and the text of `n`.
   */
  lemma ValueIntroducesPlaceholder(prefix: string, k1: string, k2: string, n: int)
    requires forall i :: 0 <= i < |prefix| ==> prefix[i] != ':'
    requires forall i :: 0 <= i < |k2| ==> k2[i] != '$'
    ensures BuildUrl(prefix + Placeholder(k1), Some([(k1, Str(Placeholder(k2))), (k2, Num(n))])) == prefix + IntToString(n)
  {
    var e1, e2 := (k1, Str(Placeholder(k2))), (k2, Num(n));
    assert DollarFree(e1.1);
    assert prefix + Placeholder(k1) == prefix + Placeholder(k1) + "";
    BuildUrlAfterPlainPrefix(prefix, k1, "", e1.1);
    var mid := prefix + Placeholder(k2);
    assert SubstituteAll(prefix + Placeholder(k1), [e1]) == mid + "";
    NumDollarFree(n);
    BuildUrlAfterPlainPrefix(prefix, k2, "", e2.1);
    assert SubstituteAll(mid + "", [e2]) == prefix + IntToString(n) + "";
    assert [e1, e2] == [e1] + [e2];
    SubstituteAllConcat(prefix + Placeholder(k1), [e1], [e2]);
  }

  /** `buildUrl(path, params?)`. */
  function BuildUrl(path: string, params: Option<seq<(string, ParamValue)>>): (r: string)
    ensures params.None? ==> r == path
    ensures params == Some([]) ==> r == path
  {
    match params
    case None => path
    case Some(entries) => SubstituteAll(path, entries)
  }

  /**
   * Parameters whose placeholder is absent are ignored; in particular every
   * placeholder with no matching parameter stays in the result literally.
   */
  lemma {:induction false} BuildUrlIgnoresAbsent(path: string, entries: seq<(string, ParamValue)>)
    requires forall e | e in entries :: !Contains(path, Placeholder(e.0))
    ensures BuildUrl(path, Some(entries)) == path
  {
    if entries != [] {
      assert Substitute(path, entries[0].0, entries[0].1) == path;
      BuildUrlIgnoresAbsent(path, entries[1..]);
    }
  }

  /** A value that `replace` inserts as written: its text holds no `$`. */
  predicate DollarFree(v: ParamValue)
  {
    forall i :: 0 <= i < |ValueText(v)| ==> ValueText(v)[i] != '$'
  }

  /** The text of a number is digits and a sign, so every number is inserted as written. */
  lemma NumDollarFree(n: int)
    ensures DollarFree(Num(n))
  {
  }

  /**
   * One parameter whose `:key` follows a prefix free of `:` replaces exactly
   * that placeholder, by the value's text with its `$` patterns expanded; a
   * `$`-free value, in particular every number, is inserted as written.
   */
  lemma BuildUrlAfterPlainPrefix(prefix: string, key: string, rest: string, v: ParamValue)
    requires forall i :: 0 <= i < |prefix| ==> prefix[i] != ':'
    ensures BuildUrl(prefix + Placeholder(key) + rest, Some([(key, v)]))
      == prefix + Expand(ValueText(v), prefix, Placeholder(key), rest) + rest
    ensures DollarFree(v) ==> BuildUrl(prefix + Placeholder(key) + rest, Some([(key, v)])) == prefix + ValueText(v) + rest
  {
    var url := prefix + Placeholder(key) + rest;
    IndexOfAfterPlainPrefix(prefix, Placeholder(key), rest);
    assert url[..|prefix|] == prefix;
    assert url[|prefix| + |Placeholder(key)|..] == rest;
    var s := Substitute(url, key, v);
    assert SubstituteAll(url, [(key, v)]) == SubstituteAll(s, []);
    if DollarFree(v) {
      ExpandPlain(ValueText(v), prefix, Placeholder(key), rest);
    }
  }

  /** `buildUrl(api.<r>.delete.path, { id: n })` is the list path, a slash and the decimal id. */
  lemma DeleteUrl(r: Resource, n: int)
    ensures BuildUrl(Api(r, Remove).path, Some([("id", Num(n))])) == Collection(r) + "/" + IntToString(n)
  {
    var prefix := Collection(r) + "/";
    ResourcePaths(r);
    assert Api(r, Remove).path == prefix + Placeholder("id") + "";
    NumDollarFree(n);
    BuildUrlAfterPlainPrefix(prefix, "id", "", Num(n));
  }

  /** The server reads back the id the client put into a delete URL. */
  lemma DeleteUrlRoundTrip(r: Resource, n: nat)
    ensures var url := BuildUrl(Api(r, Remove).path, Some([("id", Num(n))]));
      var prefix := Collection(r) + "/";
      && StartsWith(url, prefix)
      && (forall i :: |prefix| <= i < |url| ==> IsDigit(url[i]))
      && ParseNat(url[|prefix|..]) == n
  {
    DeleteUrl(r, n);
    var prefix := Collection(r) + "/";
    var url := prefix + NatToString(n);
    assert url[|prefix|..] == NatToString(n);
    ParseNatToString(n);
  }

  /**
   * Placeholder matching is unanchored: a key that is a proper prefix of `id`
   * captures `:id`, so `{ i: n }` leaves a stray `d` after the number.
   */
  lemma ShorterKeyCapturesPlaceholder(r: Resource, n: int)
    ensures BuildUrl(Api(r, Remove).path, Some([("i", Num(n))])) == Collection(r) + "/" + IntToString(n) + "d"
  {
    var prefix := Collection(r) + "/";
    ResourcePaths(r);
    assert Api(r, Remove).path == prefix + Placeholder("i") + "d";
    NumDollarFree(n);
    BuildUrlAfterPlainPrefix(prefix, "i", "d", Num(n));
  }

  /**
   * A string value is a `replace` pattern, not literal text: the id `"$&"`
   * puts the matched `:id` back, so the delete path comes out unchanged.
   */
  lemma DollarMatchKeepsPlaceholder(r: Resource)
    ensures BuildUrl(Api(r, Remove).path, Some([("id", Str("$&"))])) == Api(r, Remove).path
  {
    var prefix := Collection(r) + "/";
    ResourcePaths(r);
    assert Api(r, Remove).path == prefix + Placeholder("id") + "";
    BuildUrlAfterPlainPrefix(prefix, "id", "", Str("$&"));
    ExpandPatterns(prefix, Placeholder("id"), "");
  }

  // ---------------------------------------------------------------------------
  // Login input

  /** `insertUserSchema.pick({ username: true, password: true })`. */
  function LoginIssues(username: Option<string>, password: Option<string>): set<Issue>
  {
    ValidateUser(UserInput(username, password))
  }

  /** Login accepts exactly the usernames and passwords registration accepts. */
  lemma LoginEnforcesRegistrationRules(username: Option<string>, password: Option<string>)
    ensures LoginIssues(username, password) == {} <==>
      && username.Some? && ValidUsername(username.value)
      && password.Some? && ValidPassword(password.value)
  {
    UserAccepted(UserInput(username, password));
  }
}
