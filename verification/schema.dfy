/**
 * The shared schema: the four table shapes and the insert validators that
 * both the client forms and the API contract use.
 *
 * An insert input has one optional component per column the client supplies;
 * `None` is a missing (`undefined`) or `null` value. No input type has an `id`
 * or an owner component: the insert schemas omit both, and the owner is
 * stamped on by the server.
 *
 * A validator returns the set of failures, one `Issue(field, message)` per
 * violated rule. Every field is checked independently and every violated rule
 * of a present field is reported; a missing required field reports only
 * "Required".
 */
module Schema {
  import opened Wrappers
  import opened Text

  // ---------------------------------------------------------------------------
  // Table shapes (the columns besides the serial `id`)

  datatype UserFields = UserFields(username: string, password: string)

  datatype ProductFields = ProductFields(
    title: string, description: string, price: int, image: string,
    whatsapp: string, sellerId: int)

  datatype JobFields = JobFields(
    title: string, description: string, salary: string, whatsapp: string,
    employerId: int)

  /** `budget` is the one nullable column. */
  datatype RequestFields = RequestFields(
    title: string, description: string, budget: Option<string>,
    requesterId: int)

  // ---------------------------------------------------------------------------
  // Insert inputs

  datatype UserInput = UserInput(username: Option<string>, password: Option<string>)

  datatype ProductInput = ProductInput(
    title: Option<string>, description: Option<string>, price: Option<int>,
    image: Option<string>, whatsapp: Option<string>)

  datatype JobInput = JobInput(
    title: Option<string>, description: Option<string>, salary: Option<string>,
    whatsapp: Option<string>)

  datatype RequestInput = RequestInput(
    title: Option<string>, description: Option<string>, budget: Option<string>)

  // ---------------------------------------------------------------------------
  // Failures

  datatype Field = Username | Password | Title | Description | Price | Image | Whatsapp | Salary | Budget

  datatype Issue = Issue(field: Field, message: string)

  const Required := "Required"
  const UsernameTooShort := "Username must be at least 3 characters"
  const UsernameTooLong := "Username must be at most 20 characters"
  const UsernameCharset := "Username can only contain letters, numbers, and underscores"
  const PasswordTooShort := "Password must be at least 6 characters"
  const PasswordNoUpper := "Password must contain at least one uppercase letter"
  const PasswordNoDigit := "Password must contain at least one number"
  const PriceTooLow := "Price must be greater than 0"
  const TitleTooShort := "Title must be at least 3 characters"
  const DescriptionTooShort := "Description must be at least 10 characters"

  /** Every failure in `issues` is reported against `f`. */
  predicate OnlyField(issues: set<Issue>, f: Field)
  {
    forall i | i in issues :: i.field == f
  }

  /** All failures reported against one field. */
  function IssuesOf(issues: set<Issue>, f: Field): set<Issue>
  {
    set x | x in issues && x.field == f
  }

  // ---------------------------------------------------------------------------
  // Reference definitions of acceptance, stated with quantifiers

  predicate ValidUsername(u: string)
  {
    3 <= |u| <= 20 && forall i :: 0 <= i < |u| ==> IsWordChar(u[i])
  }

  /** At least six characters, an `A`-`Z` and a `0`-`9`; nothing else is demanded. */
  predicate ValidPassword(p: string)
  {
    |p| >= 6
    && (exists i :: 0 <= i < |p| && IsUpper(p[i]))
    && (exists i :: 0 <= i < |p| && IsDigit(p[i]))
  }

  predicate ValidTitle(t: string) { |t| >= 3 }
  predicate ValidDescription(d: string) { |d| >= 10 }

  // ---------------------------------------------------------------------------
  // Field rules

  /** `z.string().min(3).max(20).regex(/^[a-zA-Z0-9_]+$/)` on a present username. */
  function UsernameIssues(u: string): (r: set<Issue>)
    ensures Issue(Username, UsernameTooShort) in r <==> |u| < 3
    ensures Issue(Username, UsernameTooLong) in r <==> |u| > 20
    ensures Issue(Username, UsernameCharset) in r <==>
      (u == [] || exists i :: 0 <= i < |u| && !IsWordChar(u[i]))
    ensures r <= {Issue(Username, UsernameTooShort), Issue(Username, UsernameTooLong), Issue(Username, UsernameCharset)}
  {
    (if |u| < 3 then {Issue(Username, UsernameTooShort)} else {})
    + (if |u| > 20 then {Issue(Username, UsernameTooLong)} else {})
    + (if u != [] && AllWordChars(u) then {} else {Issue(Username, UsernameCharset)})
  }

  /** `z.string().min(6).regex(/[A-Z]/).regex(/[0-9]/)` on a present password. */
  function PasswordIssues(p: string): (r: set<Issue>)
    ensures Issue(Password, PasswordTooShort) in r <==> |p| < 6
    ensures Issue(Password, PasswordNoUpper) in r <==> forall i :: 0 <= i < |p| ==> !IsUpper(p[i])
    ensures Issue(Password, PasswordNoDigit) in r <==> forall i :: 0 <= i < |p| ==> !IsDigit(p[i])
    ensures r <= {Issue(Password, PasswordTooShort), Issue(Password, PasswordNoUpper), Issue(Password, PasswordNoDigit)}
  {
    (if |p| < 6 then {Issue(Password, PasswordTooShort)} else {})
    + (if HasUpper(p) then {} else {Issue(Password, PasswordNoUpper)})
    + (if HasDigit(p) then {} else {Issue(Password, PasswordNoDigit)})
  }

  /**
   * `z.number().min(1, "Price must be greater than 0")`, stated over exact
   * numbers: the bound is 1, so a price strictly between 0 and 1 is refused
   * although the message promises only positivity.
   */
  function PriceIssues(p: real): (r: set<Issue>)
    ensures r == {} <==> p >= 1.0
    ensures r <= {Issue(Price, PriceTooLow)}
  {
    if p < 1.0 then {Issue(Price, PriceTooLow)} else {}
  }

  function TitleIssues(t: string): (r: set<Issue>)
    ensures r == {} <==> ValidTitle(t)
    ensures r <= {Issue(Title, TitleTooShort)}
  {
    if |t| < 3 then {Issue(Title, TitleTooShort)} else {}
  }

  function DescriptionIssues(d: string): (r: set<Issue>)
    ensures r == {} <==> ValidDescription(d)
    ensures r <= {Issue(Description, DescriptionTooShort)}
  {
    if |d| < 10 then {Issue(Description, DescriptionTooShort)} else {}
  }

  /** A required field: "Required" when missing, otherwise its own rules. */
  function RequiredField<T>(v: Option<T>, f: Field, rules: T -> set<Issue>): set<Issue>
  {
    match v
    case None => {Issue(f, Required)}
    case Some(x) => rules(x)
  }

  function NoRules<T>(x: T): set<Issue> { {} }

  // ---------------------------------------------------------------------------
  // Insert schemas

  /** `insertUserSchema`. */
  function ValidateUser(x: UserInput): (r: set<Issue>)
    ensures x.username.None? ==> IssuesOf(r, Username) == {Issue(Username, Required)}
    ensures x.username.Some? ==> IssuesOf(r, Username) == UsernameIssues(x.username.value)
    ensures x.password.None? ==> IssuesOf(r, Password) == {Issue(Password, Required)}
    ensures x.password.Some? ==> IssuesOf(r, Password) == PasswordIssues(x.password.value)
    ensures forall i | i in r :: i.field in {Username, Password}
  {
    var u := RequiredField(x.username, Username, UsernameIssues);
    var p := RequiredField(x.password, Password, PasswordIssues);
    assert OnlyField(u, Username) && OnlyField(p, Password);
    u + p
  }

  /** `insertProductSchema`: every column but `id` and `sellerId` is required. */
  function ValidateProduct(x: ProductInput): (r: set<Issue>)
    ensures x.title.Some? ==> IssuesOf(r, Title) == TitleIssues(x.title.value)
    ensures x.description.Some? ==> IssuesOf(r, Description) == DescriptionIssues(x.description.value)
    ensures x.price.Some? ==> IssuesOf(r, Price) == PriceIssues(x.price.value as real)
    ensures x.title.None? ==> IssuesOf(r, Title) == {Issue(Title, Required)}
    ensures x.description.None? ==> IssuesOf(r, Description) == {Issue(Description, Required)}
    ensures x.price.None? ==> IssuesOf(r, Price) == {Issue(Price, Required)}
    ensures IssuesOf(r, Image) == (if x.image.None? then {Issue(Image, Required)} else {})
    ensures IssuesOf(r, Whatsapp) == (if x.whatsapp.None? then {Issue(Whatsapp, Required)} else {})
    ensures forall i | i in r :: i.field in {Title, Description, Price, Image, Whatsapp}
  {
    var t := RequiredField(x.title, Title, TitleIssues);
    var d := RequiredField(x.description, Description, DescriptionIssues);
    var p := RequiredField(x.price, Price, (p: int) => PriceIssues(p as real));
    var i := RequiredField(x.image, Image, NoRules);
    var w := RequiredField(x.whatsapp, Whatsapp, NoRules);
    assert OnlyField(t, Title) && OnlyField(d, Description) && OnlyField(p, Price);
    assert OnlyField(i, Image) && OnlyField(w, Whatsapp);
    var r := t + d + p + i + w;
    assert IssuesOf(r, Title) == t && IssuesOf(r, Description) == d && IssuesOf(r, Price) == p;
    assert IssuesOf(r, Image) == i && IssuesOf(r, Whatsapp) == w;
    r
  }

  /** `insertJobSchema`: salary and whatsapp are required but unconstrained. */
  function ValidateJob(x: JobInput): (r: set<Issue>)
    ensures x.title.Some? ==> IssuesOf(r, Title) == TitleIssues(x.title.value)
    ensures x.description.Some? ==> IssuesOf(r, Description) == DescriptionIssues(x.description.value)
    ensures x.title.None? ==> IssuesOf(r, Title) == {Issue(Title, Required)}
    ensures x.description.None? ==> IssuesOf(r, Description) == {Issue(Description, Required)}
    ensures forall i | i in r :: i.field in {Title, Description, Salary, Whatsapp}
    ensures forall i | i in r && i.field in {Salary, Whatsapp} :: i.message == Required
  {
    RequiredField(x.title, Title, TitleIssues)
    + RequiredField(x.description, Description, DescriptionIssues)
    + RequiredField(x.salary, Salary, NoRules)
    + RequiredField(x.whatsapp, Whatsapp, NoRules)
  }

  /** `insertRequestSchema`: the nullable budget may be missing. */
  function ValidateRequest(x: RequestInput): (r: set<Issue>)
    ensures x.title.Some? ==> IssuesOf(r, Title) == TitleIssues(x.title.value)
    ensures x.description.Some? ==> IssuesOf(r, Description) == DescriptionIssues(x.description.value)
    ensures x.title.None? ==> IssuesOf(r, Title) == {Issue(Title, Required)}
    ensures x.description.None? ==> IssuesOf(r, Description) == {Issue(Description, Required)}
    ensures forall i | i in r :: i.field in {Title, Description}
  {
    RequiredField(x.title, Title, TitleIssues)
    + RequiredField(x.description, Description, DescriptionIssues)
  }

  // ---------------------------------------------------------------------------
  // Acceptance, against the reference definitions

  lemma UsernameAccepted(u: string)
    ensures UsernameIssues(u) == {} <==> ValidUsername(u)
  {
  }

  lemma PasswordAccepted(p: string)
    ensures PasswordIssues(p) == {} <==> ValidPassword(p)
  {
  }

  /** A user input passes iff both fields are present and valid. */
  lemma UserAccepted(x: UserInput)
    ensures ValidateUser(x) == {} <==>
      && x.username.Some? && ValidUsername(x.username.value)
      && x.password.Some? && ValidPassword(x.password.value)
  {
  }

  /** A product input passes iff every column is present, with the title, description and price rules met. */
  lemma ProductAccepted(x: ProductInput)
    ensures ValidateProduct(x) == {} <==>
      && x.title.Some? && ValidTitle(x.title.value)
      && x.description.Some? && ValidDescription(x.description.value)
      && x.price.Some? && x.price.value >= 1
      && x.image.Some? && x.whatsapp.Some?
  {
  }

  /** A job input passes iff every column is present and the title and description rules are met. */
  lemma JobAccepted(x: JobInput)
    ensures ValidateJob(x) == {} <==>
      && x.title.Some? && ValidTitle(x.title.value)
      && x.description.Some? && ValidDescription(x.description.value)
      && x.salary.Some? && x.whatsapp.Some?
  {
  }

  /** A request input passes iff title and description meet their rules, whatever the budget. */
  lemma RequestAccepted(x: RequestInput)
    ensures ValidateRequest(x) == {} <==>
      && x.title.Some? && ValidTitle(x.title.value)
      && x.description.Some? && ValidDescription(x.description.value)
  {
  }

  /** With an acceptable username, the user schema reports exactly the password's issues. */
  lemma GoodUsernameLeavesPasswordIssues(u: string, p: string)
    requires ValidUsername(u)
    ensures ValidateUser(UserInput(Some(u), Some(p))) == PasswordIssues(p)
  {
    UsernameAccepted(u);
  }

  /** The price rule refuses every fraction below one, though each is greater than 0. */
  lemma PriceBelowOneRefused(p: real)
    requires 0.0 < p < 1.0
    ensures Issue(Price, PriceTooLow) in PriceIssues(p)
  {
  }
}
