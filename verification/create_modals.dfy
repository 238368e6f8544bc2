/**
 * The three create dialogs (sell an item, post a job, make a request): the
 * keystroke filter of the price input, the initial form values, and what a
 * submit does with the schema's verdict and the server's reply.
 */
module CreateModals {
  import opened Wrappers
  import opened Text
  import opened Schema
  import opened Storage
  import opened ApiRoutes
  import Server

  // ---------------------------------------------------------------------------
  // Price keystroke filter

  /** The key names let through besides `[0-9.]`: the editing and focus keys. */
  predicate IsEditingKey(key: string)
  {
    key == "Backspace" || key == "Delete" || key == "ArrowLeft" || key == "ArrowRight" || key == "Tab"
  }

  /**
   * The price input's `onKeyDown`: a key passes when the unanchored class
   * `[0-9.]` finds a character of its name, or it is an editing key.
   */
  predicate PriceKeyAllowed(key: string)
  {
    HasDigitOrDot(key) || IsEditingKey(key)
  }

  /** A name made of letters holds no digit or dot. */
  lemma LettersOnly(k: string)
    requires forall i :: 0 <= i < |k| ==> IsUpper(k[i]) || IsLower(k[i])
    ensures !HasDigitOrDot(k)
  {
  }

  /** A printable key (a one-character name) passes exactly when it is a digit or a dot. */
  lemma SingleCharKeyAllowedIff(c: char)
    ensures PriceKeyAllowed([c]) <==> IsDigit(c) || c == '.'
  {
    assert !IsEditingKey([c]);
    assert [c][0] == c;
  }

  /** The sign, exponent and submit keys are swallowed. */
  lemma SignExponentEnterBlocked()
    ensures !PriceKeyAllowed("-") && !PriceKeyAllowed("+") && !PriceKeyAllowed("e") && !PriceKeyAllowed("E")
    ensures !PriceKeyAllowed("Enter")
  {
    SingleCharKeyAllowedIff('-');
    SingleCharKeyAllowedIff('+');
    SingleCharKeyAllowedIff('e');
    SingleCharKeyAllowedIff('E');
    LettersOnly("Enter");
  }

  /** The class is not anchored: a multi-character key name with a digit, such as "F5", passes. */
  lemma FunctionKeyAllowed()
    ensures PriceKeyAllowed("F5")
  {
    assert IsDigitOrDot("F5"[1]);
  }

  /**
   * The characters a run of printable keystrokes leaves in the input: each
   * one-character key that passes the filter appends its character; other
   * keys append nothing.
   */
  function Typed(keys: seq<string>): (r: string)
    ensures forall i :: 0 <= i < |r| ==> IsDigitOrDot(r[i])
  {
    if keys == [] then ""
    else
      var k := keys[|keys| - 1];
      var c := if |k| == 1 && PriceKeyAllowed(k) then k else "";
      assert |k| == 1 && PriceKeyAllowed(k) ==> IsDigitOrDot(k[0]) by {
        if |k| == 1 && PriceKeyAllowed(k) {
          assert k == [k[0]];
          SingleCharKeyAllowedIff(k[0]);
        }
      }
      Typed(keys[..|keys| - 1]) + c
  }

  // ---------------------------------------------------------------------------
  // Initial values

  const PlaceholderImage := "https://placehold.co/400x300/e2e8f0/1e293b?text=Product"

  /** The product form's `defaultValues` object: no price, the placeholder image, nothing else. */
  const ProductDefaults := ProductInput(None, None, None, Some(PlaceholderImage), None)

  /** The job and request forms have no `defaultValues`. */
  const JobDefaults := JobInput(None, None, None, None)
  const RequestDefaults := RequestInput(None, None, None)

  /**
   * The `defaultValues` object on its own, before any input is read, is
   * refused for every required field except the image, which it already fills.
   */
  lemma ProductDefaultsIssues()
    ensures ValidateProduct(ProductDefaults) ==
      {Issue(Title, Required), Issue(Description, Required), Issue(Price, Required), Issue(Whatsapp, Required)}
  {
  }

  /**
   * What an untouched product dialog submits: each registered text input
   * reads as the empty string and the image input shows its default. The
   * price input's value is a parameter (see the README).
   */
  function UntouchedProduct(price: int): ProductInput
  {
    ProductInput(Some(""), Some(""), Some(price), Some(PlaceholderImage), Some(""))
  }

  /** An untouched job or request dialog submits empty strings for every input. */
  const UntouchedJob := JobInput(Some(""), Some(""), Some(""), Some(""))
  const UntouchedRequest := RequestInput(Some(""), Some(""), Some(""))

  /**
   * Submitting an untouched product dialog shows the title and description
   * length messages, and the price's own issue; the empty WhatsApp number passes.
   */
  lemma UntouchedProductIssues(price: int)
    ensures ValidateProduct(UntouchedProduct(price)) ==
      {Issue(Title, TitleTooShort), Issue(Description, DescriptionTooShort)} + PriceIssues(price as real)
    ensures Issue(Whatsapp, Required) !in ValidateProduct(UntouchedProduct(price))
  {
    var v := ValidateProduct(UntouchedProduct(price));
    assert v == TitleIssues("") + DescriptionIssues("") + PriceIssues(price as real) + {} + {};
  }

  /** An untouched job dialog is refused for its title and description only: empty salary and WhatsApp pass. */
  lemma UntouchedJobIssues()
    ensures ValidateJob(UntouchedJob) == {Issue(Title, TitleTooShort), Issue(Description, DescriptionTooShort)}
  {
    assert ValidateJob(UntouchedJob) == TitleIssues("") + DescriptionIssues("") + {} + {};
  }

  /** An untouched request dialog is refused for its title and description only: an empty budget passes. */
  lemma UntouchedRequestIssues()
    ensures ValidateRequest(UntouchedRequest) == {Issue(Title, TitleTooShort), Issue(Description, DescriptionTooShort)}
  {
    assert ValidateRequest(UntouchedRequest) == TitleIssues("") + DescriptionIssues("");
  }

  // ---------------------------------------------------------------------------
  // Submit

  /** The outcome of the create request, as the mutation's callbacks see it. */
  datatype Reply = Succeeded | Failed(message: string)

  datatype Toast = Toast(title: string, description: string, destructive: bool)

  /**
   * A submit: `handleSubmit` runs the schema first and a refused form sends
   * nothing; on success the dialog closes and the form returns to its default
   * values; on failure the dialog stays open with the values kept.
   */
  datatype Outcome<I> =
    | Blocked(issues: set<Issue>)
    | Closed(values: I, toast: Toast)
    | StillOpen(values: I, toast: Toast)

  /** `form.handleSubmit(onSubmit)` for a form with the given schema verdict, defaults and texts. */
  function Submit<I>(values: I, issues: set<Issue>, reply: Reply, defaults: I, success: string, fallback: string): (r: Outcome<I>)
    ensures r.Blocked? <==> issues != {}
    ensures r.Blocked? ==> r.issues == issues
    ensures r.Closed? <==> issues == {} && reply.Succeeded?
    ensures r.Closed? ==> r.values == defaults && r.toast == Toast("Success", success, false)
    ensures r.StillOpen? ==> r.values == values && r.toast.destructive && r.toast.title == "Error"
    ensures r.StillOpen? && reply.message != "" ==> r.toast.description == reply.message
    ensures r.StillOpen? && reply.message == "" ==> r.toast.description == fallback
  {
    if issues != {} then Blocked(issues)
    else
      match reply
      case Succeeded => Closed(defaults, Toast("Success", success, false))
      case Failed(m) => StillOpen(values, Toast("Error", OrElse(m, fallback), true))
  }

  /** The product dialog. */
  function SubmitProduct(values: ProductInput, reply: Reply): Outcome<ProductInput>
  {
    Submit(values, ValidateProduct(values), reply, ProductDefaults, "Product listed successfully", "Failed to list product")
  }

  /** The job dialog. */
  function SubmitJob(values: JobInput, reply: Reply): Outcome<JobInput>
  {
    Submit(values, ValidateJob(values), reply, JobDefaults, "Job posted successfully", "Failed to post job")
  }

  /** The request dialog. */
  function SubmitRequest(values: RequestInput, reply: Reply): Outcome<RequestInput>
  {
    Submit(values, ValidateRequest(values), reply, RequestDefaults, "Request posted successfully", "Failed to post request")
  }

  /** The product dialog sends exactly the bodies the shared schema accepts. */
  lemma ProductFormSendsIffAccepted(values: ProductInput, reply: Reply)
    ensures !SubmitProduct(values, reply).Blocked? <==>
      && values.title.Some? && ValidTitle(values.title.value)
      && values.description.Some? && ValidDescription(values.description.value)
      && values.price.Some? && values.price.value >= 1
      && values.image.Some? && values.whatsapp.Some?
  {
    ProductAccepted(values);
  }

  /** `useCreateJob` / `useCreateRequest`: a non-2xx response is thrown as the hook's own fixed message. */
  function HookReply(r: Resource, resp: Server.Response): (reply: Reply)
    ensures reply.Succeeded? <==> 200 <= resp.status < 300
    ensures reply.Failed? ==> reply.message == Server.CreateFailed(r) && reply.message != ""
  {
    if 200 <= resp.status < 300 then Succeeded else Failed(Server.CreateFailed(r))
  }

  /**
   * End to end: a job form the schema accepts, sent by a signed-in user to a
   * working store, is stored with that user as employer and the dialog closes.
   */
  lemma AcceptedJobFormCloses(uid: int, values: JobInput, s: Store)
    requires Valid(s)
    requires ValidateJob(values) == {}
    ensures var (resp, s') := Server.Handle(Server.SignedIn(uid), Server.CreateJobCall(values, None), s, None);
      && resp.status == 201
      && resp.payload.JobJson? && resp.payload.job.data.employerId == uid
      && SubmitJob(values, HookReply(Jobs, resp)) == Closed(JobDefaults, Toast("Success", "Job posted successfully", false))
  {
    JobAccepted(values);
    Server.CreateJobStampsOwner(uid, values, None, s);
  }

  /** The same for a request form. */
  lemma AcceptedRequestFormCloses(uid: int, values: RequestInput, s: Store)
    requires Valid(s)
    requires ValidateRequest(values) == {}
    ensures var (resp, s') := Server.Handle(Server.SignedIn(uid), Server.CreateRequestCall(values, None), s, None);
      && resp.status == 201
      && resp.payload.RequestJson? && resp.payload.request.data.requesterId == uid
      && SubmitRequest(values, HookReply(Requests, resp)) == Closed(RequestDefaults, Toast("Success", "Request posted successfully", false))
  {
    RequestAccepted(values);
    Server.CreateRequestStampsOwner(uid, values, None, s);
  }

  /**
   * The hooks never reject with an empty message, so the dialogs' own
   * fallbacks are never shown: a failed job post always reads "Failed to create job".
   */
  lemma JobFailureShowsHookMessage(values: JobInput, resp: Server.Response)
    requires !(200 <= resp.status < 300)
    ensures var r := SubmitJob(values, HookReply(Jobs, resp));
      r.StillOpen? ==> r.toast.description == "Failed to create job"
  {
  }
}
