/**
 * The three public listing pages (marketplace, jobs, requests): the search
 * filter over the fetched list, the "nothing found" notice, the WhatsApp
 * contact links and the budget badge.
 *
 * A fetched list is `None` while react-query has no data (`undefined`), and
 * the filtered list is `None` with it, as `products?.filter(...)` is.
 */
module Listings {
  import opened Wrappers
  import opened Text
  import opened Seqs
  import opened Schema
  import opened Storage

  // ---------------------------------------------------------------------------
  // Search

  /** The search test of every page: the lower-cased term occurs in the lower-cased title or description. */
  predicate MatchesSearch(title: string, description: string, search: string)
  {
    Contains(Lower(title), Lower(search)) || Contains(Lower(description), Lower(search))
  }

  /** An empty search term matches everything. */
  lemma EmptySearchMatches(title: string, description: string)
    ensures MatchesSearch(title, description, "")
  {
    ContainsEmpty(Lower(title));
  }

  /** Upper-casing the term or the texts does not change whether they match. */
  lemma MatchesSearchIgnoresCase(title: string, description: string, search: string)
    ensures MatchesSearch(title, description, Upper(search)) == MatchesSearch(title, description, search)
    ensures MatchesSearch(Upper(title), Upper(description), search) == MatchesSearch(title, description, search)
  {
    LowerOfUpper(search);
    LowerOfUpper(title);
    LowerOfUpper(description);
  }

  /**
   * `list?.filter(x => <title or description matches>)`, for a page whose rows
   * have the given title and description.
   */
  function SearchFilter<X>(list: Option<seq<X>>, search: string, title: X -> string, description: X -> string): (r: Option<seq<X>>)
    ensures r.None? <==> list.None?
    ensures r.Some? ==> |r.value| <= |list.value| && IsSubsequence(r.value, list.value)
    ensures r.Some? ==> forall i :: 0 <= i < |r.value| ==>
      r.value[i] in list.value && MatchesSearch(title(r.value[i]), description(r.value[i]), search)
    ensures r.Some? ==> forall i :: 0 <= i < |list.value| && MatchesSearch(title(list.value[i]), description(list.value[i]), search) ==>
      list.value[i] in r.value
  {
    match list
    case None => None
    case Some(xs) =>
      var keep := (x: X) => MatchesSearch(title(x), description(x), search);
      assert IsSubsequence(Filter(xs, keep), xs) by {
        FilterIsSubsequence(xs, keep);
      }
      Some(Filter(xs, keep))
  }

  /** The empty search term shows the whole list. */
  lemma EmptySearchKeepsAll<X>(list: Option<seq<X>>, title: X -> string, description: X -> string)
    ensures SearchFilter(list, "", title, description) == list
  {
    if list.Some? {
      var xs := list.value;
      forall i | 0 <= i < |xs| ensures MatchesSearch(title(xs[i]), description(xs[i]), "") {
        EmptySearchMatches(title(xs[i]), description(xs[i]));
      }
      FilterAllKept(xs, (x: X) => MatchesSearch(title(x), description(x), ""));
    }
  }

  /** Typing the term in capitals shows the same rows. */
  lemma SearchIgnoresCase<X>(list: Option<seq<X>>, search: string, title: X -> string, description: X -> string)
    ensures SearchFilter(list, Upper(search), title, description) == SearchFilter(list, search, title, description)
  {
    if list.Some? {
      LowerOfUpper(search);
      FilterAgreeing(list.value,
        (x: X) => MatchesSearch(title(x), description(x), Upper(search)),
        (x: X) => MatchesSearch(title(x), description(x), search));
    }
  }

  function ProductTitle(p: Product): string { p.data.title }
  function ProductDescription(p: Product): string { p.data.description }
  function JobTitle(j: Job): string { j.data.title }
  function JobDescription(j: Job): string { j.data.description }
  function RequestTitle(r: Request): string { r.data.title }
  function RequestDescription(r: Request): string { r.data.description }

  /** `filteredProducts`: the fetched products the term matches, in fetched order. */
  function FilteredProducts(products: Option<seq<Product>>, search: string): (r: Option<seq<Product>>)
    ensures r.None? <==> products.None?
    ensures r.Some? ==> IsSubsequence(r.value, products.value)
    ensures r.Some? ==> forall p :: p in r.value <==>
      p in products.value && MatchesSearch(p.data.title, p.data.description, search)
  {
    SearchFilter(products, search, ProductTitle, ProductDescription)
  }

  /** `filteredJobs`: the fetched jobs the term matches, in fetched order. */
  function FilteredJobs(jobs: Option<seq<Job>>, search: string): (r: Option<seq<Job>>)
    ensures r.None? <==> jobs.None?
    ensures r.Some? ==> IsSubsequence(r.value, jobs.value)
    ensures r.Some? ==> forall j :: j in r.value <==>
      j in jobs.value && MatchesSearch(j.data.title, j.data.description, search)
  {
    SearchFilter(jobs, search, JobTitle, JobDescription)
  }

  /** `filteredRequests`: the fetched requests the term matches, in fetched order. */
  function FilteredRequests(requests: Option<seq<Request>>, search: string): (r: Option<seq<Request>>)
    ensures r.None? <==> requests.None?
    ensures r.Some? ==> IsSubsequence(r.value, requests.value)
    ensures r.Some? ==> forall q :: q in r.value <==>
      q in requests.value && MatchesSearch(q.data.title, q.data.description, search)
  {
    SearchFilter(requests, search, RequestTitle, RequestDescription)
  }

  /** `!isLoading && filtered?.length === 0`: the page's "No ... found" notice. */
  predicate NoResultsShown<X>(isLoading: bool, filtered: Option<seq<X>>)
  {
    !isLoading && filtered.Some? && |filtered.value| == 0
  }

  /**
   * The notice appears exactly when loading has finished, the list has
   * arrived, and the term matches none of its rows.
   */
  lemma NoResultsIffNothingMatches<X>(isLoading: bool, list: Option<seq<X>>, search: string, title: X -> string, description: X -> string)
    ensures NoResultsShown(isLoading, SearchFilter(list, search, title, description)) <==>
      && !isLoading && list.Some?
      && forall i :: 0 <= i < |list.value| ==> !MatchesSearch(title(list.value[i]), description(list.value[i]), search)
  {
    var r := SearchFilter(list, search, title, description);
    if list.Some? && r.value != [] {
      assert r.value[0] in list.value;
    }
  }

  // ---------------------------------------------------------------------------
  // Contact links

  const WhatsAppBase := "https://wa.me/"
  const ProductLead := "?text=Hi, I'm interested in your "
  const ProductTail := " listed on Loca."
  const JobLead := "?text=Hi, I'm interested in the job \""
  const JobTail := "\" listed on Loca."

  /** A contact link: the number, then the message text, inserted without any escaping. */
  function ContactUrl(whatsapp: string, lead: string, title: string, tail: string): string
  {
    WhatsAppBase + whatsapp + lead + title + tail
  }

  /** `ProductCard`'s `whatsappUrl`. */
  function ProductContactUrl(whatsapp: string, title: string): string
  {
    ContactUrl(whatsapp, ProductLead, title, ProductTail)
  }

  /** `JobCard`'s `whatsappUrl`: the title stands in double quotes. */
  function JobContactUrl(whatsapp: string, title: string): string
  {
    ContactUrl(whatsapp, JobLead, title, JobTail)
  }

  /**
   * Reading a contact link back: the number runs up to the first `?`, which
   * must open `lead`; the title lies between `lead` and `tail`.
   */
  function ParseContactUrl(url: string, lead: string, tail: string): (r: Option<(string, string)>)
    ensures r.Some? ==> ContactUrl(r.value.0, lead, r.value.1, tail) == url
  {
    if !StartsWith(url, WhatsAppBase) then None
    else
      var rest := url[|WhatsAppBase|..];
      match IndexOf(rest, "?")
      case None => None
      case Some(i) =>
        var message := rest[i..];
        if StartsWith(message, lead) && |lead| + |tail| <= |message| && message[|message| - |tail|..] == tail then
          var whatsapp, title := rest[..i], message[|lead|..|message| - |tail|];
          assert url == WhatsAppBase + whatsapp + lead + title + tail by {
            SplitThree(message, |lead|, |message| - |tail|);
            SplitThree(url, |WhatsAppBase|, |WhatsAppBase| + i);
          }
          Some((whatsapp, title))
        else None
  }

  /** Cutting a sequence at two points and joining the pieces gives it back. */
  lemma SplitThree<X>(s: seq<X>, i: nat, j: nat)
    requires i <= j <= |s|
    ensures s == s[..i] + s[i..j] + s[j..]
  {
  }

  /** A link made from a number without `?` gives back that number and the title verbatim. */
  lemma ContactUrlRoundTrip(whatsapp: string, lead: string, title: string, tail: string)
    requires forall i :: 0 <= i < |whatsapp| ==> whatsapp[i] != '?'
    requires |lead| > 0 && lead[0] == '?'
    ensures ParseContactUrl(ContactUrl(whatsapp, lead, title, tail), lead, tail) == Some((whatsapp, title))
  {
    var url := ContactUrl(whatsapp, lead, title, tail);
    var message := lead + title + tail;
    var rest := whatsapp + message;
    assert url == WhatsAppBase + rest;
    assert url[|WhatsAppBase|..] == rest;
    assert lead == "?" + lead[1..];
    assert rest == whatsapp + "?" + (lead[1..] + title + tail);
    IndexOfAfterPlainPrefix(whatsapp, "?", lead[1..] + title + tail);
    assert rest[|whatsapp|..] == message && rest[..|whatsapp|] == whatsapp;
    assert message == lead + (title + tail);
    assert message[..|lead|] == lead;
    assert message[|message| - |tail|..] == tail;
    assert message[|lead|..|message| - |tail|] == title;
  }

  lemma ProductContactUrlRoundTrip(whatsapp: string, title: string)
    requires forall i :: 0 <= i < |whatsapp| ==> whatsapp[i] != '?'
    ensures ParseContactUrl(ProductContactUrl(whatsapp, title), ProductLead, ProductTail) == Some((whatsapp, title))
  {
    ContactUrlRoundTrip(whatsapp, ProductLead, title, ProductTail);
  }

  lemma JobContactUrlRoundTrip(whatsapp: string, title: string)
    requires forall i :: 0 <= i < |whatsapp| ==> whatsapp[i] != '?'
    ensures ParseContactUrl(JobContactUrl(whatsapp, title), JobLead, JobTail) == Some((whatsapp, title))
  {
    ContactUrlRoundTrip(whatsapp, JobLead, title, JobTail);
  }

  /**
   * Nothing is escaped: the number read back from a link stops at its first
   * `?`, so a number holding `?` is never recovered from its own link.
   */
  lemma QuestionMarkInNumberIsNotEscaped(a: string, b: string, title: string)
    requires forall i :: 0 <= i < |a| ==> a[i] != '?'
    ensures ParseContactUrl(ProductContactUrl(a + "?" + b, title), ProductLead, ProductTail) != Some((a + "?" + b, title))
  {
    var whatsapp := a + "?" + b;
    var url := ProductContactUrl(whatsapp, title);
    var rest := whatsapp + ProductLead + title + ProductTail;
    assert url == WhatsAppBase + rest;
    assert url[|WhatsAppBase|..] == rest;
    assert rest == a + "?" + (b + ProductLead + title + ProductTail);
    IndexOfAfterPlainPrefix(a, "?", b + ProductLead + title + ProductTail);
    var r := ParseContactUrl(url, ProductLead, ProductTail);
    if r.Some? {
      assert |r.value.0| == |a| < |whatsapp|;
    }
  }

  // ---------------------------------------------------------------------------
  // Budget badge

  /** JavaScript truthiness of an optional string: present and non-empty. */
  predicate Truthy(s: Option<string>)
  {
    s.Some? && s.value != ""
  }

  /** `request.budget && <badge>`: the badge text, when a badge is shown. */
  function BudgetBadge(budget: Option<string>): (r: Option<string>)
    ensures r.Some? <==> budget.Some? && |budget.value| > 0
    ensures r.Some? ==> r.value == budget.value
  {
    if Truthy(budget) then Some(budget.value) else None
  }
}
