/**
 * The decisions and replies of the assistant: who may see or cancel an order,
 * and how an order status and a product recommendation are rendered.
 */
module BusinessLogic {
  import opened Wrappers
  import opened Text
  import opened Shop

  const PUBLIC_DOMAIN := "shelook.in"
  const CANCEL := "cancel"
  const STATUS := "status"

  // ---------------------------------------------------------------------------
  // Email-based authorisation
  // ---------------------------------------------------------------------------

  /** The customer's email, if the order carries a truthy one. */
  function CustomerEmail(o: Order): Option<string> {
    if o.customer.Some? then o.customer.value.email else None
  }

  /** The raw emails on file that pass the truthiness test, in the order they
      are collected: `email`, `contact_email`, then `customer.email`. */
  function StoredEmails(o: Order): (raw: seq<string>)
    ensures |raw| <= 3
    ensures forall x :: x in raw ==> x != ""
  {
    (if Truthy(o.email) then [o.email.value] else [])
    + (if Truthy(o.contactEmail) then [o.contactEmail.value] else [])
    + (if Truthy(CustomerEmail(o)) then [CustomerEmail(o).value] else [])
  }

  /** The list of emails on file: each stored email, normalised only after it
      passed the truthiness test (so a blank one is kept, as ""). */
  function KnownEmails(o: Order): (known: seq<string>)
    ensures |known| == |StoredEmails(o)|
    ensures forall k :: 0 <= k < |known| ==> known[k] == Normalize(StoredEmails(o)[k])
  {
    var raw := StoredEmails(o);
    seq(|raw|, k requires 0 <= k < |raw| => Normalize(raw[k]))
  }

  /** The access decision: `"cancel"` is strict membership, `"status"` lets
      everyone through when no email is on file, anything else is refused. */
  function VerifyUser(order: Option<Order>, userEmail: string, actionType: string): (allowed: bool)
    ensures order.None? ==> !allowed
    ensures actionType != CANCEL && actionType != STATUS ==> !allowed
  {
    if order.None? then false
    else
      var known := KnownEmails(order.value);
      var input := Normalize(userEmail);
      if actionType == CANCEL then input in known
      else if actionType == STATUS then known == [] || input in known
      else false
  }

  /** Some stored email normalises to the same string as `e`. */
  ghost predicate MatchesStored(o: Order, e: string) {
    exists raw :: raw in StoredEmails(o) && Normalize(raw) == Normalize(e)
  }

  lemma KnownEmailsMembership(o: Order, e: string)
    ensures Normalize(e) in KnownEmails(o) <==> MatchesStored(o, e)
  {
    var raw := StoredEmails(o);
    if Normalize(e) in KnownEmails(o) {
      var k :| 0 <= k < |raw| && KnownEmails(o)[k] == Normalize(e);
      assert raw[k] in raw;
    }
    if MatchesStored(o, e) {
      var x :| x in raw && Normalize(x) == Normalize(e);
      var k :| 0 <= k < |raw| && raw[k] == x;
      assert KnownEmails(o)[k] == Normalize(e);
    }
  }

  /** Cancellation is allowed exactly when the normalised input equals the
      normalised value of one of the truthy email fields, whichever it is. */
  lemma CancelAllowedIffSomeFieldMatches(o: Order, e: string)
    ensures VerifyUser(Some(o), e, CANCEL) <==>
      || (Truthy(o.email) && Normalize(o.email.value) == Normalize(e))
      || (Truthy(o.contactEmail) && Normalize(o.contactEmail.value) == Normalize(e))
      || (Truthy(CustomerEmail(o)) && Normalize(CustomerEmail(o).value) == Normalize(e))
  {
    KnownEmailsMembership(o, e);
  }

  /** With no email on file, cancellation is refused whatever the input. */
  lemma CancelDeniedWithoutEmails(o: Order, e: string)
    requires StoredEmails(o) == []
    ensures !VerifyUser(Some(o), e, CANCEL)
  {
  }

  /** With no email on file, a status check is allowed whatever the input. */
  lemma StatusAllowedWithoutEmails(o: Order, e: string)
    requires StoredEmails(o) == []
    ensures VerifyUser(Some(o), e, STATUS)
  {
  }

  /** With some email on file, the status check is the same membership test as
      cancellation. */
  lemma StatusMatchesCancelWithEmails(o: Order, e: string)
    requires StoredEmails(o) != []
    ensures VerifyUser(Some(o), e, STATUS) == VerifyUser(Some(o), e, CANCEL)
    ensures VerifyUser(Some(o), e, STATUS) <==> MatchesStored(o, e)
  {
    KnownEmailsMembership(o, e);
  }

  /** Whoever may cancel an order may also see its status; the converse fails
      only for an order with no email on file. */
  lemma CancelImpliesStatus(order: Option<Order>, e: string)
    ensures VerifyUser(order, e, CANCEL) ==> VerifyUser(order, e, STATUS)
    ensures order.Some? && StoredEmails(order.value) != [] ==>
      (VerifyUser(order, e, STATUS) ==> VerifyUser(order, e, CANCEL))
  {
  }

  /** The decision does not see whitespace around the input email. */
  lemma VerifyIgnoresPadding(order: Option<Order>, pre: string, e: string, post: string, actionType: string)
    requires AllSpaces(pre) && AllSpaces(post)
    ensures VerifyUser(order, pre + e + post, actionType) == VerifyUser(order, e, actionType)
  {
    NormalizeIgnoresPadding(pre, e, post);
  }

  /** The decision does not see the letter case of the input email. */
  lemma VerifyIgnoresCase(order: Option<Order>, e: string, actionType: string)
    ensures VerifyUser(order, Upper(e), actionType) == VerifyUser(order, e, actionType)
    ensures VerifyUser(order, Lower(e), actionType) == VerifyUser(order, e, actionType)
  {
    UpperThenLower(e);
    assert Normalize(Upper(e)) == Normalize(e);
    assert Lower(Lower(e)) == Lower(e);
    assert Normalize(Lower(e)) == Normalize(e);
  }

  /** Which field holds an email, and in which case or padding it is stored,
      does not matter: orders whose stored emails normalise to the same set
      get the same decision for every input and action. */
  lemma VerifyDependsOnlyOnNormalisedSet(o1: Order, o2: Order, e: string, actionType: string)
    requires forall x :: MatchesStored(o1, x) <==> MatchesStored(o2, x)
    ensures VerifyUser(Some(o1), e, actionType) == VerifyUser(Some(o2), e, actionType)
  {
    KnownEmailsMembership(o1, e);
    KnownEmailsMembership(o2, e);
    if StoredEmails(o1) == [] && StoredEmails(o2) != [] {
      var raw := StoredEmails(o2)[0];
      assert MatchesStored(o2, raw);
    }
    if StoredEmails(o2) == [] && StoredEmails(o1) != [] {
      var raw := StoredEmails(o1)[0];
      assert MatchesStored(o1, raw);
    }
  }

  /** The source tests an email for truthiness before stripping it, so a
      whitespace-only stored email is kept as "": it counts as an email on
      file (the status bypass no longer applies) and a blank input email is
      then authorised, even for cancellation. */
  lemma BlankStoredEmailQuirk(o: Order, e: string)
    requires o.email.Some? && o.email.value != "" && AllSpaces(o.email.value)
    requires !Truthy(o.contactEmail) && !Truthy(CustomerEmail(o))
    ensures KnownEmails(o) == [""]
    ensures VerifyUser(Some(o), "", CANCEL)
    ensures VerifyUser(Some(o), e, STATUS) <==> Normalize(e) == ""
  {
    NormalizeIgnoresPadding(o.email.value, "", []);
    assert o.email.value + "" + [] == o.email.value;
  }

  // ---------------------------------------------------------------------------
  // Order-status reply
  // ---------------------------------------------------------------------------

  /** The tracking descriptor of a status reply. */
  datatype Tracking = TrackingLink(url: string) | TrackingNumber(number: string) | Shipped | Processing

  /** Fulfillment status shown: the order's, or "Unfulfilled" when it is falsy. */
  function FulfillmentShown(o: Order): (s: string)
    ensures Truthy(o.fulfillmentStatus) ==> s == o.fulfillmentStatus.value
    ensures !Truthy(o.fulfillmentStatus) ==> s == "Unfulfilled"
  {
    if Truthy(o.fulfillmentStatus) then o.fulfillmentStatus.value else "Unfulfilled"
  }

  /** Payment status shown: the order's, or "Pending" when it is falsy. */
  function PaymentShown(o: Order): (s: string)
    ensures Truthy(o.financialStatus) ==> s == o.financialStatus.value
    ensures !Truthy(o.financialStatus) ==> s == "Pending"
  {
    if Truthy(o.financialStatus) then o.financialStatus.value else "Pending"
  }

  /** Tracking comes from the first fulfillment only: its URL if truthy, else
      its tracking number if truthy, else "Shipped"; "Processing" when the
      order has no fulfillment at all. */
  function TrackingOf(o: Order): (t: Tracking)
    ensures t.Processing? <==> |o.fulfillments| == 0
    ensures t.TrackingLink? <==> |o.fulfillments| > 0 && Truthy(o.fulfillments[0].trackingUrl)
    ensures t.TrackingLink? ==> t.url == o.fulfillments[0].trackingUrl.value
    ensures t.TrackingNumber? <==>
      |o.fulfillments| > 0 && !Truthy(o.fulfillments[0].trackingUrl) && Truthy(o.fulfillments[0].trackingNumber)
    ensures t.TrackingNumber? ==> t.number == o.fulfillments[0].trackingNumber.value
  {
    if |o.fulfillments| > 0 then
      var f := o.fulfillments[0];
      if Truthy(f.trackingUrl) then TrackingLink(f.trackingUrl.value)
      else if Truthy(f.trackingNumber) then TrackingNumber(f.trackingNumber.value)
      else Shipped
    else Processing
  }

  function TrackingText(t: Tracking): string {
    match t
    case TrackingLink(url) => "<a href='" + url + "' target='_blank'>Track Shipment</a>"
    case TrackingNumber(number) => number
    case Shipped => "Shipped"
    case Processing => "Processing"
  }

  const STATUS_HEADER := "\U{1F4E6} **Order "
  const PAYMENT_LABEL := "**<br>Payment: "
  const STATUS_LABEL := "<br>Status: "
  const TRACKING_LABEL := "<br>Tracking: "

  function StatusText(name: string, payment: string, status: string, tracking: string): string {
    STATUS_HEADER + name + PAYMENT_LABEL + payment + STATUS_LABEL + status + TRACKING_LABEL + tracking
  }

  /** `r` ends with `t`. */
  predicate EndsWith(r: string, t: string) {
    |t| <= |r| && r[|r| - |t|..] == t
  }

  /** The status reply for an order: it opens with the parcel header, the
      order's name and the payment shown, and closes with the fulfillment
      status shown and the tracking descriptor, with nothing in between. */
  function FormatStatus(o: Order): (r: string)
    ensures STATUS_HEADER + o.name + PAYMENT_LABEL + PaymentShown(o) <= r
    ensures EndsWith(r, STATUS_LABEL + FulfillmentShown(o) + TRACKING_LABEL + TrackingText(TrackingOf(o)))
    ensures |r| == |STATUS_HEADER + o.name + PAYMENT_LABEL + PaymentShown(o)|
                 + |STATUS_LABEL + FulfillmentShown(o) + TRACKING_LABEL + TrackingText(TrackingOf(o))|
  {
    var head := STATUS_HEADER + o.name + PAYMENT_LABEL + PaymentShown(o);
    var tail := STATUS_LABEL + FulfillmentShown(o) + TRACKING_LABEL + TrackingText(TrackingOf(o));
    var r := StatusText(o.name, PaymentShown(o), FulfillmentShown(o), TrackingText(TrackingOf(o)));
    assert r == head + tail;
    r
  }

  /** The reply reads nothing of the order beyond its name, its two statuses
      and its first fulfillment: orders that agree on those render alike. */
  lemma FormatStatusReadsFirstFulfillmentOnly(o1: Order, o2: Order)
    requires o1.name == o2.name
    requires o1.fulfillmentStatus == o2.fulfillmentStatus && o1.financialStatus == o2.financialStatus
    requires |o1.fulfillments| == 0 <==> |o2.fulfillments| == 0
    requires |o1.fulfillments| > 0 ==> o1.fulfillments[0] == o2.fulfillments[0]
    ensures FormatStatus(o1) == FormatStatus(o2)
  {
  }

  /** An order with no fulfillment status and no fulfillment renders as
      unfulfilled and still processing. */
  lemma FormatStatusUnfulfilledProcessing(o: Order)
    requires !Truthy(o.fulfillmentStatus) && o.fulfillments == []
    ensures FormatStatus(o) == StatusText(o.name, PaymentShown(o), "Unfulfilled", "Processing")
  {
    assert FulfillmentShown(o) == "Unfulfilled";
    assert TrackingText(TrackingOf(o)) == "Processing";
  }

  // ---------------------------------------------------------------------------
  // Product reply
  // ---------------------------------------------------------------------------

  /** What a product reply shows: a link to a catalogue search, or one product. */
  datatype ProductReply =
    | SearchFallback(query: string)
    | Recommendation(title: string, image: Option<string>, productUrl: string)

  function SearchUrl(query: string): string {
    "https://" + PUBLIC_DOMAIN + "/search?q=" + query
  }

  function ProductUrl(handle: string): string {
    "https://" + PUBLIC_DOMAIN + "/products/" + handle
  }

  /** The reply is chosen from the first product only; its image is shown
      exactly when it has a truthy image source. */
  function ProductReplyOf(query: string, products: seq<Product>): (r: ProductReply)
    ensures r.SearchFallback? <==> products == []
    ensures r.SearchFallback? ==> r.query == query
    ensures r.Recommendation? ==>
      && r.title == products[0].title
      && r.productUrl == ProductUrl(products[0].handle)
      && (r.image.Some? <==> Truthy(products[0].image))
      && (r.image.Some? ==> r.image == products[0].image)
  {
    if products == [] then SearchFallback(query)
    else
      var p := products[0];
      var img := if p.image.Some? then p.image.value else "";
      Recommendation(p.title, if img != "" then Some(img) else None, ProductUrl(p.handle))
  }

  /** `r` holds `t` starting at position `n`. */
  predicate OccursAt(r: string, n: nat, t: string) {
    n + |t| <= |r| && r[n..n + |t|] == t
  }

  const FALLBACK_LEAD := "I couldn't find an exact match, but you can browse our collection here: <br><a href='"
  const FALLBACK_LINK_END := "' target='_blank' style='color:blue;'>View "
  const COLLECTION_END := " Collection</a>"

  function RecommendIntro(title: string): string {
    "I recommend our <b>" + title + "</b>.<br>"
  }

  const IMG_OPEN := "<img src='"
  const IMG_CLOSE := "' style='width:100%; border-radius:8px; margin:10px 0;'><br>"

  function ImageTag(src: string): string {
    IMG_OPEN + src + IMG_CLOSE
  }

  const BUTTON_OPEN := "\U{1F449} <a href='"
  const BUTTON_CLOSE :=
    "' target='_blank' style='background:#000; color:#fff; padding:8px 15px; border-radius:20px; text-decoration:none;'>View Product</a>"

  function ProductButton(url: string): string {
    BUTTON_OPEN + url + BUTTON_CLOSE
  }

  /** The HTML of a product reply. The fallback opens with the link to the
      search page for its query and closes with the collection label naming
      it; a recommendation opens with its introduction, an image tag showing
      its image follows that exactly when it carries one, and it closes with
      the button linking to its product page, with nothing else in between. */
  function RenderProductReply(r: ProductReply): (html: string)
    ensures r.SearchFallback? ==> FALLBACK_LEAD + SearchUrl(r.query) <= html
    ensures r.Recommendation? ==> RecommendIntro(r.title) <= html
    ensures r.Recommendation? ==> (OccursAt(html, |RecommendIntro(r.title)|, IMG_OPEN) <==> r.image.Some?)
    ensures r.Recommendation? && r.image.Some? ==>
      OccursAt(html, |RecommendIntro(r.title)|, ImageTag(r.image.value))
    ensures r.Recommendation? ==> EndsWith(html, ProductButton(r.productUrl))
    ensures r.SearchFallback? ==> EndsWith(html, FALLBACK_LINK_END + r.query + COLLECTION_END)
    ensures r.SearchFallback? ==>
      |html| == |FALLBACK_LEAD + SearchUrl(r.query)| + |FALLBACK_LINK_END + r.query + COLLECTION_END|
    ensures r.Recommendation? ==>
      |html| == |RecommendIntro(r.title)| + (if r.image.Some? then |ImageTag(r.image.value)| else 0)
                + |ProductButton(r.productUrl)|
  {
    match r
    case SearchFallback(query) =>
      var lead := FALLBACK_LEAD + SearchUrl(query);
      var html := FALLBACK_LEAD + SearchUrl(query) + FALLBACK_LINK_END + query + COLLECTION_END;
      var tail := FALLBACK_LINK_END + query + COLLECTION_END;
      assert html == lead + tail;
      SuffixAfter(lead, tail);
      html
    case Recommendation(title, image, url) =>
      if image.Some? then
        ImageTagFollowsIntro(title, image.value, url);
        RecommendIntro(title) + ImageTag(image.value) + ProductButton(url)
      else
        NoImageTagAfterIntro(title, url);
        RecommendIntro(title) + ProductButton(url)
  }

  /** The product reply for a search `query` that returned `products`: the
      search-page link when nothing was found, otherwise the introduction of
      the first product, followed by a tag showing its image exactly when that
      product has one, and closed by the button linking to its page, with
      nothing else in between. */
  function FormatProductLink(query: string, products: seq<Product>): (html: string)
    ensures products == [] ==> FALLBACK_LEAD + SearchUrl(query) <= html
    ensures products != [] ==> RecommendIntro(products[0].title) <= html
    ensures products != [] ==>
      (OccursAt(html, |RecommendIntro(products[0].title)|, IMG_OPEN) <==> Truthy(products[0].image))
    ensures products != [] && Truthy(products[0].image) ==>
      OccursAt(html, |RecommendIntro(products[0].title)|, ImageTag(products[0].image.value))
    ensures products != [] ==> EndsWith(html, ProductButton(ProductUrl(products[0].handle)))
    ensures products == [] ==> EndsWith(html, FALLBACK_LINK_END + query + COLLECTION_END)
    ensures products == [] ==>
      |html| == |FALLBACK_LEAD + SearchUrl(query)| + |FALLBACK_LINK_END + query + COLLECTION_END|
    ensures products != [] ==>
      |html| == |RecommendIntro(products[0].title)|
                + (if Truthy(products[0].image) then |ImageTag(products[0].image.value)| else 0)
                + |ProductButton(ProductUrl(products[0].handle))|
  {
    RenderProductReply(ProductReplyOf(query, products))
  }

  /** With something found, the reply depends on the first product alone:
      neither the query nor the other products change it. */
  lemma RecommendationReadsFirstProductOnly(q1: string, ps1: seq<Product>, q2: string, ps2: seq<Product>)
    requires ps1 != [] && ps2 != [] && ps1[0] == ps2[0]
    ensures FormatProductLink(q1, ps1) == FormatProductLink(q2, ps2)
  {
    assert ProductReplyOf(q1, ps1) == ProductReplyOf(q2, ps2);
  }

  /** With an image, the tag showing it comes right after the introduction,
      and the button closes the reply. */
  lemma ImageTagFollowsIntro(title: string, src: string, url: string)
    ensures var html := RecommendIntro(title) + ImageTag(src) + ProductButton(url);
      && RecommendIntro(title) <= html && OccursAt(html, |RecommendIntro(title)|, IMG_OPEN)
      && OccursAt(html, |RecommendIntro(title)|, ImageTag(src))
      && EndsWith(html, ProductButton(url))
  {
    var intro := RecommendIntro(title);
    var tag := ImageTag(src);
    var button := ProductButton(url);
    SliceAfter(intro, tag, button);
    SuffixAfter(intro + tag, button);
    assert tag == IMG_OPEN + (src + IMG_CLOSE);
    OccursPrefix(intro + tag + button, |intro|, IMG_OPEN, src + IMG_CLOSE);
  }

  /** Without an image, the button comes right after the introduction and
      closes the reply, and it does not begin the way an image tag does. */
  lemma NoImageTagAfterIntro(title: string, url: string)
    ensures var html := RecommendIntro(title) + ProductButton(url);
      && RecommendIntro(title) <= html && !OccursAt(html, |RecommendIntro(title)|, IMG_OPEN)
      && EndsWith(html, ProductButton(url))
  {
    SuffixAfter(RecommendIntro(title), ProductButton(url));
    var intro := RecommendIntro(title);
    var button := ProductButton(url);
    assert button[0] == BUTTON_OPEN[0];
    assert (intro + button)[|intro|] == button[0];
  }

  /** Where `t + u` occurs, `t` occurs. */
  lemma OccursPrefix(r: string, n: nat, t: string, u: string)
    requires OccursAt(r, n, t + u)
    ensures OccursAt(r, n, t)
  {
    assert r[n..n + |t|] == r[n..n + |t + u|][..|t|];
  }

  /** The second part of a concatenation ends it. */
  lemma SuffixAfter(a: string, b: string)
    ensures EndsWith(a + b, b)
  {
    assert (a + b)[|a|..] == b;
  }

  /** Where the middle part of a concatenation sits. */
  lemma SliceAfter(a: string, b: string, c: string)
    ensures |a| + |b| <= |a + b + c| && (a + b + c)[|a|..|a| + |b|] == b
  {
  }
}
