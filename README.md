# shelook-bot chat core in Dafny

This project models the decision-and-formatting core of the SHELOOK jewellery
store assistant (`app.py`). That core covers five things:

- **Email check.** `BusinessLogic.verify_user` decides whether the person
  chatting may see or cancel an order. It compares their email, lower-cased
  and trimmed, with the emails on file for the order.
  - A status check is lenient: an order with no email on file is shown to
    anyone.
  - A cancellation is strict: it needs a match.
- **Status reply.** `format_status` renders an order's status reply.
- **Product reply.** `format_product_link` renders the product
  recommendation, or a link to a catalogue search when nothing was found.
- **Extraction.** The email and order id are pulled from the user's
  message. A value the client declared wins over an extracted one. The order
  id is upper-cased and its spaces are removed, and the store client removes
  spaces once more before the lookup.
- **Dispatch.** The `/chat` route handles the language model's first tool
  call as follows:
  - `find_product` searches the catalogue;
  - `check_status` and `cancel_order` first ask for a missing order id, then
    for a missing email;
  - after that, they look the order up and apply the email check;
  - an allowed cancellation is only handed off to support by email.

Modules:

| module | file | contents |
|---|---|---|
| `Wrappers` | `wrappers.dfy` | `Option` |
| `Text` | `text.dfy` | ASCII `lower`, `upper`, `strip` and `replace(" ", "")`, with their laws |
| `Shop` | `shop.dfy` | the order and product records, and Python truthiness of an optional string |
| `BusinessLogic` | `business_logic.dfy` | `verify_user`, `format_status`, `format_product_link` |
| `Extraction` | `extraction.dfy` | the two regular expressions, and the rule that a declared value wins |
| `ShopifyClient` | `shopify_client.dfy` | the store client, as a gateway object that logs what it is asked |
| `Chat` | `chat.dfy` | one turn of the route, as a method over the gateway, proved against a function |

Deterministic code is modelled as functions, with lemmas about them. The route
itself is modelled twice, as `Chat.HandleTurn` and `Chat.Respond`:

- **`Chat.HandleTurn`** is a method. Like the route, it reassigns the reply
  through a chain of branches, and it calls the gateway. Its contract says
  that its answer is `Chat.Respond`. It also says that the gateway's logs grow
  by exactly `Chat.OrderLookups` and `Chat.ProductSearches`.
- **`Chat.Respond`** is a function. The lemmas about a turn are stated on it.

Because of this pairing, "no order is looked up" is a statement about the
gateway's log.

### How the regular expressions are modelled

Each pattern is modelled by a greedy scanner over the message. The scanner is
proved to return the leftmost match, and the longest match at that start,
against a declarative statement of what the pattern matches
(`Extraction.OrderIdMatch`, `Extraction.EmailMatch`). Python's backtracking
engine returns exactly that match for these two patterns:

- **`SL\s*\d+`.** `\s` and `\d` share no character, so greedy `\s*` followed
  by greedy `\d+` never needs to backtrack. The first start where they match
  gives the longest match there.
- **`[\w\.-]+@[\w\.-]+\.\w+`.**
  - The local part cannot contain `@`, so the `@` sits exactly where the
    greedy local part stops.
  - The engine then gives back characters of the greedy domain part, one at a
    time, until `\.\w+` can match. So the dot used is the last one in the run
    that is followed by a word character (`Extraction.BacktrackToDot`), and
    `\w+` then runs greedily.
  - Any earlier dot would end the match before that last dot. So this first
    success is also the longest match.

### Behaviour of the code worth knowing

- **First tool call only.** Only the first tool call of a turn is acted on
  (`app.py:168`); any later calls are ignored (`Chat.OnlyFirstToolCallActs`).
- **Space removal.** Order ids lose only the space character (`app.py:43`,
  `app.py:134`). A tab between "SL" and the digits therefore stays in the id
  (`Extraction.ExtractTabbedIdKeepsTab`).
- **Cancellation.** An allowed cancellation returns a hand-off message that
  points to support, and nothing else happens: no store request cancels the
  order (`app.py:196-197`).
- **Product search.** The call's query is sent to the store once, exactly as
  given (`app.py:172`).
- **Blank stored emails.** A stored email made only of whitespace passes the
  truthiness test before it is stripped (`app.py:67`). It is therefore kept
  as `""`, which lets a blank input email through even for cancellation
  (`BusinessLogic.BlankStoredEmailQuirk`).

## Model

| member | source | states |
|---|---|---|
| Text.Lower | app.py:67-72 | `lower()` keeps the length and maps each character to its small letter |
| Text.Upper | app.py:134 | `upper()` keeps the length and maps each character to its capital |
| Text.Strip | app.py:67-72 | `strip()` never lengthens, and its result neither starts nor ends with whitespace |
| Text.StripRecoversCore | app.py:67-72 | `strip()` of whitespace + core + whitespace is exactly the core |
| Text.NormalizeIgnoresPadding | app.py:67-72 | lower-then-strip normalisation ignores surrounding whitespace |
| Text.NormalizeIgnoresCase | app.py:67-72 | strings that agree letter by letter up to case normalise alike |
| Text.RemoveSpaces | app.py:43 | `replace(" ", "")` leaves no space, and leaves a space-free string unchanged |
| Text.RemoveSpacesCounts | app.py:134 | space removal deletes only spaces: every other character keeps its count |
| Text.RemoveSpacesDropsSpace | app.py:43 | a space between two parts is dropped |
| BusinessLogic.StoredEmails | app.py:66-70 | at most three emails are gathered (email, contact_email, customer email), only truthy ones |
| BusinessLogic.KnownEmails | app.py:66-70 | each gathered email is normalised after the truthiness test, in order |
| BusinessLogic.VerifyUser | app.py:57-88 | a missing order is refused, and any action other than "status" or "cancel" is refused |
| BusinessLogic.KnownEmailsMembership | app.py:72-76 | the normalised input is on the list iff it equals the normalisation of some stored email |
| BusinessLogic.CancelAllowedIffSomeFieldMatches | app.py:66-78 | cancel is allowed iff one of the three truthy fields normalises to the normalised input, whichever field it is |
| BusinessLogic.CancelDeniedWithoutEmails | app.py:75-78 | with no email on file, cancel is refused for every input |
| BusinessLogic.StatusAllowedWithoutEmails | app.py:81-83 | with no email on file, status is allowed for every input |
| BusinessLogic.StatusMatchesCancelWithEmails | app.py:81-86 | with some email on file, status is the same membership test as cancel |
| BusinessLogic.CancelImpliesStatus | app.py:74-86 | cancel allowed implies status allowed; the converse holds whenever an email is on file |
| BusinessLogic.VerifyIgnoresPadding | app.py:72 | whitespace around the input email does not change the decision |
| BusinessLogic.VerifyIgnoresCase | app.py:72 | upper- or lower-casing the input email does not change the decision |
| BusinessLogic.VerifyDependsOnlyOnNormalisedSet | app.py:66-86 | orders whose stored emails normalise to the same set get the same decision |
| BusinessLogic.BlankStoredEmailQuirk | app.py:67 | a whitespace-only stored email is kept as "", so a blank input may cancel |
| BusinessLogic.FulfillmentShown | app.py:107 | fulfillment status shown, "Unfulfilled" when falsy |
| BusinessLogic.PaymentShown | app.py:108 | financial status shown, "Pending" when falsy |
| BusinessLogic.TrackingOf | app.py:109-116 | tracking is chosen from the first fulfillment: link iff its URL is truthy, else number iff truthy, else "Shipped"; "Processing" iff there is none |
| BusinessLogic.FormatStatus | app.py:106-118 | the reply begins with the parcel header, the order name and the payment shown, ends with the fulfillment status shown and the tracking text, and has nothing in between |
| BusinessLogic.FormatStatusReadsFirstFulfillmentOnly | app.py:106-118 | orders agreeing on name, both statuses and first fulfillment render identically |
| BusinessLogic.FormatStatusUnfulfilledProcessing | app.py:107-118 | an order with no status and no fulfillment renders as "Unfulfilled" and "Processing" |
| BusinessLogic.ProductReplyOf | app.py:92-101 | the fallback is chosen iff the list is empty; otherwise title, URL and image come from the first product, the image iff it is truthy |
| BusinessLogic.RenderProductReply | app.py:92-103 | the fallback begins with the lead-in and the `/search?q=<query>` link; a recommendation begins with the introduction naming the title, an `<img` tag follows it iff the reply carries an image, that tag shows the image's source, and the reply ends with the button linking to the reply's product URL; the fallback ends with the collection label naming the query; in both, the length leaves nothing else in between |
| BusinessLogic.FormatProductLink | app.py:91-103 | with no product, the reply begins with the link to `/search?q=<query>` on the public domain; otherwise it begins with the first product's introduction, an `<img` tag showing that product's image source follows iff the image is truthy, and the reply ends with the button linking to `/products/<handle>` of that product; the fallback ends with the collection label naming the query; in both, the length leaves nothing else in between |
| BusinessLogic.RecommendationReadsFirstProductOnly | app.py:96-103 | with products, the reply depends only on the first product, not on the query or the rest |
| BusinessLogic.ImageTagFollowsIntro | app.py:100-102 | a recommendation with an image has the tag showing it right after the introduction, and ends with the product button |
| BusinessLogic.NoImageTagAfterIntro | app.py:100-102 | a recommendation without an image has no image tag after the introduction, and ends with the product button |
| Extraction.Skip | app.py:130 | a greedy repetition: the run is all in the class and stops at a character outside it |
| Extraction.SkipIsLongest | app.py:130 | every run in the class from the same start ends no later than the greedy one |
| Extraction.OrderIdEndAtCorrect | app.py:133 | the scanner at a start finds a match iff the pattern matches there, and the longest one |
| Extraction.FindOrderIdFrom | app.py:133 | the order-id search returns the leftmost match and the longest at that start, or none iff nothing matches |
| Extraction.UpperOfOrderIdMatch | app.py:134 | an upper-cased match is "SL", then whitespace and digits, ending in a digit |
| Extraction.CleanedIdShape | app.py:134 | removing spaces from such a string keeps "SL" in front and leaves no space and no small letter |
| Extraction.ExtractedOrderIdShape | app.py:133-134 | an extracted id is at least 3 long, starts with "SL", and has no space and no small letter |
| Extraction.ExtractedOrderIdIsClean | app.py:43 | the store client's space removal leaves an extracted id unchanged |
| Extraction.BacktrackToDot | app.py:130 | the domain part is given back to the last dot followed by a word character |
| Extraction.DomainEndAtSound | app.py:130 | the domain scanner's result is a domain match |
| Extraction.DomainEndAtComplete | app.py:130 | every domain match is found and ends no later than the scanner's |
| Extraction.EmailMatchAtSign | app.py:130 | in every email match, the '@' sits where the greedy local part stops |
| Extraction.EmailEndAtSound | app.py:130 | the email scanner's result is an email match |
| Extraction.EmailEndAtComplete | app.py:130 | every email match at a start ends no later than the scanner's |
| Extraction.EmailEndAtCorrect | app.py:130 | the email scanner finds a match iff the pattern matches there, and the longest one |
| Extraction.FindEmailFrom | app.py:130 | the email search returns the leftmost match and the longest at that start, or none iff nothing matches |
| Extraction.ResolveEmail | app.py:131 | a truthy declared email wins; otherwise the extracted one is used |
| Extraction.ResolveOrderId | app.py:134 | a truthy declared order id wins; otherwise the extracted one is used |
| Extraction.ExtractOrderId | app.py:133-134 | nothing iff the pattern matches nowhere; otherwise the leftmost match, longest at its start, upper-cased and with its spaces removed |
| Extraction.ExtractEmail | app.py:130 | nothing iff the pattern matches nowhere; otherwise the leftmost match, longest at its start |
| Extraction.SpacedIdCleans | app.py:134 | "SL 1001" loses its space |
| Extraction.ExtractLowerCaseSpacedId | app.py:133-134 | "sl 1001" is extracted as "SL1001" |
| Extraction.ExtractTabbedIdKeepsTab | app.py:133-134 | "SL\t7" is extracted with its tab kept |
| Extraction.EmailFromLayout | app.py:130 | in a message of at least 24 characters whose only '@' is at 17, with a dot at 19, email characters at 14-16 and 18, word characters at 20-22 and non-email characters at 13 and 23, the extracted email is positions 14 to 22 |
| Extraction.OrderIdFromLayout | app.py:133-134 | in a 40-character message with no S/s before 33, "SL" in either case at 33, whitespace at 35 and digits at 36-39, the id is positions 33 to 39, cleaned |
| Extraction.ExtractEmailFromMessage | app.py:130 | "contact me at a.b@x.com re order SL 1001" yields "a.b@x.com" |
| Extraction.ExtractOrderIdFromMessage | app.py:133-134 | the same message yields "SL1001" |
| ShopifyClient.FirstOrder | app.py:47 | the first order of the store's answer, none iff the answer is missing or empty |
| ShopifyClient.Products | app.py:38 | the store's product list, empty when it has no answer |
| ShopifyClient.Gateway.constructor | app.py:27-48 | a gateway over the given store, with empty logs |
| ShopifyClient.Gateway.GetOrder | app.py:42-48 | looks up the id with spaces removed, logs that name once, and returns the first order or none |
| ShopifyClient.Gateway.SearchProduct | app.py:35-39 | logs the query once and returns the store's list, or none |
| ShopifyClient.LookupIgnoresSpaces | app.py:43 | a space anywhere in the id does not change which order is found |
| Chat.QueryArg | app.py:172 | the call's `query` argument, or the text "None" when it has none |
| Chat.UserEmailArg | app.py:183 | the call's `user_email` argument when present, otherwise the turn's email |
| Chat.PlanStep | app.py:167-199 | only the first call is read; a search iff it is `find_product`; a lookup iff it is an order tool with a truthy id and email; the order-id prompt comes before the email prompt |
| Chat.CancelHandoff | app.py:197 | the hand-off is the lead-in, then the order id as resolved, then the support address |
| Chat.LookupReply | app.py:179-199 | "Order not found." iff no order; otherwise the status or hand-off when the check passes, and the refusal when it fails |
| Chat.Respond | app.py:131-201 | the answer echoes the resolved email and order id |
| Chat.OrderLookups | app.py:179 | a turn looks up at most one order |
| Chat.ProductSearches | app.py:172 | a turn sends at most one search |
| Chat.HandleTurn | app.py:167-201 | the answer is `Respond`; the gateway logs grow by exactly `OrderLookups` and `ProductSearches` |
| Chat.NoToolCallKeepsModelReply | app.py:163-167 | without a tool call the model's text is the reply and the store is not asked |
| Chat.OnlyFirstToolCallActs | app.py:168-169 | completions agreeing on text and first call give the same answer and the same store requests |
| Chat.MissingOrderIdAsksForIt | app.py:176 | an order tool without an order id asks for it, whatever the email, and looks nothing up |
| Chat.MissingEmailAsksForIt | app.py:177 | with an id but no email, an order tool asks for the email and looks nothing up |
| Chat.OrderToolLooksUpOnce | app.py:179 | past both gates, exactly one lookup of the id with spaces removed, and no search |
| Chat.ExtractedIdIsLookedUpAsIs | app.py:43 | an id taken from the message is looked up exactly as extracted |
| Chat.ProductSearchIsUngated | app.py:171-173 | a product search sends the call's query, looks no order up and renders the store's answer |
| Chat.StatusReplyIsNotARefusal | app.py:118 | a status reply is never the refusal or "Order not found." |
| Chat.HandoffIsNotARefusal | app.py:197 | the hand-off is never a refusal or a prompt |
| Chat.StatusShownIffVerified | app.py:179-185 | past both gates, no order gives "Order not found."; otherwise the status is shown iff the lenient check passes on the checked email |
| Chat.CancelHandoffIffVerified | app.py:191-199 | past both gates, the hand-off is given iff the order is found and the strict check passes; the only other replies are the refusal and "Order not found." |
| Chat.ToolArgumentEmailIsChecked | app.py:183 | with a `user_email` argument, the turn's own email only opens the gate and does not change the answer |
| Chat.CancelMatchesContactEmail | app.py:183-197 | a cancellation whose checked email (the call's `user_email`, or the turn's without one) matches `contact_email` up to case and padding, and matches neither `email` nor the customer's email when those are on file, is handed off |

## Left out

- **Web transport.** Flask, CORS, the route, `request.json` and `jsonify` are
  not modelled. The request body is a value (`Chat.Request`) and the answer is
  a value (`Chat.Response`).
- **Language model and configuration.** Environment variables, the Groq
  client, the system prompt and the completion call are not modelled. The
  model's reply text and tool calls are an input (`Chat.Completion`).
- **HTTP calls.** The store's HTTP calls, headers and URLs are not modelled.
  The store is a pair of fixed maps inside `ShopifyClient.Gateway`, keyed by
  order name and by search text. A failed request or a missing key reads as
  an empty answer, as the client's `except` branches do.
- **Argument parsing and exceptions.** `json.loads` of tool arguments and the
  catch-all handler of the route are not modelled. Arguments are an
  already-parsed map from string to string. Inputs that would make the route
  raise and answer with its apology are not represented. These include:
  - a `null` `user_email` argument;
  - a non-string email;
  - an order without `name`;
  - a product without `handle`, `title` or image `src`.
- **Empty order object.** An empty JSON object is falsy in Python. Such an
  order would be reported as "Order not found.", but it cannot be
  represented, since an order always has a name.
- **Unicode.** `\w`, `\s`, `\d`, `IGNORECASE`, `lower`, `upper` and `strip`
  are modelled on ASCII only. Python applies them to all of Unicode (for
  example, the long s `ſ` matches `S` under `IGNORECASE`).
- **Exact reply bytes.** The emoji in the replies are written as the intended
  code points: U+1F4E6, U+1F449, and U+26A0 U+FE0F. The bytes in the source
  file show them mis-decoded.
- **Missing or null `fulfillments`.** These are represented as the empty
  list, which the code reads the same way.
