/**
 * One turn of the `/chat` route after the language model has answered: the
 * email and order id are resolved from the request, and the first tool call
 * the model asked for (if any) is carried out against the store, behind the
 * order-id and email gates and the email check.
 *
 * The model's answer is an input (`Completion`): its text and its tool calls,
 * whose arguments are already parsed into a map.
 */
module Chat {
  import opened Wrappers
  import opened Text
  import opened Shop
  import opened Extraction
  import opened BusinessLogic
  import opened ShopifyClient

  /** The JSON body of a request; a missing `message` is the empty string. */
  datatype Request = Request(message: string, email: Option<string>, orderId: Option<string>)

  /** A tool call of the model: the function's name and its arguments. */
  datatype ToolCall = ToolCall(name: string, arguments: map<string, string>)

  /** The model's message: its text (which may be null) and its tool calls. */
  datatype Completion = Completion(content: Option<string>, toolCalls: seq<ToolCall>)

  /** The JSON answer: the reply and the email and order id the turn used. */
  datatype Response = Response(reply: Option<string>, foundEmail: Option<string>, foundOrderId: Option<string>)

  const FIND_PRODUCT := "find_product"
  const CHECK_STATUS := "check_status"
  const CANCEL_ORDER := "cancel_order"

  const ASK_ORDER_ID := "Please provide your Order ID first."
  const ASK_EMAIL := "Please provide your Email Address."
  const ORDER_NOT_FOUND := "Order not found."
  /** The warning sign both refusals begin with. */
  const WARNING_SIGN := "\U{26A0}\U{FE0F} "
  const STATUS_DENIED := WARNING_SIGN + "Verification Failed. Email mismatch."
  const CANCEL_DENIED := WARNING_SIGN + "**Security Alert:** Email mismatch. Cannot process cancellation."

  const HANDOFF_LEAD := "To cancel Order "
  const SUPPORT_TAIL := ", please email support@shelook.com."

  /** The only answer an allowed cancellation gets: the order id, as the turn
      resolved it, between a lead-in and the support address. */
  function CancelHandoff(orderId: string): (msg: string)
    ensures HANDOFF_LEAD <= msg && OccursAt(msg, |HANDOFF_LEAD|, orderId)
    ensures EndsWith(msg, SUPPORT_TAIL)
    ensures |msg| == |HANDOFF_LEAD| + |orderId| + |SUPPORT_TAIL|
  {
    var msg := HANDOFF_LEAD + orderId + SUPPORT_TAIL;
    assert msg == HANDOFF_LEAD + (orderId + SUPPORT_TAIL);
    msg
  }

  /** The two tools that need an order id and an email. */
  predicate IsOrderTool(name: string) {
    name == CHECK_STATUS || name == CANCEL_ORDER
  }

  /** The search text of a `find_product` call; a missing `query` argument
      is rendered by Python as the text "None". */
  function QueryArg(args: map<string, string>): (query: string)
    ensures "query" in args ==> query == args["query"]
    ensures "query" !in args ==> query == "None"
  {
    if "query" in args then args["query"] else "None"
  }

  /** The email that is checked: the call's `user_email` argument when it has
      one, otherwise the turn's email. */
  function UserEmailArg(args: map<string, string>, email: string): (userEmail: string)
    ensures "user_email" in args ==> userEmail == args["user_email"]
    ensures "user_email" !in args ==> userEmail == email
  {
    if "user_email" in args then args["user_email"] else email
  }

  /** What a turn does, decided before the store is asked anything. */
  datatype Step =
    | Answer(reply: Option<string>)
    | Search(query: string)
    | Lookup(cancel: bool, orderId: string, userEmail: string)

  /** Only the first tool call is looked at. A product search needs nothing;
      the two order tools need an order id, then an email, and otherwise
      answer with the prompt for the first one missing. */
  function PlanStep(orderId: Option<string>, email: Option<string>, content: Option<string>, calls: seq<ToolCall>): (step: Step)
    ensures calls == [] ==> step == Answer(content)
    ensures step.Search? <==> calls != [] && calls[0].name == FIND_PRODUCT
    ensures step.Search? ==> step.query == QueryArg(calls[0].arguments)
    ensures step.Lookup? <==> calls != [] && IsOrderTool(calls[0].name) && Truthy(orderId) && Truthy(email)
    ensures step.Lookup? ==>
      && step.orderId == orderId.value
      && step.cancel == (calls[0].name == CANCEL_ORDER)
      && step.userEmail == UserEmailArg(calls[0].arguments, email.value)
    ensures calls != [] && IsOrderTool(calls[0].name) && !Truthy(orderId) ==> step == Answer(Some(ASK_ORDER_ID))
    ensures calls != [] && IsOrderTool(calls[0].name) && Truthy(orderId) && !Truthy(email) ==>
      step == Answer(Some(ASK_EMAIL))
    ensures calls != [] && calls[0].name != FIND_PRODUCT && !IsOrderTool(calls[0].name) ==> step == Answer(content)
  {
    if calls == [] then Answer(content)
    else
      var call := calls[0];
      if call.name == FIND_PRODUCT then Search(QueryArg(call.arguments))
      else if IsOrderTool(call.name) then
        if !Truthy(orderId) then Answer(Some(ASK_ORDER_ID))
        else if !Truthy(email) then Answer(Some(ASK_EMAIL))
        else Lookup(call.name == CANCEL_ORDER, orderId.value, UserEmailArg(call.arguments, email.value))
      else Answer(content)
  }

  /** The reply to an order tool once the order has been looked up. */
  function LookupReply(cancel: bool, orderId: string, userEmail: string, order: Option<Order>): (reply: string)
    ensures reply == ORDER_NOT_FOUND <==> order.None?
    ensures order.Some? && cancel ==>
      reply == if VerifyUser(order, userEmail, CANCEL) then CancelHandoff(orderId) else CANCEL_DENIED
    ensures order.Some? && !cancel ==>
      reply == if VerifyUser(order, userEmail, STATUS) then FormatStatus(order.value) else STATUS_DENIED
  {
    if order.None? then ORDER_NOT_FOUND
    else
      assert STATUS_DENIED[0] == WARNING_SIGN[0] != ORDER_NOT_FOUND[0];
      StatusReplyIsNotARefusal(order.value);
      HandoffIsNotARefusal(orderId);
      if cancel then
        if VerifyUser(order, userEmail, CANCEL) then CancelHandoff(orderId) else CANCEL_DENIED
      else
        if VerifyUser(order, userEmail, STATUS) then FormatStatus(order.value) else STATUS_DENIED
  }

  function TurnEmail(req: Request): Option<string> {
    ResolveEmail(req.email, req.message)
  }

  function TurnOrderId(req: Request): Option<string> {
    ResolveOrderId(req.orderId, req.message)
  }

  function TurnStep(req: Request, completion: Completion): Step {
    PlanStep(TurnOrderId(req), TurnEmail(req), completion.content, completion.toolCalls)
  }

  /** The answer to one turn, given what the store holds. */
  function Respond(orders: map<string, seq<Order>>, catalog: map<string, seq<Product>>,
                   req: Request, completion: Completion): (resp: Response)
    ensures resp.foundEmail == ResolveEmail(req.email, req.message)
    ensures resp.foundOrderId == ResolveOrderId(req.orderId, req.message)
  {
    var reply := match TurnStep(req, completion)
      case Answer(r) => r
      case Search(q) => Some(FormatProductLink(q, Products(catalog, q)))
      case Lookup(cancel, id, userEmail) => Some(LookupReply(cancel, id, userEmail, FirstOrder(orders, RemoveSpaces(id))))
    ;
    Response(reply, TurnEmail(req), TurnOrderId(req))
  }

  /** The order names a turn looks up: one, exactly when it gets past both gates. */
  function OrderLookups(req: Request, completion: Completion): (names: seq<string>)
    ensures |names| <= 1
  {
    match TurnStep(req, completion)
    case Lookup(_, id, _) => [RemoveSpaces(id)]
    case _ => []
  }

  /** The searches a turn sends: one, exactly for a product search. */
  function ProductSearches(req: Request, completion: Completion): (queries: seq<string>)
    ensures |queries| <= 1
  {
    match TurnStep(req, completion)
    case Search(q) => [q]
    case _ => []
  }

  /** The turn as the route runs it: a chain of branches on the first tool
      call that reassigns the reply, asking the store only when needed. */
  method HandleTurn(gw: Gateway, req: Request, completion: Completion) returns (resp: Response)
    modifies gw
    ensures resp == Respond(gw.orders, gw.catalog, req, completion)
    ensures gw.orderQueries == old(gw.orderQueries) + OrderLookups(req, completion)
    ensures gw.productQueries == old(gw.productQueries) + ProductSearches(req, completion)
  {
    var email := ResolveEmail(req.email, req.message);
    var orderId := ResolveOrderId(req.orderId, req.message);
    ghost var step := PlanStep(orderId, email, completion.content, completion.toolCalls);
    assert step == TurnStep(req, completion);
    var reply := completion.content;
    if completion.toolCalls != [] {
      var fn := completion.toolCalls[0].name;
      var args := completion.toolCalls[0].arguments;
      if fn == FIND_PRODUCT {
        var query := QueryArg(args);
        var products := gw.SearchProduct(query);
        reply := Some(FormatProductLink(query, products));
      } else if fn == CHECK_STATUS {
        if !Truthy(orderId) {
          reply := Some(ASK_ORDER_ID);
        } else if !Truthy(email) {
          reply := Some(ASK_EMAIL);
        } else {
          var order := gw.GetOrder(orderId.value);
          if order.None? {
            reply := Some(ORDER_NOT_FOUND);
          } else {
            var allowed := VerifyUser(order, UserEmailArg(args, email.value), STATUS);
            if allowed {
              reply := Some(FormatStatus(order.value));
            } else {
              reply := Some(STATUS_DENIED);
            }
          }
        }
      } else if fn == CANCEL_ORDER {
        if !Truthy(orderId) {
          reply := Some(ASK_ORDER_ID);
        } else if !Truthy(email) {
          reply := Some(ASK_EMAIL);
        } else {
          var order := gw.GetOrder(orderId.value);
          if order.None? {
            reply := Some(ORDER_NOT_FOUND);
          } else {
            var allowed := VerifyUser(order, UserEmailArg(args, email.value), CANCEL);
            if allowed {
              reply := Some(CancelHandoff(orderId.value));
            } else {
              reply := Some(CANCEL_DENIED);
            }
          }
        }
      }
    }
    resp := Response(reply, email, orderId);
  }

  // ---------------------------------------------------------------------------
  // Properties of a turn
  // ---------------------------------------------------------------------------

  /** Without a tool call the model's own text is the reply and the store is
      not asked anything. */
  lemma NoToolCallKeepsModelReply(orders: map<string, seq<Order>>, catalog: map<string, seq<Product>>,
                                  req: Request, completion: Completion)
    requires completion.toolCalls == []
    ensures Respond(orders, catalog, req, completion).reply == completion.content
    ensures OrderLookups(req, completion) == [] && ProductSearches(req, completion) == []
  {
  }

  /** Only the first tool call is acted on: completions that agree on their
      text and their first call give the same answer and the same requests. */
  lemma OnlyFirstToolCallActs(orders: map<string, seq<Order>>, catalog: map<string, seq<Product>>,
                              req: Request, c1: Completion, c2: Completion)
    requires c1.toolCalls != [] && c2.toolCalls != []
    requires c1.toolCalls[0] == c2.toolCalls[0] && c1.content == c2.content
    ensures Respond(orders, catalog, req, c1) == Respond(orders, catalog, req, c2)
    ensures OrderLookups(req, c1) == OrderLookups(req, c2)
    ensures ProductSearches(req, c1) == ProductSearches(req, c2)
  {
    assert TurnStep(req, c1) == TurnStep(req, c2);
  }

  /** An order tool without an order id asks for the order id, whatever the
      email, and looks nothing up. */
  lemma MissingOrderIdAsksForIt(orders: map<string, seq<Order>>, catalog: map<string, seq<Product>>,
                                req: Request, completion: Completion)
    requires completion.toolCalls != [] && IsOrderTool(completion.toolCalls[0].name)
    requires !Truthy(ResolveOrderId(req.orderId, req.message))
    ensures Respond(orders, catalog, req, completion).reply == Some(ASK_ORDER_ID)
    ensures OrderLookups(req, completion) == [] && ProductSearches(req, completion) == []
  {
  }

  /** With an order id but no email, an order tool asks for the email and
      looks nothing up. */
  lemma MissingEmailAsksForIt(orders: map<string, seq<Order>>, catalog: map<string, seq<Product>>,
                              req: Request, completion: Completion)
    requires completion.toolCalls != [] && IsOrderTool(completion.toolCalls[0].name)
    requires Truthy(ResolveOrderId(req.orderId, req.message))
    requires !Truthy(ResolveEmail(req.email, req.message))
    ensures Respond(orders, catalog, req, completion).reply == Some(ASK_EMAIL)
    ensures OrderLookups(req, completion) == [] && ProductSearches(req, completion) == []
  {
  }

  /** Past both gates, an order tool looks the order up exactly once, by its
      id with the spaces removed, and searches nothing. */
  lemma OrderToolLooksUpOnce(req: Request, completion: Completion)
    requires completion.toolCalls != [] && IsOrderTool(completion.toolCalls[0].name)
    requires Truthy(ResolveOrderId(req.orderId, req.message)) && Truthy(ResolveEmail(req.email, req.message))
    ensures OrderLookups(req, completion) == [RemoveSpaces(ResolveOrderId(req.orderId, req.message).value)]
    ensures ProductSearches(req, completion) == []
  {
  }

  /** An order id taken from the message is already free of spaces, so it is
      looked up exactly as it was extracted. */
  lemma ExtractedIdIsLookedUpAsIs(req: Request, completion: Completion)
    requires completion.toolCalls != [] && IsOrderTool(completion.toolCalls[0].name)
    requires !Truthy(req.orderId) && ExtractOrderId(req.message).Some?
    requires Truthy(ResolveEmail(req.email, req.message))
    ensures OrderLookups(req, completion) == [ExtractOrderId(req.message).value]
  {
    ExtractedOrderIdShape(req.message);
    ExtractedOrderIdIsClean(req.message);
  }

  /** A product search sends the call's query to the store and renders what
      comes back; no order is looked up and no gate applies. */
  lemma ProductSearchIsUngated(orders: map<string, seq<Order>>, catalog: map<string, seq<Product>>,
                               req: Request, completion: Completion)
    requires completion.toolCalls != [] && completion.toolCalls[0].name == FIND_PRODUCT
    ensures var q := QueryArg(completion.toolCalls[0].arguments);
      && ProductSearches(req, completion) == [q]
      && OrderLookups(req, completion) == []
      && Respond(orders, catalog, req, completion).reply == Some(FormatProductLink(q, Products(catalog, q)))
  {
  }

  /** The status reply begins with the parcel header, so it is told apart
      from every refusal. */
  lemma StatusReplyIsNotARefusal(o: Order)
    ensures FormatStatus(o) != STATUS_DENIED && FormatStatus(o) != ORDER_NOT_FOUND
  {
    assert FormatStatus(o)[0] == STATUS_HEADER[0] == '\U{1F4E6}';
  }

  /** The cancellation hand-off begins with "To", so it is told apart from
      every refusal and prompt. */
  lemma HandoffIsNotARefusal(orderId: string)
    ensures CancelHandoff(orderId) != CANCEL_DENIED && CancelHandoff(orderId) != ORDER_NOT_FOUND
    ensures CancelHandoff(orderId) != ASK_ORDER_ID && CancelHandoff(orderId) != ASK_EMAIL
  {
    assert CancelHandoff(orderId)[0] == HANDOFF_LEAD[0] == 'T';
    assert CANCEL_DENIED[0] == WARNING_SIGN[0] == '\U{26A0}';
    assert ORDER_NOT_FOUND[0] == 'O';
    assert ASK_ORDER_ID[0] == 'P' && ASK_EMAIL[0] == 'P';
  }

  /** Past both gates, `check_status` shows the order's status exactly when
      the order is found and the email checked (the call's `user_email`, or
      the turn's email without one) passes the lenient check. */
  lemma StatusShownIffVerified(orders: map<string, seq<Order>>, catalog: map<string, seq<Product>>,
                               req: Request, completion: Completion)
    requires completion.toolCalls != [] && completion.toolCalls[0].name == CHECK_STATUS
    requires Truthy(TurnOrderId(req)) && Truthy(TurnEmail(req))
    ensures var order := FirstOrder(orders, RemoveSpaces(TurnOrderId(req).value));
      var checked := UserEmailArg(completion.toolCalls[0].arguments, TurnEmail(req).value);
      var reply := Respond(orders, catalog, req, completion).reply;
      && (order.None? ==> reply == Some(ORDER_NOT_FOUND))
      && (order.Some? ==> (reply == Some(FormatStatus(order.value)) <==> VerifyUser(order, checked, STATUS)))
  {
    var order := FirstOrder(orders, RemoveSpaces(TurnOrderId(req).value));
    if order.Some? {
      StatusReplyIsNotARefusal(order.value);
    }
  }

  /** Past both gates, `cancel_order` hands off to support exactly when the
      order is found and the email checked passes the strict check; nothing
      is cancelled, the reply is the only effect. */
  lemma CancelHandoffIffVerified(orders: map<string, seq<Order>>, catalog: map<string, seq<Product>>,
                                 req: Request, completion: Completion)
    requires completion.toolCalls != [] && completion.toolCalls[0].name == CANCEL_ORDER
    requires Truthy(TurnOrderId(req)) && Truthy(TurnEmail(req))
    ensures var id := TurnOrderId(req).value;
      var order := FirstOrder(orders, RemoveSpaces(id));
      var checked := UserEmailArg(completion.toolCalls[0].arguments, TurnEmail(req).value);
      var reply := Respond(orders, catalog, req, completion).reply;
      && (reply == Some(CancelHandoff(id)) <==> VerifyUser(order, checked, CANCEL))
      && (reply == Some(CancelHandoff(id)) || reply == Some(CANCEL_DENIED) || reply == Some(ORDER_NOT_FOUND))
  {
    HandoffIsNotARefusal(TurnOrderId(req).value);
  }

  /** When the call carries a `user_email` argument, that argument alone is
      checked: the email the turn resolved only opens the gate, and any
      value that does so leads to the same answer. */
  lemma ToolArgumentEmailIsChecked(orders: map<string, seq<Order>>, catalog: map<string, seq<Product>>,
                                   r1: Request, r2: Request, completion: Completion)
    requires completion.toolCalls != [] && IsOrderTool(completion.toolCalls[0].name)
    requires "user_email" in completion.toolCalls[0].arguments
    requires r1.message == r2.message && r1.orderId == r2.orderId
    requires Truthy(TurnEmail(r1)) && Truthy(TurnEmail(r2))
    ensures Respond(orders, catalog, r1, completion).reply == Respond(orders, catalog, r2, completion).reply
    ensures OrderLookups(r1, completion) == OrderLookups(r2, completion)
  {
    assert TurnOrderId(r1) == TurnOrderId(r2);
    assert TurnStep(r1, completion) == TurnStep(r2, completion);
  }

  /** A cancellation confirmed by the order's contact email alone, typed with
      other letter case and surrounding spaces, is handed off to support even
      when the order's other emails on file differ, whether the email checked
      is the call's `user_email` or the turn's. */
  lemma CancelMatchesContactEmail(orders: map<string, seq<Order>>, catalog: map<string, seq<Product>>,
                                  req: Request, completion: Completion, o: Order)
    requires completion.toolCalls != [] && completion.toolCalls[0].name == CANCEL_ORDER
    requires Truthy(TurnOrderId(req)) && Truthy(TurnEmail(req))
    requires FirstOrder(orders, RemoveSpaces(TurnOrderId(req).value)) == Some(o)
    requires var checked := Normalize(UserEmailArg(completion.toolCalls[0].arguments, TurnEmail(req).value));
      && Truthy(o.contactEmail) && Normalize(o.contactEmail.value) == checked
      && (Truthy(o.email) ==> Normalize(o.email.value) != checked)
      && (Truthy(CustomerEmail(o)) ==> Normalize(CustomerEmail(o).value) != checked)
    ensures Respond(orders, catalog, req, completion).reply == Some(CancelHandoff(TurnOrderId(req).value))
  {
    CancelAllowedIffSomeFieldMatches(o, UserEmailArg(completion.toolCalls[0].arguments, TurnEmail(req).value));
    CancelHandoffIffVerified(orders, catalog, req, completion);
  }
}
