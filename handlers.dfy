/** The five route handlers as the controllers write them: each one runs its
    guards, makes its store call and answers by calling `status`, `json` and
    `send` on Express's response object. Each handler is proved to produce the
    exchange its specification in `Routes` describes. */
module Handlers {
  import opened JsValues
  import opened Validation
  import opened Filters
  import opened Routes

  /** The part of Express's `res` the handlers use: a status code that starts at
      200, a body, and whether the reply has been sent. */
  class ResponseWriter {
    var statusCode: nat
    var body: Option<JValue>
    var sent: bool

    /** A response as Express hands it to a handler. */
    predicate Unused()
      reads this
    {
      statusCode == DefaultStatus && body == None && !sent
    }

    /** The reply this response carries. */
    function Written(): Reply
      reads this
    {
      Reply(statusCode, body)
    }

    constructor ()
      ensures Unused()
    {
      statusCode := DefaultStatus;
      body := None;
      sent := false;
    }

    /** `res.status(code)` */
    method Status(code: nat)
      requires !sent
      modifies this
      ensures statusCode == code && body == old(body) && !sent
    {
      statusCode := code;
    }

    /** `res.send(payload)`; `res.send()` sends an empty body. */
    method Send(payload: Option<JValue>)
      requires !sent
      modifies this
      ensures sent && body == payload && statusCode == old(statusCode)
    {
      body := payload;
      sent := true;
    }

    /** `res.json(payload)` */
    method Json(payload: JValue)
      requires !sent
      modifies this
      ensures sent && body == Some(payload) && statusCode == old(statusCode)
    {
      Send(Some(payload));
    }

    /** `res.status(code).json(payload)` */
    method StatusJson(code: nat, payload: JValue)
      requires !sent
      modifies this
      ensures sent && Written() == Reply(code, Some(payload))
    {
      Status(code);
      Json(payload);
    }
  }

  /** The guard chain POST and PUT both run before their store call: seven
      tests in order, the first failing one answering 400 and ending the handler.
      `Passes(route, c, b)` is the source's test for guard `c`: a non-empty string
      for the three text fields, `isDateValid` for the three dates, and
      `!(premium <= 0)` on POST, `!(isNaN(premium) || premium <= 0)` on PUT. */
  method RunGuards(style: MessageStyle, route: Route, b: Body, res: ResponseWriter)
    returns (passed: bool)
    requires res.Unused()
    modifies res
    ensures passed <==> AllPass(route, b)
    ensures passed ==> res.Unused()
    ensures !passed ==> res.sent && res.Written() == RejectReply(style, FirstFailure(route, b).value)
  {
    if !Passes(route, PolicyNumberCheck, b) {
      assert FirstFailure(route, b) == Some(PolicyNumberCheck);
      res.StatusJson(400, ErrorBody("Error", Message(style, PolicyNumberCheck)));
      return false;
    }
    if !Passes(route, PolicyProviderCheck, b) {
      assert FirstFailure(route, b) == Some(PolicyProviderCheck);
      res.StatusJson(400, ErrorBody("Error", Message(style, PolicyProviderCheck)));
      return false;
    }
    if !Passes(route, PolicyTypeCheck, b) {
      assert FirstFailure(route, b) == Some(PolicyTypeCheck);
      res.StatusJson(400, ErrorBody("Error", Message(style, PolicyTypeCheck)));
      return false;
    }
    if !Passes(route, StartDateCheck, b) {
      assert FirstFailure(route, b) == Some(StartDateCheck);
      res.StatusJson(400, ErrorBody("Error", Message(style, StartDateCheck)));
      return false;
    }
    if !Passes(route, EndDateCheck, b) {
      assert FirstFailure(route, b) == Some(EndDateCheck);
      res.StatusJson(400, ErrorBody("Error", Message(style, EndDateCheck)));
      return false;
    }
    if !Passes(route, PremiumCheck, b) {
      assert FirstFailure(route, b) == Some(PremiumCheck);
      res.StatusJson(400, ErrorBody("Error", Message(style, PremiumCheck)));
      return false;
    }
    if !Passes(route, PaymentDateCheck, b) {
      assert FirstFailure(route, b) == Some(PaymentDateCheck);
      res.StatusJson(400, ErrorBody("Error", Message(style, PaymentDateCheck)));
      return false;
    }
    assert FirstFailure(route, b) == None;
    return true;
  }

  /** POST /policies: the guards, then `createPolicy`. */
  method PostPolicies(style: MessageStyle, b: Body, created: Settled<JValue>, res: ResponseWriter)
    returns (call: Option<Call>)
    requires res.Unused()
    modifies res
    ensures res.sent && Exchange(call, res.Written()) == PostExchange(style, b, created)
  {
    var passed := RunGuards(style, Post, b, res);
    if !passed {
      return None;
    }
    call := Some(Create(b));
    match created {
      case Resolved(doc) =>
        res.StatusJson(201, doc);
      case Rejected =>
        res.StatusJson(400, ErrorBody("Error", "Invalid request"));
    }
  }

  /** GET /policies/:_id */
  method GetPolicyById(id: string, found: Settled<Option<JValue>>, res: ResponseWriter)
    returns (call: Option<Call>)
    requires res.Unused()
    modifies res
    ensures res.sent && Exchange(call, res.Written()) == GetByIdExchange(id, found)
  {
    call := Some(FindById(id));
    match found {
      case Resolved(policy) =>
        if policy.Some? {
          res.Json(policy.value);
        } else {
          res.StatusJson(404, ErrorBody("Error", "Not found"));
        }
      case Rejected =>
        res.StatusJson(400, ErrorBody("Error", "Request failed"));
    }
  }

  /** GET /policies: build the filter, query, send the list or the error body. */
  method ListPolicies(q: Query, found: Settled<seq<JValue>>, res: ResponseWriter)
    returns (call: Option<Call>)
    requires res.Unused()
    modifies res
    ensures res.sent && Exchange(call, res.Written()) == ListExchange(q, found)
  {
    var filter := BuildFilter(q);
    call := Some(Find(filter));
    match found {
      case Resolved(policies) =>
        res.Send(Some(JArr(policies)));
      case Rejected =>
        res.Send(Some(ErrorBody("Error", "Request failed")));
    }
  }

  /** PUT /policies/:_id: the guards, then `replacePolicy`. */
  method PutPolicy(style: MessageStyle, id: string, b: Body, modified: Settled<int>, res: ResponseWriter)
    returns (call: Option<Call>)
    requires res.Unused()
    modifies res
    ensures res.sent && Exchange(call, res.Written()) == PutExchange(style, id, b, modified)
  {
    var passed := RunGuards(style, Put, b, res);
    if !passed {
      return None;
    }
    call := Some(Replace(id, b));
    match modified {
      case Resolved(numUpdated) =>
        if numUpdated == 1 {
          res.Json(PutEcho(id, b));
        } else {
          res.StatusJson(404, ErrorBody("Error", "Not found"));
        }
      case Rejected =>
        res.StatusJson(400, ErrorBody("Error", "Request failed"));
    }
  }

  /** DELETE /policies/:_id */
  method DeletePolicy(id: string, deleted: Settled<int>, res: ResponseWriter)
    returns (call: Option<Call>)
    requires res.Unused()
    modifies res
    ensures res.sent && Exchange(call, res.Written()) == DeleteExchange(id, deleted)
  {
    call := Some(DeleteById(id));
    match deleted {
      case Resolved(deletedCount) =>
        if deletedCount == 1 {
          res.Status(204);
          res.Send(None);
        } else {
          res.StatusJson(404, ErrorBody("Error", "Not found"));
        }
      case Rejected =>
        res.Send(Some(ErrorBody("error", "Request failed")));
    }
  }
}
