/** What each route of /policies does with a request and with the settled
    promise of its store call: which store call it makes, and the status and
    body of its reply. The store itself (a MongoDB collection behind mongoose)
    is not modelled: its answer is an input. */
module Routes {
  import opened JsValues
  import opened Dates
  import opened Validation
  import opened Filters

  /** How a store promise settled: resolved with a value, or rejected. */
  datatype Settled<T> = Resolved(value: T) | Rejected

  /** The status code and body of a reply; `None` is an empty body. */
  datatype Reply = Reply(status: nat, body: Option<JValue>)

  /** The store calls the handlers make. */
  datatype Call =
    | Create(fields: Body)
    | FindById(id: string)
    | Find(filter: Filter)   // `findPolicy(filter, '', 0)`: the projection and limit are constant
    | Replace(id: string, fields: Body)
    | DeleteById(id: string)

  /** One request handled: the store call made, if any, and the reply sent. */
  datatype Exchange = Exchange(call: Option<Call>, reply: Reply)

  /** The status Express sends when a handler never sets one. */
  const DefaultStatus: nat := 200

  const BadRequest: nat := 400
  const NotFoundStatus: nat := 404
  const CreatedStatus: nat := 201
  const NoContent: nat := 204

  /** `{ key: message }` */
  function ErrorBody(key: string, message: string): JValue
  {
    JObj([(key, JStr(message))])
  }

  /** The 400 reply for a failed guard. */
  function RejectReply(style: MessageStyle, c: Check): Reply
  {
    Reply(BadRequest, Some(ErrorBody("Error", Message(style, c))))
  }

  /** The PUT success body: `{ _id, ...the seven submitted fields }`. */
  function PutEcho(id: string, b: Body): JValue
  {
    JObj([("_id", JStr(id)),
          ("policyNumber", b.policyNumber),
          ("policyProvider", b.policyProvider),
          ("policyType", b.policyType),
          ("startDate", b.startDate),
          ("endDate", b.endDate),
          ("premium", b.premium),
          ("paymentDate", b.paymentDate)])
  }

  /** POST /policies */
  function PostExchange(style: MessageStyle, b: Body, created: Settled<JValue>): Exchange
  {
    match FirstFailure(Post, b)
    case Some(c) => Exchange(None, RejectReply(style, c))
    case None =>
      Exchange(Some(Create(b)),
        match created
        case Resolved(doc) => Reply(CreatedStatus, Some(doc))
        case Rejected => Reply(BadRequest, Some(ErrorBody("Error", "Invalid request"))))
  }

  /** GET /policies/:_id; the lookup resolves to the document or to `null`. */
  function GetByIdExchange(id: string, found: Settled<Option<JValue>>): Exchange
  {
    Exchange(Some(FindById(id)),
      match found
      case Resolved(Some(doc)) => Reply(DefaultStatus, Some(doc))
      case Resolved(None) => Reply(NotFoundStatus, Some(ErrorBody("Error", "Not found")))
      case Rejected => Reply(BadRequest, Some(ErrorBody("Error", "Request failed"))))
  }

  /** GET /policies */
  function ListExchange(q: Query, found: Settled<seq<JValue>>): Exchange
  {
    Exchange(Some(Find(ListFilter(q))),
      match found
      case Resolved(docs) => Reply(DefaultStatus, Some(JArr(docs)))
      case Rejected => Reply(DefaultStatus, Some(ErrorBody("Error", "Request failed"))))
  }

  /** PUT /policies/:_id; the replacement resolves to the modified count. */
  function PutExchange(style: MessageStyle, id: string, b: Body, modified: Settled<int>): Exchange
  {
    match FirstFailure(Put, b)
    case Some(c) => Exchange(None, RejectReply(style, c))
    case None =>
      Exchange(Some(Replace(id, b)),
        match modified
        case Resolved(n) =>
          if n == 1 then Reply(DefaultStatus, Some(PutEcho(id, b)))
          else Reply(NotFoundStatus, Some(ErrorBody("Error", "Not found")))
        case Rejected => Reply(BadRequest, Some(ErrorBody("Error", "Request failed"))))
  }

  /** DELETE /policies/:_id; the deletion resolves to the deleted count. */
  function DeleteExchange(id: string, deleted: Settled<int>): Exchange
  {
    Exchange(Some(DeleteById(id)),
      match deleted
      case Resolved(n) =>
        if n == 1 then Reply(NoContent, None)
        else Reply(NotFoundStatus, Some(ErrorBody("Error", "Not found")))
      case Rejected => Reply(DefaultStatus, Some(ErrorBody("error", "Request failed"))))
  }

  /** A POST that fails a guard gets 400 with that guard's message and never
      reaches the store, whatever the store would have done; one that passes them
      all always calls `createPolicy` with the submitted fields. */
  lemma PostValidatesBeforeStore(style: MessageStyle, b: Body, created: Settled<JValue>)
    ensures PostExchange(style, b, created).call.None? <==> !AllPass(Post, b)
    ensures !AllPass(Post, b) ==>
      PostExchange(style, b, created) == Exchange(None, RejectReply(style, FirstFailure(Post, b).value))
    ensures AllPass(Post, b) ==> PostExchange(style, b, created).call == Some(Create(b))
  {
  }

  /** POST answers 201 with the stored document exactly when every guard passes
      and the store resolves; every other outcome is a 400. */
  lemma PostStatus(style: MessageStyle, b: Body, created: Settled<JValue>)
    ensures PostExchange(style, b, created).reply.status == CreatedStatus
        <==> AllPass(Post, b) && created.Resolved?
    ensures AllPass(Post, b) && created.Resolved? ==>
      PostExchange(style, b, created).reply.body == Some(created.value)
    ensures PostExchange(style, b, created).reply.status != CreatedStatus ==>
      PostExchange(style, b, created).reply.status == BadRequest
  {
  }

  /** Field messages: the reply to a failed POST names the first failing field; an
      empty policy number with a bad start date is reported as the policy number. */
  lemma PostReportsFirstFailure(b: Body, created: Settled<JValue>)
    ensures !AllPass(Post, b) ==>
      PostExchange(FieldMessages, b, created).reply.body
        == Some(ErrorBody("Error", Message(FieldMessages, FirstFailure(Post, b).value)))
    ensures b.policyNumber == JStr("") ==>
      PostExchange(FieldMessages, b, created).reply
        == Reply(BadRequest, Some(ErrorBody("Error", "Policy number is invalid or missing")))
  {
  }

  /** Generic message: a POST is answered by the conjunction of its guards alone,
      so the order of the checks cannot be observed; a store failure gives the same
      reply as a validation failure. */
  lemma GenericPostIsConjunction(b: Body, created: Settled<JValue>)
    ensures !AllPass(Post, b) ==>
      PostExchange(GenericMessage, b, created)
        == Exchange(None, Reply(BadRequest, Some(ErrorBody("Error", "Invalid request"))))
    ensures AllPass(Post, b) && created.Rejected? ==>
      PostExchange(GenericMessage, b, created).reply
        == Reply(BadRequest, Some(ErrorBody("Error", "Invalid request")))
  {
  }

  /** Generic message: two invalid bodies cannot be told apart by PUT's reply, which
      is always `400 {Error: 'Invalid request'}` with no store call. */
  lemma GenericPutIsConjunction(id: string, b1: Body, b2: Body, m1: Settled<int>, m2: Settled<int>)
    requires !AllPass(Put, b1) && !AllPass(Put, b2)
    ensures PutExchange(GenericMessage, id, b1, m1) == PutExchange(GenericMessage, id, b2, m2)
    ensures PutExchange(GenericMessage, id, b1, m1)
         == Exchange(None, Reply(BadRequest, Some(ErrorBody("Error", "Invalid request"))))
  {
  }

  /** A missing premium gets past POST's guards (the store is then called) but
      not past PUT's. */
  lemma MissingPremiumPostVsPut(style: MessageStyle, id: string, b: Body,
                                created: Settled<JValue>, modified: Settled<int>)
    requires b.premium == JMissing
    requires IsNonEmptyString(b.policyNumber) && IsNonEmptyString(b.policyProvider)
    requires IsNonEmptyString(b.policyType)
    requires IsDateValid(b.startDate) && IsDateValid(b.endDate) && IsDateValid(b.paymentDate)
    ensures PostExchange(style, b, created).call == Some(Create(b))
    ensures PutExchange(style, id, b, modified) == Exchange(None, RejectReply(style, PremiumCheck))
  {
  }

  /** PUT answers 200 with `{_id, ...submitted fields}` exactly when every guard
      passes and the store reports one modified document; 404 "Not found" when the
      guards pass and the count is anything else; 400 otherwise, with "Request
      failed" when the store rejects. */
  lemma PutStatus(style: MessageStyle, id: string, b: Body, modified: Settled<int>)
    ensures PutExchange(style, id, b, modified).reply == Reply(DefaultStatus, Some(PutEcho(id, b)))
        <==> AllPass(Put, b) && modified == Resolved(1)
    ensures PutExchange(style, id, b, modified).reply.status == NotFoundStatus
        <==> AllPass(Put, b) && modified.Resolved? && modified.value != 1
    ensures PutExchange(style, id, b, modified).reply.status == NotFoundStatus ==>
      PutExchange(style, id, b, modified).reply.body == Some(ErrorBody("Error", "Not found"))
    ensures PutExchange(style, id, b, modified).reply.status == BadRequest
        <==> !AllPass(Put, b) || modified.Rejected?
    ensures AllPass(Put, b) && modified.Rejected? ==>
      PutExchange(style, id, b, modified).reply.body == Some(ErrorBody("Error", "Request failed"))
    ensures PutExchange(style, id, b, modified).call.Some?
        <==> AllPass(Put, b)
    ensures !AllPass(Put, b) ==>
      PutExchange(style, id, b, modified) == Exchange(None, RejectReply(style, FirstFailure(Put, b).value))
  {
  }

  /** The PUT echo holds `_id` and exactly the seven submitted fields, each with
      the submitted value. */
  lemma PutEchoFields(id: string, b: Body)
    ensures |PutEcho(id, b).fields| == 8
    ensures PutEcho(id, b).fields[0] == ("_id", JStr(id))
    ensures PutEcho(id, b).fields[1..] ==
      [("policyNumber", b.policyNumber), ("policyProvider", b.policyProvider),
       ("policyType", b.policyType), ("startDate", b.startDate), ("endDate", b.endDate),
       ("premium", b.premium), ("paymentDate", b.paymentDate)]
  {
  }

  /** DELETE answers 204 with an empty body exactly when one document was deleted
      and 404 "Not found" for any other count; a store failure sends `{error: ...}` with the
      default status 200, unlike the 400 of GET by id and PUT. */
  lemma DeleteStatus(id: string, deleted: Settled<int>)
    ensures DeleteExchange(id, deleted).reply == Reply(NoContent, None) <==> deleted == Resolved(1)
    ensures DeleteExchange(id, deleted).reply.status == NotFoundStatus
        <==> deleted.Resolved? && deleted.value != 1
    ensures DeleteExchange(id, deleted).reply.status == NotFoundStatus ==>
      DeleteExchange(id, deleted).reply.body == Some(ErrorBody("Error", "Not found"))
    ensures deleted.Rejected? ==>
      DeleteExchange(id, deleted).reply == Reply(DefaultStatus, Some(ErrorBody("error", "Request failed")))
    ensures DeleteExchange(id, deleted).call == Some(DeleteById(id))
  {
  }

  /** GET by id: 200 with the document when the lookup finds one, 404 "Not found"
      when it resolves to null, 400 "Request failed" when it rejects. */
  lemma GetByIdStatus(id: string, found: Settled<Option<JValue>>)
    ensures GetByIdExchange(id, found).reply.status == DefaultStatus
        <==> found.Resolved? && found.value.Some?
    ensures found.Resolved? && found.value.Some? ==>
      GetByIdExchange(id, found).reply.body == found.value
    ensures GetByIdExchange(id, found).reply.status == NotFoundStatus <==> found == Resolved(None)
    ensures found == Resolved(None) ==>
      GetByIdExchange(id, found).reply.body == Some(ErrorBody("Error", "Not found"))
    ensures GetByIdExchange(id, found).reply.status == BadRequest <==> found.Rejected?
    ensures found.Rejected? ==>
      GetByIdExchange(id, found).reply.body == Some(ErrorBody("Error", "Request failed"))
  {
  }

  /** GET /policies always queries with the built filter and always answers with
      the default status 200: the list on success, an error body on failure. */
  lemma ListStatus(q: Query, found: Settled<seq<JValue>>)
    ensures ListExchange(q, found).call == Some(Find(ListFilter(q)))
    ensures ListExchange(q, found).reply.status == DefaultStatus
    ensures found.Resolved? ==> ListExchange(q, found).reply.body == Some(JArr(found.value))
    ensures found.Rejected? ==>
      ListExchange(q, found).reply.body == Some(ErrorBody("Error", "Request failed"))
  {
  }
}
