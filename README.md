# InsureHub REST controllers in Dafny

InsureHub keeps insurance policy records in a MongoDB collection behind an
Express REST API on `/policies`. This project models the request-decision
logic of its two controllers: `insurehub-rest/insurehub_controller.mjs` and the
near-identical `insurehub_project/insurehub-rest/insurehub_controller.mjs`.
The two differ only in their validation messages. The first names the failing
field. The second always answers `Invalid request`. The model takes this
difference as a parameter, `Validation.MessageStyle`.

The model has four parts:

- `isDateValid` (`dates.dfy`). This is the regular expression
  `^\d\d-\d\d-\d\d\d\d$` as an anchored matcher of single-character atoms. It
  is applied, as `RegExp.prototype.test` applies it, to the string the
  argument converts to.
- The POST and PUT guard chains (`validation.dfy`). There are seven guards in
  a fixed order, and the first one that fails decides the 400 reply. The
  premium guards use JavaScript's loose semantics. `premium <= 0` and
  `isNaN(premium)` go through ToNumber, which `js_values.dfy` models for
  `undefined`, `null`, booleans, numbers, strings (white space trimmed, signed
  decimals with fraction and exponent), and arrays and objects that hold no
  object with an own `toString` key (see "Left out").
- The GET /policies filter builder (`filters.dfy`). `BuildFilter` is the
  handler's sequence of seven conditional reassignments of `filter`. It is
  proved equal to `ListFilter`, which takes the last defined recognised key.
- The status and body of each route's reply (`routes.dfy`, `handlers.dfy`).
  The store's answer is an input: the settled promise, `Resolved(value)` or
  `Rejected`. Each route's specification function returns an `Exchange`: the
  store call made (if any) and the reply. In `handlers.dfy`, Express's `res`
  is a class whose status starts at 200, and the five handlers are methods.
  They run the source's steps (early returns, `status`, `json`, `send`) and
  are proved to produce their route's `Exchange`.

Two behaviours of the code are easy to misread; the model follows the code in
both:

- PUT does not use the same validation as POST. PUT also rejects a premium
  that converts to NaN. POST tests only `premium <= 0`, so a missing or
  non-numeric premium gets past POST's guards.
- The `isDateValid` doc comment in the second copy says `MM-DD-YY`. The
  regular expression in use requires a four-digit year. The two-digit form is
  commented out.

## Model

| member | source | states |
|---|---|---|
| `Dates.IsDateValid` | insurehub-rest/insurehub_controller.mjs:82-86 | `isDateValid(v)`: the anchored date pattern matched against the string `v` converts to, and false where the model does not spell that string out (numbers, arrays of two or more elements) |
| `JsValues.ToNumber` | insurehub-rest/insurehub_controller.mjs:46 | the conversion `premium <= 0` and `isNaN(premium)` apply: `undefined` and objects are NaN, `null` and `[]` are 0, booleans 0/1, a number itself, a string its trimmed signed decimal value or NaN, a one-element array the number of its element's string, longer arrays NaN |
| `JsValues.StringToNumber` | insurehub-rest/insurehub_controller.mjs:46 | ToNumber of a string premium, as the policy form sends it: white space trimmed, empty is 0, an optionally signed decimal literal with fraction and exponent is its value, anything else NaN |
| `JsValues.StringOf` | insurehub-rest/insurehub_controller.mjs:85 | the string `format.test(date)` tests: a string itself, "undefined", "null", "true"/"false", "[object Object]", "" for `[]`, `[null]` and `[undefined]`, and a one-element array's element |
| `Validation.PremiumRejected` | insurehub-rest/insurehub_controller.mjs:196 | the premium guard: `premium <= 0` on POST, `isNaN(premium) \|\| premium <= 0` on PUT |
| `Validation.Passes` | insurehub-rest/insurehub_controller.mjs:21-54 | guard c's test: a non-empty string for the three text fields, `isDateValid` for the three dates, `!PremiumRejected` for the premium |
| `Validation.IsNonEmptyString` | insurehub-rest/insurehub_controller.mjs:21 | `typeof v === 'string' && v.length !== 0`, the negation of the text-field guards' condition |
| `Validation.AtMostZero` | insurehub-rest/insurehub_controller.mjs:46 | `premium <= 0`: ToNumber of the premium is a number at most 0, so NaN compares false |
| `Validation.IsNaN` | insurehub-rest/insurehub_controller.mjs:196 | `isNaN(premium)`: ToNumber of the premium is NaN |
| `Validation.Message` | insurehub-rest/insurehub_controller.mjs:21-54 | the `Error` text of each guard's 400: the seven field messages, or always "Invalid request" in the second copy |
| `Filters.Defined` | insurehub-rest/insurehub_controller.mjs:122 | `req.query[k] !== undefined`: the key is present with a value other than `undefined` |
| `Filters.ListFilter` | insurehub-rest/insurehub_controller.mjs:120-148 | the list filter only ever filters on a recognised key present in the query, by the value given there |
| `Routes.PutEcho` | insurehub-rest/insurehub_controller.mjs:221-230 | the PUT success body: `_id` followed by the seven submitted fields |
| `Routes.PostExchange` | insurehub-rest/insurehub_controller.mjs:16-76 | POST: the first failing guard's 400 and no store call, or `createPolicy` with 201 and the document, or 400 "Invalid request" on store failure |
| `Routes.GetByIdExchange` | insurehub-rest/insurehub_controller.mjs:92-111 | GET by id: `findPolicyById`, then 200 with the document, 404 "Not found" for null, 400 "Request failed" on store failure |
| `Routes.ListExchange` | insurehub-rest/insurehub_controller.mjs:118-160 | GET /policies: `findPolicy` with the built filter (its constant `''` projection and `0` limit are left out of `Find`), then the list, or `{Error: 'Request failed'}`, both with status 200 |
| `Routes.PutExchange` | insurehub-rest/insurehub_controller.mjs:166-241 | PUT: the first failing guard's 400 and no store call, or `replacePolicy`, then 200 with the echo for a count of 1, 404 "Not found" otherwise, 400 "Request failed" on store failure |
| `Routes.DeleteExchange` | insurehub-rest/insurehub_controller.mjs:246-265 | DELETE: `deleteById`, then 204 with no body for a count of 1, 404 "Not found" otherwise, `{error: 'Request failed'}` with status 200 on store failure |
| `Dates.DatePatternExact` | insurehub-rest/insurehub_controller.mjs:82-86 | the date regex accepts exactly the 10-character strings with '-' at positions 2 and 5 and an ASCII digit at every other position |
| `Dates.MatchesPositionwise` | insurehub-rest/insurehub_controller.mjs:84 | an anchored match of single-character atoms is a same-length, position-by-position match |
| `Dates.DateValidOnStrings` | insurehub_project/insurehub-rest/insurehub_controller.mjs:70-76 | on a string, `isDateValid` holds iff the string has the `DD-DD-DDDD` shape |
| `Dates.NonStringsAreNotDates` | insurehub-rest/insurehub_controller.mjs:82-86 | `undefined`, `null`, booleans, numbers and objects never pass the date check |
| `Dates.DateValidOnlyStringsOrSingletons` | insurehub-rest/insurehub_controller.mjs:85 | only a string, or a one-element array whose element passes, can pass the date check |
| `Dates.AcceptsDocumentedExample` | insurehub-rest/insurehub_controller.mjs:78-86 | "07-30-2023" passes |
| `Dates.AcceptsNonCalendarDate` | insurehub-rest/insurehub_controller.mjs:82-86 | "99-99-9999" passes: there is no calendar check |
| `Dates.AcceptsSingletonArray` | insurehub-rest/insurehub_controller.mjs:85 | `["07-30-2023"]` passes, because `test` converts its argument to a string |
| `Dates.RejectedExamples` | insurehub_project/insurehub-rest/insurehub_controller.mjs:66-76 | "7-30-2023", the documented MM-DD-YY form "07-30-23", "", "2023-07-30" and "07/30/2023" fail |
| `Validation.FirstFailure` | insurehub-rest/insurehub_controller.mjs:21-54 | the guard chain reports nothing iff all seven guards pass; otherwise the reported guard fails and every guard before it passes |
| `Validation.FirstFailureExample` | insurehub-rest/insurehub_controller.mjs:21-39 | an empty policy number together with a bad start date is reported as the policy number |
| `Validation.FieldMessagesIdentifyCheck` | insurehub-rest/insurehub_controller.mjs:21-54 | the field-specific messages are pairwise distinct, so the message identifies the failed guard |
| `Validation.PutPremiumGuardIsStricter` | insurehub-rest/insurehub_controller.mjs:196 | PUT's premium guard rejects everything POST's rejects; the premiums only PUT rejects are exactly those that convert to NaN |
| `Validation.PremiumExamples` | insurehub-rest/insurehub_controller.mjs:46 | premiums 0 and -5 are rejected and 0.01 accepted by both routes; a missing or object premium passes POST's guard and fails PUT's |
| `Validation.LooseComparisonExamples` | insurehub_project/insurehub-rest/insurehub_controller.mjs:44 | `null`, `false` and `[]` compare as 0 and are rejected by both routes; `true` compares as 1 and passes |
| `Validation.IntegerStringPremium` | insurehub_project/insurehub-rest/insurehub_controller.mjs:174 | a premium sent as the string of an integer n is rejected by either route iff n <= 0 |
| `Validation.NonNumericStringPremium` | insurehub-rest/insurehub_controller.mjs:196 | the premium "abc" passes POST's guard and fails PUT's |
| `Validation.DecimalTextPremium` | insurehub-rest/insurehub_controller.mjs:196 | a premium sent as the decimal text `w.f` is rejected by either route iff all its digits are 0; the text `-w.f` is always rejected |
| `Validation.FractionStringPremium` | insurehub_project/insurehub-rest/insurehub_controller.mjs:44 | the premium text "0.01" passes both routes' guard and "-0.5" fails both |
| `JsValues.DecimalTextToNumber` | insurehub-rest/insurehub_controller.mjs:46 | ToNumber reads the text `w.f` as w plus f over 10 to the number of f's digits |
| `JsValues.NegativeDecimalTextToNumber` | insurehub-rest/insurehub_controller.mjs:46 | ToNumber reads the text `-w.f` as the negated decimal value |
| `JsValues.DecimalValueSign` | insurehub-rest/insurehub_controller.mjs:46 | a decimal value is never negative, and it is zero iff all its digits are |
| `JsValues.IntStringToNumber` | insurehub-rest/insurehub_controller.mjs:46 | ToNumber reads the decimal string of any integer back as that integer |
| `JsValues.NatDigitsRoundTrip` | insurehub-rest/insurehub_controller.mjs:46 | reading back the decimal digits of a natural number gives the number |
| `Filters.BuildFilter` | insurehub-rest/insurehub_controller.mjs:120-148 | the seven conditional reassignments of `filter` produce the last-defined-key filter `ListFilter` |
| `Filters.LastDefinedPicks` | insurehub-rest/insurehub_controller.mjs:122-148 | over distinct keys, key i is picked iff it is defined and no later key is |
| `Filters.LastDefinedNone` | insurehub-rest/insurehub_controller.mjs:120 | nothing is picked iff no key is defined |
| `Filters.FilterAtMostOneField` | insurehub-rest/insurehub_controller.mjs:120-148 | the filter has at most one field, and it is empty iff no recognised query key is present |
| `Filters.FilterLastKeyWins` | insurehub_project/insurehub-rest/insurehub_controller.mjs:102-130 | the filter is `{k_i: query[k_i]}` iff key i is present and no later key in the order policyNumber … paymentDate is |
| `Filters.UnrecognisedKeysIgnored` | insurehub-rest/insurehub_controller.mjs:120-148 | query keys outside the seven recognised ones do not change the filter |
| `Filters.LastKeyWinsExample` | insurehub-rest/insurehub_controller.mjs:122-148 | with both policyNumber and paymentDate given, only paymentDate filters |
| `Routes.PostValidatesBeforeStore` | insurehub-rest/insurehub_controller.mjs:21-65 | POST makes no store call iff a guard fails, and then it answers that guard's 400 whatever the store would do; otherwise it calls `createPolicy` with the submitted fields |
| `Routes.PostStatus` | insurehub-rest/insurehub_controller.mjs:57-75 | POST answers 201 with the stored document iff all guards pass and the store resolves; every other outcome is a 400 |
| `Routes.PostReportsFirstFailure` | insurehub-rest/insurehub_controller.mjs:21-54 | with field messages, the 400 body names the first failing guard; an empty policy number yields 'Policy number is invalid or missing' |
| `Routes.GenericPostIsConjunction` | insurehub_project/insurehub-rest/insurehub_controller.mjs:19-63 | with the generic message, any invalid POST gets the same `400 {Error: 'Invalid request'}` and no store call, and a store failure gets that same reply |
| `Routes.GenericPutIsConjunction` | insurehub_project/insurehub-rest/insurehub_controller.mjs:149-182 | with the generic message, every invalid PUT body gets the same exchange: no store call and `400 {Error: 'Invalid request'}` |
| `Routes.MissingPremiumPostVsPut` | insurehub-rest/insurehub_controller.mjs:196 | a body whose only gap is a missing premium reaches `createPolicy` on POST and gets the premium 400 on PUT |
| `Routes.PutStatus` | insurehub-rest/insurehub_controller.mjs:166-241 | PUT answers 200 with `{_id, ...fields}` iff all guards pass and one document was modified; 404 `{Error: 'Not found'}` iff the guards pass and the count is anything else; 400 iff a guard fails or the store rejects, the first failing guard's 400 with no store call for a failed guard and `{Error: 'Request failed'}` for the store; it calls the store iff the guards pass |
| `Routes.PutEchoFields` | insurehub_project/insurehub-rest/insurehub_controller.mjs:185-190 | the PUT echo is `_id` followed by exactly the seven submitted fields in order, each with its submitted value |
| `Routes.DeleteStatus` | insurehub-rest/insurehub_controller.mjs:246-265 | DELETE answers 204 with an empty body iff one document was deleted and 404 `{Error: 'Not found'}` for any other count; a store failure sends `{error: 'Request failed'}` with the default 200 |
| `Routes.GetByIdStatus` | insurehub-rest/insurehub_controller.mjs:92-111 | GET by id answers 200 with the document iff the lookup finds one, 404 `{Error: 'Not found'}` iff it resolves to null, 400 `{Error: 'Request failed'}` iff it rejects |
| `Routes.ListStatus` | insurehub-rest/insurehub_controller.mjs:150-159 | GET /policies always queries with the built filter and always answers with status 200: the list, or `{Error: 'Request failed'}` on failure |
| `Handlers.RunGuards` | insurehub-rest/insurehub_controller.mjs:21-54 | the seven guards, run in order on `res`, let the request through iff all pass and leave `res` untouched then; otherwise they send the 400 of the first failing guard |
| `Handlers.PostPolicies` | insurehub-rest/insurehub_controller.mjs:16-76 | the POST handler, run step by step on `res`, sends exactly once and produces `PostExchange` |
| `Handlers.GetPolicyById` | insurehub-rest/insurehub_controller.mjs:92-111 | the GET-by-id handler sends exactly once and produces `GetByIdExchange` |
| `Handlers.ListPolicies` | insurehub-rest/insurehub_controller.mjs:118-160 | the list handler builds its filter with `BuildFilter`, sends exactly once and produces `ListExchange` |
| `Handlers.PutPolicy` | insurehub-rest/insurehub_controller.mjs:166-241 | the PUT handler sends exactly once and produces `PutExchange` |
| `Handlers.DeletePolicy` | insurehub_project/insurehub-rest/insurehub_controller.mjs:201-214 | the DELETE handler sends exactly once and produces `DeleteExchange` |

## Left out

- The store modules (`insurehub_model.mjs` in both copies) are not part of this model. They are thin wrappers over mongoose and MongoDB. Their results enter only as the `Settled` input of each handler. So the model does not cover store-level properties: a POST followed by a GET returning the same policy, a repeated DELETE answering 404, an empty filter returning every policy, or mongoose's schema rejecting a missing premium on save (which reaches the handler as `Rejected`).
- Express plumbing is not modelled: `express.json()` (including its own 400 for a malformed body), `app.listen`, the `PORT` and dotenv configuration, headers and content types. `console.error` logging and promise scheduling are left out too, because they do not affect the reply.
- The React UI files are not part of this model. They cover rendering, navigation, `fetch`, `alert` and the PDF export to an external server.
- Premiums are exact reals. JavaScript's double rounding is not modelled. A JSON number too large for a double, such as `1e400`, is Infinity in JavaScript. The model keeps its exact value, which has the same sign, so the guards decide alike on it. But the PUT echo would send such a premium as `null` in JavaScript, and the model echoes the number.
- Validation.PremiumRejected: a positive premium below the smallest double (`1e-400`, `"1e-400"`) is 0 in JavaScript and rejected by both routes. The model keeps it positive and accepts it on both routes, so POST calls `createPolicy` and PUT calls `replacePolicy` where JavaScript answers 400.
- JsValues.StringToNumber: hexadecimal, octal and binary literals ("0x10") and "Infinity" are read as NaN. JavaScript reads them as numbers. All other strings convert as in JavaScript up to double rounding.
- JsValues.ToNumber: an object with an own `toString` key, such as `{"toString": 1}`, or an array that holds one at any position or depth (`[{"toString": 1}, 1]`), makes JavaScript's conversion throw a TypeError in `premium <= 0` and `isNaN(premium)`. Express then answers 500 and no store call is made. The model reads such a value as it reads any other object or array. It gets NaN, or for a one-element array the number of its element, so on POST it can pass the premium guard and reach `createPolicy`, and on PUT it gets the premium 400.
- JsValues.StringOf: the same objects, and arrays that hold one at any position or depth, make `format.test(date)` throw a TypeError, which Express answers with 500. The model reads every object as "[object Object]" and a longer array as no date, so such a date gets its date guard's 400.
- JsValues.StringOf: the string of a number is not spelled out. A number's decimal or exponent form never has the `DD-DD-DDDD` shape, so the date check is false on numbers either way.
- The query object `req.query` is taken as already parsed. How Express's query parser builds arrays and nested objects from the query string is not modelled.
