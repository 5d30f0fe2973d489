/**
 * The service result envelope (Calorizer.Business/Models/Response.cs). `Response<T>.Data`
 * is `T?`: `None` stands for `default(T)`, which is what every constructor but the data
 * constructor leaves there.
 */
module Responses {
  import opened Wrappers

  const OK: int := 200
  const BadRequest: int := 400
  const BusinessRuleViolation: int := 422

  /** One broken rule as the client sees it: the property's name and the rule's message. */
  datatype ValidationRule = ValidationRule(propertyName: string, message: string)

  datatype Response<T> = Response(
    succeeded: bool,
    message: string,
    statusCode: int,
    brokenRules: seq<ValidationRule>,
    data: Option<T>)

  /**
   * The envelope is consistent when it reports success exactly when its status is OK.
   * Every constructor keeps this, and so does every response the services build correctly.
   */
  predicate Consistent<T>(r: Response<T>)
  {
    r.succeeded <==> r.statusCode == OK
  }

  /** `new Response<T>()`: success, 200, no message, no broken rules, default data. */
  function Default<T>(): (r: Response<T>)
    ensures r.succeeded && r.statusCode == OK && Consistent(r)
    ensures r.message == "" && r.brokenRules == [] && r.data.None?
  {
    Response(true, "", OK, [], None)
  }

  /** `new Response<T>(succeeded)`: the status follows the flag, 200 on success and 400 otherwise. */
  function OfOutcome<T>(succeeded: bool): (r: Response<T>)
    ensures r.succeeded == succeeded && Consistent(r)
    ensures r.statusCode == (if succeeded then OK else BadRequest)
    ensures r.message == "" && r.brokenRules == [] && r.data.None?
  {
    Response(succeeded, "", if succeeded then OK else BadRequest, [], None)
  }

  /** `new Response<T>(data)`: success, 200, carrying `data`. */
  function OfData<T>(data: T): (r: Response<T>)
    ensures r.succeeded && r.statusCode == OK && Consistent(r)
    ensures r.message == "" && r.brokenRules == [] && r.data == Some(data)
  {
    Response(true, "", OK, [], Some(data))
  }

  /**
   * A failure envelope such as `new Response<T> { Succeeded = false, Message = m,
   * StatusCode = BadRequest }`, with which the services report a store or lookup error.
   */
  function Error<T>(message: string): (r: Response<T>)
    ensures !r.succeeded && r.statusCode == BadRequest && Consistent(r)
    ensures r.message == message && r.brokenRules == [] && r.data.None?
  {
    Response(false, message, BadRequest, [], None)
  }

  /** `Response(true)` is the parameterless constructor; `Response(false)` differs from it only in the outcome and the status. */
  lemma OutcomeConstructors<T>()
    ensures OfOutcome<T>(true) == Default<T>()
    ensures OfOutcome<T>(false) == Default<T>().(succeeded := false, statusCode := BadRequest)
  {
  }
}
