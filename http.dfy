/** Replies of the Express handlers: a JSON body with status 200, or an
    error status with the `{ error: ... }` body the handlers send. */
module Http {

  /** What ends up in the `error` field of an error reply. Exceptions thrown
      by the runtime are kept as their kind, not as the engine's wording. */
  datatype Failure =
    | Says(text: string)                    // a message written in the handler
    | RequiredMissing(paths: seq<string>)   // a schema validation error
    | ReadOfNull(property: string)          // TypeError: property read on null
    | ReadOfUndefined(property: string)     // TypeError: property read on undefined
    | InvalidPattern(pattern: string)       // SyntaxError from `new RegExp`

  datatype Reply<+T> =
    | Json(value: T)                        // `res.json(value)`, status 200
    | Error(status: nat, failure: Failure)  // `res.status(status).json({ error })`
  {
    function Status(): nat {
      if Json? then 200 else status
    }
  }
}
