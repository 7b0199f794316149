/**
 * What a handler hands back to the web layer: a status code and either a
 * value or a typed failure, plus the result of loading a request body through
 * its schema. Routing and serialisation themselves are not modelled.
 */
module Http {

  const StatusOk: nat := 200
  const StatusCreated: nat := 201
  const StatusBadRequest: nat := 400
  const StatusNotFound: nat := 404
  /** What the framework answers when a handler raises (KeyError, AttributeError). */
  const StatusServerError: nat := 500

  datatype Error = NotFound | BadRequest | ServerError

  datatype Outcome<+T> = Success(value: T) | Failure(error: Error)

  datatype Reply<+T> = Reply(status: nat, outcome: Outcome<T>)

  /** `schema.load(request.json)`: the validated fields, or a ValidationError. */
  datatype Loaded<+T> = Loaded(data: T) | Rejected
}
