/** The few pieces of HTTP every handler shares: the request verb and the status codes it answers with. */
module Http {

  datatype Verb = GET | POST | PUT | PATCH | DELETE

  const Ok: nat := 200
  const CreatedStatus: nat := 201
  const BadRequestStatus: nat := 400
  const UnauthorizedStatus: nat := 401
  const NotFoundStatus: nat := 404
  const MethodNotAllowedStatus: nat := 405
  const ServerErrorStatus: nat := 500
}
