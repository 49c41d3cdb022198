/** The HTTP-facing vocabulary of the FastAPI backend (emailcraft-backend/main.py). */
module Http {

  const BadRequest: nat := 400
  const Created: nat := 201
  const Ok: nat := 200

  /** An `HTTPException` raised by an endpoint: its status code and its `detail` text. */
  datatype HttpError = HttpError(status: nat, detail: string)

  /** A JSON reply `{"message": ...}` sent with a status code. */
  datatype Reply = Reply(status: nat, message: string)
}
