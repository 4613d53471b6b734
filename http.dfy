/** What an HTTP handler of the library API writes back, reduced to the
    status code and either the `http.Error` text, the value it encodes as
    JSON, or no body at all. */
module Http {

  const StatusOK: int := 200
  const StatusCreated: int := 201
  const StatusNoContent: int := 204
  const StatusBadRequest: int := 400
  const StatusUnauthorized: int := 401
  const StatusNotFound: int := 404
  const StatusConflict: int := 409
  const StatusInternalServerError: int := 500

  /** The body `http.NotFound` writes. */
  const NotFoundText: string := "404 page not found"

  datatype Response<T> =
    | Error(status: int, message: string)
    | Json(status: int, body: T)
    | Empty(status: int)
}
