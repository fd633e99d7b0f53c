/** The HTTP errors the back-end routes raise. */
module Http {

  /** FastAPI's `HTTPException(status_code, detail)`. */
  datatype HttpError = HttpError(status: nat, detail: string)
}
