/** Outcomes of the service operations: the NestJS exceptions the services
    throw become values, so every operation is a total function. */
module Results {

  /** The three exception kinds the services raise
      (NotFoundException, BadRequestException, ForbiddenException). */
  datatype Error = NotFound | BadRequest | Forbidden

  /** An optional value: a field that is absent (`undefined`). */
  datatype Option<+T> = None | Some(value: T) {

    /** JavaScript's `x ?? fallback`: the value when present, the fallback otherwise. */
    function GetOr(fallback: T): T {
      match this
      case Some(v) => v
      case None => fallback
    }
  }

  /** Either the operation's value or the exception it raised. */
  datatype Result<+T> = Ok(value: T) | Err(error: Error)
}
