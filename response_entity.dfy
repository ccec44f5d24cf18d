/** Spring's `ResponseEntity`: a body with a status. */
module ResponseEntities {
  import opened Wrappers
  import opened Exceptions

  /** `new ResponseEntity<>(body, status)` */
  datatype ResponseEntity<T> = ResponseEntity(body: T, status: HttpStatus)

  /** A service result answered with `status`; an exception thrown by the
      service passes through the handler unchanged. */
  function Respond<T>(result: Result<T, Exception>, status: HttpStatus): (r: Result<ResponseEntity<T>, Exception>)
    ensures r.Success? <==> result.Success?
    ensures r.Success? ==> r.value.body == result.value && r.value.status == status
    ensures r.Failure? ==> r.error == result.error
  {
    match result
    case Success(body) => Success(ResponseEntity(body, status))
    case Failure(e) => Failure(e)
  }
}
