/** The HTTP statuses the blog answers with and the exceptions its core throws. */
module Exceptions {
  import Jws

  /** The `HttpStatus` constants used by the controllers and exceptions. */
  datatype HttpStatus = OK | CREATED | BAD_REQUEST | UNAUTHORIZED | FORBIDDEN | NOT_FOUND {
    function Code(): int {
      match this
      case OK => 200
      case CREATED => 201
      case BAD_REQUEST => 400
      case UNAUTHORIZED => 401
      case FORBIDDEN => 403
      case NOT_FOUND => 404
    }
  }

  /** An exception thrown out of the core. */
  datatype Exception =
      /** `BlogAPIException(status, message)` */
    | BlogApi(status: HttpStatus, message: string)
      /** `ResourceNotFoundException(resourceName, fieldName, fieldValue)` */
    | ResourceNotFound(resourceName: string, fieldName: string, fieldValue: int)
      /** A jjwt exception that no `catch` maps. */
    | Jwt(failure: Jws.JwtFailure)
      /** `UsernameNotFoundException` from the user loader. */
    | UsernameNotFound(username: string)
      /** Spring Data's `findById(null)`: "The given id must not be null". */
    | NullId
}
