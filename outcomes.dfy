/** Optional values and handler outcomes: every handler either returns a value
    or fails with one of the HTTP error kinds the service raises. */
module Outcomes {

  datatype Option<+T> = None | Some(value: T)

  /** The error kinds a handler raises, each with the detail text it sends. */
  datatype Error =
    | BadRequest(detail: string)     // HTTP 400
    | Unauthorized(detail: string)   // HTTP 401
    | NotFound(detail: string)       // HTTP 404

  datatype Result<+T> = Ok(value: T) | Err(error: Error)

  const EmailAlreadyRegistered: string := "Email already registered"
  const IncorrectCredentials: string := "Incorrect email or password"
  const CouldNotValidate: string := "Could not validate credentials"
  const PropertyNotFound: string := "Property not found"
  const PropertyDeleted: string := "Property deleted successfully"
  const PropertyMarkedSold: string := "Property marked as sold successfully"
}
