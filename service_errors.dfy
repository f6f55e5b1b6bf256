/** The exceptions the server's services throw, as values. Each not-found error carries the
    id or e-mail its message names. */
module ServiceErrors {
  datatype ServiceError =
    | PlaceNotFound(id: int)              // "Place not found with id: <id>", status 404
    | ReviewNotFound(id: int)             // "Review not found with id: <id>", status 404
    | UserNotFoundWithId(id: int)         // "User not found with id: <id>", status 404
    | UserNotFoundWithEmail(email: string) // "User not found with email: <email>", status 404
    | IllegalState(message: string)       // an IllegalStateException
    | AccessDenied(message: string)       // status 403

  const CURRENT_USER_NOT_FOUND: string := "Current user not found"
  const EMAIL_ALREADY_TAKEN: string := "Email already taken"
  const UPDATE_OWN_REVIEWS_ONLY: string := "You can only update your own reviews"
  const DELETE_OWN_REVIEWS_ONLY: string := "You can only delete your own reviews or must be an admin"
}
