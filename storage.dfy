/** The storage calls whose failure the handlers distinguish. */
module Storage {

  /**
   * A repository call that can return an error. A request's environment names the calls
   * that fail in it; a failing write leaves the tables as they were.
   */
  datatype StoreOp =
    | OpCreateUser
    | OpDuplicateName
    | OpDuplicateEmail
    | OpUpdateUser
    | OpDeleteUser
    | OpMarkUserConfirmed
    | OpInvalidateResetToken
    | OpAssignUserConfirmToken
    | OpAssignUserResetToken
    | OpChangeUserPassword
    | OpIncrementJwtSessionId
    | OpRevokeToken
    | OpAddFailedLogin
    | OpAddLockout
    | OpUnlockAccount
}
