/**
 * The collaborators the backend controllers call but that are not part of
 * this model, given as values: the password hasher and the token signer
 * (utils/helpers), the configured temporary password, the verdict of a
 * validator, and the shape of an HTTP reply.
 */
module Helpers {

  type Hash = string
  type Token = string

  /** The payload signed into a login token. */
  datatype Claims = Claims(id: string, name: string, role: string)

  /**
   * `encryptPassword`, `verifyPassword`, `generateToken` and the value of
   * `process.env.PASSWORD_TEMP`, as fixed functions and a constant.
   */
  datatype Services = Services(
    encrypt: string -> Hash,
    verify: (string, Hash) -> bool,
    sign: Claims -> Token,
    passwordTemp: string)

  /** The `{ isValid, message }` record a validator returns. */
  datatype Validation = Valid | Invalid(message: string)

  /**
   * What a controller sends: a 200 reply with its message and payload, or an
   * error status with its message.
   */
  datatype Reply<T> = Ok(message: string, payload: T) | Err(status: nat, message: string)
}
