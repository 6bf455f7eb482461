/** What the core hands back to the HTTP layer: exceptions and cookies. */
module Http {

  /** The exceptions the core throws. */
  datatype Error =
    | NotFound(message: string)               // NotFoundException
    | BadRequest(message: string)             // BadRequestException
    | Forbidden                               // ForbiddenException
    | HttpError(status: int, message: string) // HttpException(message, status)
    | DuplicateKey                            // the database's unique-index violation
    | PlainError(message: string)             // new Error(message)
    | TypeError                               // a property read on null/undefined

  /** `res.cookie(name, value, { httpOnly, maxAge, secure })`; `maxAge` in milliseconds. */
  datatype Cookie = Cookie(name: string, value: string, maxAge: int, httpOnly: bool, secure: bool)
}
