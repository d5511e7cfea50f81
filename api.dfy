/**
 * What travels between the HTTP layer, the middlewares and the controllers:
 * the response envelope, the token claims, the request object, and the user
 * views the handlers return. None of the views has a password field.
 */
module Api {
  import opened Wrappers
  import opened UserModel

  /** The `{ error, message, data }` triple every JSON response carries. */
  datatype Envelope<D> = Envelope(error: bool, message: string, data: Option<D>)

  datatype Response<D> = Response(status: int, body: Envelope<D>)

  /** What a route handler puts under `data`. */
  datatype Payload =
    | Registered(userId: Id, name: string, email: string, mobile: string,
                 profilePicture: Option<string>, isActive: bool, createdAt: int, token: string)
    | LoggedIn(userId: Id, name: string, email: string, mobile: string,
               profilePicture: Option<string>, isActive: bool, token: string)
    | Listed(users: seq<PublicUser>)
    | PictureUploaded(userId: Id, name: string, email: string, profilePicture: Option<string>)

  /** A stored user with the password removed and the picture turned into a URL. */
  datatype PublicUser = PublicUser(
    id: Id, name: string, email: string, mobile: string,
    profilePicture: Option<string>, isActive: bool, createdAt: int, updatedAt: int)

  type Reply = Response<Payload>

  /** An error response: `error` is true and there is no data. */
  function Failure(status: int, message: string): Reply {
    Response(status, Envelope(true, message, None))
  }

  /** A success response carrying `data`. */
  function Success(status: int, message: string, data: Payload): Reply {
    Response(status, Envelope(false, message, Some(data)))
  }

  /** The claims a token carries, as `verifyToken` hands them back. */
  datatype Claims = Claims(userId: Option<Id>, email: string, name: string, iat: int, exp: int)

  /** What is signed into a new token. */
  datatype TokenPayload = TokenPayload(userId: Id, email: string, name: string)

  /**
   * `req.headers.authorization`: absent, a string, or (only through code that
   * bypasses Node's header parsing) a truthy value that is not a string.
   */
  datatype Header = Absent | Text(value: string) | NonText

  /** The file the upload middleware stored: where it is on disk, and its generated name. */
  datatype UploadedFile = UploadedFile(path: string, filename: string)

  /** A middleware either calls `next()` or responds and stops the chain. */
  datatype Gate = Next | Stop(reply: Reply)

  /** The request object the middlewares annotate in place. */
  class Request {
    const authorization: Header
    var user: Option<Claims>
    var file: Option<UploadedFile>

    constructor (authorization: Header)
      ensures this.authorization == authorization && user == None && file == None
    {
      this.authorization := authorization;
      user := None;
      file := None;
    }
  }
}
