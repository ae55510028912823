/** The data carriers of the face-recognition REST API and the shape of an
    HTTP exchange as the client sees it. The transport itself (Retrofit and
    OkHttp) is not modelled: each call's outcome is an input value. */
module Network {
  import opened Java

  /** The JSON body the service returns for user, verify, compare and image calls. */
  datatype ApiResponse = ApiResponse(
    verified: bool,
    confidence: Float32,
    userId: JString,
    faceData: JString,
    message: JString,
    error: JString,
    id: JString,
    createdAt: JString)

  /** Login request and response bodies. */
  datatype AuthRequest = AuthRequest(username: JString, password: JString)
  datatype AuthResponse = AuthResponse(token: JString)

  /** Request bodies; every faceData is a data URI built by the client. */
  datatype RegisterRequest = RegisterRequest(userId: JString, faceData: string)
  datatype VerifyRequest = VerifyRequest(faceData: string)
  datatype CompareRequest = CompareRequest(faceData1: string, faceData2: string)
  datatype UpdateRequest = UpdateRequest(faceData: string)

  /** The error body of a response: absent (null), readable, or one whose
      reading throws with the given message. */
  datatype ErrorBody = NoErrorBody | Readable(text: string) | Unreadable(message: JString)

  /** An HTTP response: status code, decoded body (None when null) and error body. */
  datatype Response<+B> = Response(code: int, body: Option<B>, errorBody: ErrorBody)
  {
    /** A 2xx status, as the HTTP client library defines success. */
    predicate IsSuccessful()
    {
      200 <= code < 300
    }

    /** The client takes its success branch exactly for a 2xx response with a non-null body. */
    predicate Delivered()
    {
      IsSuccessful() && body.Some?
    }
  }

  /** What executing one API call gives: a response, or an exception with its message. */
  datatype Call<+B> = Responded(response: Response<B>) | Raised(message: JString)

  /** One invocation of the service interface, with the arguments the client passed. */
  datatype ServiceCall =
    | Login(request: AuthRequest)
    | GetUsers(authHeader: string)
    | RegisterUser(authHeader: string, register: RegisterRequest)
    | GetUserImage(authHeader: string, userId: JString)
    | VerifyUser(authHeader: string, userId: JString, verify: VerifyRequest)
    | CompareFaces(authHeader: string, compare: CompareRequest)
    | DeleteUser(authHeader: string, userId: JString)
    | UpdateUser(authHeader: string, userId: JString, update: UpdateRequest)
  {
    /** The Authorization header the call carries; login carries none. */
    function Authorization(): Option<string>
    {
      if Login? then None else Some(authHeader)
    }
  }
}
