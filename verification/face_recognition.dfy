/** The client facade: eight operations over the REST API, each turning the
    outcome of one service call into a FaceRecognitionResult. */
module Client {
  import opened Java
  import opened Network
  import opened Results
  import opened Session
  import opened Errors

  /** The prefix of every image sent to the service. */
  const DataUriPrefix := "data:image/jpeg;base64,"

  /** A bitmap, represented by the text that JPEG compression at quality 100
      followed by Base64 encoding without line wrapping yields for it. */
  datatype Bitmap = Bitmap(jpegBase64: string)

  /** The characters of the Base64 alphabet (section 4 of RFC 4648), with padding. */
  predicate IsBase64Char(c: char)
  {
    ('A' <= c <= 'Z') || ('a' <= c <= 'z') || ('0' <= c <= '9') || c == '+' || c == '/' || c == '='
  }

  function BitmapToBase64(bitmap: Bitmap): (uri: string)
    ensures DataUriPrefix <= uri
  {
    DataUriPrefix + bitmap.jpegBase64
  }

  /** The text after the first comma, if there is a comma. */
  function AfterFirstComma(s: string): Option<string>
  {
    if s == [] then None
    else if s[0] == ',' then Some(s[1..])
    else AfterFirstComma(s[1..])
  }

  /** A comma-free head followed by a comma: the rest is what follows that comma. */
  lemma {:induction false} AfterCommaFreeHead(head: string, rest: string)
    requires ',' !in head
    ensures AfterFirstComma(head + [','] + rest) == Some(rest)
  {
    if head != [] {
      assert (head + [','] + rest)[1..] == head[1..] + [','] + rest;
      AfterCommaFreeHead(head[1..], rest);
    }
  }

  /** Stripping everything up to the first comma of the data URI gives back the
      encoder's output exactly, whatever that output is. */
  lemma PayloadAfterFirstComma(bitmap: Bitmap)
    ensures AfterFirstComma(BitmapToBase64(bitmap)) == Some(bitmap.jpegBase64)
  {
    var head := DataUriPrefix[..|DataUriPrefix| - 1];
    assert DataUriPrefix == head + [','];
    AfterCommaFreeHead(head, bitmap.jpegBase64);
  }

  /** With Base64 output the comma that ends the prefix is the only comma in the
      data URI, so splitting it on commas yields the prefix and the payload. */
  lemma OnlyCommaEndsPrefix(bitmap: Bitmap, i: nat)
    requires forall k :: 0 <= k < |bitmap.jpegBase64| ==> IsBase64Char(bitmap.jpegBase64[k])
    requires i < |BitmapToBase64(bitmap)| && BitmapToBase64(bitmap)[i] == ','
    ensures i == |DataUriPrefix| - 1
  {
  }

  /** The Authorization header value for a bearer token (section 2.1 of RFC 6750). */
  function Bearer(token: string): (header: string)
    ensures |header| == |token| + 7 && header[..7] == "Bearer " && header[7..] == token
  {
    "Bearer " + token
  }

  /** The result of a failed operation: success false, the failure's text, and
      the given user id; every other field keeps its default. */
  function Failed(f: Failure, userId: JString): FaceRecognitionResult
  {
    Defaults.(userId := userId, error := Some(Text(f)))
  }

  /** A failed result's error text names its failure unambiguously. */
  lemma FailedTextIsParseable(f: Failure, userId: JString)
    ensures var r := Failed(f, userId);
      !r.success && r.error.Some? && ParseText(r.error.value) == Some(f)
  {
    ParseTextInvertsText(f);
  }

  /** The result every authenticated operation returns when the session has no token. */
  const NotAuthenticatedResult := Failed(NotAuthenticated, None)

  /** The failure handleApiError reports for a response, by status code. */
  function ApiFailure<B>(response: Response<B>): Failure
  {
    match response.errorBody
    case Unreadable(message) => Unexpected(Str(message))
    case NoErrorBody => CodeFailure(response.code, "Unknown error")
    case Readable(text) => CodeFailure(response.code, text)
  }

  function CodeFailure(code: int, errorBody: string): Failure
  {
    if code == 401 then AuthenticationFailed
    else if code == 409 then UserAlreadyExists
    else if code == 400 then MissingRequiredFields
    else ServerError(errorBody)
  }

  /** Maps an unsuccessful response to a failed result. The error text depends on
      the status code alone for 400, 401 and 409 and embeds the error body for any
      other code; if reading the error body throws, the text is "Unexpected error: "
      with the exception's message and no user id is kept. */
  function HandleApiError<B>(response: Response<B>, userId: JString): (r: FaceRecognitionResult)
    ensures r == Failed(ApiFailure(response), if response.errorBody.Unreadable? then None else userId)
  {
    if response.errorBody.Unreadable? then
      Defaults.(error := Some("Unexpected error: " + Str(response.errorBody.message)))
    else
      var errorBody := if response.errorBody.Readable? then response.errorBody.text else "Unknown error";
      var errorMessage :=
        if response.code == 401 then "Authentication failed"
        else if response.code == 409 then "User already exists"
        else if response.code == 400 then "Missing required fields"
        else "Server error: " + errorBody;
      Defaults.(userId := userId, error := Some(errorMessage))
  }

  /** For 400, 401 and 409 the text is the same whatever the error bodies say,
      as long as they can be read. */
  lemma ApiErrorIgnoresBodyForKnownCodes<B>(a: Response<B>, b: Response<B>, userId: JString)
    requires a.code == b.code && a.code in {400, 401, 409}
    requires !a.errorBody.Unreadable? && !b.errorBody.Unreadable?
    ensures HandleApiError(a, userId) == HandleApiError(b, userId)
  {
  }

  /** Any other code reports "Server error: " followed by the error body,
      or by "Unknown error" when there is none. */
  lemma ApiErrorEmbedsBodyForOtherCodes<B>(response: Response<B>, userId: JString)
    requires response.code !in {400, 401, 409}
    ensures response.errorBody.Readable? ==>
      HandleApiError(response, userId).error == Some("Server error: " + response.errorBody.text)
    ensures response.errorBody.NoErrorBody? ==>
      HandleApiError(response, userId).error == Some("Server error: Unknown error")
  {
    assert ServerErrorPrefix + "Unknown error" == "Server error: Unknown error";
  }

  class FaceRecognition {
    const sessionManager: SessionManager

    /** Binds the facade to the process-wide session (created on first use). */
    constructor (statics: SessionManagerStatics)
      modifies statics
      ensures sessionManager == statics.instance
      ensures old(statics.instance) != null ==> sessionManager == old(statics.instance)
      ensures old(statics.instance) == null ==> fresh(sessionManager) && sessionManager.token == None
    {
      var instance := statics.GetInstance();
      sessionManager := instance;
    }

    /** The session's token as the authenticated calls send it. */
    function Header(): string
      reads sessionManager
      requires sessionManager.HasToken()
    {
      Bearer(sessionManager.token.value)
    }

    /** Logs in; the token is stored only for a 2xx response whose body carries a
        non-null token. Storing a token shorter than ten characters makes the log
        line throw afterwards, so the call then fails although the token is kept. */
    method Authenticate(username: JString, password: JString, outcome: Call<AuthResponse>,
                        indexErrorMessage: JString)
      returns (r: FaceRecognitionResult, issued: ServiceCall)
      modifies sessionManager
      ensures issued == ServiceCall.Login(AuthRequest(username, password))
      ensures outcome.Responded? && outcome.response.Delivered() && outcome.response.body.value.token.Some?
        ==> sessionManager.token == outcome.response.body.value.token
      ensures !(outcome.Responded? && outcome.response.Delivered() && outcome.response.body.value.token.Some?)
        ==> sessionManager.token == old(sessionManager.token)
      ensures r == match outcome
        case Raised(m) => Failed(Thrown(Authentication, Str(m)), None)
        case Responded(response) =>
          if response.Delivered() && response.body.value.token.Some? then
            if Utf16Length(response.body.value.token.value) < LoggedPrefixLength
            then Failed(Thrown(Authentication, Str(indexErrorMessage)), None)
            else Defaults.(success := true)
          else HandleApiError(response, None)
    {
      issued := ServiceCall.Login(AuthRequest(username, password));
      match outcome {
        case Raised(m) =>
          r := ExceptionResult(Authentication, m, None);
        case Responded(response) =>
          if response.IsSuccessful() && response.body.Some? {
            var token := response.body.value.token;
            if token.Some? {
              var thrown := sessionManager.SetToken(token);
              if thrown {
                r := ExceptionResult(Authentication, indexErrorMessage, None);
                return;
              }
              var b := new Builder();
              b := b.SetSuccess(true);
              r := b.Build();
              return;
            }
          }
          r := HandleApiError(response, None);
      }
    }

    /** The result a catch block builds: success false, an optional user id and
        the operation's prefix followed by the exception's message. */
    static method ExceptionResult(op: Operation, message: JString, userId: JString)
      returns (r: FaceRecognitionResult)
      ensures r == Failed(Thrown(op, Str(message)), userId)
    {
      var b := new Builder();
      b := b.SetSuccess(false);
      b := b.SetUserId(userId);
      b := b.SetError(Some(ExceptionPrefix(op) + Str(message)));
      r := b.Build();
    }

    /** The result of the guard that every authenticated operation runs first. */
    static method NotAuthenticatedFailure() returns (r: FaceRecognitionResult)
      ensures !r.success && r.userId.None? && r.error == Some("Not authenticated")
      ensures r == NotAuthenticatedResult
    {
      var b := new Builder();
      b := b.SetSuccess(false);
      b := b.SetError(Some("Not authenticated"));
      r := b.Build();
    }

    /** Enrols a user with a face image. */
    method RegisterUser(faceImage: Bitmap, userId: JString, outcome: Call<ApiResponse>)
      returns (r: FaceRecognitionResult, issued: Option<ServiceCall>)
      ensures !sessionManager.HasToken() ==> issued == None && r == NotAuthenticatedResult
      ensures sessionManager.HasToken() ==> issued == Some(ServiceCall.RegisterUser(
        Header(), RegisterRequest(userId, BitmapToBase64(faceImage))))
      ensures sessionManager.HasToken() ==> r == match outcome
        case Raised(m) => Failed(Thrown(Registration, Str(m)), userId)
        case Responded(response) =>
          if response.Delivered() then Defaults.(success := true, userId := userId)
          else HandleApiError(response, userId)
    {
      if !sessionManager.HasToken() {
        r := NotAuthenticatedFailure();
        issued := None;
        return;
      }
      var imageBase64 := BitmapToBase64(faceImage);
      var request := RegisterRequest(userId, imageBase64);
      var authHeader := "Bearer " + sessionManager.GetToken().value;
      issued := Some(ServiceCall.RegisterUser(authHeader, request));
      match outcome {
        case Raised(m) =>
          r := ExceptionResult(Registration, m, userId);
        case Responded(response) =>
          if response.IsSuccessful() && response.body.Some? {
            var b := new Builder();
            b := b.SetSuccess(true);
            b := b.SetUserId(userId);
            r := b.Build();
          } else {
            r := HandleApiError(response, userId);
          }
      }
    }

    /** Fetches the stored face image of a user. */
    method GetUserImage(userId: JString, outcome: Call<ApiResponse>)
      returns (r: FaceRecognitionResult, issued: Option<ServiceCall>)
      ensures !sessionManager.HasToken() ==> issued == None && r == NotAuthenticatedResult
      ensures sessionManager.HasToken() ==> issued == Some(ServiceCall.GetUserImage(Header(), userId))
      ensures sessionManager.HasToken() ==> r == match outcome
        case Raised(m) => Failed(Thrown(UserImage, Str(m)), userId)
        case Responded(response) =>
          if response.Delivered()
          then Defaults.(success := true, userId := userId, faceData := response.body.value.faceData)
          else HandleApiError(response, userId)
    {
      if !sessionManager.HasToken() {
        r := NotAuthenticatedFailure();
        issued := None;
        return;
      }
      var authHeader := "Bearer " + sessionManager.GetToken().value;
      issued := Some(ServiceCall.GetUserImage(authHeader, userId));
      match outcome {
        case Raised(m) =>
          r := ExceptionResult(UserImage, m, userId);
        case Responded(response) =>
          if response.IsSuccessful() && response.body.Some? {
            var apiResponse := response.body.value;
            var b := new Builder();
            b := b.SetSuccess(true);
            b := b.SetUserId(userId);
            b := b.SetFaceData(apiResponse.faceData);
            r := b.Build();
          } else {
            r := HandleApiError(response, userId);
          }
      }
    }

    /** Checks a face image against an enrolled user. The result's success flag
        is the service's verdict, so a 2xx answer with verified false is a failure. */
    method VerifyUser(faceImage: Bitmap, userId: JString, outcome: Call<ApiResponse>)
      returns (r: FaceRecognitionResult, issued: Option<ServiceCall>)
      ensures !sessionManager.HasToken() ==> issued == None && r == NotAuthenticatedResult
      ensures sessionManager.HasToken() ==> issued == Some(ServiceCall.VerifyUser(
        Header(), userId, VerifyRequest(BitmapToBase64(faceImage))))
      ensures sessionManager.HasToken() ==> r == match outcome
        case Raised(m) => Failed(Thrown(Verification, Str(m)), None)
        case Responded(response) =>
          if response.Delivered() then
            var body := response.body.value;
            Defaults.(success := body.verified, userId := userId,
                      confidence := body.confidence, error := body.error)
          else HandleApiError(response, userId)
    {
      if !sessionManager.HasToken() {
        r := NotAuthenticatedFailure();
        issued := None;
        return;
      }
      var imageBase64 := BitmapToBase64(faceImage);
      var request := VerifyRequest(imageBase64);
      var authHeader := "Bearer " + sessionManager.GetToken().value;
      issued := Some(ServiceCall.VerifyUser(authHeader, userId, request));
      match outcome {
        case Raised(m) =>
          r := ExceptionResult(Verification, m, None);
        case Responded(response) =>
          if response.IsSuccessful() && response.body.Some? {
            var apiResponse := response.body.value;
            var b := new Builder();
            b := b.SetSuccess(apiResponse.verified);
            b := b.SetUserId(userId);
            b := b.SetConfidence(apiResponse.confidence);
            b := b.SetError(apiResponse.error);
            r := b.Build();
          } else {
            r := HandleApiError(response, userId);
          }
      }
    }

    /** Lists the enrolled users. */
    method GetUsers(outcome: Call<seq<ApiResponse>>)
      returns (r: FaceRecognitionResult, issued: Option<ServiceCall>)
      ensures !sessionManager.HasToken() ==> issued == None && r == NotAuthenticatedResult
      ensures sessionManager.HasToken() ==> issued == Some(ServiceCall.GetUsers(Header()))
      ensures sessionManager.HasToken() ==> r == match outcome
        case Raised(m) => Failed(Thrown(UserList, Str(m)), None)
        case Responded(response) =>
          if response.Delivered() then Defaults.(success := true, users := response.body)
          else HandleApiError(response, None)
    {
      if !sessionManager.HasToken() {
        r := NotAuthenticatedFailure();
        issued := None;
        return;
      }
      var authHeader := "Bearer " + sessionManager.GetToken().value;
      issued := Some(ServiceCall.GetUsers(authHeader));
      match outcome {
        case Raised(m) =>
          r := ExceptionResult(UserList, m, None);
        case Responded(response) =>
          if response.IsSuccessful() && response.body.Some? {
            var users := response.body.value;
            var b := new Builder();
            b := b.SetSuccess(true);
            b := b.SetUsers(Some(users));
            r := b.Build();
          } else {
            r := HandleApiError(response, None);
          }
      }
    }

    /** Compares two face images. As in VerifyUser the success flag is the
        service's verdict; no user id is involved. */
    method CompareFaces(face1: Bitmap, face2: Bitmap, outcome: Call<ApiResponse>)
      returns (r: FaceRecognitionResult, issued: Option<ServiceCall>)
      ensures !sessionManager.HasToken() ==> issued == None && r == NotAuthenticatedResult
      ensures sessionManager.HasToken() ==> issued == Some(ServiceCall.CompareFaces(
        Header(), CompareRequest(BitmapToBase64(face1), BitmapToBase64(face2))))
      ensures sessionManager.HasToken() ==> r == match outcome
        case Raised(m) => Failed(Thrown(Comparison, Str(m)), None)
        case Responded(response) =>
          if response.Delivered() then
            var body := response.body.value;
            Defaults.(success := body.verified, confidence := body.confidence, error := body.error)
          else HandleApiError(response, None)
    {
      if !sessionManager.HasToken() {
        r := NotAuthenticatedFailure();
        issued := None;
        return;
      }
      var face1Base64 := BitmapToBase64(face1);
      var face2Base64 := BitmapToBase64(face2);
      var request := CompareRequest(face1Base64, face2Base64);
      var authHeader := "Bearer " + sessionManager.GetToken().value;
      issued := Some(ServiceCall.CompareFaces(authHeader, request));
      match outcome {
        case Raised(m) =>
          r := ExceptionResult(Comparison, m, None);
        case Responded(response) =>
          if response.IsSuccessful() && response.body.Some? {
            var apiResponse := response.body.value;
            var b := new Builder();
            b := b.SetSuccess(apiResponse.verified);
            b := b.SetConfidence(apiResponse.confidence);
            b := b.SetError(apiResponse.error);
            r := b.Build();
          } else {
            r := HandleApiError(response, None);
          }
      }
    }

    /** Replaces the enrolled face image of a user. */
    method UpdateUser(faceImage: Bitmap, userId: JString, outcome: Call<ApiResponse>)
      returns (r: FaceRecognitionResult, issued: Option<ServiceCall>)
      ensures !sessionManager.HasToken() ==> issued == None && r == NotAuthenticatedResult
      ensures sessionManager.HasToken() ==> issued == Some(ServiceCall.UpdateUser(
        Header(), userId, UpdateRequest(BitmapToBase64(faceImage))))
      ensures sessionManager.HasToken() ==> r == match outcome
        case Raised(m) => Failed(Thrown(Update, Str(m)), userId)
        case Responded(response) =>
          if response.Delivered() then Defaults.(success := true, userId := userId)
          else HandleApiError(response, userId)
    {
      if !sessionManager.HasToken() {
        r := NotAuthenticatedFailure();
        issued := None;
        return;
      }
      var imageBase64 := BitmapToBase64(faceImage);
      var request := UpdateRequest(imageBase64);
      var authHeader := "Bearer " + sessionManager.GetToken().value;
      issued := Some(ServiceCall.UpdateUser(authHeader, userId, request));
      match outcome {
        case Raised(m) =>
          r := ExceptionResult(Update, m, userId);
        case Responded(response) =>
          if response.IsSuccessful() && response.body.Some? {
            var b := new Builder();
            b := b.SetSuccess(true);
            b := b.SetUserId(userId);
            r := b.Build();
          } else {
            r := HandleApiError(response, userId);
          }
      }
    }

    /** Deletes an enrolled user. */
    method DeleteUser(userId: JString, outcome: Call<ApiResponse>)
      returns (r: FaceRecognitionResult, issued: Option<ServiceCall>)
      ensures !sessionManager.HasToken() ==> issued == None && r == NotAuthenticatedResult
      ensures sessionManager.HasToken() ==> issued == Some(ServiceCall.DeleteUser(Header(), userId))
      ensures sessionManager.HasToken() ==> r == match outcome
        case Raised(m) => Failed(Thrown(Deletion, Str(m)), userId)
        case Responded(response) =>
          if response.Delivered() then Defaults.(success := true, userId := userId)
          else HandleApiError(response, userId)
    {
      if !sessionManager.HasToken() {
        r := NotAuthenticatedFailure();
        issued := None;
        return;
      }
      var authHeader := "Bearer " + sessionManager.GetToken().value;
      issued := Some(ServiceCall.DeleteUser(authHeader, userId));
      match outcome {
        case Raised(m) =>
          r := ExceptionResult(Deletion, m, userId);
        case Responded(response) =>
          if response.IsSuccessful() && response.body.Some? {
            var b := new Builder();
            b := b.SetSuccess(true);
            b := b.SetUserId(userId);
            r := b.Build();
          } else {
            r := HandleApiError(response, userId);
          }
      }
    }
  }

  /** A login whose response carries a token of ten or more characters succeeds,
      and the next registration carries that token in its bearer header. */
  method LoginThenRegister(client: FaceRecognition, token: string, image: Bitmap, userId: JString,
                           registered: Call<ApiResponse>)
    returns (login: FaceRecognitionResult, issued: Option<ServiceCall>)
    requires Utf16Length(token) >= LoggedPrefixLength
    modifies client.sessionManager
    ensures login.success && client.sessionManager.token == Some(token)
    ensures issued.Some? && issued.value.Authorization() == Some("Bearer " + token)
  {
    var delivered := Responded(Response(200, Some(AuthResponse(Some(token))), NoErrorBody));
    var loginCall;
    login, loginCall := client.Authenticate(Some("admin"), Some("secret"), delivered, None);
    var registration;
    registration, issued := client.RegisterUser(image, userId, registered);
  }

  /** A facade built before any login rejects registration with "Not authenticated"
      and sends nothing. */
  method RegisterBeforeLogin(image: Bitmap, userId: JString, outcome: Call<ApiResponse>)
    returns (r: FaceRecognitionResult, issued: Option<ServiceCall>)
    ensures r == NotAuthenticatedResult && issued == None
  {
    var statics := new SessionManagerStatics();
    var client := new FaceRecognition(statics);
    r, issued := client.RegisterUser(image, userId, outcome);
  }
}
