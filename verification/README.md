# Face-recognition client: a Dafny model

This project models the client layer of an Android face-recognition app that talks
to a remote REST service. The modelled part is:

- the `FaceRecognition` facade. It has eight operations: authenticate, register,
  fetch a user's image, verify, list users, compare faces, update and delete. Each
  one turns the outcome of one service call into a `FaceRecognitionResult`.
- `handleApiError`, which maps an unsuccessful HTTP status to a user-facing text.
- the `SessionManager` singleton that holds the bearer token.
- the immutable `FaceRecognitionResult` record and its mutable `Builder`.
- the `UsersAdapter` list behind the users screen, and how one of its rows renders
  a user's creation date by trying two date formats in turn.

The service is not part of the model. Each call's outcome is an input value, either
`Responded(Response(code, body, errorBody))` or `Raised(message)`. Each operation
also returns the service call it issued (`issued`), so that "no request is made"
and "the header is `Bearer <token>`" can be stated.

Files, one module each:

- `java.dfy`: `Java`, for nullable strings, Java's `"..." + null` and floats kept as bit patterns.
- `network.dfy`: `Network`, for the request and response carriers and the service calls.
- `results.dfy`: `Results`, for the result record and `Builder`.
- `session.dfy`: `Session`, for `SessionManager` and its lazily created instance.
- `errors.dfy`: `Errors`, for the failure texts as a closed set of variants.
- `face_recognition.dfy`: `Client`, for the facade.
- `users_adapter.dfy`: `Adapter`, for the list adapter and its row.

The `Errors` module restates the client's string-typed error field as a closed
set of variants: not authenticated, 401, 409, 400, other status, unreadable error
body, and an exception in a given operation. `Text` renders a variant exactly as
the client does. `ParseText` reads the text back, and
`Errors.ParseTextInvertsText` proves the round trip. So every text the client
writes names its failure without ambiguity. This holds for the failure paths only:
on a 2xx answer, verify and compare copy the service's own `error` field, which can
be any text.

Behaviour of the code worth knowing:

- `authenticate` stores the token in the session itself.
- Verify and compare take `success` from the body's `verified` field, so a 2xx
  answer with `verified` false is a failure.
- Confidence is a float that defaults to 0.
- `setToken` logs `token.substring(0, 10)`. For a non-null token shorter than ten
  UTF-16 code units this throws after the token has already been stored.
  `authenticate` catches the exception, so such a login reports
  "Authentication error: …" although the token stays in the session. Lengths are
  counted as Java counts them: a character above U+FFFF is two code units.

## Model

| member | source | states |
|---|---|---|
| `Results.Builder.constructor` | facerecognition/src/main/java/com/nivbuskila/facerecognition/models/FaceRecognitionResult.java:34-40 | a fresh builder holds success false, confidence 0, and null userId, error, users and faceData |
| `Results.Builder.SetSuccess` | facerecognition/src/main/java/com/nivbuskila/facerecognition/models/FaceRecognitionResult.java:42-45 | changes only the success field, to the argument, and returns the same builder |
| `Results.Builder.SetFaceData` | facerecognition/src/main/java/com/nivbuskila/facerecognition/models/FaceRecognitionResult.java:48-51 | changes only faceData and returns the same builder |
| `Results.Builder.SetUserId` | facerecognition/src/main/java/com/nivbuskila/facerecognition/models/FaceRecognitionResult.java:53-56 | changes only userId and returns the same builder |
| `Results.Builder.SetError` | facerecognition/src/main/java/com/nivbuskila/facerecognition/models/FaceRecognitionResult.java:58-61 | changes only error and returns the same builder |
| `Results.Builder.SetConfidence` | facerecognition/src/main/java/com/nivbuskila/facerecognition/models/FaceRecognitionResult.java:63-66 | changes only confidence and returns the same builder |
| `Results.Builder.SetUsers` | facerecognition/src/main/java/com/nivbuskila/facerecognition/models/FaceRecognitionResult.java:69-72 | changes only users and returns the same builder |
| `Results.Builder.Build` | facerecognition/src/main/java/com/nivbuskila/facerecognition/models/FaceRecognitionResult.java:74-76 | the record's six fields equal the builder's current fields; the builder is not changed |
| `Results.LastErrorWins` | facerecognition/src/main/java/com/nivbuskila/facerecognition/models/FaceRecognitionResult.java:58-61 | after two setError calls the built record carries the second value, and all other fields keep their defaults |
| `Results.BuildTwice` | facerecognition/src/main/java/com/nivbuskila/facerecognition/models/FaceRecognitionResult.java:74-76 | building twice without a setter in between gives two equal records |
| `Session.AbsentTokens` | facerecognition/src/main/java/com/nivbuskila/facerecognition/network/SessionManager.java:28-30 | a token is absent exactly when it is null or empty; any other string, whitespace included, is present |
| `Session.SessionManager.constructor` | facerecognition/src/main/java/com/nivbuskila/facerecognition/network/SessionManager.java:8-10 | a new session has a null token and hasToken is false |
| `Session.SessionManager.SetToken` | facerecognition/src/main/java/com/nivbuskila/facerecognition/network/SessionManager.java:19-22 | the token is overwritten unconditionally and getToken returns the argument; hasToken then holds exactly for a non-null, non-empty argument; it throws exactly for a non-null token whose Java length (UTF-16 code units) is below 10, after the store |
| `Session.SessionManager.GetToken` | facerecognition/src/main/java/com/nivbuskila/facerecognition/network/SessionManager.java:24-26 | returns the stored token, null included |
| `Session.SessionManager.HasToken` | facerecognition/src/main/java/com/nivbuskila/facerecognition/network/SessionManager.java:28-30 | holds exactly when the token is neither null nor the empty string |
| `Session.SessionManagerStatics.constructor` | facerecognition/src/main/java/com/nivbuskila/facerecognition/network/SessionManager.java:7 | before the first getInstance there is no instance |
| `Session.SessionManagerStatics.GetInstance` | facerecognition/src/main/java/com/nivbuskila/facerecognition/network/SessionManager.java:12-17 | creates an instance with a null token on the first call only, and returns the stored instance on every later call |
| `Session.SharedInstance` | facerecognition/src/main/java/com/nivbuskila/facerecognition/network/SessionManager.java:12-17 | two getInstance calls return the same object, which has no token yet |
| `Errors.ParseTextInvertsText` | facerecognition/src/main/java/com/nivbuskila/facerecognition/FaceRecognition.java:338-371 | every error text the client writes (fixed texts, "Server error: ", "Unexpected error: ", the eight exception prefixes) parses back to the failure that produced it |
| `Client.BitmapToBase64` | facerecognition/src/main/java/com/nivbuskila/facerecognition/FaceRecognition.java:373-378 | the image text starts with "data:image/jpeg;base64," |
| `Client.PayloadAfterFirstComma` | facerecognition/src/main/java/com/nivbuskila/facerecognition/FaceRecognition.java:377 | the text after the first comma of the data URI is exactly the encoder's output |
| `Client.OnlyCommaEndsPrefix` | facerecognition/src/main/java/com/nivbuskila/facerecognition/FaceRecognition.java:377 | with Base64 output (section 4 of RFC 4648), the only comma in the data URI is the one that ends the prefix |
| `Client.Bearer` | facerecognition/src/main/java/com/nivbuskila/facerecognition/FaceRecognition.java:106 | the Authorization value is the seven characters "Bearer " followed by the token itself (section 2.1 of RFC 6750) |
| `Client.FailedTextIsParseable` | facerecognition/src/main/java/com/nivbuskila/facerecognition/FaceRecognition.java:116-122 | a failed result has success false, and its error text parses back to its failure |
| `Client.HandleApiError` | facerecognition/src/main/java/com/nivbuskila/facerecognition/FaceRecognition.java:338-371 | the result is always a failure. 401, 409 and 400 give their fixed texts, and any other code gives "Server error: " plus the error body, or "Unknown error" when there is none. The caller's userId is kept. If reading the body throws, the text is "Unexpected error: " plus the message and no userId is kept |
| `Client.ApiErrorIgnoresBodyForKnownCodes` | facerecognition/src/main/java/com/nivbuskila/facerecognition/FaceRecognition.java:345-354 | for 400, 401 and 409 the result does not depend on the error body |
| `Client.ApiErrorEmbedsBodyForOtherCodes` | facerecognition/src/main/java/com/nivbuskila/facerecognition/FaceRecognition.java:340-357 | any other code reports "Server error: " plus the body text, or "Server error: Unknown error" without an error body |
| `Client.FaceRecognition.constructor` | facerecognition/src/main/java/com/nivbuskila/facerecognition/FaceRecognition.java:39-41 | the facade uses the process-wide session instance: the existing one if there is one, otherwise a new one with a null token |
| `Client.FaceRecognition.Authenticate` | facerecognition/src/main/java/com/nivbuskila/facerecognition/FaceRecognition.java:66-91 | always issues the login call. The token is stored only for a 2xx response whose body and token are non-null; otherwise the session is untouched. A stored token of 10 or more UTF-16 code units gives success, and a shorter one gives "Authentication error: " with the token kept. A 2xx response with a null body or token goes to handleApiError. An exception gives "Authentication error: " plus its message, without userId |
| `Client.FaceRecognition.ExceptionResult` | facerecognition/src/main/java/com/nivbuskila/facerecognition/FaceRecognition.java:116-122 | a catch block's result is success false, the given userId, and the operation's prefix followed by the message ("null" for a null message) |
| `Client.FaceRecognition.NotAuthenticatedFailure` | facerecognition/src/main/java/com/nivbuskila/facerecognition/FaceRecognition.java:96-101 | the guard's result is success false, error "Not authenticated" and no userId |
| `Client.FaceRecognition.RegisterUser` | facerecognition/src/main/java/com/nivbuskila/facerecognition/FaceRecognition.java:93-124 | without a token there is no request and the result is "Not authenticated". Otherwise the request carries "Bearer " plus the token, the userId and the data URI. A 2xx response with a body gives success with the userId. Any other response goes to handleApiError with the userId. An exception gives "Registration error: …" and keeps the userId |
| `Client.FaceRecognition.GetUserImage` | facerecognition/src/main/java/com/nivbuskila/facerecognition/FaceRecognition.java:126-156 | same guard and header. Success carries the userId and the body's faceData. An exception keeps the userId |
| `Client.FaceRecognition.VerifyUser` | facerecognition/src/main/java/com/nivbuskila/facerecognition/FaceRecognition.java:158-191 | same guard and header. On a 2xx response with a body, success is the body's verified flag, the userId is set, and confidence and error are copied from the body. An exception gives "Verification error: …" without userId |
| `Client.FaceRecognition.GetUsers` | facerecognition/src/main/java/com/nivbuskila/facerecognition/FaceRecognition.java:198-226 | same guard and header. Success carries the listed users. Errors go to handleApiError without userId |
| `Client.FaceRecognition.CompareFaces` | facerecognition/src/main/java/com/nivbuskila/facerecognition/FaceRecognition.java:228-261 | same guard and header; the request carries both data URIs. Success is the body's verified flag, and confidence and error are copied. No userId on any path |
| `Client.FaceRecognition.UpdateUser` | facerecognition/src/main/java/com/nivbuskila/facerecognition/FaceRecognition.java:275-306 | like RegisterUser, with an update request; an exception gives "Update error: …" and keeps the userId |
| `Client.FaceRecognition.DeleteUser` | facerecognition/src/main/java/com/nivbuskila/facerecognition/FaceRecognition.java:308-336 | same guard and header. Success carries the userId. An exception gives "Error deleting user: …" and keeps the userId |
| `Client.LoginThenRegister` | facerecognition/src/main/java/com/nivbuskila/facerecognition/FaceRecognition.java:74-81 | after a login that returns a token of 10 or more UTF-16 code units, the session holds it and the next registration's header is "Bearer " plus that token |
| `Client.RegisterBeforeLogin` | facerecognition/src/main/java/com/nivbuskila/facerecognition/FaceRecognition.java:93-101 | a facade built before any login answers registration with "Not authenticated" and issues no request |
| `Adapter.FirstParse` | app/src/main/java/com/nivbuskila/facerecognitionproject/adapters/UsersAdapter.java:75-88 | picks the first format, in order, that parses the text, with its date; it gives none exactly when every format fails |
| `Adapter.FirstParseIsAt` | app/src/main/java/com/nivbuskila/facerecognitionproject/adapters/UsersAdapter.java:75-88 | if all formats before i fail and format i parses, the first parse is the one at i |
| `Adapter.CreatedAtText` | app/src/main/java/com/nivbuskila/facerecognitionproject/adapters/UsersAdapter.java:73-91 | the created-at text after binding: "Date not available" for a null date; otherwise either the old text, when no format parses, or the display format of a successful parse |
| `Adapter.CreatedAtTextCases` | app/src/main/java/com/nivbuskila/facerecognitionproject/adapters/UsersAdapter.java:22-25 | ISO wins whenever it parses. RFC is used only when ISO fails. When both fail the row keeps its previous text |
| `Adapter.UserViewHolder.constructor` | app/src/main/java/com/nivbuskila/facerecognitionproject/adapters/UsersAdapter.java:64-67 | a row starts with whatever user-id and created-at texts its views already show |
| `Adapter.UserViewHolder.Bind` | app/src/main/java/com/nivbuskila/facerecognitionproject/adapters/UsersAdapter.java:69-91 | shows the userId. A null date shows "Date not available" and nothing is parsed. Otherwise the first format that parses sets the text, in "MMM dd, yyyy HH:mm", and stops the loop. If no format parses, the text is left as it was |
| `Adapter.UsersAdapter.constructor` | app/src/main/java/com/nivbuskila/facerecognitionproject/adapters/UsersAdapter.java:20 | the list starts empty |
| `Adapter.UsersAdapter.UpdateUsers` | app/src/main/java/com/nivbuskila/facerecognitionproject/adapters/UsersAdapter.java:55-59 | afterwards the list is exactly the new users, in order, with nothing of the old list left, and getItemCount equals their number |
| `Adapter.UsersAdapter.GetItemCount` | app/src/main/java/com/nivbuskila/facerecognitionproject/adapters/UsersAdapter.java:50-53 | the item count is the length of the backing list |
| `Adapter.UsersAdapter.OnBindViewHolder` | app/src/main/java/com/nivbuskila/facerecognitionproject/adapters/UsersAdapter.java:45-48 | for a position in range, binds the row to exactly the user at that position |

## Left out

- Retrofit, OkHttp and the `ApiService` interface: the network is foreign I/O. A call's outcome (a response, or an exception with its message) is an input, and `issued` records the arguments the facade passed. Exceptions the HTTP library raises before sending, such as a null path parameter, count as `Raised` outcomes.
- `Bitmap.compress` and `Base64.encodeToString`: foreign codecs. A `Bitmap` is represented by the encoder's output, so exceptions the encoder could throw (for a null bitmap) are not modelled, and JPEG/Base64 round-trip properties are out of reach.
- `SimpleDateFormat` is a library. Parsing and formatting are function-valued inputs (`DateLibrary`), so the display output for concrete ISO or RFC strings is not stated. `parse(String)` never returns null, so that null check in `bind` is not modelled separately.
- The message text of the `StringIndexOutOfBoundsException` thrown by `setToken`'s log line belongs to the runtime. `Authenticate` takes it as the `indexErrorMessage` parameter.
- Floats: confidences are copied bit patterns. The `%.2f%%` display in the fragments is not modelled.
- Logging (`Log.d`/`Log.e`), `notifyDataSetChanged`, the row's click listeners, `onCreateViewHolder` and `startFaceDetection`: UI and Android framework calls with no effect on the modelled state.
- `getInstance` is `synchronized`. The model is sequential, so concurrent first calls are not modelled.
- `FaceDetectionActivity`, the fragments, `MainActivity` and `PreferencesManager` are not part of this model. They are camera, ML, UI and encrypted-storage code.
- The getters of `FaceRecognitionResult` are the datatype's destructors, so there are no separate members for them.
