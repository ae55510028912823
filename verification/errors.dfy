/** The failure texts the client puts into a result's error field, as a closed
    set of variants. Text renders a variant the way the client does; ParseText
    reads it back, which shows that the string-typed error field loses nothing. */
module Errors {
  import opened Java

  /** The operation whose catch block produced an exception text. */
  datatype Operation =
    | Authentication | Registration | UserImage | Verification
    | UserList | Comparison | Update | Deletion

  /** The prefix each operation's catch block writes before the exception message. */
  function ExceptionPrefix(op: Operation): string
  {
    match op
    case Authentication => "Authentication error: "
    case Registration => "Registration error: "
    case UserImage => "Error getting user image: "
    case Verification => "Verification error: "
    case UserList => "Error getting users: "
    case Comparison => "Comparison error: "
    case Update => "Update error: "
    case Deletion => "Error deleting user: "
  }

  const ServerErrorPrefix := "Server error: "
  const UnexpectedPrefix := "Unexpected error: "

  datatype Failure =
    | NotAuthenticated             // no token in the session
    | AuthenticationFailed         // status 401
    | UserAlreadyExists            // status 409
    | MissingRequiredFields        // status 400
    | ServerError(body: string)    // any other status, with the error body text
    | Unexpected(message: string)  // reading the error body threw
    | Thrown(op: Operation, message: string)  // an operation's call threw

  function Text(f: Failure): string
  {
    match f
    case NotAuthenticated => "Not authenticated"
    case AuthenticationFailed => "Authentication failed"
    case UserAlreadyExists => "User already exists"
    case MissingRequiredFields => "Missing required fields"
    case ServerError(body) => ServerErrorPrefix + body
    case Unexpected(message) => UnexpectedPrefix + message
    case Thrown(op, message) => ExceptionPrefix(op) + message
  }

  /** The operation whose exception prefix starts the text, trying them in a fixed order. */
  function ThrownBy(text: string, ops: seq<Operation>): (r: Option<Operation>)
    ensures r.Some? ==> r.value in ops && ExceptionPrefix(r.value) <= text
    ensures r.None? ==> forall op :: op in ops ==> !(ExceptionPrefix(op) <= text)
  {
    if ops == [] then None
    else if ExceptionPrefix(ops[0]) <= text then Some(ops[0])
    else ThrownBy(text, ops[1..])
  }

  const AllOperations := [Authentication, Registration, UserImage, Verification,
                          UserList, Comparison, Update, Deletion]

  /** Reads a failure text back into its variant; None for text the client never writes. */
  function ParseText(text: string): (r: Option<Failure>)
    ensures r.Some? ==> Text(r.value) == text
  {
    if text == "Not authenticated" then Some(NotAuthenticated)
    else if text == "Authentication failed" then Some(AuthenticationFailed)
    else if text == "User already exists" then Some(UserAlreadyExists)
    else if text == "Missing required fields" then Some(MissingRequiredFields)
    else if ServerErrorPrefix <= text then Some(ServerError(text[|ServerErrorPrefix|..]))
    else if UnexpectedPrefix <= text then Some(Unexpected(text[|UnexpectedPrefix|..]))
    else match ThrownBy(text, AllOperations)
      case Some(op) => Some(Thrown(op, text[|ExceptionPrefix(op)|..]))
      case None => None
  }

  /** Two strings that differ at a position both have: neither is a prefix of the other. */
  lemma DifferAt(a: string, b: string, i: nat)
    requires i < |a| && i < |b| && a[i] != b[i]
    ensures a != b && !(a <= b) && !(b <= a)
  {
  }

  /** No exception prefix is a prefix of another one's text. */
  lemma {:induction false} PrefixesDisjoint(op: Operation, other: Operation, message: string)
    requires op != other
    ensures !(ExceptionPrefix(other) <= ExceptionPrefix(op) + message)
  {
    var p, q := ExceptionPrefix(other), ExceptionPrefix(op) + message;
    var i := FirstDifference(op, other);
    DifferAt(p, q, i);
  }

  function FirstDifference(op: Operation, other: Operation): (i: nat)
    requires op != other
    ensures i < |ExceptionPrefix(op)| && i < |ExceptionPrefix(other)|
    ensures ExceptionPrefix(op)[i] != ExceptionPrefix(other)[i]
  {
    if ExceptionPrefix(op)[0] != ExceptionPrefix(other)[0] then 0
    else if ExceptionPrefix(op)[1] != ExceptionPrefix(other)[1] then 1
    else if ExceptionPrefix(op)[6] != ExceptionPrefix(other)[6] then 6
    else 18
  }

  /** A string that differs from p at a position both have is neither equal to
      nor a prefix of any text that starts with p. */
  lemma Mismatch(a: string, p: string, m: string, i: nat)
    requires i < |a| && i < |p| && a[i] != p[i]
    ensures a != p + m && !(a <= p + m)
  {
    assert (p + m)[i] == p[i];
  }

  /** An exception text is none of the fixed texts and starts with neither the
      server-error nor the unexpected-error prefix. */
  lemma ThrownTextIsDistinct(op: Operation, message: string)
    ensures var text := ExceptionPrefix(op) + message;
      && text != "Not authenticated" && text != "Authentication failed"
      && text != "User already exists" && text != "Missing required fields"
      && !(ServerErrorPrefix <= text) && !(UnexpectedPrefix <= text)
  {
    var p := ExceptionPrefix(op);
    assert (p + message)[0] == p[0];
    match op
    case Authentication =>
      Mismatch("Authentication failed", ExceptionPrefix(op), message, 15);
    case Update =>
      Mismatch("User already exists", ExceptionPrefix(op), message, 1);
      Mismatch(UnexpectedPrefix, ExceptionPrefix(op), message, 1);
    case Registration =>
    case UserImage =>
    case Verification =>
    case UserList =>
    case Comparison =>
    case Deletion =>
  }

  /** Every failure text reads back as the variant that produced it. */
  lemma {:induction false} ParseTextInvertsText(f: Failure)
    ensures ParseText(Text(f)) == Some(f)
  {
    match f
    case NotAuthenticated =>
    case AuthenticationFailed =>
    case UserAlreadyExists =>
    case MissingRequiredFields =>
    case ServerError(body) =>
      assert (ServerErrorPrefix + body)[0] == 'S';
    case Unexpected(message) =>
      Mismatch("User already exists", UnexpectedPrefix, message, 1);
      Mismatch(ServerErrorPrefix, UnexpectedPrefix, message, 0);
    case Thrown(op, message) =>
      ThrownTextIsDistinct(op, message);
      var text := Text(f);
      var r := ThrownBy(text, AllOperations);
      assert op in AllOperations;
      if r.Some? && r.value != op {
        PrefixesDisjoint(op, r.value, message);
      }
  }
}
