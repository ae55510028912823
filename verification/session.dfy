/** The process-wide session slot that holds the bearer token. */
module Session {
  import opened Java

  /** setToken logs the token's first ten UTF-16 code units. */
  const LoggedPrefixLength := 10

  /** The test hasToken applies: a non-null, non-empty string. Content is not
      inspected, so a token of spaces counts as present. */
  predicate IsPresent(token: JString)
  {
    token.Some? && |token.value| > 0
  }

  /** Only a null or an empty token is absent: the slot can be cleared only by
      storing one of those two values. */
  lemma AbsentTokens(token: JString)
    ensures !IsPresent(token) <==> token == None || token == Some("")
  {
  }

  class SessionManager {
    var token: JString

    /** The private constructor leaves the token null. */
    constructor ()
      ensures token == None && !HasToken()
    {
      token := None;
    }

    /** Overwrites the token unconditionally, then logs its first ten characters.
        For a non-null token whose Java length is below ten the log line throws; the new
        token is already stored when it does, and `thrown` reports it. */
    method SetToken(token: JString) returns (thrown: bool)
      modifies this
      ensures this.token == token && GetToken() == token
      ensures HasToken() <==> token.Some? && token.value != ""
      ensures thrown <==> token.Some? && Utf16Length(token.value) < LoggedPrefixLength
    {
      this.token := token;
      thrown := token.Some? && Utf16Length(token.value) < LoggedPrefixLength;
    }

    function GetToken(): (t: JString)
      reads this
      ensures t == token
    {
      token
    }

    /** Present exactly when the token is neither null nor empty. */
    predicate HasToken()
      reads this
      ensures HasToken() <==> token != None && token != Some("")
    {
      IsPresent(token)
    }
  }

  /** The static state of the SessionManager class: its lazily assigned instance. */
  class SessionManagerStatics {
    var instance: SessionManager?

    /** At class initialisation no instance exists yet. */
    constructor ()
      ensures instance == null
    {
      instance := null;
    }

    /** Creates the instance on the first call only and returns that same
        instance on every call. */
    method GetInstance() returns (s: SessionManager)
      modifies this
      ensures instance == s
      ensures old(instance) != null ==> s == old(instance)
      ensures old(instance) == null ==> fresh(s) && s.token == None
    {
      if instance == null {
        instance := new SessionManager();
      }
      s := instance;
    }
  }

  /** Two lookups of the singleton yield one object, and before any setToken
      it holds no token. */
  method SharedInstance(statics: SessionManagerStatics) returns (first: SessionManager, second: SessionManager)
    requires statics.instance == null
    modifies statics
    ensures first == second && !first.HasToken()
  {
    first := statics.GetInstance();
    second := statics.GetInstance();
  }
}
