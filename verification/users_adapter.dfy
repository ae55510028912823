/** The list of enrolled users shown on the users screen, and how one row
    renders a user's creation date. */
module Adapter {
  import opened Java

  /** One user as listed by the service. */
  datatype User = User(userId: JString, createdAt: JString)

  /** A point in time, as the date library's parse produces it. */
  type Instant = int

  /** The date library, as functions of the pattern: parse gives None where the
      library throws a parse exception, and format always yields a text. */
  datatype DateLibrary = DateLibrary(
    parse: (string, string) -> Option<Instant>,
    format: (string, Instant) -> string)

  const IsoFormat := "yyyy-MM-dd'T'HH:mm:ss.SSS'Z'"
  const RfcFormat := "EEE, dd MMM yyyy HH:mm:ss z"

  /** The input formats, in the order they are tried. */
  const DateFormats := [IsoFormat, RfcFormat]

  /** The display format and the text shown for a missing date. */
  const DisplayFormat := "MMM dd, yyyy HH:mm"
  const DateNotAvailable := "Date not available"

  /** A successful parse: which format matched and the instant it gave. */
  datatype Parsed = Parsed(index: nat, date: Instant)

  /** The first format, in order, that parses the text. */
  function FirstParse(formats: seq<string>, text: string, parse: (string, string) -> Option<Instant>)
    : (r: Option<Parsed>)
    ensures r.Some? ==>
      && r.value.index < |formats|
      && parse(formats[r.value.index], text) == Some(r.value.date)
      && forall j :: 0 <= j < r.value.index ==> parse(formats[j], text).None?
    ensures r.None? <==> forall j :: 0 <= j < |formats| ==> parse(formats[j], text).None?
  {
    if formats == [] then None
    else match parse(formats[0], text)
      case Some(date) => Some(Parsed(0, date))
      case None =>
        match FirstParse(formats[1..], text, parse)
        case None => None
        case Some(p) => Some(Parsed(p.index + 1, p.date))
  }

  /** The created-at text a row shows after binding a user whose date is
      createdAt, when it showed `shown` before: the placeholder for a null date,
      the first successful parse in display format, or else the old text. */
  function CreatedAtText(createdAt: JString, shown: string, lib: DateLibrary): (r: string)
    ensures createdAt.None? ==> r == DateNotAvailable
    ensures createdAt.Some? ==>
      || (r == shown && forall i :: 0 <= i < |DateFormats| ==> lib.parse(DateFormats[i], createdAt.value).None?)
      || exists i :: 0 <= i < |DateFormats| && lib.parse(DateFormats[i], createdAt.value).Some?
                     && r == lib.format(DisplayFormat, lib.parse(DateFormats[i], createdAt.value).value)
  {
    match createdAt
    case None => DateNotAvailable
    case Some(text) =>
      match FirstParse(DateFormats, text, lib.parse)
      case Some(p) => lib.format(DisplayFormat, p.date)
      case None => shown
  }

  /** The ISO format wins whenever it parses; the RFC format is used only when
      ISO fails; when both fail the row keeps what it showed. */
  lemma CreatedAtTextCases(text: string, shown: string, lib: DateLibrary)
    ensures lib.parse(IsoFormat, text).Some? ==>
      CreatedAtText(Some(text), shown, lib) == lib.format(DisplayFormat, lib.parse(IsoFormat, text).value)
    ensures lib.parse(IsoFormat, text).None? && lib.parse(RfcFormat, text).Some? ==>
      CreatedAtText(Some(text), shown, lib) == lib.format(DisplayFormat, lib.parse(RfcFormat, text).value)
    ensures lib.parse(IsoFormat, text).None? && lib.parse(RfcFormat, text).None? ==>
      CreatedAtText(Some(text), shown, lib) == shown
  {
    if lib.parse(IsoFormat, text).Some? {
      FirstParseIsAt(DateFormats, text, lib.parse, 0);
    } else if lib.parse(RfcFormat, text).Some? {
      FirstParseIsAt(DateFormats, text, lib.parse, 1);
    }
  }

  /** A row of the list. */
  class UserViewHolder {
    var userIdText: JString
    var createdAtText: string

    /** A row starts with whatever texts its views already show. */
    constructor (userIdText: JString, createdAtText: string)
      ensures this.userIdText == userIdText && this.createdAtText == createdAtText
    {
      this.userIdText := userIdText;
      this.createdAtText := createdAtText;
    }

    /** Shows the user's id and creation date. The formats are tried in order
        and the first that parses sets the text; a null date shows the
        placeholder; if no format parses, the text is left as it was. */
    method Bind(user: User, lib: DateLibrary)
      modifies this
      ensures userIdText == user.userId
      ensures createdAtText == CreatedAtText(user.createdAt, old(createdAtText), lib)
    {
      userIdText := user.userId;
      var dateStr := user.createdAt;
      if dateStr.Some? {
        var i := 0;
        while i < |DateFormats|
          invariant 0 <= i <= |DateFormats|
          invariant forall j :: 0 <= j < i ==> lib.parse(DateFormats[j], dateStr.value).None?
          invariant createdAtText == old(createdAtText)
        {
          var date := lib.parse(DateFormats[i], dateStr.value);
          if date.Some? {
            createdAtText := lib.format(DisplayFormat, date.value);
            FirstParseIsAt(DateFormats, dateStr.value, lib.parse, i);
            break;
          }
          i := i + 1;
        }
      } else {
        createdAtText := DateNotAvailable;
      }
    }
  }

  /** If every format before i fails and format i parses, the first parse is at i. */
  lemma FirstParseIsAt(formats: seq<string>, text: string, parse: (string, string) -> Option<Instant>, i: nat)
    requires i < |formats| && parse(formats[i], text).Some?
    requires forall j :: 0 <= j < i ==> parse(formats[j], text).None?
    ensures FirstParse(formats, text, parse) == Some(Parsed(i, parse(formats[i], text).value))
  {
  }

  /** The adapter behind the users list. */
  class UsersAdapter {
    var users: seq<User>
    const lib: DateLibrary

    constructor (lib: DateLibrary)
      ensures users == [] && this.lib == lib
    {
      users := [];
      this.lib := lib;
    }

    function GetItemCount(): (n: nat)
      reads this
      ensures n == |users|
    {
      |users|
    }

    /** Clears the list and refills it with the new users, in their order;
        nothing of the previous list survives. */
    method UpdateUsers(newUsers: seq<User>)
      modifies this
      ensures users == newUsers && GetItemCount() == |newUsers|
    {
      users := [];
      users := users + newUsers;
    }

    /** Binds the row at a position to the user at that position. */
    method OnBindViewHolder(holder: UserViewHolder, position: int)
      requires 0 <= position < |users|
      modifies holder
      ensures holder.userIdText == users[position].userId
      ensures holder.createdAtText == CreatedAtText(users[position].createdAt, old(holder.createdAtText), lib)
    {
      holder.Bind(users[position], lib);
    }
  }
}
