/**
 * The admin page: a login decided from the account lookup, a logout, the
 * list of stored questionnaire responses split by visitor role, and the
 * labels shown for answer keys. The lookup and fetch results are
 * parameters; the stored "admin_session" flag is a field.
 */
module AdminPage {
  import opened Wrappers
  import opened Roles

  /** One stored questionnaire response. */
  datatype ResponseData = ResponseData(id: string, userType: Role, responses: map<string, string>, completedAt: string)

  /**
   * The account lookup by username: no row (or a query error), a row with
   * its stored password, or an exception.
   */
  datatype Lookup = NoAccount | Account(passwordHash: string) | LookupThrew

  /** The toast the login ends with. */
  datatype LoginOutcome = UsernameError | PasswordError | LoggedIn | UnexpectedError

  /** The responses query: an error, or the rows (null when there are none). */
  datatype Fetch = FetchFailed | Fetched(rows: Option<seq<ResponseData>>)

  class Admin {
    var isLoggedIn: bool
    var username: string
    var password: string
    var isLoading: bool
    var responses: seq<ResponseData>
    /** Whether localStorage holds "admin_session". */
    var sessionFlag: bool

    /** Mounting the page: logged in straight away when the session flag is stored. */
    constructor(storedSession: bool)
      ensures isLoggedIn == storedSession && sessionFlag == storedSession
      ensures username == "" && password == "" && !isLoading && responses == []
    {
      isLoggedIn := storedSession;
      sessionFlag := storedSession;
      username := "";
      password := "";
      isLoading := false;
      responses := [];
    }

    method SetUsername(value: string)
      modifies this
      ensures username == value
      ensures isLoggedIn == old(isLoggedIn) && password == old(password) && sessionFlag == old(sessionFlag)
      ensures isLoading == old(isLoading) && responses == old(responses)
    {
      username := value;
    }

    method SetPassword(value: string)
      modifies this
      ensures password == value
      ensures isLoggedIn == old(isLoggedIn) && username == old(username) && sessionFlag == old(sessionFlag)
      ensures isLoading == old(isLoading) && responses == old(responses)
    {
      password := value;
    }

    /**
     * handleLogin with the lookup for the entered username. Only a found
     * account whose stored password equals the entered one logs in; every
     * other outcome leaves the login state and the session flag alone.
     * After a successful login the page fetches the responses
     * (FetchResponses).
     */
    method HandleLogin(lookup: Lookup) returns (outcome: LoginOutcome)
      modifies this
      ensures !isLoading
      ensures username == old(username) && password == old(password) && responses == old(responses)
      ensures lookup.NoAccount? ==> outcome == UsernameError
      ensures lookup.Account? && lookup.passwordHash != password ==> outcome == PasswordError
      ensures lookup.LookupThrew? ==> outcome == UnexpectedError
      ensures outcome == LoggedIn <==> lookup.Account? && lookup.passwordHash == password
      ensures outcome == LoggedIn ==> isLoggedIn && sessionFlag
      ensures outcome != LoggedIn ==> isLoggedIn == old(isLoggedIn) && sessionFlag == old(sessionFlag)
    {
      isLoading := true;
      match lookup {
        case LookupThrew =>
          outcome := UnexpectedError;
        case NoAccount =>
          isLoading := false;
          return UsernameError;
        case Account(stored) =>
          if stored != password {
            isLoading := false;
            return PasswordError;
          }
          sessionFlag := true;
          isLoggedIn := true;
          outcome := LoggedIn;
      }
      isLoading := false;
    }

    /** fetchResponses: a failed query keeps the list, a null result empties it. */
    method FetchResponses(fetch: Fetch)
      modifies this
      ensures fetch.FetchFailed? ==> responses == old(responses)
      ensures fetch.Fetched? && fetch.rows.None? ==> responses == []
      ensures fetch.Fetched? && fetch.rows.Some? ==> responses == fetch.rows.value
      ensures isLoggedIn == old(isLoggedIn) && sessionFlag == old(sessionFlag)
      ensures username == old(username) && password == old(password) && isLoading == old(isLoading)
    {
      if fetch.Fetched? {
        responses := if fetch.rows.Some? then fetch.rows.value else [];
      }
    }

    /** handleLogout: forget the session and clear both form fields. */
    method HandleLogout()
      modifies this
      ensures !sessionFlag && !isLoggedIn && username == "" && password == ""
      ensures isLoading == old(isLoading) && responses == old(responses)
    {
      sessionFlag := false;
      isLoggedIn := false;
      username := "";
      password := "";
    }
  }

  /** The responses whose user type is role, in their original order. */
  function OfType(rs: seq<ResponseData>, role: Role): (r: seq<ResponseData>)
    ensures |r| <= |rs|
    ensures forall x :: x in r <==> x in rs && x.userType == role
    ensures forall x :: multiset(r)[x] == if x.userType == role then multiset(rs)[x] else 0
  {
    if rs == [] then []
    else
      assert rs == [rs[0]] + rs[1..];
      var rest := OfType(rs[1..], role);
      if rs[0].userType == role then [rs[0]] + rest else rest
  }

  /** Every response is a friend's or a family member's, so the two counts add up to the total. */
  lemma {:induction false} CountsPartition(rs: seq<ResponseData>)
    ensures |OfType(rs, Friend)| + |OfType(rs, Family)| == |rs|
  {
    if rs != [] {
      CountsPartition(rs[1..]);
    }
  }

  /** A field key shown as a label: every underscore becomes a space, nothing else changes. */
  function FieldLabel(key: string): (shown: string)
    ensures |shown| == |key|
    ensures forall i :: 0 <= i < |key| ==> shown[i] == (if key[i] == '_' then ' ' else key[i])
    ensures '_' !in shown
  {
    if key == [] then []
    else [if key[0] == '_' then ' ' else key[0]] + FieldLabel(key[1..])
  }
}
