/**
 * The e-mail login screen: the registration dialog checks its two fields
 * in a fixed order and only then asks the authentication service to create
 * the account; a sign-in that completes successfully with a current user
 * marks the session logged in.
 */
module Registration {
  import opened Session
  import opened Text

  const MinPasswordLength: nat := 8

  /** The first check that fails, or the request to register with the unmodified inputs. */
  datatype Validation =
    | EmptyField
    | InvalidEmail
    | ShortPassword
    | Accepted(email: string, password: string)

  /** The dialog's early-return checks: both fields filled, then the e-mail format, then the password length. */
  function Validate(email: string, password: string, isEmailAddress: string -> bool): (r: Validation)
    ensures r == EmptyField <==> email == [] || password == []
    ensures r == InvalidEmail <==> email != [] && password != [] && !isEmailAddress(email)
    ensures r == ShortPassword <==> email != [] && password != [] && isEmailAddress(email) && Utf16Length(password) < MinPasswordLength
    ensures r.Accepted? <==> email != [] && isEmailAddress(email) && Utf16Length(password) >= MinPasswordLength
    ensures r.Accepted? ==> r.email == email && r.password == password
  {
    if email == [] || password == [] then EmptyField
    else if !isEmailAddress(email) then InvalidEmail
    else if Utf16Length(password) < MinPasswordLength then ShortPassword
    else Accepted(email, password)
  }

  /** A password of exactly the minimum length passes the length check. */
  lemma MinimumLengthAccepted(email: string, password: string, isEmailAddress: string -> bool)
    requires email != [] && isEmailAddress(email) && Utf16Length(password) == MinPasswordLength
    ensures Validate(email, password, isEmailAddress) == Accepted(email, password)
  {
  }

  /** Four characters above U+FFFF are eight UTF-16 units, so such a password passes the length check. */
  lemma SupplementaryPasswordAccepted(email: string, password: string, isEmailAddress: string -> bool)
    requires email != [] && isEmailAddress(email)
    requires password == "\U{1F600}\U{1F600}\U{1F600}\U{1F600}"
    ensures Validate(email, password, isEmailAddress) == Accepted(email, password)
  {
    assert forall i :: 0 <= i < |password| ==> password[i] as int > 0xFFFF;
  }

  /** An empty field is reported even when the e-mail is malformed too. */
  lemma EmptyFieldReportedFirst(email: string, isEmailAddress: string -> bool)
    ensures Validate(email, [], isEmailAddress) == EmptyField
    ensures Validate([], email, isEmailAddress) == EmptyField
  {
  }

  class LoginActivity {
    const session: Preferences
    /** The accounts the authentication service was asked to create, oldest first. */
    var registrations: seq<(string, string)>

    constructor (session: Preferences)
      ensures this.session == session && registrations == []
    {
      this.session := session;
      registrations := [];
    }

    /** The dialog's OK button: registers exactly when every check passes. */
    method OnRegisterConfirmed(email: string, password: string, isEmailAddress: string -> bool) returns (v: Validation)
      modifies this
      ensures v == Validate(email, password, isEmailAddress)
      ensures registrations == old(registrations) + if v.Accepted? then [(email, password)] else []
    {
      if email == [] || password == [] {
        return EmptyField;
      }
      if !isEmailAddress(email) {
        return InvalidEmail;
      }
      if Utf16Length(password) < MinPasswordLength {
        return ShortPassword;
      }
      registrations := registrations + [(email, password)];
      return Accepted(email, password);
    }

    /** `login`: stores `is_logged_in = true` in the session. */
    method Login()
      modifies session
      ensures session.values == old(session.values)[LoggedInKey := true]
    {
      session.PutBoolean(LoggedInKey, true);
    }

    /** The sign-in completion: logs in only when the sign-in succeeded and there is a current user. */
    method OnSignInComplete(successful: bool, currentUserPresent: bool)
      modifies session
      ensures successful && currentUserPresent ==> session.values == old(session.values)[LoggedInKey := true]
      ensures !(successful && currentUserPresent) ==> session.values == old(session.values)
    {
      if successful {
        if currentUserPresent {
          Login();
        }
      }
    }
  }
}
