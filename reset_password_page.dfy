/** The reset-password page of the web front end: the client-side password
    rule, the strength meter, and the checks made before the request is
    sent. */
module ResetPasswordPage {
  import opened Common
  import opened Dtos

  // -----------------------------------------------------------------------
  // validatePassword
  // -----------------------------------------------------------------------

  /** Every character is in `[A-Za-z\d@$!%*?&]`. */
  predicate AllAllowed(p: string) {
    forall i :: 0 <= i < |p| ==> IsAllowed(p[i])
  }

  /** The pattern of the page, which is anchored at both ends: the four
      lookaheads scan the first line from the start, then eight or more
      allowed characters must run to the end of the input. */
  predicate ValidatePassword(p: string) {
    HasAllClasses(FirstLine(p)) && |p| >= 8 && AllAllowed(p)
  }

  /** What the rule accepts, without the regular-expression reading: at least
      eight characters, all from the allowed set, with one of each class. */
  lemma ValidatePasswordMeans(p: string)
    ensures ValidatePassword(p) <==> |p| >= 8 && AllAllowed(p) && HasAllClasses(p)
  {
    if AllAllowed(p) {
      forall i | 0 <= i < |p|
        ensures !IsLineTerminator(p[i])
      {
        assert IsAllowed(p[i]);
      }
      FirstLineWhole(p);
    }
  }

  /** Whatever the page accepts, the reset body's constraints accept too. */
  lemma ClientImpliesServer(p: string)
    requires ValidatePassword(p)
    ensures ServerPasswordOk(Text(p))
  {
    ValidatePasswordMeans(p);
    assert IsAllowed(p[0]);
  }

  /** The converse fails: the server's pattern is not end-anchored, so it
      takes a password with a space that the page refuses. */
  lemma ServerAcceptsMore()
    ensures ServerPasswordOk(Text("Aa1!" + "aaa b")) && !ValidatePassword("Aa1!" + "aaa b")
  {
    ServerAcceptsSpace();
    assert !IsAllowed(("Aa1!" + "aaa b")[7]);
  }

  // -----------------------------------------------------------------------
  // getPasswordStrength
  // -----------------------------------------------------------------------

  /** `label` in the source; `caption` here because `label` is a Dafny keyword. */
  datatype Level = Level(score: nat, caption: string, color: string)

  const Levels: seq<Level> := [
    Level(0, "Très faible", "bg-red-500"),
    Level(1, "Faible", "bg-red-400"),
    Level(2, "Moyen", "bg-yellow-400"),
    Level(3, "Fort", "bg-green-400"),
    Level(4, "Très fort", "bg-green-500"),
    Level(5, "Excellent", "bg-green-600")
  ]

  /** The number of strength criteria `p` meets: eight characters, twelve
      characters, both letter cases, a digit, a special character. */
  function Score(p: string): nat {
    (if |p| >= 8 then 1 else 0) + (if |p| >= 12 then 1 else 0)
    + (if HasLower(p) && HasUpper(p) then 1 else 0)
    + (if HasDigit(p) then 1 else 0) + (if HasSpecial(p) then 1 else 0)
  }

  /** The meter: the empty password gets a blank level; any other password
      gets the level of its score, counted one criterion at a time. */
  method GetPasswordStrength(pwd: string) returns (level: Level)
    ensures pwd == "" ==> level == Level(0, "", "")
    ensures pwd != "" ==> level.score == Score(pwd) <= 5 && level in Levels
    ensures pwd != "" ==> level.caption != "" && level.color != ""
  {
    if pwd == "" {
      return Level(0, "", "");
    }
    var score := 0;
    if |pwd| >= 8 { score := score + 1; }
    if |pwd| >= 12 { score := score + 1; }
    if HasLower(pwd) && HasUpper(pwd) { score := score + 1; }
    if HasDigit(pwd) { score := score + 1; }
    if HasSpecial(pwd) { score := score + 1; }
    level := Levels[if score < 5 then score else 5];
  }

  lemma ClassesGrow(p: string, t: string)
    ensures HasLower(p) ==> HasLower(p + t)
    ensures HasUpper(p) ==> HasUpper(p + t)
    ensures HasDigit(p) ==> HasDigit(p + t)
    ensures HasSpecial(p) ==> HasSpecial(p + t)
  {
    if HasLower(p) {
      var i :| 0 <= i < |p| && IsLower(p[i]);
      assert (p + t)[i] == p[i];
    }
    if HasUpper(p) {
      var i :| 0 <= i < |p| && IsUpper(p[i]);
      assert (p + t)[i] == p[i];
    }
    if HasDigit(p) {
      var i :| 0 <= i < |p| && IsDigit(p[i]);
      assert (p + t)[i] == p[i];
    }
    if HasSpecial(p) {
      var i :| 0 <= i < |p| && IsSpecial(p[i]);
      assert (p + t)[i] == p[i];
    }
  }

  /** Typing more characters never lowers the score. */
  lemma ScoreMonotone(p: string, t: string)
    ensures Score(p) <= Score(p + t)
  {
    ClassesGrow(p, t);
  }

  /** A password the rule accepts scores at least four, and five once it has
      twelve characters. */
  lemma ValidScoresHigh(p: string)
    requires ValidatePassword(p)
    ensures Score(p) >= 4
    ensures |p| >= 12 <==> Score(p) == 5
  {
    ValidatePasswordMeans(p);
  }

  // -----------------------------------------------------------------------
  // handleSubmit
  // -----------------------------------------------------------------------

  const ComplexityMessage := "Le mot de passe doit contenir au moins 8 caractères, une majuscule, une minuscule, un chiffre et un caractère spécial (@$!%*?&)."
  const MismatchMessage := "Les mots de passe ne correspondent pas."
  const MissingTokenMessage := "Token de réinitialisation manquant."
  const InvalidTokenMessage := "Token invalide ou expiré. Veuillez demander une nouvelle réinitialisation."
  const ServerErrorMessage := "Une erreur serveur est survenue. Veuillez réessayer plus tard."
  const FallbackMessage := "Erreur lors de la réinitialisation"
  const SuccessMessage := "Votre mot de passe a été réinitialisé avec succès !"

  /** How the reset request ended: resolved, or rejected with an optional
      HTTP status, an optional `data.message` in the response, and the
      error's own optional message. */
  datatype Outcome =
    | Succeeded
    | Failed(status: Option<int>, dataMessage: Option<string>, message: Option<string>)

  /** The error shown for a rejected request. */
  function FailureMessage(o: Outcome): (m: string)
    requires o.Failed?
    ensures m != ""
    ensures o.status == Some(400) ==> m == InvalidTokenMessage
    ensures o.status.Some? && o.status.value >= 500 ==> m == ServerErrorMessage
    ensures (o.status.None? || (o.status.value != 400 && o.status.value < 500)) ==>
      (Truthy(o.dataMessage) ==> m == o.dataMessage.value)
      && (!Truthy(o.dataMessage) && Truthy(o.message) ==> m == o.message.value)
      && (!Truthy(o.dataMessage) && !Truthy(o.message) ==> m == FallbackMessage)
  {
    if o.status == Some(400) then InvalidTokenMessage
    else if o.status.Some? && o.status.value >= 500 then ServerErrorMessage
    else if Truthy(o.dataMessage) then o.dataMessage.value
    else if Truthy(o.message) then o.message.value
    else FallbackMessage
  }

  /** The state of the page. */
  class ResetPasswordForm {
    var token: Option<string>
    var password: string
    var confirmPassword: string
    var isLoading: bool
    var error: Option<string>
    var success: Option<string>
    var isReset: bool

    /** Mounting the page: the token comes from the query string; without
        one the page shows the missing-token error. */
    constructor(tokenFromUrl: Option<string>)
      ensures Truthy(tokenFromUrl) ==> token == tokenFromUrl && error == None
      ensures !Truthy(tokenFromUrl) ==> token == None && error == Some(MissingTokenMessage)
      ensures password == "" && confirmPassword == "" && !isLoading && success == None && !isReset
    {
      if Truthy(tokenFromUrl) {
        token := tokenFromUrl;
        error := None;
      } else {
        token := None;
        error := Some(MissingTokenMessage);
      }
      password, confirmPassword := "", "";
      isLoading, success, isReset := false, None, false;
    }

    /** The two input fields. */
    method Edit(newPassword: string, newConfirmation: string)
      modifies this
      ensures password == newPassword && confirmPassword == newConfirmation
      ensures token == old(token) && error == old(error) && success == old(success)
      ensures isLoading == old(isLoading) && isReset == old(isReset)
    {
      password, confirmPassword := newPassword, newConfirmation;
    }

    /** Submitting the form. The checks run in order (rule, confirmation,
        token); the first that fails sets its message and nothing is sent.
        Otherwise the body is sent and `outcome` is how the call ended. */
    method HandleSubmit(outcome: Outcome) returns (sent: Option<ResetPassword>)
      modifies this
      ensures token == old(token) && password == old(password) && confirmPassword == old(confirmPassword)
      ensures sent.Some? <==> ValidatePassword(password) && password == confirmPassword && Truthy(token)
      ensures sent.Some? ==> sent.value == ResetPassword(token.value, password)
      ensures !ValidatePassword(password) ==> error == Some(ComplexityMessage)
      ensures ValidatePassword(password) && password != confirmPassword ==> error == Some(MismatchMessage)
      ensures ValidatePassword(password) && password == confirmPassword && !Truthy(token) ==>
        error == Some(MissingTokenMessage)
      ensures sent.None? ==> success == None && isLoading == old(isLoading) && isReset == old(isReset)
      ensures sent.Some? && outcome.Succeeded? ==>
        error == None && success == Some(SuccessMessage) && isReset && !isLoading
      ensures sent.Some? && outcome.Failed? ==>
        error == Some(FailureMessage(outcome)) && success == None && isReset == old(isReset) && !isLoading
    {
      error, success := None, None;
      if !ValidatePassword(password) {
        error := Some(ComplexityMessage);
        return None;
      }
      if password != confirmPassword {
        error := Some(MismatchMessage);
        return None;
      }
      if !Truthy(token) {
        error := Some(MissingTokenMessage);
        return None;
      }
      isLoading := true;
      sent := Some(ResetPassword(token.value, password));
      if outcome.Succeeded? {
        isReset := true;
        success := Some(SuccessMessage);
      } else {
        error := Some(FailureMessage(outcome));
      }
      isLoading := false;
    }
  }

  /** Every body the page sends passes the reset body's validation. */
  lemma SentBodyValid(token: string, password: string)
    requires token != "" && ValidatePassword(password)
    ensures ValidateResetPassword(ResetPasswordBody(Text(token), Text(password))).Valid?
  {
    ClientImpliesServer(password);
  }
}
