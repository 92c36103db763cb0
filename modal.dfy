/**
  The encryption dialog: the checks a submission passes before the note is
  encrypted, the enabled state of its submit button, the effects that reset
  the form and recompute the password strength, and the password generator
  button. The `onEncrypt`, `onDecrypt` and `onClose` callbacks are recorded as
  calls; whether `onEncrypt` or `onDecrypt` throws is a parameter.
*/
module Modal {
  import opened Base
  import opened Strings
  import Encryption

  datatype Mode = EncryptMode | DecryptMode

  const Mismatch := "Passwords do not match"
  const TooWeak := "Password is too weak. "
  const OperationFailed := "Operation failed"
  const GeneratedLength := 16

  /** A callback the dialog invokes. */
  datatype Call = Encrypt(password: string) | Decrypt(password: string) | Close

  /** How the awaited `onEncrypt` / `onDecrypt` ends. */
  datatype Outcome = Completed | Threw(message: string)

  /** The strength shown for a password: computed only in encrypt mode and for a non-empty password. */
  function StrengthFor(mode: Mode, password: string): Option<Encryption.Strength> {
    if mode == EncryptMode && password != "" then Some(Encryption.StrengthOf(password)) else None
  }

  /** The error `handleSubmit` stops with before calling anything, if any. */
  function Validation(mode: Mode, password: string, confirmPassword: string): Option<string> {
    if mode == DecryptMode then None
    else if password != confirmPassword then Some(Mismatch)
    else
      var strength := Encryption.StrengthOf(password);
      if !strength.isValid then Some(TooWeak + Join(strength.feedback, ", ")) else None
  }

  /** The message shown when the callback throws: its own, or a generic one when it has none. */
  function ThrownMessage(message: string): string {
    if message == "" then OperationFailed else message
  }

  /** The submit button's `disabled` expression. */
  predicate SubmitDisabled(isProcessing: bool, mode: Mode, strength: Option<Encryption.Strength>, password: string, confirmPassword: string) {
    isProcessing || (mode == EncryptMode && (!(strength.Some? && strength.value.isValid) || password != confirmPassword))
  }

  /**
    The checks and their order: decrypting checks nothing; encrypting first
    requires the two entries to match (even a weak password is reported as a
    mismatch first) and then a valid strength, reporting the advice for every
    unmet criterion, in order, after "Password is too weak. ".
  */
  lemma ValidationOrder(mode: Mode, password: string, confirmPassword: string)
    ensures mode == DecryptMode ==> Validation(mode, password, confirmPassword) == None
    ensures mode == EncryptMode && password != confirmPassword ==> Validation(mode, password, confirmPassword) == Some(Mismatch)
    ensures mode == EncryptMode && password == confirmPassword ==>
              (Validation(mode, password, confirmPassword).None? <==> Encryption.StrengthOf(password).score >= 3)
    ensures mode == EncryptMode && password == confirmPassword && Encryption.StrengthOf(password).score < 3 ==>
              Validation(mode, password, confirmPassword) == Some(TooWeak + Join(Encryption.StrengthOf(password).feedback, ", "))
  {
  }

  /** The empty password meets no criterion. */
  lemma EmptyPasswordIsInvalid()
    ensures Encryption.StrengthOf("").score == 0 && !Encryption.StrengthOf("").isValid
  {
    Encryption.FivePoints(Encryption.Checks(""));
  }

  /**
    While the shown strength is the one the effect computes, the button is
    enabled exactly when nothing is being processed and a submission would
    pass the checks: an empty password, which has no shown strength, fails
    them too.
  */
  lemma DisabledMatchesValidation(isProcessing: bool, mode: Mode, password: string, confirmPassword: string)
    ensures (SubmitDisabled(isProcessing, mode, StrengthFor(mode, password), password, confirmPassword)
             <==> isProcessing || Validation(mode, password, confirmPassword).Some?)
  {
    EmptyPasswordIsInvalid();
  }

  /** A generated password is not always accepted: sixteen zero bytes give sixteen 'A's, which is too weak. */
  lemma GeneratedCanBeWeak()
    ensures var p := seq(GeneratedLength, i => Encryption.Charset[0 % |Encryption.Charset|]);
            p == "AAAAAAAAAAAAAAAA" && Validation(EncryptMode, p, p).Some?
  {
    var p := seq(GeneratedLength, i => Encryption.Charset[0 % |Encryption.Charset|]);
    assert Encryption.Charset[0] == 'A';
    assert p == "AAAAAAAAAAAAAAAA";
    assert Encryption.IsUpper(p[0]);
    assert !Encryption.HasLower(p) && !Encryption.HasDigit(p) && !Encryption.HasSpecial(p);
    Encryption.FivePoints(Encryption.Checks(p));
  }

  /** The dialog's state, with the callbacks it has invoked so far, oldest first. */
  class ModalState {
    var mode: Mode
    var password: string
    var confirmPassword: string
    var strength: Option<Encryption.Strength>
    var isProcessing: bool
    var error: string
    var calls: seq<Call>

    /** The strength shown is the one the strength effect computes for the current password. */
    predicate Synced()
      reads this
    {
      strength == StrengthFor(mode, password)
    }

    constructor(mode: Mode)
      ensures this.mode == mode && password == "" && confirmPassword == "" && error == ""
      ensures !isProcessing && calls == [] && Synced()
    {
      this.mode := mode;
      password := "";
      confirmPassword := "";
      strength := None;
      isProcessing := false;
      error := "";
      calls := [];
    }

    /** The reset effect when the dialog opens: both entries, the error and the strength are cleared. */
    method Open()
      modifies this`password, this`confirmPassword, this`error, this`strength
      ensures password == "" && confirmPassword == "" && error == "" && strength == None
      ensures Synced()
    {
      password := "";
      confirmPassword := "";
      error := "";
      strength := None;
    }

    /** Typing a password; the strength effect then recomputes the shown strength. */
    method SetPassword(p: string)
      modifies this`password, this`strength
      ensures password == p && Synced()
    {
      password := p;
      if mode == EncryptMode && password != "" {
        var s := Encryption.CheckPasswordStrength(password);
        strength := Some(s);
      } else {
        strength := None;
      }
    }

    method SetConfirmPassword(p: string)
      modifies this`confirmPassword
      ensures confirmPassword == p
    {
      confirmPassword := p;
    }

    /** `generatePassword`: both entries receive the same sixteen generated characters. */
    method GeneratePassword(randomBytes: seq<Encryption.byte>)
      requires |randomBytes| == GeneratedLength
      modifies this`password, this`confirmPassword, this`strength
      ensures password == confirmPassword && |password| == GeneratedLength
      ensures forall i :: 0 <= i < GeneratedLength ==> password[i] == Encryption.Charset[randomBytes[i] % |Encryption.Charset|]
      ensures Synced()
    {
      var generated := Encryption.GenerateSecurePassword(GeneratedLength, randomBytes);
      SetPassword(generated);
      confirmPassword := generated;
    }

    /**
      `handleSubmit`: a failed check shows its error and calls nothing;
      otherwise the dialog calls `onEncrypt` or `onDecrypt` and, only when that
      completes, `onClose`; a throw shows its message instead. The dialog is
      never left processing, and the entries are not touched.
    */
    method HandleSubmit(outcome: Outcome)
      modifies this`error, this`isProcessing, this`calls
      ensures !isProcessing
      ensures Validation(mode, password, confirmPassword).Some? ==>
                error == Validation(mode, password, confirmPassword).value && calls == old(calls)
      ensures Validation(mode, password, confirmPassword).None? ==>
                var request := if mode == EncryptMode then Encrypt(password) else Decrypt(password);
                match outcome
                case Completed => calls == old(calls) + [request, Close] && error == ""
                case Threw(message) => calls == old(calls) + [request] && error == ThrownMessage(message)
    {
      error := "";
      isProcessing := true;
      if mode == EncryptMode {
        if password != confirmPassword {
          error := Mismatch;
          isProcessing := false;
          return;
        }
        var s := Encryption.CheckPasswordStrength(password);
        if !s.isValid {
          error := TooWeak + Join(s.feedback, ", ");
          isProcessing := false;
          return;
        }
        calls := calls + [Encrypt(password)];
      } else {
        calls := calls + [Decrypt(password)];
      }
      if outcome.Completed? {
        calls := calls + [Close];
      } else {
        error := ThrownMessage(outcome.message);
      }
      isProcessing := false;
    }

    /** The submit button's state. */
    predicate Disabled()
      reads this
    {
      SubmitDisabled(isProcessing, mode, strength, password, confirmPassword)
    }
  }
}
