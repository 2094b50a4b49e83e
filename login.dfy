/**
 * The two submit handlers of the login page: the e-mail/password login,
 * which afterwards decides whether to ask for an offline PIN, and the save
 * of that PIN. Each handler is one step over a record of the page's state
 * fields.
 */
module Login {
  import opened Common
  import opened OfflinePin
  import PinInput

  /** The page's React state fields. */
  datatype LoginState = LoginState(
    email: string,
    password: string,
    loading: bool,
    error: Option<string>,
    showPinSetup: bool,
    newPin: string,
    confirmPin: string,
    pinError: Option<string>,
    savingPin: bool)

  /** How the awaited `signInWithPassword` settles: a returned error and a thrown one reach the same `catch`. */
  datatype SignIn = SignedIn | SignInError(message: string)

  const InvalidCredentials: string := "Credenciais inválidas"
  const SavePinFallback: string := "Erro ao salvar PIN"

  /** The reasons the PIN form is refused before the store is called, in the order they are tested. */
  datatype SaveRejection = MissingField | BadLength | NotDigits | Mismatch

  function RejectionMessage(r: SaveRejection): string {
    match r
    case MissingField => "Preencha ambos os campos"
    case BadLength => "PIN deve ter entre 4 e 8 dígitos"
    case NotDigits => "PIN deve conter apenas números"
    case Mismatch => "Os PINs não coincidem"
  }

  /**
   * The validation chain of `handleSaveOfflinePin`: the first failing test
   * wins. The length test counts UTF-16 code units, as JavaScript does.
   */
  function CheckPinForm(newPin: string, confirmPin: string): (r: Option<SaveRejection>)
    ensures r == None <==> IsValidPin(newPin) && newPin == confirmPin
    ensures r == Some(MissingField) <==> newPin == "" || confirmPin == ""
    ensures r == Some(BadLength) <==>
      newPin != "" && confirmPin != "" && !(MinPinLength <= Utf16Length(newPin) <= MaxPinLength)
    ensures r == Some(NotDigits) <==>
      confirmPin != "" && MinPinLength <= Utf16Length(newPin) <= MaxPinLength &&
      exists i :: 0 <= i < |newPin| && !IsDigit(newPin[i])
    ensures r == Some(Mismatch) <==> confirmPin != "" && IsValidPin(newPin) && newPin != confirmPin
  {
    if newPin == "" || confirmPin == "" then Some(MissingField)
    else if Utf16Length(newPin) < MinPinLength || Utf16Length(newPin) > MaxPinLength then Some(BadLength)
    else if !MatchesDigitPattern(newPin) then Some(NotDigits)
    else if newPin != confirmPin then Some(Mismatch)
    else None
  }

  /** Whatever the form lets through, the store's own validation accepts. */
  lemma FormCheckImpliesStoreAccepts(newPin: string, confirmPin: string)
    requires CheckPinForm(newPin, confirmPin) == None
    ensures ValidatePin(newPin) == None
  {
  }

  /**
   * With both fields fed through the keystroke filter, the form can only be
   * refused for a missing field, a short PIN or a mismatch: the non-digit
   * test never fires.
   */
  lemma FilteredFormNeverHasNonDigits(typedNew: string, typedConfirm: string)
    ensures CheckPinForm(PinInput.Sanitize(typedNew), PinInput.Sanitize(typedConfirm)) != Some(NotDigits)
    ensures CheckPinForm(PinInput.Sanitize(typedNew), PinInput.Sanitize(typedConfirm)) != Some(BadLength) <==>
      PinInput.Sanitize(typedNew) == "" || PinInput.Sanitize(typedConfirm) == "" ||
      |PinInput.Sanitize(typedNew)| >= MinPinLength
  {
  }

  /**
   * `handleLogin`. With a field empty nothing happens. Otherwise the remote
   * sign-in is awaited: on success the PIN setup is shown exactly when no
   * offline PIN is stored (loading stays on, the redirect is done
   * elsewhere); on failure the error message, or a fallback, is shown and
   * loading stops. A storage fault in the PIN check after a successful
   * sign-in (`readFault`) lands in the same `catch` and shows the same way.
   * The store is only read.
   */
  method HandleLogin(s: LoginState, store: OfflinePinStore, signIn: SignIn, readFault: Option<string>)
    returns (t: LoginState, contacted: bool)
    ensures s.email == "" || s.password == "" ==> t == s && !contacted
    ensures s.email != "" && s.password != "" ==>
      contacted &&
      t.email == s.email && t.password == s.password &&
      t.newPin == s.newPin && t.confirmPin == s.confirmPin &&
      t.pinError == s.pinError && t.savingPin == s.savingPin
    ensures s.email != "" && s.password != "" && signIn == SignedIn && readFault.None? ==>
      t.loading && t.error == None &&
      (t.showPinSetup <==> s.showPinSetup || !HasPin(store.stored))
    ensures s.email != "" && s.password != "" && signIn == SignedIn && readFault.Some? ==>
      !t.loading && t.showPinSetup == s.showPinSetup &&
      t.error == Some(if readFault.value != "" then readFault.value else InvalidCredentials)
    ensures s.email != "" && s.password != "" && signIn.SignInError? ==>
      !t.loading && t.showPinSetup == s.showPinSetup &&
      t.error == Some(if signIn.message != "" then signIn.message else InvalidCredentials)
    ensures contacted && t.error.Some? ==> t.error.value != ""
  {
    t := s;
    contacted := false;
    if s.email == "" || s.password == "" {
      return;
    }
    t := t.(loading := true);
    t := t.(error := None);
    contacted := true;
    match signIn
    case SignInError(message) =>
      t := t.(error := Some(OrElse(message, InvalidCredentials)));
      t := t.(loading := false);
    case SignedIn =>
      var hasPinAlready := store.HasOfflinePin(readFault);
      match hasPinAlready {
        case Ok(present) =>
          if !present {
            t := t.(showPinSetup := true);
          }
        case Err(message) =>
          t := t.(error := Some(OrElse(message, InvalidCredentials)));
          t := t.(loading := false);
      }
  }

  /**
   * `handleSaveOfflinePin`. The validation chain runs first; a refusal sets
   * its message and never reaches the store. A PIN that passes is saved:
   * on success the setup is hidden and both fields are cleared; if the save
   * throws, its message (or a fallback) is shown and the fields are kept.
   * Either way `savingPin` ends false.
   */
  method HandleSaveOfflinePin(s: LoginState, store: OfflinePinStore, salt: Salt, writeFault: Option<string>)
    returns (t: LoginState, attempted: bool)
    requires store.Valid()
    modifies store
    ensures CheckPinForm(s.newPin, s.confirmPin).Some? ==>
      !attempted && store.stored == old(store.stored) &&
      t == s.(pinError := Some(RejectionMessage(CheckPinForm(s.newPin, s.confirmPin).value)))
    ensures CheckPinForm(s.newPin, s.confirmPin).None? ==> attempted && !t.savingPin
    ensures CheckPinForm(s.newPin, s.confirmPin).None? && writeFault.None? ==>
      store.stored == Some(store.hash(s.newPin, BcryptCost, salt)) &&
      t == s.(pinError := None, showPinSetup := false, newPin := "", confirmPin := "", savingPin := false) &&
      HasPin(store.stored) && Verify(store.stored, store.compare, s.newPin)
    ensures CheckPinForm(s.newPin, s.confirmPin).None? && writeFault.Some? ==>
      store.stored == old(store.stored) &&
      t == s.(pinError := Some(OrElse(writeFault.value, SavePinFallback)), savingPin := false)
  {
    t := s.(pinError := None);
    attempted := false;
    var rejection := CheckPinForm(s.newPin, s.confirmPin);
    if rejection.Some? {
      t := t.(pinError := Some(RejectionMessage(rejection.value)));
      return;
    }
    FormCheckImpliesStoreAccepts(s.newPin, s.confirmPin);
    t := t.(savingPin := true);
    attempted := true;
    var saved := store.SetOfflinePin(s.newPin, salt, writeFault);
    match saved {
      case Done =>
        t := t.(showPinSetup := false);
        t := t.(newPin := "");
        t := t.(confirmPin := "");
      case Failed(e) =>
        t := t.(pinError := Some(OrElse(Message(e), SavePinFallback)));
    }
    t := t.(savingPin := false);
  }
}
