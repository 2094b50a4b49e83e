/**
 * The submit handler of the offline unlock screen: one step over the
 * screen's state fields that asks the store to verify the typed PIN and
 * calls the unlock callback on a match.
 */
module OfflineUnlock {
  import opened Common
  import opened OfflinePin

  /** The screen's React state fields. */
  datatype UnlockState = UnlockState(pin: string, error: Option<string>, loading: bool)

  const EnterPin: string := "Insira o PIN"
  const InvalidPin: string := "PIN inválido"
  const VerifyFallback: string := "Erro ao verificar PIN"

  /**
   * `handleSubmit`. An empty field is refused locally without asking the
   * store. Otherwise the error is cleared, loading starts and the store
   * verifies the PIN: a mismatch shows "PIN inválido", empties the field and
   * stops loading; a match calls `onUnlocked` once; a thrown error shows its
   * message (or a fallback), keeps the field and stops loading. The callback
   * runs inside the same `try`, so if it throws (`callbackFault`) its
   * message is shown the same way, after the one call.
   * `unlockCalls` counts the calls of `onUnlocked`.
   */
  method HandleSubmit(s: UnlockState, store: OfflinePinStore, readFault: Option<string>, callbackFault: Option<string>)
    returns (t: UnlockState, askedStore: bool, unlockCalls: nat)
    ensures s.pin == "" ==> t == s.(error := Some(EnterPin)) && !askedStore && unlockCalls == 0
    ensures s.pin != "" ==> askedStore
    ensures s.pin != "" && readFault.None? && Verify(store.stored, store.compare, s.pin) ==> unlockCalls == 1
    ensures s.pin != "" && readFault.None? && Verify(store.stored, store.compare, s.pin) && callbackFault.None? ==>
      t == s.(error := None, loading := true)
    ensures s.pin != "" && readFault.None? && Verify(store.stored, store.compare, s.pin) && callbackFault.Some? ==>
      t == s.(error := Some(OrElse(callbackFault.value, VerifyFallback)), loading := false)
    ensures s.pin != "" && readFault.None? && !Verify(store.stored, store.compare, s.pin) ==>
      t == UnlockState("", Some(InvalidPin), false) && unlockCalls == 0
    ensures s.pin != "" && readFault.Some? ==>
      t == s.(error := Some(OrElse(readFault.value, VerifyFallback)), loading := false) && unlockCalls == 0
    ensures unlockCalls <= 1
    ensures unlockCalls == 1 ==>
      s.pin != "" && HasPin(store.stored) && store.compare(s.pin, store.stored.value) == Compared(true)
  {
    t := s;
    askedStore := false;
    unlockCalls := 0;
    if s.pin == "" {
      t := t.(error := Some(EnterPin));
      return;
    }
    t := t.(loading := true);
    t := t.(error := None);
    askedStore := true;
    var verdict := store.VerifyOfflinePin(s.pin, readFault);
    match verdict {
      case Ok(isValid) =>
        if !isValid {
          t := t.(error := Some(InvalidPin));
          t := t.(pin := "");
          t := t.(loading := false);
          return;
        }
        unlockCalls := unlockCalls + 1;
        if callbackFault.Some? {
          t := t.(error := Some(OrElse(callbackFault.value, VerifyFallback)));
          t := t.(loading := false);
        }
      case Err(message) =>
        t := t.(error := Some(OrElse(message, VerifyFallback)));
        t := t.(loading := false);
    }
  }
}
