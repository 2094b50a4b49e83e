/**
 * End-to-end scenarios of the store and the two handlers, written as client
 * methods that can rely only on the contracts of what they call.
 */
module Scenarios {
  import opened Common
  import opened OfflinePin
  import opened Login
  import opened OfflineUnlock

  /**
   * First login on a device without a PIN: the remote sign-in succeeds, the
   * PIN setup is shown, "4821" is typed twice and saved; afterwards the
   * setup is hidden and the store holds a PIN that "4821" unlocks.
   */
  method FirstLoginSetsUpPin(store: OfflinePinStore, salt: Salt)
    returns (t: LoginState)
    requires store.Valid()
    requires !HasPin(store.stored)
    modifies store
    ensures !t.showPinSetup && t.newPin == "" && t.confirmPin == "" && t.pinError == None
    ensures HasPin(store.stored) && Verify(store.stored, store.compare, "4821")
  {
    var start := LoginState("ana@example.com", "segredo", false, None, false, "", "", None, false);
    var afterLogin, contacted := HandleLogin(start, store, SignedIn, None);
    assert afterLogin.showPinSetup;
    var typed := afterLogin.(newPin := "4821", confirmPin := "4821");
    assert IsValidPin("4821") by {
      assert forall i :: 0 <= i < 4 ==> IsDigit("4821"[i]);
    }
    var attempted;
    t, attempted := HandleSaveOfflinePin(typed, store, salt, None);
  }

  /**
   * Offline unlock with the stored PIN "1357": typing "1357" calls the
   * unlock callback exactly once; typing "0000" (with a collision-free
   * hasher) is refused, empties the field and calls nothing.
   */
  method UnlockWithStoredPin(store: OfflinePinStore, salt: Salt)
    returns (right: UnlockState, rightCalls: nat, wrong: UnlockState, wrongCalls: nat)
    requires store.Valid() && Discriminating(store.hash, store.compare)
    modifies store
    ensures rightCalls == 1 && right.error == None
    ensures wrongCalls == 0 && wrong == UnlockState("", Some(InvalidPin), false)
  {
    assert IsValidPin("1357") by {
      assert forall i :: 0 <= i < 4 ==> IsDigit("1357"[i]);
    }
    assert IsValidPin("0000") by {
      assert forall i :: 0 <= i < 4 ==> IsDigit("0000"[i]);
    }
    var saved := store.SetOfflinePin("1357", salt, None);
    var asked;
    right, asked, rightCalls := HandleSubmit(UnlockState("1357", None, false), store, None, None);
    assert store.compare("0000", store.hash("1357", BcryptCost, salt)) != Compared(true);
    wrong, asked, wrongCalls := HandleSubmit(UnlockState("0000", None, false), store, None, None);
  }

  /** Clearing the PIN, once or twice, leaves a store in which nothing unlocks. */
  method ClearTwiceLocksOut(store: OfflinePinStore, pin: string) returns (calls: nat)
    modifies store
    ensures store.stored == None
    ensures calls == 0
  {
    store.ClearOfflinePin();
    store.ClearOfflinePin();
    var t, asked;
    t, asked, calls := HandleSubmit(UnlockState(pin, None, false), store, None, None);
  }
}
