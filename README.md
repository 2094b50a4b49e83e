# Offline PIN credential store, in Dafny

This project models the offline-unlock part of a small web login flow.
A user who once signed in against the remote identity service can set a
4 to 8 digit PIN. Later, when the service cannot be reached, the user can
re-enter the app with that PIN.

- `OfflinePin` (file `offline_pin.dfy`) is the credential store. It is a
  class over one persistent storage slot, the key `ame-offline-pin-hash`.
  The slot is the field `stored: Option<string>`. Its operations are
  `HasOfflinePin`, `SetOfflinePin` (validate, hash, overwrite),
  `VerifyOfflinePin` and `ClearOfflinePin`.
- bcrypt is modelled by two function values held by the store: `hash`
  (`hashSync`, with the cost 10 and the random salt as arguments) and
  `compare` (`compareSync`, which may answer or throw). The model assumes
  one thing about them, `HasherSound`: the hash of a valid PIN is a
  non-empty string, and it compares equal to that PIN. The lemmas about a
  wrong PIN also assume `Discriminating`: the hash of one valid PIN never
  matches another one. bcrypt does not promise this.
- `PinInput` (file `pin_input.dfy`) is the keystroke filter shared by every
  PIN field: `replace(/\D/g, '').slice(0, 8)`.
- `Login` (file `login.dfy`) holds the login page's two submit handlers,
  `HandleLogin` and `HandleSaveOfflinePin`. Each is one step over a record
  of the page's state fields.
- `OfflineUnlock` (file `offline_unlock.dfy`) holds the unlock screen's
  `HandleSubmit`. It counts how often the `onUnlocked` callback is called.
- `Scenarios` (file `scenarios.dfy`) chains the store and the handlers in
  three scenarios. In the first, a first login sets up the PIN "4821". In
  the second, "1357" is stored; it unlocks and "0000" is rejected. In the
  third, the PIN is cleared twice.
- PIN lengths are JavaScript's `length`, in UTF-16 code units
  (`Common.Utf16Length`). A character above U+FFFF counts twice.

The model also takes these inputs:

- The outcome of the remote sign-in (`SignIn`).
- The bcrypt salt.
- A possible fault from `localStorage.setItem` (`writeFault`). Its message
  reaches the catch block of `handleSaveOfflinePin`.
- A possible fault from `localStorage.getItem` in `verifyOfflinePin`
  (`readFault`). That read sits outside the `try`, so the fault rejects
  the call and reaches the catch block of `handleSubmit`.
- A possible fault from `localStorage.getItem` in `hasOfflinePin`
  (`readFault`). `hasOfflinePin` does not catch it. After a successful
  sign-in it reaches the catch block of `handleLogin` and shows as a login
  error.
- A possible throw from the `onUnlocked` callback (`callbackFault`). The
  callback runs inside the same `try`, so its message reaches that catch
  block too.

Three behaviours of the code are easy to miss, and the model keeps them:

- A store fault reaching the unlock screen shows the fault's own message.
  It is not replaced by a generic text.
- `hasOfflinePin` does not catch storage faults. It does not treat an
  unreadable storage as "no PIN".
- `!!hash` treats a stored empty string as "no PIN".

## Model

| member | source | states |
|---|---|---|
| `Common.Utf16Length` | src/offline/offlinePin.ts:19 | JavaScript's `length` is at least the number of characters and at most twice it, and equals it for a digit string |
| `OfflinePin.ValidatePin` | src/offline/offlinePin.ts:19-24 | a PIN is accepted iff it is 4 to 8 characters, all decimal digits; the length error holds iff the UTF-16 length is outside 4 to 8, which covers the empty PIN and non-digit PINs of the wrong length; the digit error holds iff the UTF-16 length is right and some character is not a digit |
| `OfflinePin.AstralCharCountsTwice` | src/offline/offlinePin.ts:19-23 | "12" followed by an emoji is 4 code units and gets the digit error; seven digits followed by an emoji are 9 code units and get the length error |
| `OfflinePin.Verify` | src/offline/offlinePin.ts:36-48 | a PIN verifies iff the slot holds a non-empty hash and the comparison answers "match"; a comparison fault counts as a mismatch |
| `OfflinePin.StoredPinVerifies` | src/offline/offlinePin.ts:27-43 | the slot a successful save writes counts as holding a PIN, and the saved PIN verifies against it |
| `OfflinePin.OverwriteForgetsEarlierPin` | src/offline/offlinePin.ts:27-28 | after a second PIN overwrites the slot, the second verifies and the first no longer does (collision-free hasher) |
| `OfflinePin.EmptySlotRejects` | src/offline/offlinePin.ts:37-40 | an absent slot and an empty string both reject every PIN, whatever the comparer would say |
| `OfflinePin.OfflinePinStore.constructor` | src/offline/offlinePin.ts:3 | the store starts over whatever the slot persisted from an earlier session, with a sound hasher |
| `OfflinePin.OfflinePinStore.HasOfflinePin` | src/offline/offlinePin.ts:8-11 | a storage read fault makes the call throw; otherwise the answer is `HasPin` of the slot: true iff the slot holds a non-empty string; the slot is not written |
| `OfflinePin.OfflinePinStore.SetOfflinePin` | src/offline/offlinePin.ts:17-29 | a rejected PIN fails with its validation error and leaves the slot unchanged; a failed write leaves the slot unchanged; otherwise the slot holds the new hash, overwriting any earlier one, and afterwards a PIN is present and the saved PIN verifies |
| `OfflinePin.OfflinePinStore.VerifyOfflinePin` | src/offline/offlinePin.ts:36-48 | a storage read fault rejects the call; otherwise the answer is `Verify` of the slot, so it is false without a stored hash and false on a comparison fault; "true" only if a PIN is stored and the comparer matched; the slot is not written |
| `OfflinePin.OfflinePinStore.ClearOfflinePin` | src/offline/offlinePin.ts:53-55 | the slot is absent afterwards, whatever it held, so clearing twice equals clearing once; no PIN is present and none verifies |
| `PinInput.KeepDigits` | pages/Login.tsx:127 | removing non-digits yields only digits and never lengthens the value |
| `PinInput.Sanitize` | components/OfflineUnlock.tsx:73 | the filtered value holds only digits and is at most 8 long; it is all of the value's digits when there are at most 8, and exactly the first 8 of them otherwise |
| `PinInput.KeepDigitsFixpoint` | pages/Login.tsx:127 | removing non-digits leaves a string unchanged iff it is all digits |
| `PinInput.KeepDigitsAppend` | pages/Login.tsx:142 | the digit filter distributes over concatenation, so the digits keep their order |
| `PinInput.SanitizeFixpoint` | pages/Login.tsx:142 | the filter leaves a value unchanged iff it is all digits and at most 8 long |
| `PinInput.SanitizeIdempotent` | components/OfflineUnlock.tsx:73 | filtering twice equals filtering once |
| `PinInput.SanitizeKeystroke` | components/OfflineUnlock.tsx:73 | typing a character at the end of a filtered field appends it iff it is a digit and the field has fewer than 8 characters; otherwise the field is unchanged |
| `Common.OrElse` | pages/Login.tsx:48 | `message \|\| fallback` yields one of the two, and is never empty when the fallback is not |
| `Login.CheckPinForm` | pages/Login.tsx:57-76 | the save form passes iff the new PIN is valid and equals the confirmation; each refusal holds exactly when the earlier tests pass and its own fails, in the order missing field, length (in UTF-16 code units), non-digit, mismatch |
| `Login.FormCheckImpliesStoreAccepts` | pages/Login.tsx:63-71 | a PIN that passes the form is never refused by the store's own validation |
| `Login.FilteredFormNeverHasNonDigits` | pages/Login.tsx:68-71 | when both fields come through the keystroke filter, the non-digit refusal never fires, and the length refusal fires only for a filled but short PIN |
| `Login.HandleLogin` | pages/Login.tsx:25-51 | an empty e-mail or password changes nothing and contacts nothing; on sign-in success with readable storage, loading stays on, the error is cleared and the PIN setup is shown iff it already was or no PIN is stored; if the sign-in fails, or the PIN check then throws, the error is the thrown message (the provider's or the storage fault's) or "Credenciais inválidas" if that is empty, loading stops and the setup flag is unchanged; the PIN fields are untouched |
| `Login.HandleSaveOfflinePin` | pages/Login.tsx:53-91 | a form refusal sets its specific message, does not call the store, and leaves the slot and every other field unchanged; after a successful save the setup is hidden, both fields are emptied and the PIN verifies; when the save throws, its message or "Erro ao salvar PIN" is shown and the fields are kept; `savingPin` ends false on every path that passed validation |
| `OfflineUnlock.HandleSubmit` | components/OfflineUnlock.tsx:13-38 | an empty PIN sets "Insira o PIN" without asking the store and leaves loading as it was; a match calls `onUnlocked` exactly once, and afterwards the error is cleared and loading is on, unless the callback threw, in which case its message or a fallback is shown and loading stops; a mismatch sets "PIN inválido", empties the field, stops loading and calls nothing; a thrown error shows its message or a fallback, keeps the field, stops loading and calls nothing; `onUnlocked` is called only if a PIN is stored and the comparer matched the typed PIN |
| `Scenarios.FirstLoginSetsUpPin` | pages/Login.tsx:25-91 | a first login without a PIN, followed by typing "4821" in both fields and saving it once, ends with the setup hidden, the fields emptied and "4821" verifying |
| `Scenarios.UnlockWithStoredPin` | components/OfflineUnlock.tsx:13-38 | with "1357" stored, submitting "1357" unlocks once, while "0000" is refused, empties the field and unlocks nothing |
| `Scenarios.ClearTwiceLocksOut` | src/offline/offlinePin.ts:53-55 | after two clears the slot is absent and no submitted PIN unlocks |

## Left out

- bcrypt internals, the random salt and salt freshness are left out. The hasher is abstract: the salt is an argument and only `HasherSound` is assumed. The model does not claim that two hashes of the same PIN differ.
- `OfflinePin.OverwriteForgetsEarlierPin`: needs the `Discriminating` hypothesis. bcrypt does not guarantee that one PIN's hash never matches another PIN.
- `OfflinePin.OfflinePinStore.ClearOfflinePin`: does not model a fault of `localStorage.removeItem`.
- Storage is one `Option<string>` field for the single key. Other keys, quota limits and the browser storage API are not part of this model, except the write fault and the read fault described above.
- Logging with `console.error` is left out. It has no effect on state.
- The remote identity service and its client configuration (`lib/supabaseClient.ts`) are not part of this model. The sign-in result is an input.
- React rendering, toasts (`showToast`), navigation, `onGoToSignup` and `preventDefault` are presentation only.
- async/await is left out. Each handler is one sequential step. The React state setters are modelled as updates applied in order to a record.
- There is no rate limit or lockout on offline attempts. The code has none, so the model has none.
