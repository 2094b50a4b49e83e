/**
 * The offline PIN credential store: one persistent storage slot, under the
 * key `ame-offline-pin-hash`, that holds the bcrypt hash of a 4 to 8 digit
 * PIN. The slot is a field of a class; bcrypt is a pair of function values
 * (`hash`, `compare`) about which only one thing is assumed: a hash of a
 * valid PIN is non-empty and compares equal to that PIN.
 */
module OfflinePin {
  import opened Common

  /** The work factor passed to `bcrypt.hashSync`. */
  const BcryptCost: nat := 10

  const MinPinLength: nat := 4
  const MaxPinLength: nat := 8

  /** The random salt bcrypt draws for every hash; an input of the model. */
  type Salt = string

  /** What `bcrypt.compareSync` does: answer, or throw (corrupted hash, internal failure). */
  datatype Comparison = Compared(matches: bool) | CompareFault(message: string)

  /** `hashSync(pin, cost)` with its salt made explicit. */
  type Hasher = (string, nat, Salt) -> string

  /** `compareSync(pin, hash)`. */
  type Comparer = (string, string) -> Comparison

  /** The one property of bcrypt the model relies on. */
  ghost predicate HasherSound(hash: Hasher, compare: Comparer) {
    forall pin, salt :: IsValidPin(pin) ==>
      hash(pin, BcryptCost, salt) != "" && compare(pin, hash(pin, BcryptCost, salt)) == Compared(true)
  }

  /**
   * No collisions among valid PINs: a hash of one PIN never matches another.
   * bcrypt does not guarantee this; it is only a hypothesis of the lemmas
   * that need it.
   */
  ghost predicate Discriminating(hash: Hasher, compare: Comparer) {
    forall pin, other, salt :: IsValidPin(pin) && IsValidPin(other) && pin != other ==>
      compare(other, hash(pin, BcryptCost, salt)) != Compared(true)
  }

  /** The shape of a PIN the store accepts: 4 to 8 characters, each a decimal digit. */
  predicate IsValidPin(pin: string) {
    MinPinLength <= |pin| <= MaxPinLength && AllDigits(pin)
  }

  /** `/^\d+$/.test(pin)`: at least one character, all of them digits. */
  predicate MatchesDigitPattern(pin: string) {
    |pin| > 0 && AllDigits(pin)
  }

  /** The errors `setOfflinePin` throws. */
  datatype PinError =
    | LengthOutOfRange
    | NotOnlyDigits
    | WriteFailed(message: string)  // `localStorage.setItem` threw

  /** The `message` of the thrown `Error`. */
  function Message(e: PinError): string {
    match e
    case LengthOutOfRange => "PIN deve ter entre 4 e 8 dígitos"
    case NotOnlyDigits => "PIN deve conter apenas números"
    case WriteFailed(m) => m
  }

  /**
   * The validation at the head of `setOfflinePin`: the length test (which
   * also catches the empty PIN) runs before the digit test. Lengths are
   * JavaScript's, in UTF-16 code units.
   */
  function ValidatePin(pin: string): (r: Option<PinError>)
    ensures r == None <==> IsValidPin(pin)
    ensures r == Some(LengthOutOfRange) <==> !(MinPinLength <= Utf16Length(pin) <= MaxPinLength)
    ensures r == Some(NotOnlyDigits) <==>
      MinPinLength <= Utf16Length(pin) <= MaxPinLength && exists i :: 0 <= i < |pin| && !IsDigit(pin[i])
  {
    if pin == "" || Utf16Length(pin) < MinPinLength || Utf16Length(pin) > MaxPinLength then Some(LengthOutOfRange)
    else if !MatchesDigitPattern(pin) then Some(NotOnlyDigits)
    else None
  }

  /**
   * A character outside the Basic Multilingual Plane counts twice in the
   * length test: "12" followed by an emoji is four units long and fails the
   * digit test, and seven digits followed by an emoji are nine units long
   * and fail the length test.
   */
  lemma AstralCharCountsTwice()
    ensures ValidatePin("12\U{1F600}") == Some(NotOnlyDigits)
    ensures ValidatePin("1234567\U{1F600}") == Some(LengthOutOfRange)
  {
  }

  /** `!!localStorage.getItem(key)`: an absent key and an empty string both count as no PIN. */
  predicate HasPin(slot: Option<string>) {
    slot.Some? && slot.value != ""
  }

  /**
   * What `verifyOfflinePin` answers for a slot once storage has been read:
   * false without a stored hash, false when the comparison throws, the
   * comparison's answer otherwise.
   */
  function Verify(slot: Option<string>, compare: Comparer, pin: string): (ok: bool)
    ensures ok <==> HasPin(slot) && compare(pin, slot.value) == Compared(true)
  {
    if !HasPin(slot) then false
    else
      match compare(pin, slot.value)
      case Compared(m) => m
      case CompareFault(_) => false
  }

  /** The slot written by a successful save of a valid PIN holds a PIN, and that PIN verifies. */
  lemma StoredPinVerifies(hash: Hasher, compare: Comparer, pin: string, salt: Salt)
    requires HasherSound(hash, compare)
    requires IsValidPin(pin)
    ensures HasPin(Some(hash(pin, BcryptCost, salt)))
    ensures Verify(Some(hash(pin, BcryptCost, salt)), compare, pin)
  {
  }

  /**
   * Saving a second PIN leaves only that one verifiable: the first no longer
   * matches (given a collision-free hasher).
   */
  lemma OverwriteForgetsEarlierPin(hash: Hasher, compare: Comparer, first: string, second: string, salt: Salt)
    requires HasherSound(hash, compare) && Discriminating(hash, compare)
    requires IsValidPin(first) && IsValidPin(second) && first != second
    ensures Verify(Some(hash(second, BcryptCost, salt)), compare, second)
    ensures !Verify(Some(hash(second, BcryptCost, salt)), compare, first)
  {
  }

  /** With nothing stored, or an empty string stored, no PIN verifies, whatever the comparer says. */
  lemma EmptySlotRejects(compare: Comparer, pin: string)
    ensures !Verify(None, compare, pin)
    ensures !Verify(Some(""), compare, pin)
  {
  }

  /** The store over the `ame-offline-pin-hash` slot of persistent local storage. */
  class OfflinePinStore {
    /** The value stored under the key `ame-offline-pin-hash`: `None` when the key is absent. */
    var stored: Option<string>
    const hash: Hasher
    const compare: Comparer

    ghost predicate Valid() {
      HasherSound(hash, compare)
    }

    /** A store over whatever the slot already holds from an earlier session. */
    constructor (hash: Hasher, compare: Comparer, persisted: Option<string>)
      requires HasherSound(hash, compare)
      ensures Valid()
      ensures this.hash == hash && this.compare == compare && stored == persisted
    {
      this.hash := hash;
      this.compare := compare;
      stored := persisted;
    }

    /**
     * `hasOfflinePin`: reads the slot and never writes it. A fault reading
     * storage is not caught here, so the call throws.
     */
    method HasOfflinePin(readFault: Option<string>) returns (r: Result<bool, string>)
      ensures readFault.Some? ==> r == Err(readFault.value)
      ensures readFault.None? ==> r == Ok(HasPin(stored))
    {
      if readFault.Some? {
        return Err(readFault.value);
      }
      r := Ok(HasPin(stored));
    }

    /**
     * `setOfflinePin`: validates the PIN, hashes it with a fresh salt, and
     * overwrites the slot. A rejected PIN or a failed write leaves the slot
     * as it was.
     */
    method SetOfflinePin(pin: string, salt: Salt, writeFault: Option<string>) returns (r: Outcome<PinError>)
      requires Valid()
      modifies this
      ensures ValidatePin(pin).Some? ==> r == Failed(ValidatePin(pin).value) && stored == old(stored)
      ensures ValidatePin(pin).None? && writeFault.Some? ==>
        r == Failed(WriteFailed(writeFault.value)) && stored == old(stored)
      ensures ValidatePin(pin).None? && writeFault.None? ==>
        r == Done && stored == Some(hash(pin, BcryptCost, salt))
      ensures r.Done? ==> HasPin(stored) && Verify(stored, compare, pin)
    {
      var invalid := ValidatePin(pin);
      if invalid.Some? {
        return Failed(invalid.value);
      }
      var h := hash(pin, BcryptCost, salt);
      if writeFault.Some? {
        return Failed(WriteFailed(writeFault.value));
      }
      stored := Some(h);
      StoredPinVerifies(hash, compare, pin, salt);
      r := Done;
    }

    /**
     * `verifyOfflinePin`: a fault reading storage (outside the `try`) makes
     * the call throw; otherwise the answer is `Verify` of the slot, so a
     * comparison fault reads as a mismatch. The slot is never written.
     */
    method VerifyOfflinePin(pin: string, readFault: Option<string>) returns (r: Result<bool, string>)
      ensures readFault.Some? ==> r == Err(readFault.value)
      ensures readFault.None? ==> r == Ok(Verify(stored, compare, pin))
      ensures r == Ok(true) ==> HasPin(stored) && compare(pin, stored.value) == Compared(true)
    {
      if readFault.Some? {
        return Err(readFault.value);
      }
      r := Ok(Verify(stored, compare, pin));
    }

    /** `clearOfflinePin`: removes the key; the result does not depend on the old slot, so clearing twice is clearing once. */
    method ClearOfflinePin()
      modifies this
      ensures stored == None
      ensures !HasPin(stored)
      ensures forall pin :: !Verify(stored, compare, pin)
    {
      stored := None;
    }
  }
}
