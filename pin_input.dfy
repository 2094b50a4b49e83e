/**
 * The keystroke filter that every PIN field of the login page and of the
 * offline unlock screen applies in its `onChange` handler:
 * `value.replace(/\D/g, '').slice(0, 8)`.
 */
module PinInput {
  import opened Common

  /** The `slice(0, 8)` bound of a PIN field. */
  const FieldLimit: nat := 8

  /** `replace(/\D/g, '')`: every character that is not a decimal digit is dropped. */
  function KeepDigits(s: string): (r: string)
    ensures |r| <= |s|
    ensures AllDigits(r)
  {
    if s == [] then []
    else if IsDigit(s[0]) then [s[0]] + KeepDigits(s[1..])
    else KeepDigits(s[1..])
  }

  /** The whole filter: the digits of the typed value, cut to the first eight. */
  function Sanitize(s: string): (r: string)
    ensures AllDigits(r) && |r| <= FieldLimit
    ensures r <= KeepDigits(s)
    ensures |KeepDigits(s)| <= FieldLimit ==> r == KeepDigits(s)
    ensures |KeepDigits(s)| > FieldLimit ==> r == KeepDigits(s)[..FieldLimit]
  {
    var digits := KeepDigits(s);
    if |digits| <= FieldLimit then digits else digits[..FieldLimit]
  }

  /** Removing non-digits changes a string exactly when it holds a non-digit. */
  lemma {:induction false} KeepDigitsFixpoint(s: string)
    ensures KeepDigits(s) == s <==> AllDigits(s)
  {
    if s != [] && AllDigits(s) {
      assert AllDigits(s[1..]) by {
        forall i | 0 <= i < |s[1..]| ensures IsDigit(s[1..][i]) {
          assert s[1..][i] == s[i + 1];
        }
      }
      KeepDigitsFixpoint(s[1..]);
      assert IsDigit(s[0]);
      assert [s[0]] + s[1..] == s;
    }
  }

  /** The filter works character by character: it distributes over concatenation, so the digits keep their order. */
  lemma {:induction false} KeepDigitsAppend(a: string, b: string)
    ensures KeepDigits(a + b) == KeepDigits(a) + KeepDigits(b)
  {
    if a == [] {
      assert a + b == b;
    } else {
      assert (a + b)[0] == a[0];
      assert (a + b)[1..] == a[1..] + b;
      KeepDigitsAppend(a[1..], b);
    }
  }

  /** The strings the filter leaves alone are exactly the digit strings of at most eight characters. */
  lemma SanitizeFixpoint(s: string)
    ensures Sanitize(s) == s <==> AllDigits(s) && |s| <= FieldLimit
  {
    KeepDigitsFixpoint(s);
  }

  /** Filtering an already filtered value changes nothing. */
  lemma SanitizeIdempotent(s: string)
    ensures Sanitize(Sanitize(s)) == Sanitize(s)
  {
    SanitizeFixpoint(Sanitize(s));
  }

  /**
   * One keystroke at the end of a field that holds a filtered value: a digit
   * is appended while the field is shorter than eight, anything else is
   * ignored.
   */
  lemma SanitizeKeystroke(v: string, c: char)
    requires Sanitize(v) == v
    ensures Sanitize(v + [c]) == if IsDigit(c) && |v| < FieldLimit then v + [c] else v
  {
    SanitizeFixpoint(v);
    KeepDigitsFixpoint(v);
    KeepDigitsAppend(v, [c]);
    assert KeepDigits([c]) == if IsDigit(c) then [c] else [] by {
      assert [c][1..] == [];
    }
    if IsDigit(c) && |v| == FieldLimit {
      assert (v + [c])[..FieldLimit] == v;
    }
  }
}
