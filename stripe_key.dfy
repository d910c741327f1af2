/**
 * The secret-key sanitiser of the checkout route (`cleanStripeKey` in
 * app/api/checkout/route.ts): normalise the configured key, then insist on a
 * minimum length and on a test or live prefix.
 *
 * The normalisation is a chain of four rewrites (trim, strip surrounding
 * quotes, drop whitespace, keep only `[A-Za-z0-9_-]`). The first three only
 * remove characters that the fourth removes anyway, so the whole chain is the
 * last filter alone (`Normalise`'s contract). Everything else here follows
 * from that.
 */
module StripeKey {
  import opened Wrappers
  import opened Text

  const MinKeyLength: nat := 20
  const TestPrefix := "sk_test_"
  const LivePrefix := "sk_live_"

  /** `.replace(/^["']+|["']+$/g, '')`: the leading and the trailing run of quotes go. */
  function StripQuotes(s: string): string {
    DropWhileEnd(IsQuote, DropWhile(IsQuote, s))
  }

  /** `.replace(/[\s\r\n\t]/g, '')` */
  function RemoveSpaces(s: string): string {
    Filter(NotJsSpace, s)
  }

  /** `.replace(/[^a-zA-Z0-9_-]/g, '')` */
  function KeepKeyChars(s: string): string {
    Filter(IsKeyChar, s)
  }

  /** The normalisation chain of route.ts lines 11-15; it equals its last step alone. */
  function Normalise(raw: string): (k: string)
    ensures k == KeepKeyChars(raw)
  {
    var trimmed := Trim(raw);
    var unquoted := StripQuotes(trimmed);
    var compact := RemoveSpaces(unquoted);
    KeyCharsAreNotRemoved();
    assert KeepKeyChars(compact) == KeepKeyChars(unquoted) by {
      FilterAfterWeakerFilter(IsKeyChar, NotJsSpace, unquoted);
    }
    assert KeepKeyChars(unquoted) == KeepKeyChars(trimmed) by {
      FilterIgnoresDropped(IsKeyChar, IsQuote, trimmed);
      FilterIgnoresDroppedEnd(IsKeyChar, IsQuote, DropWhile(IsQuote, trimmed));
    }
    assert KeepKeyChars(trimmed) == KeepKeyChars(raw) by {
      FilterIgnoresDropped(IsKeyChar, IsJsSpace, raw);
      FilterIgnoresDroppedEnd(IsKeyChar, IsJsSpace, DropWhile(IsJsSpace, raw));
    }
    KeepKeyChars(compact)
  }

  /** Quotes and whitespace are not key characters. */
  lemma KeyCharsAreNotRemoved()
    ensures forall c :: IsQuote(c) ==> !IsKeyChar(c)
    ensures forall c :: IsJsSpace(c) ==> !IsKeyChar(c)
    ensures forall c :: IsKeyChar(c) ==> NotJsSpace(c)
  {
  }

  lemma KeyCharsAreNotControl()
    ensures forall c :: IsKeyChar(c) ==> !IsControl(c)
  {
  }

  predicate HasStripePrefix(k: string) {
    StartsWith(k, TestPrefix) || StartsWith(k, LivePrefix)
  }

  /** What `cleanStripeKey` can return. */
  predicate IsAcceptedKey(k: string) {
    |k| >= MinKeyLength && HasStripePrefix(k) && AllChars(IsKeyChar, k)
  }

  /** The three errors `cleanStripeKey` throws. */
  datatype KeyError = KeyNotSet | KeyTooShort(length: nat) | KeyBadPrefix

  /** The thrown `Error`'s message. */
  function KeyErrorMessage(e: KeyError): string {
    match e
    case KeyNotSet => "STRIPE_SECRET_KEY is not set"
    case KeyTooShort(n) =>
      "Stripe API key appears to be too short (" + NatToString(n) + " chars). Please check your environment variable."
    case KeyBadPrefix => "Invalid Stripe API key format. Key must start with sk_test_ or sk_live_"
  }

  /**
   * `cleanStripeKey`: an empty key is not set; a normalised key shorter than
   * the minimum is too short, whatever its prefix; otherwise the prefix decides.
   */
  function CleanStripeKey(raw: string): (r: Result<string, KeyError>)
    ensures r == Err(KeyNotSet) <==> raw == []
    ensures raw != [] && |KeepKeyChars(raw)| < MinKeyLength ==> r == Err(KeyTooShort(|KeepKeyChars(raw)|))
    ensures r.Ok? <==> raw != [] && |KeepKeyChars(raw)| >= MinKeyLength && HasStripePrefix(KeepKeyChars(raw))
    ensures raw != [] && |KeepKeyChars(raw)| >= MinKeyLength && !HasStripePrefix(KeepKeyChars(raw)) ==> r == Err(KeyBadPrefix)
    ensures r.Ok? ==> r.value == KeepKeyChars(raw) && IsAcceptedKey(r.value)
  {
    if raw == [] then Err(KeyNotSet)
    else
      var cleaned := Normalise(raw);
      if |cleaned| < MinKeyLength then Err(KeyTooShort(|cleaned|))
      else if !HasStripePrefix(cleaned) then Err(KeyBadPrefix)
      else Ok(cleaned)
  }

  /** `/[\x00-\x1F\x7F]/.test(k)`, also `/[\r\n\t\x00-\x1F\x7F]/.test(k)` */
  predicate HasControlChar(k: string) {
    exists i :: 0 <= i < |k| && IsControl(k[i])
  }

  /**
   * The normalised key holds no quote, no whitespace and no control
   * character, so the two header checks of route.ts lines 75-90 never throw.
   */
  lemma NormalisedKeyIsHeaderSafe(raw: string)
    ensures AllChars(IsKeyChar, Normalise(raw))
    ensures !HasControlChar(Normalise(raw))
    ensures forall i :: 0 <= i < |Normalise(raw)| ==> !IsQuote(Normalise(raw)[i]) && !IsJsSpace(Normalise(raw)[i])
  {
    var k := KeepKeyChars(raw);
    KeyCharsAreNotRemoved();
    KeyCharsAreNotControl();
    forall i | 0 <= i < |k|
      ensures !IsControl(k[i]) && !IsQuote(k[i]) && !IsJsSpace(k[i])
    {
      assert IsKeyChar(k[i]);
    }
  }

  /** Normalising twice is normalising once. */
  lemma NormaliseIdempotent(raw: string)
    ensures Normalise(Normalise(raw)) == Normalise(raw)
  {
    FilterKeepsAll(IsKeyChar, Normalise(raw));
  }

  /** An accepted key is accepted again, unchanged. */
  lemma AcceptedKeyIsFixpoint(k: string)
    requires IsAcceptedKey(k)
    ensures CleanStripeKey(k) == Ok(k)
  {
    FilterKeepsAll(IsKeyChar, k);
  }

  /**
   * Wrapping a key in characters outside `[A-Za-z0-9_-]` (whitespace, quotes,
   * line breaks, in any mix) does not change the outcome.
   */
  lemma {:induction false} WrappingIsIgnored(before: string, key: string, after: string)
    requires key != []
    requires forall i :: 0 <= i < |before| ==> !IsKeyChar(before[i])
    requires forall i :: 0 <= i < |after| ==> !IsKeyChar(after[i])
    ensures CleanStripeKey(before + key + after) == CleanStripeKey(key)
  {
    FilterConcat(IsKeyChar, before + key, after);
    FilterConcat(IsKeyChar, before, key);
    FilterNone(before);
    FilterNone(after);
    assert KeepKeyChars(before + key + after) == KeepKeyChars(key);
    assert before + key + after != [];
  }

  lemma {:induction false} FilterNone(s: string)
    requires forall i :: 0 <= i < |s| ==> !IsKeyChar(s[i])
    ensures KeepKeyChars(s) == []
  {
    if s != [] {
      FilterNone(s[1..]);
    }
  }

  // ---------------------------------------------------------------------------
  // The bearer credential (section 2.1 of RFC 6750)
  // ---------------------------------------------------------------------------

  /** ALPHA / DIGIT / "-" / "." / "_" / "~" / "+" / "/" */
  predicate IsB64TokenChar(c: char) {
    IsAsciiLetter(c) || IsAsciiDigit(c) || c == '-' || c == '.' || c == '_' || c == '~' || c == '+' || c == '/'
  }

  predicate IsEqualsSign(c: char) {
    c == '='
  }

  /** b64token = 1*( ALPHA / DIGIT / "-" / "." / "_" / "~" / "+" / "/" ) *"=" */
  predicate IsB64Token(s: string) {
    var body := DropWhileEnd(IsEqualsSign, s);
    body != [] && AllChars(IsB64TokenChar, body)
  }

  /** The Authorization header value sent to Stripe (route.ts line 163). */
  function BearerCredentials(key: string): string {
    "Bearer " + key
  }

  /** An accepted key is a b64token, so the header is `"Bearer" SP b64token`. */
  lemma AcceptedKeyIsB64Token(k: string)
    requires IsAcceptedKey(k)
    ensures IsB64Token(k)
    ensures BearerCredentials(k)[..7] == "Bearer " && BearerCredentials(k)[7..] == k
    ensures !HasControlChar(BearerCredentials(k))
  {
    assert k[|k| - 1] != '=';
    assert DropWhileEnd(IsEqualsSign, k) == k;
    var h := BearerCredentials(k);
    forall i | 0 <= i < |h|
      ensures !IsControl(h[i])
    {
      if i >= 7 {
        assert h[i] == k[i - 7];
      }
    }
  }
}
