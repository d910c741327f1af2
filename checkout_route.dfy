/**
 * The checkout route (`POST` in app/api/checkout/route.ts): validate the
 * configured secret key, read `{ items, currency, userId }`, build one Stripe
 * line item per item, choose the redirect origin, flatten the session into a
 * form body and send it, then map every failure to a JSON error with status
 * 500 (400 only for missing items).
 *
 * Nothing here performs I/O: the parsed request body, the environment and
 * Stripe's reply are parameters, and the request the route would send is
 * part of the result.
 */
module CheckoutRoute {
  import opened Wrappers
  import opened Text
  import opened StripeKey
  import opened Pricing
  import opened Percent
  import opened FormBody

  // ---------------------------------------------------------------------------
  // Inputs and outputs
  // ---------------------------------------------------------------------------

  /** `process.env`: the secret key, `NEXT_PUBLIC_APP_URL` and `VERCEL_URL`. */
  datatype Env = Env(stripeSecretKey: Option<string>, appUrl: Option<string>, vercelUrl: Option<string>)

  /** The `items` member of the body, as far as `!items || !Array.isArray(items)` can tell. */
  datatype ItemsField = FalsyItems | NotAnArray | ItemArray(items: seq<string>)

  /**
   * The `currency` member: absent (so the default `'brl'` applies), a string,
   * or a value whose `toLowerCase` throws the given message.
   */
  datatype CurrencyField = CurrencyAbsent | CurrencyText(code: string) | CurrencyNotText(typeError: string)

  /** What `await request.json()` and the destructuring give: the fields, or the thrown message. */
  datatype Body =
    | Unreadable(message: string)
    | Parsed(items: ItemsField, currency: CurrencyField, userId: Option<string>)

  /** The request headers the route reads and its body. */
  datatype Request = Request(origin: Option<string>, host: Option<string>, body: Body)

  /**
   * How the call to Stripe ends: a thrown fetch, a response that is not ok,
   * or a created session. An ok response whose `json()` throws (line 223) is
   * written as `Unreachable` with that message, since both reach the catch.
   * An ok response whose JSON lacks `id` or `url`, which the route answers
   * with 200 and `{}`, is not expressible.
   */
  datatype StripeReply =
    | Unreachable(message: string)
    | Rejected(status: nat, statusText: string)
    | Created(sessionId: string, url: string)

  /** The call to `https://api.stripe.com/v1/checkout/sessions`. */
  datatype StripeCall = StripeCall(authorization: string, contentType: string, stripeVersion: string,
                                   form: FormRecord, body: string)

  datatype ResponseBody = SessionCreated(sessionId: string, url: string) | Failure(error: string)

  datatype Response = Response(status: nat, body: ResponseBody)

  /** The response, the call made to Stripe if any, and `process.env` afterwards. */
  datatype Outcome = Outcome(sent: Option<StripeCall>, response: Response, envAfter: Env)

  const MissingKeyMessage := "Stripe configuration error: Secret key is missing"
  const ItemsRequiredMessage := "Items are required"
  const DefaultCurrency := "brl"
  const FallbackHost := "shopaholic-mbcjdvn09-juan-de-souzas-projects-51f7e08a.vercel.app"
  const FallbackOrigin := "https://" + FallbackHost
  const StripeVersion := "2025-10-29.clover"
  const FormContentType := "application/x-www-form-urlencoded"

  /** A JavaScript string is truthy when it is present and not empty. */
  predicate Truthy(v: Option<string>) {
    v.Some? && v.value != ""
  }

  /** `${v}`: an absent value prints as the given word (`null` or `undefined`). */
  function Show(v: Option<string>, absent: string): string {
    if v.Some? then v.value else absent
  }

  // ---------------------------------------------------------------------------
  // Line items
  // ---------------------------------------------------------------------------

  function LowerChar(c: char): char {
    if 'A' <= c <= 'Z' then (c as int + 32) as char else c
  }

  /** `toLowerCase`, for ASCII letters. */
  function ToLower(s: string): (r: string)
    ensures |r| == |s| && forall i :: 0 <= i < |s| ==> r[i] == LowerChar(s[i])
  {
    if s == [] then [] else [LowerChar(s[0])] + ToLower(s[1..])
  }

  lemma ToLowerIdempotent(s: string)
    ensures ToLower(ToLower(s)) == ToLower(s)
  {
  }

  /** The line item of route.ts lines 113-124. */
  function LineItemFor(item: string, currency: string): LineItem {
    LineItem(ToLower(currency), item, "Item: " + item, UnitAmount(item), 1)
  }

  /** `items.map(...)`: one line item per item, in order. */
  function LineItems(items: seq<string>, currency: string): (r: seq<LineItem>)
    ensures |r| == |items|
    ensures forall i :: 0 <= i < |items| ==>
      && r[i].name == items[i]
      && r[i].description == "Item: " + items[i]
      && r[i].quantity == 1
      && r[i].unitAmount == 100 * Price(items[i])
      && r[i].currency == ToLower(currency)
  {
    seq(|items|, i requires 0 <= i < |items| => LineItemFor(items[i], currency))
  }

  // ---------------------------------------------------------------------------
  // The redirect origin
  // ---------------------------------------------------------------------------

  /**
   * Route.ts lines 128-134 as JavaScript parses them: `||` binds tighter than
   * `?:`, so the condition is `origin || host` and the value is built from
   * the host alone; likewise `APP_URL || VERCEL_URL` chooses `VERCEL_URL`.
   */
  function RedirectOrigin(req: Request, env: Env): (r: string)
    ensures StartsWith(r, "https://")
  {
    if Truthy(req.origin) || Truthy(req.host) then
      assert ("https://" + Show(req.host, "null"))[..8] == "https://";
      "https://" + Show(req.host, "null")
    else if Truthy(env.appUrl) || Truthy(env.vercelUrl) then
      assert ("https://" + Show(env.vercelUrl, "undefined"))[..8] == "https://";
      "https://" + Show(env.vercelUrl, "undefined")
    else
      assert FallbackOrigin[..8] == "https://";
      FallbackOrigin
  }

  /** The value of the Origin header never reaches the result, only whether it is there. */
  lemma OriginValueIsIgnored(req: Request, origin: Option<string>, env: Env)
    requires Truthy(origin) == Truthy(req.origin)
    ensures RedirectOrigin(req.(origin := origin), env) == RedirectOrigin(req, env)
  {
  }

  /** What the precedence does with partial headers and environment. */
  lemma OriginExamples(env: Env)
    ensures RedirectOrigin(Request(Some("https://shop.example"), None, Unreadable("")), env) == "https://null"
    ensures RedirectOrigin(Request(None, Some("shop.example"), Unreadable("")), env) == "https://shop.example"
    ensures RedirectOrigin(Request(None, None, Unreadable("")), Env(None, Some("https://app.example"), None))
            == "https://undefined"
    ensures RedirectOrigin(Request(None, None, Unreadable("")), Env(None, None, None)) == FallbackOrigin
  {
  }

  // ---------------------------------------------------------------------------
  // The session
  // ---------------------------------------------------------------------------

  /** `JSON.stringify` of one string. */
  function JsonEscape(c: char): string {
    if c == '"' then "\\\""
    else if c == '\\' then "\\\\"
    else if c == 8 as char then "\\b"
    else if c == 12 as char then "\\f"
    else if c == '\n' then "\\n"
    else if c == '\r' then "\\r"
    else if c == '\t' then "\\t"
    else if c < ' ' then "\\u00" + [LowerHexDigit(c as int / 16), LowerHexDigit(c as int % 16)]
    else [c]
  }

  function LowerHexDigit(d: nat): char
    requires d < 16
  {
    if d < 10 then ('0' as int + d) as char else ('a' as int + d - 10) as char
  }

  function JsonString(s: string): string {
    "\"" + JsonEscapeAll(s) + "\""
  }

  function JsonEscapeAll(s: string): string {
    if s == [] then "" else JsonEscape(s[0]) + JsonEscapeAll(s[1..])
  }

  /** `JSON.stringify(items)` for an array of strings. */
  function JsonStringArray(items: seq<string>): (r: string)
    ensures |r| >= 2 && r[0] == '[' && r[|r| - 1] == ']'
    ensures items == [] ==> r == "[]"
  {
    "[" + Join(seq(|items|, i requires 0 <= i < |items| => JsonString(items[i])), ",") + "]"
  }

  /** `checkoutSessionData` (route.ts lines 141-157). */
  function SessionFor(items: seq<string>, currency: string, userId: Option<string>, origin: string): (d: SessionData)
    ensures d.lineItems == LineItems(items, currency)
    ensures d.metadataUserId == (if userId.Some? then userId.value else "")
    ensures d.successUrl == origin + "/?success=true" && d.cancelUrl == origin + "/?canceled=true"
  {
    SessionData(
      ["card", "boleto"],
      LineItems(items, currency),
      "payment",
      ToLower(currency),
      origin + "/?success=true",
      origin + "/?canceled=true",
      JsonStringArray(items),
      if userId.Some? then userId.value else "",
      3)
  }

  /** For n items the form has 9 + 5n fields, no two under the same key. */
  lemma SessionFormShape(items: seq<string>, currency: string, userId: Option<string>, origin: string)
    ensures var r := Render(Fields(SessionFor(items, currency, userId, origin)));
      && |r| == 9 + 5 * |items|
      && forall a, b :: 0 <= a < b < |r| ==> r[a].0 != r[b].0
  {
    RenderedKeysDistinct(SessionFor(items, currency, userId, origin));
  }

  /** Fixed fields: the two payment methods, the boleto expiry of three days, and the user id. */
  lemma SessionFormValues(items: seq<string>, currency: string, userId: Option<string>, origin: string)
    ensures var d := SessionFor(items, currency, userId, origin);
      var fs := Fields(d);
      var n := 2 + 5 * |items|;
      && fs[0] == (TypeKey(0), "card") && fs[1] == (TypeKey(1), "boleto")
      && fs[n] == (FieldKey("mode", []), "payment")
      && fs[n + 1] == (FieldKey("currency", []), ToLower(currency))
      && fs[n + 5] == (FieldKey("metadata", ["userId"]), if userId.Some? then userId.value else "")
      && fs[n + 6] == (FieldKey("payment_method_options", ["boleto", "expires_after_days"]), "3")
  {
    var d := SessionFor(items, currency, userId, origin);
    assert NatToString(3) == "3";
    var fs := Fields(d);
    var n := 2 + 5 * |items|;
    assert fs[n..] == TailFields(d);
  }

  // ---------------------------------------------------------------------------
  // Errors
  // ---------------------------------------------------------------------------

  const InvalidKeyMessage := "Stripe API key is invalid. Please check your STRIPE_SECRET_KEY environment variable."
  const ExpiredKeyMessage := "Stripe API key is invalid or expired."
  const RateLimitMessage := "Stripe API rate limit exceeded. Please try again in a moment."
  const ConnectionMessage := "Unable to connect to Stripe. Please check your internet connection and try again."

  /**
   * The `catch` block's message (route.ts lines 230-244): the first pattern the
   * message contains chooses the text, in the order below; a message matching
   * none is kept as it is.
   */
  function FriendlyMessage(message: string): (m: string)
    ensures Contains(message, "No such API key") ==> m == InvalidKeyMessage
    ensures !Contains(message, "No such API key") && Contains(message, "Invalid API Key") ==> m == ExpiredKeyMessage
    ensures (!Contains(message, "No such API key") && !Contains(message, "Invalid API Key")
             && Contains(message, "rate_limit")) ==> m == RateLimitMessage
    ensures (!Contains(message, "No such API key") && !Contains(message, "Invalid API Key")
             && !Contains(message, "rate_limit") && (Contains(message, "network") || Contains(message, "ECONNREFUSED")))
            ==> m == ConnectionMessage
    ensures (!Contains(message, "No such API key") && !Contains(message, "Invalid API Key")
             && !Contains(message, "rate_limit") && !Contains(message, "network") && !Contains(message, "ECONNREFUSED"))
            ==> m == message
  {
    if Contains(message, "No such API key") then InvalidKeyMessage
    else if Contains(message, "Invalid API Key") then ExpiredKeyMessage
    else if Contains(message, "rate_limit") then RateLimitMessage
    else if Contains(message, "network") || Contains(message, "ECONNREFUSED") then ConnectionMessage
    else message
  }

  /** The response of the `catch` block: always status 500. */
  function Fail(message: string): (r: Response)
    ensures r.status == 500 && r.body.Failure?
  {
    Response(500, Failure(FriendlyMessage(message)))
  }

  /** The message thrown when Stripe answers with a status that is not ok. */
  function RejectedMessage(status: nat, statusText: string): string {
    "Stripe API error: " + NatToString(status) + " " + statusText
  }

  /** The key the route accepts: configured, non-empty, and passing `cleanStripeKey`. */
  predicate KeyAccepted(env: Env) {
    Truthy(env.stripeSecretKey) && CleanStripeKey(env.stripeSecretKey.value).Ok?
  }

  /** `items` passes the 400 check: an array with at least one element. */
  predicate HasItems(f: ItemsField) {
    f.ItemArray? && f.items != []
  }

  /** The call the route makes for a valid key and body. */
  function StripeCallFor(key: string, d: SessionData): StripeCall {
    var form := Render(Fields(d));
    StripeCall(BearerCredentials(key), FormContentType, StripeVersion, form, FormSerialize(form))
  }

  // ---------------------------------------------------------------------------
  // POST
  // ---------------------------------------------------------------------------

  /** The currency the route uses: the body's string, or `'brl'` when absent. */
  function CurrencyOf(f: CurrencyField): string {
    if f.CurrencyText? then f.code else DefaultCurrency
  }

  /**
   * The part of `POST` after the key is accepted (route.ts lines 95-225): read
   * the body, insist on items, build and send the session.
   */
  method Checkout(key: string, envAfter: Env, env: Env, req: Request, reply: StripeReply) returns (o: Outcome)
    ensures o.envAfter == envAfter
    ensures req.body.Unreadable? ==> o.sent == None && o.response == Fail(req.body.message)
    ensures o.response.status == 400 <==> req.body.Parsed? && !HasItems(req.body.items)
    ensures o.response.status == 400 ==> o.response.body == Failure(ItemsRequiredMessage) && o.sent == None
    ensures o.response.status == 200 || o.response.status == 400 || o.response.status == 500
    ensures o.sent.Some? <==> req.body.Parsed? && HasItems(req.body.items) && !req.body.currency.CurrencyNotText?
    ensures o.sent.Some? ==>
      o.sent.value == StripeCallFor(key,
        SessionFor(req.body.items.items, CurrencyOf(req.body.currency), req.body.userId, RedirectOrigin(req, env)))
    ensures o.response.status == 200 <==> o.sent.Some? && reply.Created?
    ensures o.response.status == 200 ==> o.response.body == SessionCreated(reply.sessionId, reply.url)
    ensures o.sent.Some? && reply.Rejected? ==> o.response == Fail(RejectedMessage(reply.status, reply.statusText))
    ensures o.sent.Some? && reply.Unreachable? ==> o.response == Fail(reply.message)
    ensures req.body.Parsed? && HasItems(req.body.items) && req.body.currency.CurrencyNotText? ==>
      o.response == Fail(req.body.currency.typeError)
  {
    match req.body {
      case Unreadable(message) =>
        return Outcome(None, Fail(message), envAfter);
      case Parsed(itemsField, currencyField, userId) =>
        if !HasItems(itemsField) {
          return Outcome(None, Response(400, Failure(ItemsRequiredMessage)), envAfter);
        }
        var items := itemsField.items;
        if currencyField.CurrencyNotText? {
          return Outcome(None, Fail(currencyField.typeError), envAfter);
        }
        var currency := CurrencyOf(currencyField);
        var origin := RedirectOrigin(req, env);
        var session := SessionFor(items, currency, userId, origin);
        var form := BuildFormRecord(session);
        var call := StripeCall(BearerCredentials(key), FormContentType, StripeVersion, form, FormSerialize(form));
        assert call == StripeCallFor(key, session);
        match reply {
          case Unreachable(message) =>
            return Outcome(Some(call), Fail(message), envAfter);
          case Rejected(status, statusText) =>
            return Outcome(Some(call), Fail(RejectedMessage(status, statusText)), envAfter);
          case Created(sessionId, url) =>
            return Outcome(Some(call), Response(200, SessionCreated(sessionId, url)), envAfter);
        }
    }
  }

  /**
   * `POST /api/checkout`. The key is checked before the body is read; an
   * accepted key is written back to the environment at once (route.ts line
   * 72); the 400 answer is reserved for missing items; everything thrown
   * inside the `try` becomes a 500 with the mapped message.
   */
  method Post(env: Env, req: Request, reply: StripeReply) returns (o: Outcome)
    ensures !Truthy(env.stripeSecretKey) ==> o == Outcome(None, Response(500, Failure(MissingKeyMessage)), env)
    ensures Truthy(env.stripeSecretKey) && !KeyAccepted(env) ==>
      && o.sent == None && o.envAfter == env
      && o.response == Fail(KeyErrorMessage(CleanStripeKey(env.stripeSecretKey.value).error))
    ensures KeyAccepted(env) ==> o.envAfter == env.(stripeSecretKey := Some(KeepKeyChars(env.stripeSecretKey.value)))
    ensures KeyAccepted(env) && req.body.Unreadable? ==> o.sent == None && o.response == Fail(req.body.message)
    ensures o.response.status == 400 <==> KeyAccepted(env) && req.body.Parsed? && !HasItems(req.body.items)
    ensures o.response.status == 400 ==> o.response.body == Failure(ItemsRequiredMessage) && o.sent == None
    ensures o.response.status == 200 || o.response.status == 400 || o.response.status == 500
    ensures o.sent.Some? <==>
      KeyAccepted(env) && req.body.Parsed? && HasItems(req.body.items) && !req.body.currency.CurrencyNotText?
    ensures o.sent.Some? ==>
      o.sent.value == StripeCallFor(KeepKeyChars(env.stripeSecretKey.value),
        SessionFor(req.body.items.items, CurrencyOf(req.body.currency), req.body.userId, RedirectOrigin(req, env)))
    ensures o.response.status == 200 <==> o.sent.Some? && reply.Created?
    ensures o.response.status == 200 ==> o.response.body == SessionCreated(reply.sessionId, reply.url)
    ensures o.sent.Some? && reply.Rejected? ==> o.response == Fail(RejectedMessage(reply.status, reply.statusText))
    ensures o.sent.Some? && reply.Unreachable? ==> o.response == Fail(reply.message)
    ensures KeyAccepted(env) && req.body.Parsed? && HasItems(req.body.items) && req.body.currency.CurrencyNotText? ==>
      o.response == Fail(req.body.currency.typeError)
  {
    if !Truthy(env.stripeSecretKey) {
      return Outcome(None, Response(500, Failure(MissingKeyMessage)), env);
    }
    var rawKey := env.stripeSecretKey.value;
    var cleaned := CleanStripeKey(rawKey);
    if cleaned.Err? {
      return Outcome(None, Fail(KeyErrorMessage(cleaned.error)), env);
    }
    var key := cleaned.value;
    // The two header checks of lines 75-90 cannot fire (NormalisedKeyIsHeaderSafe).
    var envAfter := env.(stripeSecretKey := Some(key));
    o := Checkout(key, envAfter, env, req, reply);
  }

  // ---------------------------------------------------------------------------
  // Properties of the call
  // ---------------------------------------------------------------------------

  /**
   * The call carries `Bearer <key>` with a key that is a b64token, and Stripe
   * reads the same record back out of the serialized body.
   */
  lemma StripeCallIsWellFormed(key: string, d: SessionData)
    requires IsAcceptedKey(key)
    ensures var call := StripeCallFor(key, d);
      && call.authorization == "Bearer " + key && IsB64Token(key)
      && FormParse(call.body) == Some(call.form)
  {
    AcceptedKeyIsB64Token(key);
    FormRoundTrip(Render(Fields(d)));
  }

  /** The environment keeps the cleaned key, and a later request accepts it unchanged. */
  lemma CleanedKeyIsStable(env: Env)
    requires KeyAccepted(env)
    ensures var env' := env.(stripeSecretKey := Some(KeepKeyChars(env.stripeSecretKey.value)));
      KeyAccepted(env') && KeepKeyChars(env'.stripeSecretKey.value) == KeepKeyChars(env.stripeSecretKey.value)
  {
    var k := KeepKeyChars(env.stripeSecretKey.value);
    AcceptedKeyIsFixpoint(k);
    NormaliseIdempotent(env.stripeSecretKey.value);
  }
}
