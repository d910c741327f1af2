# shopaholic checkout flow in Dafny

This project models the logic behind shopaholic's checkout. In this app a
shopping list becomes a Stripe payment, and the cart is cleared once the
payment is confirmed. Each core source file becomes one Dafny module:

- **Checkout route** (`app/api/checkout/route.ts`), modelled by `StripeKey`,
  `Pricing`, `FormBody` and `CheckoutRoute`.
  - The secret-key sanitiser `cleanStripeKey`.
  - Per-letter pricing and line-item construction.
  - The redirect-origin expression, as JavaScript parses it.
  - The `reduce` that flattens the session into Stripe's bracketed form keys.
  - The application/x-www-form-urlencoded body that `URLSearchParams` sends
    (section 5 of the WHATWG URL Standard).
  - The error-message mapping and the status codes of `POST`.
- **Cart** (`app/components/ShoppingCart.tsx`), modelled by `ShoppingCart`.
  - The distinct items of all lists, in first-occurrence order, and their
    total.
  - `handleCheckout`, with its guards and request body.
  - The delete issued on the `?success=true` redirect.
- **List editor** (`app/components/ShoppingList.tsx`), modelled by
  `ShoppingListEditor`.
  - A class over `items`, `inputValue`, the warning flag and the
    `localStorage` draft.
  - Its handlers and effects.
- **Cart-item removal** (`app/hooks/use-delete-cart-item.ts`), modelled by
  `DeleteCartItem`.
  - The per-list filter, the delete of lists left empty, and the error and
    flag handling.
  - It runs against the `shopping_lists` table, modelled as `Store.Table`:
    rows keyed by id, each owned by a `user_id`.
- **Stripe webhook** (`app/api/webhooks/stripe/route.ts`), modelled by
  `Webhook`.
  - The signature check and the dispatch on event type.
  - The delete-by-user of `handlePaymentSuccess`.
- **Lists cache** (`app/hooks/use-shopping-lists.ts`), modelled by
  `ShoppingListsCache`.
  - The four-field state machine of `fetchLists`, with its skip rule.
  - The effect that triggers it.
- **Cookie adapter** (`app/lib/supabase/client.ts`), modelled by `Cookies`
  and `Percent`.
  - `getAll` parses the `Cookie` string (section 4.2.1 of RFC 6265).
  - `setAll` serializes each cookie with its attributes (section 5.2 of
    RFC 6265, plus SameSite from the RFC 6265bis draft).
  - Values are encoded with `encodeURIComponent` (section 2.1 of RFC 3986,
    over UTF-8 as in RFC 3629).

Two helper modules support the rest:

- `Wrappers` holds `Option` and `Result`.
- `Text` holds character classes, filter, trim, split/join and decimal
  rendering.

External calls become parameters of the operations that make them:

- Stripe's reply, Supabase's answers and the webhook's event parse or
  signature verification;
- whether a user is signed in;
- what `localStorage` holds.

Pure code is modelled as functions and lemmas. Code that updates state is
modelled as classes whose methods state the whole new state. These are React
state in `Editor`, `ListsHook`, `CartView` and `DeleteCartItemHook`, and the
table in `Store.Table`.

### Behaviour of the code worth knowing

- **Price of "Milk 2L".** `calculatePrice` counts ASCII letters only, as its
  own comment says (app/components/ShoppingCart.tsx:275), so digits and spaces
  are free and "Milk 2L" costs 5 (`Pricing.PriceExamples`).
- **Redirect origin.** The unparenthesised ternary of
  app/api/checkout/route.ts:128-134 parses as `(origin || host) ? … : ((appUrl || vercelUrl) ? … : fallback)`:
  - it tests `origin || host` but always builds `https://` + the Host header;
  - so an Origin header without a Host gives `https://null`;
  - `NEXT_PUBLIC_APP_URL` set while `VERCEL_URL` is unset gives
    `https://undefined` (`CheckoutRoute.OriginExamples`).
- **Key sanitising.** The key is not rejected for stray characters: as the
  comment at app/api/checkout/route.ts:9-10 says, every character outside
  `[A-Za-z0-9_-]` is removed, and only what is left is validated
  (`StripeKey.CleanStripeKey`).

## Model

| member | source | states |
|---|---|---|
| StripeKey.Normalise | app/api/checkout/route.ts:11-15 | trimming, removing surrounding quotes, removing whitespace and then keeping `[A-Za-z0-9_-]` together equal the last step alone: the key characters of the raw key, in order |
| StripeKey.CleanStripeKey | app/api/checkout/route.ts:4-32 | error "not set" exactly for the empty key; a normalised key shorter than 20 is "too short" with its length, whatever its prefix; accepted exactly when the normalised key has at least 20 characters and starts with `sk_test_` or `sk_live_`, and then the result is that normalised key; a normalised key of at least 20 characters without either prefix is the bad-format error |
| StripeKey.NormalisedKeyIsHeaderSafe | app/api/checkout/route.ts:74-90 | the normalised key holds only key characters: no control character, quote or whitespace, so neither header check can throw |
| StripeKey.NormaliseIdempotent | app/api/checkout/route.ts:11-15 | normalising twice equals normalising once |
| StripeKey.AcceptedKeyIsFixpoint | app/api/checkout/route.ts:4-32 | an accepted key is accepted again, unchanged |
| StripeKey.WrappingIsIgnored | app/api/checkout/route.ts:11-15 | any wrapping of a key in non-key characters (whitespace, quotes, line breaks) gives the same outcome as the key alone |
| StripeKey.AcceptedKeyIsB64Token | app/api/checkout/route.ts:163 | an accepted key is a b64token (section 2.1 of RFC 6750), so the Authorization value is `Bearer` SP token with no control character |
| Pricing.Price | app/api/checkout/route.ts:106-109 | `calculatePrice` counts only ASCII letters, so the price never exceeds the label's length |
| Pricing.UnitAmount | app/api/checkout/route.ts:113 | `Math.round(price * 100)` is a whole number of cents whose hundredth is the price |
| Pricing.PriceBounds | app/components/ShoppingCart.tsx:274-278 | 0 <= price <= length; price = length iff every character is an ASCII letter; price = 0 iff none is |
| Pricing.PriceOfConcat | app/components/ShoppingCart.tsx:274-278 | the price of a concatenation is the sum of the prices |
| Pricing.PriceExamples | app/components/ShoppingCart.tsx:274-278 | "Milk 2L" costs 5, "!!!" costs 0, "Bread" costs 5 |
| Text.Filter | app/api/checkout/route.ts:15 | the filtered string is no longer than the input and every character passes the test |
| Text.FilterAfterWeakerFilter | app/api/checkout/route.ts:14-15 | removing whitespace before keeping key characters changes nothing, because every key character is kept by the whitespace filter |
| Text.FilterIgnoresDropped | app/api/checkout/route.ts:12-13 | dropping a leading run the later filter rejects anyway does not change the filtered result |
| Text.FilterIgnoresDroppedEnd | app/api/checkout/route.ts:12-13 | the same for a trailing run |
| Text.Trim | app/components/ShoppingList.tsx:112 | the result is a slice of the input whose cut-off head and tail are all whitespace and which neither starts nor ends with whitespace; it is empty exactly when the input is all whitespace |
| Text.Utf16Length | app/components/ShoppingList.tsx:93 | JavaScript's `length` lies between the number of characters and twice that |
| Text.Utf16LengthCountsCodeUnits | app/components/ShoppingList.tsx:93 | the length is exactly the number of UTF-16 code units of the string's encoding, surrogate pairs counted as two |
| Text.Utf16LengthOfBmp | app/components/ShoppingList.tsx:93 | the length equals the number of characters exactly when every character is in the Basic Multilingual Plane |
| Text.TrimUtf16Length | app/components/ShoppingList.tsx:112-117 | trimming never makes the `length` larger |
| Text.JoinSplit | app/lib/supabase/client.ts:17-18 | `split(sep).join(sep)` gives the string back |
| Text.SplitJoin | app/lib/supabase/client.ts:16 | splitting a join gives the pieces back when no piece holds the separator's first character |
| Text.NatToStringRoundTrip | app/api/checkout/route.ts:180 | `String(n)` is a string of decimal digits whose value is n |
| Percent.Utf8RoundTrip | app/lib/supabase/client.ts:18-23 | decoding the UTF-8 bytes of a scalar value gives it back |
| Percent.UriComponentRoundTrip | app/lib/supabase/client.ts:18-23 | `decodeURIComponent(encodeURIComponent(s)) === s` for every string |
| Percent.UriComponentHasNoDelimiters | app/lib/supabase/client.ts:23 | an encoded value contains no `=`, `;` or space |
| Percent.FormComponentRoundTrip | app/api/checkout/route.ts:167 | a urlencoded component decodes back to its text |
| Percent.FormPieceRoundTrip | app/api/checkout/route.ts:167 | a serialized `name=value` pair is cut at its own `=` and both sides read back |
| Percent.FormRoundTrip | app/api/checkout/route.ts:167-215 | parsing the serialized body (section 5.1 of the WHATWG URL Standard) gives back every pair, in order |
| FormBody.ParseKeyRoundTrip | app/api/checkout/route.ts:174-205 | a bracketed key `root[a][b]...` reads back into its root and segments |
| FormBody.RenderKeyInjective | app/api/checkout/route.ts:174-205 | different well-formed key paths render to different strings |
| FormBody.PutAppends | app/api/checkout/route.ts:174-211 | `acc[key] = value` with a new key appends the pair at the end |
| FormBody.PutField | app/api/checkout/route.ts:174-211 | writing a field with a fresh key extends the rendered record by exactly that field and keeps keys distinct |
| FormBody.FieldKeysDistinct | app/api/checkout/route.ts:141-215 | no two fields of a session share a key path, and every path is well formed |
| FormBody.RenderedKeysDistinct | app/api/checkout/route.ts:141-215 | the rendered keys of the session are pairwise different strings |
| FormBody.EveryFieldReadsBack | app/api/checkout/route.ts:168-214 | no write of the `reduce` overwrites another: each field, looked up under its key, gives its own value |
| FormBody.PutTypes | app/api/checkout/route.ts:187-190 | the `payment_method_types` branch writes `payment_method_types[i]` for each element, in order |
| FormBody.PutLineItems | app/api/checkout/route.ts:191-208 | the `line_items` branch writes the five fields of each line item in the nested-loop order, each key new |
| FormBody.BuildFormRecord | app/api/checkout/route.ts:167-215 | the `reduce` produces exactly the field list of the session: types, then items, then the seven scalar and nested fields, with all keys distinct |
| CheckoutRoute.ToLower | app/api/checkout/route.ts:116-145 | `toLowerCase` keeps the length and lowers each ASCII letter |
| CheckoutRoute.ToLowerIdempotent | app/api/checkout/route.ts:116-145 | lowering twice equals lowering once |
| CheckoutRoute.LineItems | app/api/checkout/route.ts:112-125 | one line item per item, in order: name = item, description "Item: " + item, quantity 1, unit amount 100 × price, lower-cased currency |
| CheckoutRoute.OriginValueIsIgnored | app/api/checkout/route.ts:128-134 | the Origin header's value never reaches the origin; only whether it is present matters |
| CheckoutRoute.RedirectOrigin | app/api/checkout/route.ts:128-134 | the origin the ternary produces, as JavaScript parses it, always starts with `https://`, whichever branch is taken |
| CheckoutRoute.OriginExamples | app/api/checkout/route.ts:128-134 | the precedence as parsed: Origin without Host gives `https://null`, Host gives `https://<host>`, APP_URL without VERCEL_URL gives `https://undefined`, nothing gives the fallback |
| CheckoutRoute.JsonStringArray | app/api/checkout/route.ts:149 | `JSON.stringify(items)` of the metadata is a bracketed array text, `[]` for no items |
| CheckoutRoute.SessionFor | app/api/checkout/route.ts:141-157 | the session carries the line items, the user id or "" when there is none, and the success and cancel URLs origin + `/?success=true` and `/?canceled=true` |
| CheckoutRoute.SessionFormShape | app/api/checkout/route.ts:141-215 | for n items the form has exactly 9 + 5n fields, no two under the same key |
| CheckoutRoute.SessionFormValues | app/api/checkout/route.ts:141-157 | the fixed fields hold `card` and `boleto`, mode `payment`, the lower-cased currency, `metadata[userId]` and `payment_method_options[boleto][expires_after_days]` = "3" |
| CheckoutRoute.FriendlyMessage | app/api/checkout/route.ts:229-243 | first match wins, in the order 'No such API key', 'Invalid API Key', 'rate_limit', 'network'/'ECONNREFUSED'; otherwise the message is kept |
| CheckoutRoute.Fail | app/api/checkout/route.ts:245-248 | every failure caught is answered with status 500 and an error body |
| CheckoutRoute.Checkout | app/api/checkout/route.ts:95-225 | unreadable body is 500; status 400 exactly for missing, non-array or empty items; a call to Stripe is made exactly for a valid body, and it is the session of those items; 200 exactly when Stripe creates the session; a non-text `currency` (the `toLowerCase` TypeError of line 116), a rejected reply and an unreachable Stripe each give 500 with their own mapped message |
| CheckoutRoute.Post | app/api/checkout/route.ts:36-250 | a missing key gives 500 before the body is read; a rejected key gives 500 with its message; an accepted key is written back cleaned; 400 only for bad items after key validation; a non-text `currency` gives 500 with the mapped TypeError message; the call sent is `Bearer` + cleaned key with the flattened session |
| CheckoutRoute.StripeCallIsWellFormed | app/api/checkout/route.ts:160-216 | the call carries a b64token bearer credential, and its body parses back to the flattened record |
| CheckoutRoute.CleanedKeyIsStable | app/api/checkout/route.ts:72 | the cleaned key written back to the environment is accepted unchanged by a later request |
| ShoppingCart.Flatten | app/components/ShoppingCart.tsx:167 | an item is in the flattening iff it is in some list |
| ShoppingCart.CartItems | app/components/ShoppingCart.tsx:167-168 | the cart shows exactly the labels held by some list, each once |
| ShoppingCart.Total | app/components/ShoppingCart.tsx:281 | the displayed total is 0 exactly when every item in the cart is priced 0 |
| ShoppingCart.Unique | app/components/ShoppingCart.tsx:168 | `Array.from(new Set(xs))` has no duplicates, holds exactly the elements of xs, and orders them by first occurrence |
| ShoppingCart.CountedOnce | app/components/ShoppingCart.tsx:281 | a label already present adds nothing to the items or to the total when another list holds it too |
| ShoppingCart.AmountDueOfPricedItems | app/api/checkout/route.ts:112-124 | line items priced at 100 × price with quantity 1 cost 100 × the total of the items |
| ShoppingCart.CartIsChargedItsTotal | app/components/ShoppingCart.tsx:188-192 | the cart's request passes the route's items check, and the session charges each item 100 × its displayed price in brl, 100 × the displayed total overall, for the signed-in user |
| ShoppingCart.CartView.HandleCheckout | app/components/ShoppingCart.tsx:156-217 | no request without a user or with an empty cart; otherwise `{items: uniqueItems, currency: 'brl', userId}`; a redirect exactly for an ok reply with a URL, else the right toast and `isCheckingOut` lowered |
| ShoppingCart.ClearCartAfterPayment | app/components/ShoppingCart.tsx:30-64 | with a user, `?success=true` and a configured Supabase URL and anon key, the delete `user_id=eq.<id>` is issued, and when it answers ok the table becomes the old one without the user's rows (row policies are not modelled, see Left out); otherwise nothing changes |
| ShoppingListEditor.RemoveIndex | app/components/ShoppingList.tsx:133 | filtering out index i gives the elements before and after it; an out-of-range index gives the list unchanged |
| ShoppingListEditor.RemoveIndexKeepsOthers | app/components/ShoppingList.tsx:133 | deleting by index loses exactly one copy of that element |
| ShoppingListEditor.Editor.constructor | app/components/ShoppingList.tsx:17-20 | empty list and input, no warning |
| ShoppingListEditor.Editor.HandleInputChange | app/components/ShoppingList.tsx:91-104 | a value whose JavaScript `length` (UTF-16 code units) is at most 20 replaces the input and clears the warning; a longer one leaves the input and raises the warning; the input limit is invariant |
| ShoppingListEditor.ElevenEmojiAreOverTheLimit | app/components/ShoppingList.tsx:91-104 | eleven emoji fit in 20 characters but have a `length` of 22, so the input refuses them |
| ShoppingListEditor.Editor.HandleAddItem | app/components/ShoppingList.tsx:106-130 | the sign-in prompt iff no user and auth not loading; an empty trimmed input changes nothing; one whose `length` in UTF-16 code units is over 20 raises the warning only; otherwise the trimmed, valid item is appended and input and warning are cleared |
| ShoppingListEditor.Editor.HandleDeleteItem | app/components/ShoppingList.tsx:132-134 | exactly the element at the index goes and the rest keep their order; another index changes nothing |
| ShoppingListEditor.Editor.MirrorDraft | app/components/ShoppingList.tsx:62-71 | the draft is stored iff the list is non-empty, and then it is the list |
| ShoppingListEditor.Editor.RestoreDraft | app/components/ShoppingList.tsx:28-60 | on mount, or once a user is signed in, a non-empty parsed array replaces the items without re-validation; anything else changes nothing |
| ShoppingListEditor.Editor.HandleSave | app/components/ShoppingList.tsx:142-208 | an empty list does nothing; without a user the list is kept as the draft and sign-in is prompted; a successful save empties list and draft and opens no dialog; a failed one keeps them and prompts sign-in only on the sign-in message |
| DeleteCartItem.Without | app/hooks/use-delete-cart-item.ts:45 | no occurrence of the item remains, every other element keeps its count, a list without the item is unchanged |
| DeleteCartItem.WithoutConcat | app/hooks/use-delete-cart-item.ts:45 | the filter keeps relative order (it distributes over concatenation) |
| DeleteCartItem.WithoutEmpty | app/hooks/use-delete-cart-item.ts:53-57 | a list ends up empty iff it held nothing but the item, including an already-empty list |
| DeleteCartItem.Targets | app/hooks/use-delete-cart-item.ts:42-57 | the ids chosen for update (delete) are exactly the selected ids whose list contains the item (ends up empty) |
| DeleteCartItem.Messages | app/hooks/use-delete-cart-item.ts:64 | there are no errors iff no statement on the ids fails |
| DeleteCartItem.FirstError | app/hooks/use-delete-cart-item.ts:64-66 | nothing is thrown iff there is no error; otherwise the first error's message, or 'Failed to delete item' when it is empty |
| DeleteCartItem.SuccessfulDelete | app/hooks/use-delete-cart-item.ts:42-58 | when every statement succeeds, no remaining list of the user holds the item or is empty; other users' rows and the user's non-empty lists without the item are untouched; deleted lists are exactly those holding only the item |
| DeleteCartItem.NoListsNoChange | app/hooks/use-delete-cart-item.ts:37-39 | a user without lists changes nothing |
| DeleteCartItem.UpdatesAndDeletesCommute | app/hooks/use-delete-cart-item.ts:61 | the order in which `Promise.all`'s updates and deletes reach the table does not change the final table |
| DeleteCartItem.StatementsGiveAfterDelete | app/hooks/use-delete-cart-item.ts:42-61 | issuing the chosen updates and deletes of the user's selected rows yields the row-by-row result `AfterDelete` |
| DeleteCartItem.IssueUpdates | app/hooks/use-delete-cart-item.ts:42-50 | the successful updates write the filtered items of their rows; the errors are those of the failing ones, in order |
| DeleteCartItem.IssueDeletes | app/hooks/use-delete-cart-item.ts:53-58 | the successful deletes remove their rows; the errors are those of the failing ones, in order |
| DeleteCartItem.DeleteCartItemHook.constructor | app/hooks/use-delete-cart-item.ts:12-13 | not deleting, no error |
| DeleteCartItem.DeleteCartItemHook.DeleteItem | app/hooks/use-delete-cart-item.ts:16-75 | no user: throws 'You must be signed in to delete items' and changes nothing; a fetch error is thrown and recorded with the table untouched; otherwise the table becomes `AfterDelete`, the first failed statement's message is thrown and recorded; `isDeleting` is false after every call with a user |
| Store.DeleteWhereUserRemovesExactlyOwned | app/api/webhooks/stripe/route.ts:59-62 | delete-by-user removes exactly that user's rows; every kept row is unchanged, and other users' rows are all kept |
| Store.DeleteWhereUserCount | app/api/webhooks/stripe/route.ts:59-62 | the table shrinks by exactly the number of the user's rows |
| Store.DeleteWhereUserIdempotent | app/api/webhooks/stripe/route.ts:59-62 | a second delete by the same user removes nothing more |
| Store.Table.DeleteByUser | app/api/webhooks/stripe/route.ts:59-62 | the new table is the old one without the user's rows |
| Store.Table.UpdateItems | app/hooks/use-delete-cart-item.ts:46-49 | the row with the id gets the new items; a missing id matches no row |
| Store.Table.DeleteById | app/hooks/use-delete-cart-item.ts:58 | the row with the id is gone, nothing else changes |
| Webhook.Respond | app/api/webhooks/stripe/route.ts:89-190 | the webhook answers 200, 400 or 500, and `{received: true}` exactly with 200 |
| Webhook.WebhookStatuses | app/api/webhooks/stripe/route.ts:89-190 | for an event that carries its type and session: 400 iff the signature is missing or the event cannot be obtained (then "Webhook Error: " + message); 500 iff the items metadata of a handled session does not parse; 200 with `{received: true}` otherwise |
| Webhook.OnlyConfirmedPaymentsClear | app/api/webhooks/stripe/route.ts:124-180 | rows change only for a completed paid session or a succeeded async payment with a non-empty user id, and then exactly that user's rows go; an unpaid completed session or an empty user id deletes nothing |
| Webhook.RedeliveryIsHarmless | app/api/webhooks/stripe/route.ts:59-63 | delivering the same event again deletes nothing more, and no other user's row is touched |
| Webhook.Post | app/api/webhooks/stripe/route.ts:13-190 | the response is the status table above; for a confirmed payment the delete `user_id = <id>` is issued, and when it reports no error the table becomes the old one without that user's rows (row policies are not modelled, see Left out); otherwise, and when the delete fails or Supabase is not configured, the table is unchanged |
| ShoppingListsCache.EffectGuard | app/hooks/use-shopping-lists.ts:65-71 | with no user the effect always runs; with a user, it runs iff the id differs from the last one fetched for, so never again for that user |
| ShoppingListsCache.RefetchKeepsStaleLists | app/hooks/use-shopping-lists.ts:34-37 | a refetch for the same user with a non-empty cache keeps the old lists although the table now has none |
| ShoppingListsCache.RefetchAgreesWithoutSkip | app/hooks/use-shopping-lists.ts:26-63 | `fetchLists` and an unconditional refetch leave the same lists whenever the skip rule does not apply, and a successful query shows the rows returned |
| ShoppingListsCache.ListsHook.constructor | app/hooks/use-shopping-lists.ts:20-24 | no lists, loading, no error, no last user |
| ShoppingListsCache.ListsHook.FetchLists | app/hooks/use-shopping-lists.ts:26-63 | no user: lists empty, not loading, no last user; same user with a non-empty cache: no query, nothing changes; success: the rows (or [] for null), last user set, error cleared; failure: the message, lists and last user kept; not loading after every query |
| ShoppingListsCache.ListsHook.Refetch | app/hooks/use-shopping-lists.ts:39-62 | the corrected refresh: the same query and transitions without the skip rule, so the lists are the rows returned |
| ShoppingListsCache.ListsHook.UserChanged | app/hooks/use-shopping-lists.ts:65-71 | nothing happens unless the user id differs from the last one; without a user the lists are emptied, loading ends and the last id is cleared; a different signed-in user is always queried, and the new lists, last id and error are those of a fetch without the skip rule |
| Cookies.DecodeAll | app/lib/supabase/client.ts:16-18 | every piece gives one cookie, or `getAll` throws |
| Cookies.NamedOnly | app/lib/supabase/client.ts:19 | only named cookies remain, and a list of named ones is kept as it is |
| Cookies.GetAll | app/lib/supabase/client.ts:15-20 | every cookie returned has a non-empty name |
| Cookies.NameEndsAtFirstEquals | app/lib/supabase/client.ts:17-18 | the name ends at the first `=`, and the rest, `=` included, is decoded as the value |
| Cookies.EmptyCookieString | app/lib/supabase/client.ts:15-20 | an empty cookie string holds no cookie |
| Cookies.PathOf | app/lib/supabase/client.ts:30-34 | a path is always written |
| Cookies.Attributes | app/lib/supabase/client.ts:24-40 | the attribute list is never empty: the path is always there |
| Cookies.CookieStringSteps | app/lib/supabase/client.ts:23-40 | the pair followed by max-age, domain, path, samesite and secure, each present one adding "; " and itself, is the joined cookie string |
| Cookies.SerializeCookie | app/lib/supabase/client.ts:23-40 | the successive `+=` build exactly the pair followed by the attributes in their fixed order, joined by "; " |
| Cookies.SetAll | app/lib/supabase/client.ts:21-43 | one cookie string per entry, in input order, each the serialization of its entry |
| Cookies.AttributeDefaults | app/lib/supabase/client.ts:24-34 | a max-age of 0 is dropped like an absent one; without a truthy path, `path=/` is written; no options give just `path=/` |
| Cookies.SetThenGet | app/lib/supabase/client.ts:16-23 | for a proper name, the first piece of what `setAll` writes is the pair, and `getAll` of it gives the name and the original value |
| Cookies.PairHasNoSemicolon | app/lib/supabase/client.ts:23 | a pair with a name free of `;` holds no `;` |
| Cookies.DecodeAllPairs | app/lib/supabase/client.ts:16-18 | decoding the pairs of proper cookies gives them back |
| Cookies.GetAllRoundTrip | app/lib/supabase/client.ts:15-20 | `getAll` of the "; "-joined pairs of proper cookies gives back the cookies, in order |

## Left out

- HTTP and the database. These are the fetch to api.stripe.com, Supabase's client and REST calls, and the `/api/checkout` fetch. Their outcomes are parameters (`StripeReply`, `CheckoutReply`, `fetched`, `fetchError`, the per-statement failure maps, `deleteOk`). The `shopping_lists` table is an abstract map of rows keyed by id.
- Webhook signature verification (`stripe.webhooks.constructEvent`, an HMAC inside Stripe's library) and the `JSON.parse` fallback. Both are an oracle: the event, or the message thrown.
- ShoppingCart.ClearCartAfterPayment / Webhook.Post: `Store.Table` does not model Supabase's row-level policies or who sends a request. Both cart-clearing deletes carry only the anon key: the `fetch` of app/components/ShoppingCart.tsx:52-60 sends the anon key as `apikey` and bearer, and app/api/webhooks/stripe/route.ts:44 creates a client without a session. An ok answer (`deleteOk`, `!deleteFails`) is assumed to have removed the user's rows. Under an ownership policy such as the `auth.uid() = user_id` one named in app/hooks/use-save-shopping-list.ts:52, such a delete could match no row and still answer ok, and the rows would stay.
- CheckoutRoute.Checkout / CheckoutRoute.Post: an ok Stripe response whose JSON lacks `id` or `url`, which app/api/checkout/route.ts:223-224 answers with 200 and `{}`, is not expressible in `StripeReply`; an ok response whose `json()` throws is given as `Unreachable` with that message.
- Webhook.Respond / Webhook.WebhookStatuses: every event is assumed to carry a `type` and, for the five handled types, a `data.object`. Without `STRIPE_WEBHOOK_SECRET` the body's `JSON.parse` is used unchecked (app/api/webhooks/stripe/route.ts:111-113), so a body of `null` or one without `data.object` throws at line 124 or 126-127 and gets 500 from lines 183-188; the `Event` record cannot express such a body, and the "500 iff" of the status table holds only for well-formed events.
- `JSON.parse` and `JSON.stringify` for the list draft and the metadata. The draft is held already parsed (`ParsedDraft`). The metadata items are `NoItems`, `ItemsJson` or `ItemsMalformed`. Only `JSON.stringify` of a string array is written out (`JsonStringArray`), and it is not proved to parse back.
- Logging, everywhere. This includes the key-debug block of app/api/checkout/route.ts:50-68 and the `select('id')` before the webhook delete, which only logs.
- CheckoutRoute.Post: it omits the control-character checks of route.ts lines 74-90, because `StripeKey.NormalisedKeyIsHeaderSafe` proves they cannot fire.
- Unicode. Strings are sequences of Unicode scalar values, so a lone surrogate cannot be written; where the code compares a `length` with a limit that can hold non-ASCII text (the 20-unit item limit), the length is counted in UTF-16 code units (`Text.Utf16Length`). `trim` and whitespace are modelled with the ECMAScript white-space and line-terminator characters. `toLowerCase` lowers ASCII letters only. The key result does not depend on the whitespace set (`StripeKey.Normalise`).
- Concurrency and timing. `Promise.all` is modelled as updates then deletes; `DeleteCartItem.UpdatesAndDeletesCommute` shows the other order gives the same table. Also left out: the 100 ms delay after clearing the cart, the order of React state updates and renders, and the `shoppingListSaved` window events.
- Toasts, dialogs and rendering. Toast texts appear only where the model returns them as values (`CheckoutAttempt.toast`); `openDialog` is a returned flag.
- The order of the rows a `select` returns. It is a parameter: `selected` in `DeleteItem`, and the fetched list in `FetchLists`.
- Cookie options beyond strings and integers: a `NaN` max-age and a boolean `sameSite` are not modelled. What the browser's cookie store does with the assigned string is also out.
- Items that are not strings. The list draft restored from `localStorage` (app/components/ShoppingList.tsx:35-37 and 52-54) is `ArrayOf` a string sequence, so a stored non-empty array of non-strings, which the code restores unchecked, cannot be expressed. The route's `items` is an array of strings or not an array; `currency.toLowerCase` throwing is modelled as `CurrencyNotText`.
- ShoppingCart.CartView.HandleCheckout: it does not model the thrown response body that is not JSON (`response.json()` failing). Such a reply is modelled as `Thrown`.
- The `handleDeleteItem` and `shoppingListSaved` refetch wiring of app/components/ShoppingCart.tsx:109-154 is not modelled as a method, nor are React's closures: which render's `fetchLists` each listener holds is not modelled. The `refetch()` awaited at line 135 is covered by `ShoppingListsCache.ListsHook.FetchLists` and the finding below.
- app/hooks/use-save-shopping-list.ts, AuthContext and the other UI components are not part of this model.

## Findings

| source | as written | input that shows it | evidently intended | confidence | as-written member | corrected member |
|---|---|---|---|---|---|---|
| app/hooks/use-shopping-lists.ts:35-37 | `refetch` is `fetchLists`, which returns at once when the user is the last one fetched for and the cache is non-empty. So the `refetch()` that `handleDeleteItem` awaits right after the delete (app/components/ShoppingCart.tsx:133-135) queries nothing, and the delete toast of lines 136-140 is shown over the old lists. The page is refreshed only afterwards, when the `shoppingListSaved` event of line 143 reaches the listener of lines 110-118, which holds the `fetchLists` of an earlier render and in the usual case does query | a cache holding `[{id: "list-1", items: ["Milk"]}]` fetched for `user-1`; the user deletes "Milk", the table now has no row for `user-1`, and the `refetch()` of line 135 leaves the list as it was | the awaited refetch reloads the user's rows ("this will force a refresh", ShoppingCart.tsx:134) | medium, not executed | ShoppingListsCache.RefetchKeepsStaleLists | ShoppingListsCache.ListsHook.Refetch |
