# Retainful abandoned-cart core, modelled in Dafny

This project models the abandoned-cart tracking core of the Retainful
WooCommerce plugin: the `RestApi` helper class and the `Checkout` class
that extends it (`src/Api/AbandonedCart/RestApi.php`,
`src/Api/AbandonedCart/Checkout.php`).

The plugin keeps a visitor's cart token in the PHP session or the user's
meta. When an order is placed it copies the cart state into the order's
meta. It then sends the order to the Retainful API, either at once or
through a scheduled job, and it decorates WooCommerce webhooks with its
headers.

## Modules

- `Php` (`php.dfy`): the slice of PHP the code relies on.
  - Loosely typed values, `empty()` and `$v == 1`.
  - Ordered string-keyed arrays with assignment and `unset`.
  - `array_unique`, string coercion, `trim()`, `explode()` and `implode()`.
- `Encoding` (`encoding.dfy`): mechanisms taken from named standards.
  - `bin2hex` and its inverse.
  - Base64 as in section 4 of RFC 4648: the encoder, and PHP's non-strict
    decoder, which skips characters outside the alphabet.
- `Primitives` (`primitives.dfy`): the cryptography and JSON left
  uninterpreted, as fields of a `Crypto` datatype. These are md5, hex and
  raw HMAC-SHA256, AES-256-CBC encrypt and decrypt, and `wp_json_encode`.
  - `Valid()` states only what the PHP functions guarantee about their
    output shape. For example, md5 gives 32 lowercase hex digits and a raw
    HMAC gives 32 bytes.
  - `CipherInverts()` is the cipher round-trip property. It is used only by
    the corrected decrypt.
- `Host` (`host.dfy`): the WordPress and WooCommerce environment.
  - A `State` value with every store the core touches: PHP session, plugin
    storage, user meta, orders, order meta, order notes, the scheduled-job
    queue, and the calls sent to the API.
  - A `Shop` class holding the same stores as fields, updated in place by
    collaborator methods whose contracts tie the new `Snapshot()` to a
    function of the old one.
  - `Config`: settings and filter results.
  - `Env`: collaborators whose code is not part of this model.
  - `Request`: the clock, randomness, cart and `$_SERVER`.
- `RestApi` (`restapi.dfy`):
  - the cart-token, pending-recovery and cart-start lookups;
  - IP selection and cleaning;
  - the version-4 UUID cart token;
  - the cart fingerprint;
  - recovery-link arguments;
  - encrypt-then-MAC packing and the fail-closed decrypt;
  - the order-status predicates;
  - `markOrderAsRecovered` and `syncCart`.
- `Checkout` (`checkout.dfy`):
  - the placed and instant-sync decisions, and temp-data clearing;
  - `purchaseComplete`, `syncOrder`, `scheduleCartSync`, `syncOrderToAPI`
    and `orderUpdated`;
  - token and flag setters;
  - `changeWebHookHeader`.

Each state-changing PHP function is a method that takes the `Shop` and
updates it in place.
- Its `ensures` equates the new snapshot with a pure function of the old
  one, for example `PurchaseCompleted` or `SyncOrderResult`.
- The properties the code promises are lemmas about those functions.
- Loops stay loops:
  - the `foreach` over the cart in `generateCartHash`;
  - the `foreach` over the extra headers in `changeWebHookHeader`.

Neither class declares the static `$storage` that `purchaseComplete` and
`unsetOrderTempData` use, so as written those calls end in an uncaught
`Error` (see "## Findings"). The methods and their lemmas model the
evidently intended code, with `$storage` declared as the plugin's
key-value store of the visitor's temporary cart data (the `storage` map).
The `...AsWritten` functions model the code as it stands.

WordPress filters are `Config` fields, and `Config.Defaults()` states the
values the code passes as defaults.

## Model

| member | source | states |
|---|---|---|
| RestApi.LookupsReadOneStore | src/Api/AbandonedCart/RestApi.php:85-107 | for a resolved user id the cart token, pending flag and cart start depend on that user's meta alone; for a guest, on the session alone |
| RestApi.PendingRecoveryIsStoredFlag | src/Api/AbandonedCart/RestApi.php:85-93 | `isPendingRecovery` is the truth value of the stored flag, from user meta for a user and the session for a guest |
| RestApi.ClientIpFirstSetHeader | src/Api/AbandonedCart/RestApi.php:159-179 | the value of the first set header in the order X_REAL_IP, CLIENT_IP, X_FORWARDED_FOR, X_FORWARDED, FORWARDED_FOR, FORWARDED, REMOTE_ADDR is returned |
| RestApi.ClientIpNoHeader | src/Api/AbandonedCart/RestApi.php:175-178 | with none of the seven headers set the result is '' |
| RestApi.FormatUserIP | src/Api/AbandonedCart/RestApi.php:202-207 | the result has no comma, no leading or trailing whitespace, and is a substring of the cleaned input |
| RestApi.FormatUserIPFirstSegment | src/Api/AbandonedCart/RestApi.php:205 | the result is the trimmed text before the first comma |
| RestApi.RetrieveUserIp | src/Api/AbandonedCart/RestApi.php:186-194 | the stored IP, as formatted, never contains a comma |
| RestApi.WithVersionBitsChangesOnlyMarkers | src/Api/AbandonedCart/RestApi.php:216-218 | byte 6 gets high nibble 4 and keeps its low nibble, byte 8 gets top bits 10 and keeps its low six bits, and every other byte is unchanged |
| RestApi.VersionByteBits | src/Api/AbandonedCart/RestApi.php:217 | masking with 0x0f and setting 0x40 sets the version nibble without carrying into the low nibble |
| RestApi.VariantByteBits | src/Api/AbandonedCart/RestApi.php:218 | masking with 0x3f and setting 0x80 sets the variant bits without touching the low six bits |
| RestApi.FlattenStrSplit | src/Api/AbandonedCart/RestApi.php:219 | `str_split` chunks concatenate back to the string |
| RestApi.StrSplitChunks | src/Api/AbandonedCart/RestApi.php:219 | a 32-digit string splits into eight 4-digit chunks in order |
| RestApi.BitOrDisjoint | src/Api/AbandonedCart/RestApi.php:229-233 | OR with bits above a value's width is addition |
| RestApi.VersionWordBits | src/Api/AbandonedCart/RestApi.php:229 | a word up to 0x0fff with bit 0x4000 set has leading hex digit 4 |
| RestApi.VariantWordBits | src/Api/AbandonedCart/RestApi.php:233 | a word up to 0x3fff with bit 0x8000 set has leading hex digit 8 to b |
| RestApi.TokenGroupsShape | src/Api/AbandonedCart/RestApi.php:215-236 | both paths yield eight 4-digit lowercase hex groups with version digit 4 and variant digit 8, 9, a or b; on the random_bytes path they are the hex of the marked bytes |
| RestApi.MtRandGroupsShape | src/Api/AbandonedCart/RestApi.php:222-236 | the mt_rand fallback sets the same version and variant digits |
| RestApi.RandomGroupsShape | src/Api/AbandonedCart/RestApi.php:216-219 | the random_bytes path yields the hex of the marked bytes, in groups |
| RestApi.LayoutShape | src/Api/AbandonedCart/RestApi.php:219 | the 8-4-4-4-12 layout is 36 characters with dashes exactly at 8, 13, 18 and 23 |
| RestApi.UuidTextIsVersion4 | src/Api/AbandonedCart/RestApi.php:215-236 | the text hashed is a version-4 UUID as in section 3 of RFC 4122 |
| RestApi.UuidTextBytes | src/Api/AbandonedCart/RestApi.php:216-236 | its 32 digits decode to 16 bytes with version 4 (section 4.1.3 of RFC 4122) and variant 10 (section 4.1.1); on the random_bytes path these are exactly the marked bytes |
| RestApi.GenerateCartToken | src/Api/AbandonedCart/RestApi.php:238 | the token is an md5 digest, 32 lowercase hex digits, so never empty |
| RestApi.GenerateCartHash | src/Api/AbandonedCart/RestApi.php:58-69 | the loop builds the cart with every item's 'data' unset, and returns the md5 of its JSON plus the total, or '' |
| RestApi.CartHashEmptyIff | src/Api/AbandonedCart/RestApi.php:62-68 | the fingerprint is '' exactly when the cart is empty |
| RestApi.CartHashIgnoresProductData | src/Api/AbandonedCart/RestApi.php:63-68 | carts that agree once 'data' is removed from each item have the same fingerprint |
| RestApi.CartHashIgnoresOneProduct | src/Api/AbandonedCart/RestApi.php:65 | replacing one item's product object does not change the fingerprint |
| RestApi.StrippedCartHasNoProductData | src/Api/AbandonedCart/RestApi.php:63-66 | no item of the hashed cart holds a 'data' key |
| RestApi.WithoutProductData | src/Api/AbandonedCart/RestApi.php:65 | an item array after `unset` has no 'data' key |
| RestApi.RecoveryLinkArgs | src/Api/AbandonedCart/RestApi.php:115-121 | the token argument base64-decodes to the JSON `{cart_token: ...}` and the hash argument is its HMAC |
| RestApi.Packed | src/Api/AbandonedCart/RestApi.php:378 | the packed string is the three hex fields joined by ':retainful:' |
| RestApi.PackedFields | src/Api/AbandonedCart/RestApi.php:378-397 | splitting the packed string on the separator yields exactly the three hex fields |
| RestApi.EncryptData | src/Api/AbandonedCart/RestApi.php:364-386 | NULL exactly when openssl is not loaded; otherwise a non-empty value that base64-decodes and splits into hex(iv), hex(raw HMAC of ciphertext), hex(ciphertext) under the given secret or the settings' key |
| RestApi.DecryptData | src/Api/AbandonedCart/RestApi.php:393-403 | fail closed: the cipher is reached only when the recomputed HMAC equals the second field, and NULL comes back otherwise |
| RestApi.DecryptOfEncryptIsNull | src/Api/AbandonedCart/RestApi.php:396-400 | as written, decrypting any encryptData output yields NULL |
| Checkout.PurchaseCompleteAsWrittenWritesNothing | src/Api/AbandonedCart/Checkout.php:43-57 | as written, the call raises exactly when an order id and a visitor cart token pass the guards, with every store unchanged; an order that was not pending recovery stays so, where the intended code marks it |
| Checkout.UnsetOrderTempDataAsWrittenRemovesNothing | src/Api/AbandonedCart/Checkout.php:463-466 | as written, the call always raises; a stored cart token and a resolved user's cart-token meta survive, where the intended code removes both |
| Checkout.SyncOrderAsWrittenStampsThenRaises | src/Api/AbandonedCart/Checkout.php:218-223 | as written, a newly cancelled order past the guards gets its GMT stamp, then the call raises with storage, user meta and outbox untouched and nothing reported; the intended code sends it when there is order data and openssl |
| Checkout.SyncOrderAsWrittenOtherwiseAgrees | src/Api/AbandonedCart/Checkout.php:205-243 | on every other path the as-written call returns normally with the stores and report of the intended one |
| RestApi.DecryptDataDecoded | src/Api/AbandonedCart/RestApi.php:393-403 | the corrected decrypt returns non-NULL only when the hex-decoded MAC field matches the HMAC of the hex-decoded ciphertext |
| RestApi.DecryptDecodedInvertsEncrypt | src/Api/AbandonedCart/RestApi.php:364-403 | the corrected decrypt returns the plaintext that encryptData encrypted under the settings' key |
| RestApi.ResetStatusesByDefault | src/Api/AbandonedCart/RestApi.php:246-250 | with the default filter exactly 'failed' and 'pending' clear temporary data |
| RestApi.ValidStatusesByDefault | src/Api/AbandonedCart/RestApi.php:257-266 | with the default filter a status is valid unless it is 'pending', 'failed', or 'on-hold' with the on-hold setting loosely equal to 1 |
| RestApi.MarkRecoveredEffect | src/Api/AbandonedCart/RestApi.php:303-313 | an existing, unrecovered order becomes recovered and not pending, gains exactly one note, and nothing else changes |
| RestApi.MarkRecoveredNoOp | src/Api/AbandonedCart/RestApi.php:305-308 | a missing or already recovered order is left alone |
| RestApi.MarkRecoveredIdempotent | src/Api/AbandonedCart/RestApi.php:303-313 | a second call changes nothing |
| RestApi.CartSyncedSendsOnce | src/Api/AbandonedCart/RestApi.php:435-443 | non-empty details send exactly one call with the API key; empty ones send nothing; no other store changes |
| RestApi.BuyerAcceptsMarketingRule | src/Api/AbandonedCart/RestApi.php:449-460 | logged-in buyers accept; a guest without the session flag does not; 1, "1" and true accept |
| Checkout.IsPlacedUnfiltered | src/Api/AbandonedCart/Checkout.php:307-312 | with `recoverHeldOrders` inlined and the placed filter passing its value through, an order is placed exactly when paid, or going on hold with a held-order filter other than 'no' |
| Checkout.IsPlacedByDefault | src/Api/AbandonedCart/Checkout.php:14-18 | with the default filters an order is placed exactly when paid |
| Checkout.RemoveTempDataForUser | src/Api/AbandonedCart/Checkout.php:484-490 | the four deletions remove exactly that user's four temp keys |
| Checkout.UnsetOrderTempData | src/Api/AbandonedCart/Checkout.php:463-478 | with `$storage` declared: nine storage removals, then the user's temp keys when a user id resolves |
| Checkout.TempDataUnsetRemovesExactly | src/Api/AbandonedCart/Checkout.php:463-490 | with `$storage` declared: a storage key goes exactly when it is one of the nine, a user-meta key exactly when it is one of the four of the resolved user; all other entries keep their values |
| Checkout.TempDataUnsetKeepsOtherStores | src/Api/AbandonedCart/Checkout.php:463-478 | the session map (a store of its own in this model, so `unset` on the storage keys cannot reach it), orders, order meta, notes, jobs and outbox are untouched |
| Checkout.TempDataUnsetIdempotent | src/Api/AbandonedCart/Checkout.php:463-490 | clearing twice is clearing once |
| Checkout.TempDataRemovedForUserForgetsCart | src/Api/AbandonedCart/Checkout.php:484-490 | afterwards the user has no cart token, no pending recovery and no tracking start |
| Checkout.PurchaseCompleteGuards | src/Api/AbandonedCart/Checkout.php:43-62 | with no order id, no visitor cart token or no order object, nothing is written |
| Checkout.PurchaseKeysCount | src/Api/AbandonedCart/Checkout.php:63-73 | the eleven key names are distinct |
| Checkout.PurchaseMetaKeys | src/Api/AbandonedCart/Checkout.php:63-73 | the updates add exactly the eleven keys to those the order had |
| Checkout.PurchaseCompleteWrites | src/Api/AbandonedCart/Checkout.php:61-74 | with `$storage` declared: otherwise all eleven keys are present afterwards |
| Checkout.PurchaseCompleteCopiesToken | src/Api/AbandonedCart/Checkout.php:46-74 | with `$storage` declared: the visitor's cart token is copied and the order is pending recovery |
| Checkout.PurchaseCompleteOnlyThatOrder | src/Api/AbandonedCart/Checkout.php:61-75 | only that order's meta changes |
| Checkout.PurchaseCompleteKeepsOtherKeys | src/Api/AbandonedCart/Checkout.php:63-74 | every other meta key of the order keeps its value or its absence |
| Checkout.HasActiveScheduleIffCount | src/Api/AbandonedCart/Checkout.php:263-265 | an active schedule exists exactly when some queued job has the sync hook and this order id |
| Checkout.ScheduleOffDoesNothing | src/Api/AbandonedCart/Checkout.php:260-262 | with the filter off nothing is queued |
| Checkout.ScheduleEnsuresOneJob | src/Api/AbandonedCart/Checkout.php:258-268 | afterwards a job for the order exists; one job due 60 seconds later is added only when none existed; no other store changes |
| Checkout.ScheduleTwiceSchedulesOnce | src/Api/AbandonedCart/Checkout.php:258-268 | a second call adds nothing; from no job, two calls leave exactly one |
| Checkout.SyncOrder | src/Api/AbandonedCart/Checkout.php:205-243 | with `$storage` declared: the new stores and what was sent are those of `SyncOrderResult` |
| Checkout.SyncOrderGuards | src/Api/AbandonedCart/Checkout.php:207-228 | no order id, background sync on, an empty filtered token, or empty order data: nothing is sent, and before the cancellation step nothing changes |
| Checkout.SyncOrderStampsCancellationOnce | src/Api/AbandonedCart/Checkout.php:218-224 | a recorded cancellation time is never overwritten; a cancelled order without one gets the current GMT time; without a stamp neither order meta nor storage changes |
| Checkout.CancellationHandledKeeps | src/Api/AbandonedCart/Checkout.php:218-224 | the cancellation step touches only order meta, storage and user meta, and only when it stamps |
| Checkout.SyncOrderShape | src/Api/AbandonedCart/Checkout.php:205-243 | with `$storage` declared: after the guards the stores are those after the cancellation step, which for a newly cancelled order includes clearing the temporary data, plus at most the one call sent |
| Checkout.SyncOrderPayload | src/Api/AbandonedCart/Checkout.php:225-241 | with `$storage` declared: the sent payload's `cancelled_at` is NULL exactly when no time is known; other keys come from the order data; one encrypted call goes out |
| Checkout.SyncOrderSends | src/Api/AbandonedCart/Checkout.php:205-243 | with `$storage` declared: past the guards, with order data and openssl, the order is sent, a newly cancelled one included |
| Checkout.SyncOrderNeverSchedules | src/Api/AbandonedCart/Checkout.php:205-243 | no job is queued, and orders and notes are untouched |
| Checkout.SyncedToApiDoesOne | src/Api/AbandonedCart/Checkout.php:371-401 | background sync: nothing; instant: at most one call and nothing else; deferred: only the queue changes |
| Checkout.OrderUpdatedDoesOne | src/Api/AbandonedCart/Checkout.php:88-97 | either a sync (no job queued) or a schedule (nothing sent, no meta or storage written), never both |
| Checkout.SetOrderCartToken | src/Api/AbandonedCart/Checkout.php:417-423 | the order's token meta becomes the given token, or a fresh one when it is empty |
| Checkout.OrderCartTokenNonEmpty | src/Api/AbandonedCart/Checkout.php:417-423 | the stored token is never empty: a non-empty one is kept, an empty one is replaced by an md5 digest |
| Checkout.MaybeUpdateOrderOnSuccessfulPayment | src/Api/AbandonedCart/Checkout.php:431-441 | `$result` is returned unchanged, and the order is synced only when it has a cart token |
| Checkout.PaymentUpdatedNeedsToken | src/Api/AbandonedCart/Checkout.php:435-438 | without a cart token nothing changes; with one the effect is `syncOrderToAPI` |
| Checkout.PendingRecoveryMarked | src/Api/AbandonedCart/Checkout.php:496-504 | an existing order becomes pending recovery and no other meta key changes |
| Checkout.AssignHeaders | src/Api/AbandonedCart/Checkout.php:184-186 | the loop leaves `headers` holding the old headers with each extra header assigned in turn |
| Checkout.MergedHeadersGet | src/Api/AbandonedCart/Checkout.php:184-186 | a header named in the extra list takes its value; every other header is kept |
| Checkout.ChangeWebHookHeader | src/Api/AbandonedCart/Checkout.php:128-198 | the new stores and arguments are those of `WebhookHeaderResult` |
| Checkout.WebhookGuards | src/Api/AbandonedCart/Checkout.php:131-166 | for a webhook not decorated, or an order with no token and none forced, neither the arguments nor the stores change |
| Checkout.WebhookSetsHeaders | src/Api/AbandonedCart/Checkout.php:171-193 | otherwise the seven headers overwrite same-named ones, other headers are kept, `body` is the trimmed JSON of the encrypted data, and no other argument changes |
| Checkout.WebhookHeadersUnique | src/Api/AbandonedCart/Checkout.php:175-183 | the seven header names are distinct |
| Checkout.WebhookTokenForcedOnce | src/Api/AbandonedCart/Checkout.php:151-161 | a token is written only when none exists and one is forced, and then a non-empty one; an existing token is never replaced |
| Php.GetSet | src/Api/AbandonedCart/Checkout.php:185 | `$a[$k] = $v` sets that key and no other |
| Php.SetSet | src/Api/AbandonedCart/Checkout.php:185 | assigning a key twice keeps the last value |
| Php.ArrayUnique | src/Api/AbandonedCart/RestApi.php:264 | `array_unique` keeps every element once |
| Php.Trim | src/Api/AbandonedCart/RestApi.php:205 | `trim()` returns one contiguous slice of its input, everything cut off on either side is default whitespace, and the slice neither starts nor ends with whitespace |
| Php.JoinExplode | src/Api/AbandonedCart/RestApi.php:397 | joining what `explode` split gives back the string |
| Php.ExplodeJoin | src/Api/AbandonedCart/RestApi.php:397 | splitting fields joined by a separator whose first character none contains gives back the fields |
| Php.ExplodeHead | src/Api/AbandonedCart/RestApi.php:205 | the first comma-separated segment has no comma and is a substring of the input |
| Encoding.HexRoundTrip | src/Api/AbandonedCart/RestApi.php:378 | decoding `bin2hex` output gives back the bytes |
| Encoding.LowerHexHasNoColon | src/Api/AbandonedCart/RestApi.php:378 | hex text never contains ':', so it cannot contain the separator |
| Encoding.Base64RoundTrip | src/Api/AbandonedCart/RestApi.php:396 | `base64_decode(base64_encode(b)) == b` (section 4 of RFC 4648) |

## Left out

- Cryptography (`openssl_encrypt`, `openssl_decrypt`, `hash_hmac`, `md5`, `random_bytes`, `openssl_random_pseudo_bytes`, `mt_rand`) and `wp_json_encode`: uninterpreted functions. Only their output shape is assumed, and no security property is claimed.
- `openssl_encrypt` failure and the exception branch of `encryptData`: not modelled; with openssl loaded the value is always produced.
- `decryptData` with fewer than two `:retainful:` fields: modelled as NULL. PHP 7 returns NULL there and PHP 8 throws a TypeError, which is not modelled.
- Floating point: `convertToCurrency` and `formatDecimalPrice` are not part of this model.
- `formatToIso8601`: an `Env` function, because it depends on the PHP timezone and the clock.
- `getRetainfulApiUrl`, `add_query_arg`, `esc_url_raw` and `rawurlencode`: not modelled. `RecoveryLinkArgs` covers the two query values before URL encoding.
- `sanitize_text_field(wp_unslash(...))`: the `Env.clean` function.
- `getUserAgent` and `getUserAcceptLanguage`: request inputs, because their code is not part of this model.
- `(new Order())->getOrderData($order)`: the `Env.orderData` function.
- `syncCartDetails`: a recorded call in `outbox`. The remote response and the return values of `syncCart` and `encryptData` callers are not modelled.
- `syncCart` takes one parameter. The extra headers that `syncOrder` and `syncOrderToAPI` pass are dropped by PHP. `SyncOrder` reports the headers it built, but the outbox holds only the app id and payload.
- `$order` in `syncOrder` and `changeWebHookHeader`: order meta is read from the store. A stale object cache is not modelled, so after a forced token the stored token is read back.
- `$http_args['headers']` that is not an array: treated as an empty array. PHP would fail on a string there.
- `retrieveUserIp($user_id)` with a user id reads an array from `get_user_meta` without `single`. The core call sites pass none, so only the session path is modelled.
- Loose PHP comparisons: only `$v == 1` (`LooseEqualsOne`) and `empty()` are modelled. Other strings PHP also reads as the number 1 (a decimal such as `"1.0"`, a leading sign as in `"+1"`, surrounding whitespace, exponent forms such as `"1e0"`) are not: the model treats them as unequal to 1.
- `$user_id` arguments are ints, and `empty($order_id)` is `orderId == 0`.
- PHP session (`getPHPSession`) and the intended plugin storage are separate maps. `self::$storage` is never declared, and neither file says which backend it was meant to share.
- PurchaseComplete: models the intended code. As written it raises at Checkout.php:55 once a visitor cart token exists, before any write (`PurchaseCompleteAsWritten`).
- UnsetOrderTempData: models the intended code. As written it raises at its first line, Checkout.php:465, and removes nothing (`UnsetOrderTempDataAsWritten`).
- SyncOrder: models the intended code. As written, a newly cancelled order is stamped at Checkout.php:222, then the call raises at :223 and nothing is sent (`SyncOrderAsWritten`).
- TempDataUnsetRemovesExactly: the removals hold for the intended code only; as written none happens.
- PurchaseCompleteWrites: the eleven writes hold for the intended code only; as written none happens.
- PurchaseCompleteCopiesToken: the token copy and pending flag hold for the intended code only; as written neither happens.
- SyncOrderShape: for a newly cancelled order the temp-data clearing and the send hold for the intended code only.
- SyncOrderPayload: for a newly cancelled order the payload stamped now is sent only by the intended code.
- SyncOrderSends: a newly cancelled order is sent only by the intended code.
- `orderUpdated` (`OrderUpdatedResult`) is composed from the intended `SyncOrderResult`. `syncOrderToAPI` and `maybeUpdateOrderOnSuccessfulPayment` never reach `$storage`, so `SyncedToApi` and `PaymentUpdated` match the code as written.
- `hasAnyActiveScheduleExists`: "active" means "queued". Running jobs and removing them are not modelled.
- Logging, `do_action` hooks, hook registration and the WordPress plumbing in the constructor are not modelled.
- `setRetainfulOrderData`, `OrderUpdatedShopBackend`, `generateNocCouponForManualOrders`, `syncOrderByScheduler`, `orderStatusChanged`, `payPageOrderCompletion`, `checkoutOrderProcessed`, `apiCheckoutOrderProcessed`, `paymentCompleted`, `setSessionShippingDetails`, `setSessionBillingDetails`, `considerOnHoldAsAbandoned` and `getCurrentCurrencyCode`: outside the modelled core. Their inputs appear only as `Config` or `Env` values.
- `canTrackAbandonedCarts`: modelled as the filter's truth value, with no lemma beyond its definition.

## Findings

| source | as written | input that shows it | evidently intended | confidence | as-written member | corrected member |
|---|---|---|---|---|---|---|
| src/Api/AbandonedCart/RestApi.php:396-400 | `decryptData` splits the decoded string and compares the raw 32-byte HMAC with the second field, which `encryptData` wrote as 64 hex digits; the IV and ciphertext fields are also passed on still hex-encoded | any `encryptData($data)` output with openssl loaded: the 32-byte HMAC never equals the 64-character field, so NULL is returned | hex-decode the three fields before comparing and decrypting, so that decrypt inverts encrypt | not executed | RestApi.DecryptOfEncryptIsNull | RestApi.DecryptDecodedInvertsEncrypt |
| src/Api/AbandonedCart/Checkout.php:55 | `purchaseComplete` reads `self::$storage`, a static property neither `RestApi` (RestApi.php:13) nor `Checkout` declares, so the uncaught `Error` ends the call before the order meta is written | any order id while the visitor has a cart token | `$storage` declared as the visitor's temporary-data store, so the eleven meta keys are written | not executed | Checkout.PurchaseCompleteAsWrittenWritesNothing | Checkout.PurchaseCompleteCopiesToken |
| src/Api/AbandonedCart/Checkout.php:465 | `unsetOrderTempData` starts with `self::$storage->removeValue(...)`, so it raises before removing any storage key or user meta | any call, for instance a guest whose stored cart token is set | the nine storage keys and the resolved user's four meta keys are removed | not executed | Checkout.UnsetOrderTempDataAsWrittenRemovesNothing | Checkout.TempDataUnsetRemovesExactly |
| src/Api/AbandonedCart/Checkout.php:223 | `syncOrder` stamps a newly cancelled order at :222, then `unsetOrderTempData` raises, so the order is never sent | an order with a cart token, status 'cancelled' and no cancellation time, with order data and openssl loaded | the temporary data is cleared and the order is sent with its `cancelled_at` | not executed | Checkout.SyncOrderAsWrittenStampsThenRaises | Checkout.SyncOrderSends |
