/** The shared helpers of the abandoned-cart API (class `RestApi`): where
    per-user values are looked up, client IP selection and clean-up, cart
    tokens, the cart fingerprint, the recovery-link token, the
    encrypt-then-MAC payload format, the order-status rules, marking an
    order recovered, and sending a cart to the remote API. */
module RestApi {
  import opened Php
  import opened Encoding
  import opened Primitives
  import opened Host

  // ---------------------------------------------------------------------
  // Store keys: session / storage keys and their user- or order-meta twins

  const CartTokenKey := "rnoc_user_cart_token"
  const CartTokenKeyForDb := "_rnoc_user_cart_token"
  const UserIpKey := "rnoc_user_ip_address"
  const UserIpKeyForDb := "_rnoc_user_ip_address"
  const OrderCancelledDateKeyForDb := "_rnoc_order_cancelled_at"
  const PendingRecoveryKey := "rnoc_is_pending_recovery"
  const PendingRecoveryKeyForDb := "_rnoc_is_pending_recovery"
  const CartTrackingStartedKey := "rnoc_cart_tracking_started_at"
  const CartTrackingStartedKeyForDb := "_rnoc_cart_tracking_started_at"
  const OrderRecoveredKeyForDb := "_rnoc_order_recovered"
  const AcceptsMarketingKeyForDb := "_rnoc_is_buyer_accepts_marketing"
  const PreviousCartHashKey := "rnoc_previous_cart_hash"
  const CartHashKeyForDb := "_rnoc_cart_hash"
  const AcceptsMarketingSessionKey := "is_buyer_accepting_marketing"
  const RecoveredNote := "Order recovered by Retainful."

  // ---------------------------------------------------------------------
  // Per-user lookups: user meta for a known user, else the session

  /** `$user_id || ($user_id = get_current_user_id())`: the given user, else
      the current one; 0 means a guest. */
  function ResolveUserId(given: int, current: int): int {
    if given != 0 then given else current
  }

  /** `retrieveCartToken($user_id)`. */
  function RetrieveCartToken(s: State, given: int, current: int): Value {
    var userId := ResolveUserId(given, current);
    if userId != 0 then UserMetaValue(s, userId, CartTokenKeyForDb)
    else SessionValue(s, CartTokenKey)
  }

  /** `isPendingRecovery($user_id)`. */
  function IsPendingRecovery(s: State, given: int, current: int): bool {
    var userId := ResolveUserId(given, current);
    if userId != 0 then Truthy(UserMetaValue(s, userId, PendingRecoveryKeyForDb))
    else if Truthy(SessionValue(s, PendingRecoveryKey)) then Truthy(SessionValue(s, PendingRecoveryKey))
    else false
  }

  /** `userCartCreatedAt($user_id)`. */
  function UserCartCreatedAt(s: State, given: int, current: int): Value {
    var userId := ResolveUserId(given, current);
    if userId != 0 then UserMetaValue(s, userId, CartTrackingStartedKeyForDb)
    else SessionValue(s, CartTrackingStartedKey)
  }

  /** For a known user the three lookups read user meta only; for a guest
      they read the session only. */
  lemma LookupsReadOneStore(s1: State, s2: State, given: int, current: int)
    requires ResolveUserId(given, current) != 0 ==>
      MetaOf(s1.userMeta, ResolveUserId(given, current)) == MetaOf(s2.userMeta, ResolveUserId(given, current))
    requires ResolveUserId(given, current) == 0 ==> s1.session == s2.session
    ensures RetrieveCartToken(s1, given, current) == RetrieveCartToken(s2, given, current)
    ensures IsPendingRecovery(s1, given, current) == IsPendingRecovery(s2, given, current)
    ensures UserCartCreatedAt(s1, given, current) == UserCartCreatedAt(s2, given, current)
  {
  }

  /** A pending-recovery flag is the truthiness of the value its store holds. */
  lemma PendingRecoveryIsStoredFlag(s: State, given: int, current: int)
    ensures var userId := ResolveUserId(given, current);
      IsPendingRecovery(s, given, current) ==
        Truthy(if userId != 0 then UserMetaValue(s, userId, PendingRecoveryKeyForDb)
               else SessionValue(s, PendingRecoveryKey))
  {
  }

  // ---------------------------------------------------------------------
  // Client IP

  /** The `$_SERVER` entries `getClientIp` consults, highest priority first. */
  const ClientIpHeaders := ["HTTP_X_REAL_IP", "HTTP_CLIENT_IP", "HTTP_X_FORWARDED_FOR",
    "HTTP_X_FORWARDED", "HTTP_FORWARDED_FOR", "HTTP_FORWARDED", "REMOTE_ADDR"]

  /** `getClientIp()`. */
  function GetClientIp(server: map<string, string>): string {
    if "HTTP_X_REAL_IP" in server then server["HTTP_X_REAL_IP"]
    else if "HTTP_CLIENT_IP" in server then server["HTTP_CLIENT_IP"]
    else if "HTTP_X_FORWARDED_FOR" in server then server["HTTP_X_FORWARDED_FOR"]
    else if "HTTP_X_FORWARDED" in server then server["HTTP_X_FORWARDED"]
    else if "HTTP_FORWARDED_FOR" in server then server["HTTP_FORWARDED_FOR"]
    else if "HTTP_FORWARDED" in server then server["HTTP_FORWARDED"]
    else if "REMOTE_ADDR" in server then server["REMOTE_ADDR"]
    else ""
  }

  /** The first set entry in priority order wins. */
  lemma ClientIpFirstSetHeader(server: map<string, string>, i: int)
    requires 0 <= i < |ClientIpHeaders| && ClientIpHeaders[i] in server
    requires forall j :: 0 <= j < i ==> ClientIpHeaders[j] !in server
    ensures GetClientIp(server) == server[ClientIpHeaders[i]]
  {
    if i > 0 { assert ClientIpHeaders[0] !in server; }
    if i > 1 { assert ClientIpHeaders[1] !in server; }
    if i > 2 { assert ClientIpHeaders[2] !in server; }
    if i > 3 { assert ClientIpHeaders[3] !in server; }
    if i > 4 { assert ClientIpHeaders[4] !in server; }
    if i > 5 { assert ClientIpHeaders[5] !in server; }
  }

  /** With none of the entries set the result is ''. */
  lemma ClientIpNoHeader(server: map<string, string>)
    requires forall j :: 0 <= j < |ClientIpHeaders| ==> ClientIpHeaders[j] !in server
    ensures GetClientIp(server) == ""
  {
    assert ClientIpHeaders[0] !in server && ClientIpHeaders[1] !in server;
    assert ClientIpHeaders[2] !in server && ClientIpHeaders[3] !in server;
    assert ClientIpHeaders[4] !in server && ClientIpHeaders[5] !in server;
    assert ClientIpHeaders[6] !in server;
  }

  /** `formatUserIP($ip)`: the trimmed first comma-separated segment of the
      cleaned value. */
  function FormatUserIP(ip: Value, clean: Value -> string): (r: string)
    ensures ',' !in r
    ensures IsSubstring(r, clean(ip))
    ensures r != [] ==> !IsTrimChar(r[0]) && !IsTrimChar(r[|r| - 1])
  {
    var cleaned := clean(ip);
    var head := Explode(",", cleaned)[0];
    ExplodeHead(',', cleaned);
    var r := Trim(head);
    SubstringTrans(r, head, cleaned);
    NotInSubstring(',', r, head);
    r
  }

  /** The segment is the text before the first comma, or all of it when
      there is none. */
  lemma FormatUserIPFirstSegment(ip: Value, clean: Value -> string, k: nat)
    requires k <= |clean(ip)|
    requires k == |clean(ip)| || clean(ip)[k] == ','
    requires forall j :: 0 <= j < k ==> clean(ip)[j] != ','
    ensures FormatUserIP(ip, clean) == Trim(clean(ip)[..k])
  {
    var c := clean(ip);
    forall j | 0 <= j < k ensures !MatchAt(",", c, j) {
      if j + 1 <= |c| { assert c[j..j + 1][0] == c[j]; }
    }
    if k < |c| {
      assert c[k..k + 1] == ",";
      assert MatchAt(",", c, k);
      assert Find(",", c) == Some(k);
    } else {
      assert Find(",", c) == None;
      assert c[..k] == c;
    }
  }

  /** `retrieveUserIp()` for the current visitor: the session value, formatted. */
  function RetrieveUserIp(s: State, clean: Value -> string): (r: string)
    ensures ',' !in r
  {
    FormatUserIP(SessionValue(s, UserIpKey), clean)
  }

  // ---------------------------------------------------------------------
  // Cart token: an RFC 4122 version-4 UUID, hashed with md5

  /** `ord($b) & 0x0f | 0x40`: the version field (section 4.1.3 of RFC 4122)
      set to 4. Masking with 0x0f keeps the low four bits, `n % 16`. */
  function VersionByte(n: int): (r: int)
    requires 0 <= n < 256
    ensures 0 <= r < 256
  {
    VersionByteBits(n);
    BitOr(n % 16, 0x40)
  }

  /** `ord($b) & 0x3f | 0x80`: the variant (section 4.1.1 of RFC 4122) set to
      binary 10. Masking with 0x3f keeps the low six bits, `n % 64`. */
  function VariantByte(n: int): (r: int)
    requires 0 <= n < 256
    ensures 0 <= r < 256
  {
    VariantByteBits(n);
    BitOr(n % 64, 0x80)
  }

  /** The high nibble becomes 4 and the low nibble is kept. */
  lemma VersionByteBits(n: int)
    requires 0 <= n < 256
    ensures BitOr(n % 16, 0x40) == 0x40 + n % 16
  {
    assert Pow2(4) == 16;
    BitOrDisjoint(n % 16, 4, 4);
  }

  /** The top two bits become binary 10 and the low six bits are kept. */
  lemma VariantByteBits(n: int)
    requires 0 <= n < 256
    ensures BitOr(n % 64, 0x80) == 0x80 + n % 64
  {
    assert Pow2(6) == 64;
    BitOrDisjoint(n % 64, 2, 6);
  }

  /** The sixteen random bytes with bytes 6 and 8 rewritten. */
  function WithVersionBits(b: Bytes): (r: Bytes)
    requires |b| == 16
    ensures |r| == 16
  {
    b[6 := Byte(VersionByte(ByteAt(b, 6)))][8 := Byte(VariantByte(ByteAt(b, 8)))]
  }

  /** Only the version nibble of byte 6 and the two variant bits of byte 8 change. */
  lemma WithVersionBitsChangesOnlyMarkers(b: Bytes)
    requires |b| == 16
    ensures var r := WithVersionBits(b);
      && ByteAt(r, 6) / 16 == 4 && ByteAt(r, 6) % 16 == ByteAt(b, 6) % 16
      && ByteAt(r, 8) / 64 == 2 && ByteAt(r, 8) % 64 == ByteAt(b, 8) % 64
      && forall i :: 0 <= i < 16 && i != 6 && i != 8 ==> r[i] == b[i]
  {
    VersionByteBits(ByteAt(b, 6));
    VariantByteBits(ByteAt(b, 8));
  }

  /** PHP's `str_split($s, $n)`. */
  function StrSplit(s: string, n: nat): (parts: seq<string>)
    requires n > 0
    ensures |parts| >= 1
    decreases |s|
  {
    if |s| <= n then [s] else [s[..n]] + StrSplit(s[n..], n)
  }

  function Flatten(parts: seq<string>): string {
    if parts == [] then "" else parts[0] + Flatten(parts[1..])
  }

  /** Splitting into chunks loses nothing. */
  lemma {:induction false} FlattenStrSplit(s: string, n: nat)
    requires n > 0
    ensures Flatten(StrSplit(s, n)) == s
    decreases |s|
  {
    if |s| > n {
      FlattenStrSplit(s[n..], n);
      assert ([s[..n]] + StrSplit(s[n..], n))[1..] == StrSplit(s[n..], n);
      assert s == s[..n] + s[n..];
    }
  }

  lemma {:induction false} StrSplitChunks(s: string, k: nat)
    requires k >= 1 && |s| == 4 * k
    ensures |StrSplit(s, 4)| == k
    ensures forall i :: 0 <= i < k ==> StrSplit(s, 4)[i] == s[4 * i..4 * i + 4]
  {
    if k > 1 {
      var t := s[4..];
      StrSplitChunks(t, k - 1);
      var p := StrSplit(s, 4);
      assert p == [s[..4]] + StrSplit(t, 4);
      forall i | 1 <= i < k ensures p[i] == s[4 * i..4 * i + 4] {
        assert p[i] == StrSplit(t, 4)[i - 1] == t[4 * (i - 1)..4 * (i - 1) + 4];
      }
    }
  }

  /** The format `'%s%s-%s-%s-%s-%s%s%s'`: groups of 8-4-4-4-12 digits. */
  function UuidLayout(g: seq<string>): string
    requires |g| == 8
  {
    g[0] + g[1] + "-" + g[2] + "-" + g[3] + "-" + g[4] + "-" + g[5] + g[6] + g[7]
  }

  /** `sprintf('%04x', $w)`. */
  function Hex4(w: int): (r: string)
    requires 0 <= w < 0x1_0000
    ensures |r| == 4 && IsLowerHex(r)
    ensures r[0] == HexDigit(w / 0x1000)
  {
    [HexDigit(w / 0x1000), HexDigit(w / 0x100 % 16), HexDigit(w / 16 % 16), HexDigit(w % 16)]
  }

  /** PHP's `|` on non-negative integers, bit by bit from the lowest. */
  function BitOr(a: nat, b: nat): nat
    decreases a + b
  {
    if a == 0 then b
    else if b == 0 then a
    else 2 * BitOr(a / 2, b / 2) + (if a % 2 == 1 || b % 2 == 1 then 1 else 0)
  }

  function Pow2(k: nat): (p: nat)
    ensures p >= 1
  {
    if k == 0 then 1 else 2 * Pow2(k - 1)
  }

  /** OR-ing in bits that lie above every bit of `a` is addition. */
  lemma {:induction false} BitOrDisjoint(a: nat, c: nat, k: nat)
    requires a < Pow2(k)
    ensures BitOr(a, c * Pow2(k)) == a + c * Pow2(k)
  {
    var b := c * Pow2(k);
    if a != 0 && b != 0 {
      assert k > 0;
      var q := Pow2(k - 1);
      assert b == 2 * (c * q);
      assert b / 2 == c * q && b % 2 == 0;
      BitOrDisjoint(a / 2, c, k - 1);
    }
  }

  lemma VersionWordBits(w: int)
    requires 0 <= w <= 0x0fff
    ensures BitOr(w, 0x4000) / 0x1000 == 4
  {
    assert Pow2(12) == 0x1000;
    BitOrDisjoint(w, 4, 12);
  }

  lemma VariantWordBits(w: int)
    requires 0 <= w <= 0x3fff
    ensures 8 <= BitOr(w, 0x8000) / 0x1000 <= 11
  {
    assert Pow2(14) == 0x4000;
    BitOrDisjoint(w, 2, 14);
  }

  /** The eight four-digit groups `generateCartToken` formats. */
  function TokenGroups(e: Entropy): (g: seq<string>)
    requires e.Valid()
    ensures |g| == 8
  {
    match e
    case RandomBytes(b) =>
      var h := Hex(WithVersionBits(b));
      StrSplitChunks(h, 8);
      StrSplit(h, 4)
    case MtRand(w) =>
      assert 0 <= w[3] <= MtRandMax(3) && 0 <= w[4] <= MtRandMax(4);
      VersionWordBits(w[3]);
      VariantWordBits(w[4]);
      [Hex4(w[0]), Hex4(w[1]), Hex4(w[2]), Hex4(BitOr(w[3], 0x4000)),
       Hex4(BitOr(w[4], 0x8000)), Hex4(w[5]), Hex4(w[6]), Hex4(w[7])]
  }

  /** The UUID text whose md5 is the cart token. */
  function UuidText(e: Entropy): string
    requires e.Valid()
  {
    UuidLayout(TokenGroups(e))
  }

  /** `generateCartToken()`. */
  function GenerateCartToken(e: Entropy, crypto: Crypto): (token: string)
    requires e.Valid()
    ensures crypto.Valid() ==> IsDigest(token) && !Empty(Str(token))
  {
    var text := UuidText(e);
    DigestNotEmpty(crypto, text);
    crypto.md5(text)
  }

  lemma DigestNotEmpty(crypto: Crypto, text: string)
    ensures crypto.Valid() ==> IsDigest(crypto.md5(text)) && !Empty(Str(crypto.md5(text)))
  {
  }

  predicate IsDashPosition(i: int) {
    i == 8 || i == 13 || i == 18 || i == 23
  }

  /** Section 3 of RFC 4122: 36 characters, dashes at 8, 13, 18, 23, lowercase
      hex elsewhere, version digit '4', variant digit one of 8, 9, a, b. */
  predicate IsUuidV4Text(t: string) {
    && |t| == 36
    && (forall i :: 0 <= i < 36 ==> (t[i] == '-' <==> IsDashPosition(i)))
    && (forall i :: 0 <= i < 36 && !IsDashPosition(i) ==> IsHexChar(t[i]))
    && t[14] == '4'
    && t[19] in "89ab"
  }

  predicate IsHexGroups(g: seq<string>) {
    |g| == 8 && forall k :: 0 <= k < 8 ==> |g[k]| == 4 && IsLowerHex(g[k])
  }

  lemma TokenGroupsShape(e: Entropy)
    requires e.Valid()
    ensures IsHexGroups(TokenGroups(e))
    ensures TokenGroups(e)[3][0] == '4'
    ensures TokenGroups(e)[4][0] in "89ab"
    ensures e.RandomBytes? ==> Flatten(TokenGroups(e)) == Hex(WithVersionBits(e.bytes))
  {
    match e
    case RandomBytes(b) => RandomGroupsShape(b);
    case MtRand(w) => MtRandGroupsShape(w);
  }

  lemma MtRandGroupsShape(w: seq<int>)
    requires MtRand(w).Valid()
    ensures var g := TokenGroups(MtRand(w));
      IsHexGroups(g) && g[3][0] == '4' && g[4][0] in "89ab"
  {
    MtRandGroupsHex(w);
    MtRandGroupsMarkers(w);
  }

  lemma MtRandGroupsMarkers(w: seq<int>)
    requires MtRand(w).Valid()
    ensures var g := TokenGroups(MtRand(w));
      g[3][0] == '4' && g[4][0] in "89ab"
  {
    assert 0 <= w[3] <= MtRandMax(3) && 0 <= w[4] <= MtRandMax(4);
    VersionWordBits(w[3]);
    VariantWordBits(w[4]);
    var g := TokenGroups(MtRand(w));
    assert g[3] == Hex4(BitOr(w[3], 0x4000));
    assert g[4] == Hex4(BitOr(w[4], 0x8000));
    VersionGroupDigit(w[3]);
    VariantGroupDigit(w[4]);
  }

  lemma VersionGroupDigit(w: int)
    requires 0 <= w <= 0x0fff
    ensures BitOr(w, 0x4000) < 0x1_0000 && Hex4(BitOr(w, 0x4000))[0] == '4'
  {
    VersionWordBits(w);
  }

  lemma VariantGroupDigit(w: int)
    requires 0 <= w <= 0x3fff
    ensures BitOr(w, 0x8000) < 0x1_0000 && Hex4(BitOr(w, 0x8000))[0] in "89ab"
  {
    VariantWordBits(w);
    VariantDigit(BitOr(w, 0x8000) / 0x1000);
  }

  lemma MtRandGroupsHex(w: seq<int>)
    requires MtRand(w).Valid()
    ensures IsHexGroups(TokenGroups(MtRand(w)))
  {
    var g := TokenGroups(MtRand(w));
    assert 0 <= w[3] <= MtRandMax(3) && 0 <= w[4] <= MtRandMax(4);
    VersionWordBits(w[3]);
    VariantWordBits(w[4]);
    assert 0 <= w[0] <= MtRandMax(0) && 0 <= w[1] <= MtRandMax(1) && 0 <= w[2] <= MtRandMax(2);
    assert 0 <= w[5] <= MtRandMax(5) && 0 <= w[6] <= MtRandMax(6) && 0 <= w[7] <= MtRandMax(7);
    var h0, h1, h2, h3 := Hex4(w[0]), Hex4(w[1]), Hex4(w[2]), Hex4(BitOr(w[3], 0x4000));
    var h4, h5, h6, h7 := Hex4(BitOr(w[4], 0x8000)), Hex4(w[5]), Hex4(w[6]), Hex4(w[7]);
    assert g == [h0, h1, h2, h3, h4, h5, h6, h7];
    forall k | 0 <= k < 8 ensures |g[k]| == 4 && IsLowerHex(g[k]) {
      if k == 0 { assert g[k] == h0; }
      else if k == 1 { assert g[k] == h1; }
      else if k == 2 { assert g[k] == h2; }
      else if k == 3 { assert g[k] == h3; }
      else if k == 4 { assert g[k] == h4; }
      else if k == 5 { assert g[k] == h5; }
      else if k == 6 { assert g[k] == h6; }
      else { assert g[k] == h7; }
    }
  }

  lemma VariantDigit(v: int)
    requires 8 <= v <= 11
    ensures HexDigit(v) in "89ab"
  {
    if v == 8 { assert HexDigit(v) == "89ab"[0]; }
    else if v == 9 { assert HexDigit(v) == "89ab"[1]; }
    else if v == 10 { assert HexDigit(v) == "89ab"[2]; }
    else { assert HexDigit(v) == "89ab"[3]; }
  }

  lemma RandomGroupsShape(b: Bytes)
    requires |b| == 16
    ensures var g := TokenGroups(RandomBytes(b));
      && IsHexGroups(g) && g[3][0] == '4' && g[4][0] in "89ab"
      && Flatten(g) == Hex(WithVersionBits(b))
  {
    var g := TokenGroups(RandomBytes(b));
    var r := WithVersionBits(b);
    var h := Hex(r);
    assert g == StrSplit(h, 4);
    StrSplitChunks(h, 8);
    FlattenStrSplit(h, 4);
    forall k | 0 <= k < 8 ensures |g[k]| == 4 && IsLowerHex(g[k]) {
      assert g[k] == h[4 * k..4 * k + 4];
    }
    WithVersionBitsChangesOnlyMarkers(b);
    HexAt(r, 6);
    HexAt(r, 8);
    assert g[3] == h[12..16];
    assert g[4] == h[16..20];
    assert 8 <= ByteAt(r, 8) / 16 <= 11;
  }

  lemma LayoutShape(g: seq<string>)
    requires IsHexGroups(g)
    ensures |UuidLayout(g)| == 36
    ensures forall i :: 0 <= i < 36 ==> (UuidLayout(g)[i] == '-' <==> IsDashPosition(i))
    ensures forall i :: 0 <= i < 36 && !IsDashPosition(i) ==> IsHexChar(UuidLayout(g)[i])
    ensures UuidLayout(g)[14] == g[3][0] && UuidLayout(g)[19] == g[4][0]
  {
    var t := UuidLayout(g);
    var a := g[0] + g[1];
    assert t == a + "-" + g[2] + "-" + g[3] + "-" + g[4] + "-" + (g[5] + g[6] + g[7]);
    assert t[..8] == a;
    assert t[9..13] == g[2];
    assert t[14..18] == g[3];
    assert t[19..23] == g[4];
    assert t[24..] == g[5] + g[6] + g[7];
    forall i | 0 <= i < 36 && !IsDashPosition(i) ensures IsHexChar(t[i]) {
      if i < 8 {
        assert t[i] == a[i];
        if i < 4 { assert a[i] == g[0][i]; } else { assert a[i] == g[1][i - 4]; }
      } else if i < 13 { assert t[i] == g[2][i - 9];
      } else if i < 18 { assert t[i] == g[3][i - 14];
      } else if i < 23 { assert t[i] == g[4][i - 19];
      } else {
        var c := g[5] + g[6] + g[7];
        assert t[i] == c[i - 24];
        if i < 28 { assert c[i - 24] == g[5][i - 24]; }
        else if i < 32 { assert c[i - 24] == g[6][i - 28]; }
        else { assert c[i - 24] == g[7][i - 32]; }
      }
    }
  }

  /** Every cart token is the md5 of a well-formed version-4 UUID text. */
  lemma UuidTextIsVersion4(e: Entropy)
    requires e.Valid()
    ensures IsUuidV4Text(UuidText(e))
  {
    TokenGroupsShape(e);
    LayoutShape(TokenGroups(e));
  }

  /** The 32 digits of an 8-4-4-4-12 text, read group by group. */
  function UuidDigits(t: string): string
    requires |t| == 36
  {
    t[..8] + t[9..13] + t[14..18] + t[19..23] + t[24..]
  }

  lemma Flatten8(g: seq<string>)
    requires |g| == 8
    ensures Flatten(g) == g[0] + g[1] + g[2] + g[3] + g[4] + g[5] + g[6] + g[7]
  {
    FlattenAt(g, 7);
    assert g[8..] == [];
    FlattenAt(g, 6);
    FlattenAt(g, 5);
    FlattenAt(g, 4);
    FlattenAt(g, 3);
    FlattenAt(g, 2);
    FlattenAt(g, 1);
    FlattenAt(g, 0);
    assert g[0..] == g;
  }

  lemma FlattenAt(g: seq<string>, i: int)
    requires 0 <= i < |g|
    ensures Flatten(g[i..]) == g[i] + Flatten(g[i + 1..])
  {
    assert g[i..][1..] == g[i + 1..];
  }

  lemma DigitsOfLayout(g: seq<string>)
    requires IsHexGroups(g)
    ensures |UuidLayout(g)| == 36
    ensures UuidDigits(UuidLayout(g)) == Flatten(g)
  {
    var t := UuidLayout(g);
    var a := g[0] + g[1];
    assert t == a + "-" + g[2] + "-" + g[3] + "-" + g[4] + "-" + (g[5] + g[6] + g[7]);
    assert t[..8] == a;
    assert t[9..13] == g[2];
    assert t[14..18] == g[3];
    assert t[19..23] == g[4];
    assert t[24..] == g[5] + g[6] + g[7];
    Flatten8(g);
  }

  lemma FlattenHexGroups(g: seq<string>)
    requires IsHexGroups(g)
    ensures |Flatten(g)| == 32 && IsLowerHex(Flatten(g))
    ensures Flatten(g)[12] == g[3][0] && Flatten(g)[16] == g[4][0]
  {
    var f := Flatten(g);
    FlattenLength(g);
    forall i | 0 <= i < 32 ensures IsHexChar(f[i]) {
      var k := i / 4;
      FlattenSplit(g, k);
      FlattenLength(g[..k]);
      assert f[i] == g[k][i - 4 * k];
    }
    FlattenSplit(g, 3);
    FlattenLength(g[..3]);
    FlattenSplit(g, 4);
    FlattenLength(g[..4]);
  }

  lemma {:induction false} FlattenLength(g: seq<string>)
    requires forall k :: 0 <= k < |g| ==> |g[k]| == 4
    ensures |Flatten(g)| == 4 * |g|
  {
    if g != [] { FlattenLength(g[1..]); }
  }

  lemma {:induction false} FlattenSplit(g: seq<string>, k: nat)
    requires k < |g|
    ensures Flatten(g) == Flatten(g[..k]) + g[k] + Flatten(g[k + 1..])
  {
    if k > 0 {
      FlattenSplit(g[1..], k - 1);
      assert g[1..][..k - 1] == g[..k][1..];
      assert g[1..][k..] == g[k + 1..];
      assert Flatten(g[..k]) == g[0] + Flatten(g[..k][1..]);
    } else {
      assert Flatten(g[..0]) == "";
      assert g[1..] == g[k + 1..];
    }
  }

  /** Read back as bytes, every token draws its version nibble (4) and
      variant bits (binary 10) from the UUID it hashes; with `random_bytes`
      the bytes are exactly the random ones with those bits set. */
  lemma UuidTextBytes(e: Entropy)
    requires e.Valid()
    ensures |UuidText(e)| == 36
    ensures HexDecode(UuidDigits(UuidText(e))).Some?
    ensures var x := HexDecode(UuidDigits(UuidText(e))).value;
      |x| == 16 && ByteAt(x, 6) / 16 == 4 && ByteAt(x, 8) / 64 == 2
    ensures e.RandomBytes? ==> HexDecode(UuidDigits(UuidText(e))) == Some(WithVersionBits(e.bytes))
  {
    var g := TokenGroups(e);
    TokenGroupsShape(e);
    DigitsOfLayout(g);
    FlattenHexGroups(g);
    var h := Flatten(g);
    DecodedMarkers(h);
    if e.RandomBytes? {
      HexRoundTrip(WithVersionBits(e.bytes));
    }
  }

  lemma DecodedMarkers(h: string)
    requires |h| == 32 && IsLowerHex(h) && h[12] == '4' && h[16] in "89ab"
    ensures HexDecode(h).Some?
    ensures var x := HexDecode(h).value;
      |x| == 16 && ByteAt(x, 6) / 16 == 4 && ByteAt(x, 8) / 64 == 2
  {
    HexDecodeOfLowerHex(h);
    var x := HexDecode(h).value;
    assert x[6] as int == HexValue(h[12]) * 16 + HexValue(h[13]);
    assert x[8] as int == HexValue(h[16]) * 16 + HexValue(h[17]);
    assert 8 <= HexValue(h[16]) <= 11;
  }

  // ---------------------------------------------------------------------
  // Cart fingerprint

  /** `unset($item['data'])`: the product object dropped from a cart item. */
  function WithoutProductData(item: Value): (r: Value)
    ensures r.Arr? ==> Get(r.entries, "data") == None
  {
    match item
    case Arr(e) => Arr(Unset(e, "data"))
    case _ => item
  }

  /** `$cart_session` once the loop of `generateCartHash` has visited every
      item of `cart`. */
  function StrippedCart(cart: PhpArray): PhpArray
    decreases |cart|
  {
    if cart == [] then []
    else
      var n := |cart| - 1;
      Set(StrippedCart(cart[..n]), cart[n].0, WithoutProductData(cart[n].1))
  }

  /** The value `generateCartHash()` returns. */
  function CartHash(cart: PhpArray, total: string, crypto: Crypto): string {
    var session := StrippedCart(cart);
    if session != [] then crypto.md5(crypto.json(Arr(session)) + total) else ""
  }

  /** `generateCartHash()`. */
  method GenerateCartHash(cart: PhpArray, total: string, crypto: Crypto) returns (hash: string)
    ensures hash == CartHash(cart, total, crypto)
  {
    var session: PhpArray := [];
    if cart != [] {
      for i := 0 to |cart|
        invariant session == StrippedCart(cart[..i])
      {
        var (key, values) := cart[i];
        var before := session;
        session := Set(session, key, values);
        session := Set(session, key, WithoutProductData(Get(session, key).value));
        SetSet(before, key, values, WithoutProductData(values));
        assert cart[..i + 1][..i] == cart[..i];
      }
      assert cart[..|cart|] == cart;
    }
    hash := if session != [] then crypto.md5(crypto.json(Arr(session)) + total) else "";
  }

  /** The fingerprint is '' exactly for an empty cart. */
  lemma CartHashEmptyIff(cart: PhpArray, total: string, crypto: Crypto)
    requires crypto.Valid()
    ensures CartHash(cart, total, crypto) == "" <==> cart == []
  {
    if cart != [] {
      var n := |cart| - 1;
      var r := StrippedCart(cart);
      assert Get(r, cart[n].0).Some?;
      assert r != [];
      assert IsDigest(crypto.md5(crypto.json(Arr(r)) + total));
    }
  }

  /** The stripped cart depends only on the keys and the stripped items. */
  lemma {:induction false} StrippedCartSeesStrippedItems(c1: PhpArray, c2: PhpArray)
    requires |c1| == |c2|
    requires forall i :: 0 <= i < |c1| ==>
      c1[i].0 == c2[i].0 && WithoutProductData(c1[i].1) == WithoutProductData(c2[i].1)
    ensures StrippedCart(c1) == StrippedCart(c2)
    decreases |c1|
  {
    if c1 != [] {
      var n := |c1| - 1;
      StrippedCartSeesStrippedItems(c1[..n], c2[..n]);
    }
  }

  /** Two carts that differ only in their items' 'data' entries hash alike. */
  lemma CartHashIgnoresProductData(c1: PhpArray, c2: PhpArray, total: string, crypto: Crypto)
    requires |c1| == |c2|
    requires forall i :: 0 <= i < |c1| ==>
      c1[i].0 == c2[i].0 && WithoutProductData(c1[i].1) == WithoutProductData(c2[i].1)
    ensures CartHash(c1, total, crypto) == CartHash(c2, total, crypto)
  {
    StrippedCartSeesStrippedItems(c1, c2);
  }

  /** Replacing one item's product object leaves the fingerprint unchanged. */
  lemma CartHashIgnoresOneProduct(cart: PhpArray, i: int, product: Value, total: string, crypto: Crypto)
    requires 0 <= i < |cart| && cart[i].1.Arr?
    ensures var item := Arr(Set(cart[i].1.entries, "data", product));
      CartHash(cart[i := (cart[i].0, item)], total, crypto) == CartHash(cart, total, crypto)
  {
    var item := Arr(Set(cart[i].1.entries, "data", product));
    UnsetSet(cart[i].1.entries, "data", product);
    assert WithoutProductData(item) == WithoutProductData(cart[i].1);
    CartHashIgnoresProductData(cart[i := (cart[i].0, item)], cart, total, crypto);
  }

  /** No item of the hashed cart carries a 'data' entry. */
  lemma {:induction false} StrippedCartHasNoProductData(cart: PhpArray, k: string)
    requires Get(StrippedCart(cart), k).Some? && Get(StrippedCart(cart), k).value.Arr?
    ensures Get(Get(StrippedCart(cart), k).value.entries, "data") == None
    decreases |cart|
  {
    var n := |cart| - 1;
    var prev := StrippedCart(cart[..n]);
    GetSet(prev, cart[n].0, WithoutProductData(cart[n].1), k);
    if k != cart[n].0 {
      StrippedCartHasNoProductData(cart[..n], k);
    }
  }

  // ---------------------------------------------------------------------
  // Recovery link

  /** `hashTheData($data)`: the hex HMAC-SHA256 of the data under the secret key. */
  function HashTheData(data: string, cfg: Config, crypto: Crypto): string {
    crypto.hmacHex(data, cfg.secretKey)
  }

  /** The `token` and `hash` query arguments of `getRecoveryLink($cart_token)`,
      before URL encoding: the token decodes back to the JSON object
      holding the cart token, and the hash signs the token. */
  function RecoveryLinkArgs(cartToken: Value, cfg: Config, crypto: Crypto): (args: (string, string))
    ensures Base64Decode(args.0) == crypto.json(Arr([("cart_token", cartToken)]))
    ensures args.1 == HashTheData(args.0, cfg, crypto)
  {
    var json := crypto.json(Arr([("cart_token", cartToken)]));
    Base64RoundTrip(json);
    var data := Base64Encode(json);
    (data, HashTheData(data, cfg, crypto))
  }

  // ---------------------------------------------------------------------
  // Encrypt-then-MAC payloads

  const Separator := ":retainful:"

  /** The string `encryptData` hands to the cipher: arrays as JSON, scalars
      by PHP's string conversion. */
  function PlainText(data: Value, crypto: Crypto): string {
    if data.Arr? then crypto.json(data) else Stringify(data)
  }

  /** The key `encryptData` uses: the given secret, else the settings' secret key. */
  function EncryptionKey(secret: Value, cfg: Config): string {
    if Empty(secret) then cfg.secretKey else Stringify(secret)
  }

  /** `bin2hex($iv) . ':retainful:' . bin2hex($hmac) . ':retainful:' . bin2hex($ct)`. */
  function Packed(iv: Bytes, mac: Bytes, ct: Bytes): (p: Bytes)
    ensures p == Join(Separator, [Hex(iv), Hex(mac), Hex(ct)])
  {
    HexIsBytes(iv);
    HexIsBytes(mac);
    HexIsBytes(ct);
    var a: Bytes := Hex(iv);
    var b: Bytes := Hex(mac);
    var c: Bytes := Hex(ct);
    var sep: Bytes := Separator;
    JoinThree(a, b, c);
    Append(Append(Append(Append(a, sep), b), sep), c)
  }

  lemma JoinThree(a: string, b: string, c: string)
    ensures Join(Separator, [a, b, c]) == a + Separator + b + Separator + c
  {
    var fields := [a, b, c];
    assert fields[1..] == [b, c];
    assert fields[1..][1..] == [c];
    assert Join(Separator, [b, c]) == b + Separator + c;
  }

  /** No hex digit is ':', so splitting the packed string on the separator
      gives the three fields back. */
  lemma PackedFields(iv: Bytes, mac: Bytes, ct: Bytes)
    ensures Explode(Separator, Packed(iv, mac, ct)) == [Hex(iv), Hex(mac), Hex(ct)]
  {
    var fields := [Hex(iv), Hex(mac), Hex(ct)];
    LowerHexHasNoColon(Hex(iv));
    LowerHexHasNoColon(Hex(mac));
    LowerHexHasNoColon(Hex(ct));
    ExplodeJoin(Separator, fields);
  }

  /** `encryptData($data, $secret)`: `None` stands for NULL. */
  function EncryptData(data: Value, secret: Value, cfg: Config, iv: Bytes, crypto: Crypto): (r: Option<string>)
    ensures r.None? <==> !cfg.opensslLoaded
    ensures r.Some? ==> !Empty(Str(r.value))
    ensures r.Some? ==>
      var key := EncryptionKey(secret, cfg);
      var ct := crypto.encrypt(PlainText(data, crypto), key, iv);
      Explode(Separator, Base64Decode(r.value)) == [Hex(iv), Hex(crypto.hmacRaw(ct, key)), Hex(ct)]
  {
    if !cfg.opensslLoaded then None
    else
      var key := EncryptionKey(secret, cfg);
      var ct := crypto.encrypt(PlainText(data, crypto), key, iv);
      var p := Packed(iv, crypto.hmacRaw(ct, key), ct);
      PackedFields(iv, crypto.hmacRaw(ct, key), ct);
      Base64RoundTrip(p);
      Some(Base64Encode(p))
  }

  /** The value `list(...)` binds to position `i` of the split payload;
      a missing field reads as '' in the HMAC and cipher calls. */
  function Field(parts: seq<string>, i: nat): string {
    if i < |parts| then parts[i] else ""
  }

  /** The MAC recomputed over the ciphertext field equals the MAC field. */
  predicate MacVerified(blob: string, cfg: Config, crypto: Crypto) {
    var parts := Explode(Separator, Base64Decode(blob));
    |parts| >= 2 && crypto.hmacRaw(Field(parts, 2), cfg.secretKey) == parts[1]
  }

  /** `decryptData($data_hash)`, which fails closed: the cipher is reached
      only through a verified MAC, and NULL comes back otherwise. */
  function DecryptData(blob: string, cfg: Config, crypto: Crypto): (r: Value)
    ensures !MacVerified(blob, cfg, crypto) ==> r == Null
    ensures MacVerified(blob, cfg, crypto) ==>
      var parts := Explode(Separator, Base64Decode(blob));
      r == crypto.decrypt(Field(parts, 2), cfg.secretKey, parts[0])
  {
    var parts := Explode(Separator, Base64Decode(blob));
    var iv := parts[0];
    if |parts| < 2 then Null
    else
      var mac := parts[1];
      var ct := Field(parts, 2);
      if crypto.hmacRaw(ct, cfg.secretKey) == mac then crypto.decrypt(ct, cfg.secretKey, iv) else Null
  }

  /** As written, `decryptData` compares a raw 32-byte MAC with a 64-digit
      hex field, so it rejects every payload `encryptData` produces. */
  lemma DecryptOfEncryptIsNull(data: Value, secret: Value, cfg: Config, iv: Bytes, crypto: Crypto)
    requires crypto.Valid() && cfg.opensslLoaded
    ensures DecryptData(EncryptData(data, secret, cfg, iv, crypto).value, cfg, crypto) == Null
  {
    var blob := EncryptData(data, secret, cfg, iv, crypto).value;
    var key := EncryptionKey(secret, cfg);
    var ct := crypto.encrypt(PlainText(data, crypto), key, iv);
    var parts := Explode(Separator, Base64Decode(blob));
    assert parts == [Hex(iv), Hex(crypto.hmacRaw(ct, key)), Hex(ct)];
    assert |parts[1]| == 64;
    assert |crypto.hmacRaw(Field(parts, 2), cfg.secretKey)| == 32;
  }

  /** `decryptData` with the three fields hex-decoded before use. */
  function DecryptDataDecoded(blob: string, cfg: Config, crypto: Crypto): (r: Value)
    ensures r != Null ==>
      var parts := Explode(Separator, Base64Decode(blob));
      |parts| >= 3 && HexDecode(parts[1]).Some? && HexDecode(parts[2]).Some? &&
      crypto.hmacRaw(HexDecode(parts[2]).value, cfg.secretKey) == HexDecode(parts[1]).value
  {
    var parts := Explode(Separator, Base64Decode(blob));
    if |parts| < 3 then Null
    else
      match (HexDecode(parts[0]), HexDecode(parts[1]), HexDecode(parts[2]))
      case (Some(iv), Some(mac), Some(ct)) =>
        if crypto.hmacRaw(ct, cfg.secretKey) == mac then crypto.decrypt(ct, cfg.secretKey, iv) else Null
      case _ => Null
  }

  /** With the fields decoded, a payload encrypted under the settings' key
      decrypts to the plaintext it was made from. */
  lemma DecryptDecodedInvertsEncrypt(data: Value, secret: Value, cfg: Config, iv: Bytes, crypto: Crypto)
    requires crypto.CipherInverts() && cfg.opensslLoaded
    requires EncryptionKey(secret, cfg) == cfg.secretKey
    ensures DecryptDataDecoded(EncryptData(data, secret, cfg, iv, crypto).value, cfg, crypto)
      == Str(PlainText(data, crypto))
  {
    var key := cfg.secretKey;
    var ct := crypto.encrypt(PlainText(data, crypto), key, iv);
    var mac := crypto.hmacRaw(ct, key);
    HexRoundTrip(iv);
    HexRoundTrip(mac);
    HexRoundTrip(ct);
  }

  // ---------------------------------------------------------------------
  // Order status rules

  /** `isValidOrderStatusToResetCartToken($order_status)`. */
  function IsValidOrderStatusToResetCartToken(status: string, cfg: Config): bool {
    status in cfg.toClearStatuses
  }

  /** `isOrderHasValidOrderStatus($order_status)`. */
  function IsOrderHasValidOrderStatus(status: string, cfg: Config): bool {
    var statuses := cfg.invalidStatuses + (if LooseEqualsOne(cfg.considerOnHold) then ["on-hold"] else []);
    status !in ArrayUnique(statuses)
  }

  /** With the default filter, exactly 'failed' and 'pending' orders clear temporary data. */
  lemma ResetStatusesByDefault(status: string, cfg: Config)
    requires cfg.Defaults()
    ensures IsValidOrderStatusToResetCartToken(status, cfg) <==> status == "failed" || status == "pending"
  {
  }

  /** With the default filter, 'pending' and 'failed' are never valid, 'on-hold'
      is invalid exactly when the on-hold setting equals 1, and every other
      status is valid. */
  lemma ValidStatusesByDefault(status: string, cfg: Config)
    requires cfg.Defaults()
    ensures IsOrderHasValidOrderStatus(status, cfg) <==>
      status != "pending" && status != "failed" && (status != "on-hold" || !LooseEqualsOne(cfg.considerOnHold))
  {
    var statuses := cfg.invalidStatuses + (if LooseEqualsOne(cfg.considerOnHold) then ["on-hold"] else []);
    assert status in statuses <==> status == "pending" || status == "failed" || (LooseEqualsOne(cfg.considerOnHold) && status == "on-hold");
  }

  // ---------------------------------------------------------------------
  // Recovered orders

  /** `isOrderInPendingRecovery($order_id)`. */
  predicate IsOrderInPendingRecovery(s: State, orderId: int) {
    orderId in s.orders && Truthy(OrderMetaValue(s, orderId, PendingRecoveryKeyForDb))
  }

  /** `isOrderRecovered($order_id)`. */
  predicate IsOrderRecovered(s: State, orderId: int) {
    orderId in s.orders && Truthy(OrderMetaValue(s, orderId, OrderRecoveredKeyForDb))
  }

  /** The stores after `markOrderAsRecovered($order_id)`. */
  function OrderMarkedRecovered(s: State, orderId: int): State {
    if orderId !in s.orders || IsOrderRecovered(s, orderId) then s
    else
      var s1 := DropOrderMeta(s, orderId, PendingRecoveryKeyForDb);
      var s2 := PutOrderMeta(s1, orderId, OrderRecoveredKeyForDb, Bool(true));
      AppendOrderNote(s2, orderId, RecoveredNote)
  }

  /** `markOrderAsRecovered($order_id)`. */
  method MarkOrderAsRecovered(shop: Shop, orderId: int)
    modifies shop
    ensures shop.Snapshot() == OrderMarkedRecovered(old(shop.Snapshot()), orderId)
  {
    if orderId !in shop.orders || IsOrderRecovered(shop.Snapshot(), orderId) {
      return;
    }
    shop.DeleteOrderMeta(orderId, PendingRecoveryKeyForDb);
    shop.SetOrderMeta(orderId, OrderRecoveredKeyForDb, Bool(true));
    shop.SetOrderNote(orderId, RecoveredNote);
  }

  /** Marking an unrecovered order: it reads as recovered and no longer
      pending, gains exactly one note, and nothing else changes. */
  lemma MarkRecoveredEffect(s: State, orderId: int)
    requires orderId in s.orders && !IsOrderRecovered(s, orderId)
    ensures var t := OrderMarkedRecovered(s, orderId);
      && IsOrderRecovered(t, orderId)
      && !IsOrderInPendingRecovery(t, orderId)
      && NotesOf(t, orderId) == NotesOf(s, orderId) + [RecoveredNote]
      && (forall o :: o != orderId ==> NotesOf(t, o) == NotesOf(s, o))
      && (forall o :: o != orderId ==> MetaOf(t.orderMeta, o) == MetaOf(s.orderMeta, o))
      && (forall k :: k != PendingRecoveryKeyForDb && k != OrderRecoveredKeyForDb ==>
            OrderMetaValue(t, orderId, k) == OrderMetaValue(s, orderId, k))
      && t.(orderMeta := s.orderMeta, notes := s.notes) == s
  {
  }

  /** A missing or already recovered order is left alone. */
  lemma MarkRecoveredNoOp(s: State, orderId: int)
    requires orderId !in s.orders || IsOrderRecovered(s, orderId)
    ensures OrderMarkedRecovered(s, orderId) == s
  {
  }

  /** A second call changes nothing. */
  lemma MarkRecoveredIdempotent(s: State, orderId: int)
    ensures OrderMarkedRecovered(OrderMarkedRecovered(s, orderId), orderId) == OrderMarkedRecovered(s, orderId)
  {
    if orderId in s.orders && !IsOrderRecovered(s, orderId) {
      MarkRecoveredEffect(s, orderId);
    }
  }

  // ---------------------------------------------------------------------
  // Remote sync and visitor flags

  /** The stores after `syncCart($cart_details)`: a call goes out only for
      non-empty details. */
  function CartSynced(s: State, details: Value, cfg: Config): State {
    if Empty(details) then s else WithSync(s, SyncCall(cfg.apiKey, details))
  }

  /** `syncCart($cart_details)`. */
  method SyncCart(shop: Shop, details: Value, cfg: Config)
    modifies shop
    ensures shop.Snapshot() == CartSynced(old(shop.Snapshot()), details, cfg)
  {
    if !Empty(details) {
      shop.SyncCartDetails(SyncCall(cfg.apiKey, details));
    }
  }

  /** Exactly one call, carrying the app id and the details, for non-empty
      details; none otherwise; no other store changes. */
  lemma CartSyncedSendsOnce(s: State, details: Value, cfg: Config)
    ensures var t := CartSynced(s, details, cfg);
      && t.(outbox := s.outbox) == s
      && (Empty(details) ==> t.outbox == s.outbox)
      && (!Empty(details) ==> t.outbox == s.outbox + [SyncCall(cfg.apiKey, details)])
  {
  }

  /** `isBuyerAcceptsMarketing()`: always for a logged-in user, else when the
      session flag loosely equals 1. */
  function IsBuyerAcceptsMarketing(s: State, currentUser: int): bool {
    if currentUser != 0 then true
    else LooseEqualsOne(SessionValue(s, AcceptsMarketingSessionKey))
  }

  /** A logged-in buyer always accepts marketing; a guest accepts only
      through a session flag loosely equal to 1, so a guest who never set
      the flag does not, and `1`, `"1"` and `true` all count as consent. */
  lemma BuyerAcceptsMarketingRule(s: State, currentUser: int)
    ensures currentUser != 0 ==> IsBuyerAcceptsMarketing(s, currentUser)
    ensures currentUser == 0 && AcceptsMarketingSessionKey !in s.session ==> !IsBuyerAcceptsMarketing(s, currentUser)
    ensures currentUser == 0 && SessionValue(s, AcceptsMarketingSessionKey) in {Int(1), Str("1"), Bool(true)}
      ==> IsBuyerAcceptsMarketing(s, currentUser)
  {
  }

  /** `canTrackAbandonedCarts($ip_address)`. */
  function CanTrackAbandonedCarts(ip: Value, env: Env): bool {
    Truthy(env.trackFilter(ip))
  }
}
