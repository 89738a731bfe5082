/** The order-side orchestration of abandoned-cart tracking: copying the
    session's cart state onto a placed order, syncing orders to the remote
    API (immediately or through a scheduled job), clearing the temporary
    cart data, and decorating outgoing WooCommerce webhooks. */
module Checkout {
  import opened Php
  import opened Encoding
  import opened Primitives
  import opened Host
  import opened RestApi

  // ---------------------------------------------------------------------
  // Decisions

  /** `recoverHeldOrders()`: the `rnoc_recover_held_orders` filter result is 'no'. */
  predicate RecoverHeldOrders(cfg: Config) {
    cfg.recoverHeldOrdersFilter == "no"
  }

  /** `isPlaced($order, $old_status, $new_status)`: paid, or newly on hold
      while held orders are not recovered, then passed through
      `rnoc_abandoned_cart_is_order_get_placed`. */
  predicate IsPlaced(order: Order, oldStatus: string, newStatus: string, cfg: Config, env: Env) {
    var placed := order.paid || (newStatus == "on-hold" && !RecoverHeldOrders(cfg));
    env.placedFilter(placed, oldStatus, newStatus)
  }

  /** The placed filter returns the value it is given. */
  ghost predicate PassesPlacedThrough(env: Env) {
    forall p, o, n :: env.placedFilter(p, o, n) == p
  }

  /** Without a filter, an order is placed exactly when it is paid or goes
      on hold under a held-order filter other than 'no'. */
  lemma IsPlacedUnfiltered(order: Order, oldStatus: string, newStatus: string, cfg: Config, env: Env)
    requires PassesPlacedThrough(env)
    ensures IsPlaced(order, oldStatus, newStatus, cfg, env) <==>
      (order.paid || (newStatus == "on-hold" && cfg.recoverHeldOrdersFilter != "no"))
  {
  }

  /** With the default filters, going on hold alone does not place an order:
      only payment does. */
  lemma IsPlacedByDefault(order: Order, oldStatus: string, newStatus: string, cfg: Config, env: Env)
    requires PassesPlacedThrough(env) && cfg.Defaults()
    ensures IsPlaced(order, oldStatus, newStatus, cfg, env) <==> order.paid
  {
  }

  /** `needInstantOrderSync()`: the `rnoc_sync_order_data_instantly_to_api` filter. */
  predicate NeedInstantOrderSync(cfg: Config) {
    cfg.instantSync
  }

  // ---------------------------------------------------------------------
  // Clearing the temporary cart data

  /** The plugin-storage keys `unsetOrderTempData` removes. */
  const TempStorageKeys: set<string> := {
    CartTokenKey, PendingRecoveryKey, CartTrackingStartedKey, PreviousCartHashKey,
    "rnoc_force_refresh_cart", "rnoc_recovered_at", "rnoc_current_cart_hash",
    "rnoc_recovered_by_retainful", "rnoc_recovered_cart_token"
  }

  /** The user-meta keys `removeTempDataForUser` deletes. */
  const UserTempKeys: set<string> := {
    CartTokenKeyForDb, PendingRecoveryKeyForDb, CartTrackingStartedKeyForDb, UserIpKeyForDb
  }

  /** The stores after `removeTempDataForUser($user_id)`. */
  function TempDataRemovedForUser(s: State, userId: int): State {
    if userId in s.userMeta then s.(userMeta := s.userMeta[userId := s.userMeta[userId] - UserTempKeys])
    else s
  }

  /** The stores after `unsetOrderTempData($user_id)`. */
  function TempDataUnset(s: State, given: int, current: int): State {
    var cleared := s.(storage := s.storage - TempStorageKeys);
    var userId := ResolveUserId(given, current);
    if userId != 0 then TempDataRemovedForUser(cleared, userId) else cleared
  }

  /** `removeTempDataForUser($user_id)`. */
  method RemoveTempDataForUser(shop: Shop, userId: int)
    modifies shop
    ensures shop.Snapshot() == TempDataRemovedForUser(old(shop.Snapshot()), userId)
  {
    ghost var m := shop.userMeta;
    shop.DeleteUserMeta(userId, CartTokenKeyForDb);
    shop.DeleteUserMeta(userId, PendingRecoveryKeyForDb);
    shop.DeleteUserMeta(userId, CartTrackingStartedKeyForDb);
    shop.DeleteUserMeta(userId, UserIpKeyForDb);
    UserMetaWithoutTempKeys(m, userId);
  }

  /** The four `delete_user_meta` calls remove the four keys of that user. */
  lemma UserMetaWithoutTempKeys(m: map<int, Meta>, userId: int)
    ensures MetaWithout(MetaWithout(MetaWithout(MetaWithout(m, userId, CartTokenKeyForDb),
              userId, PendingRecoveryKeyForDb), userId, CartTrackingStartedKeyForDb), userId, UserIpKeyForDb)
      == if userId in m then m[userId := m[userId] - UserTempKeys] else m
  {
    if userId in m {
      MetaWithoutTempKeys(m[userId]);
    }
  }

  lemma MetaWithoutTempKeys(m: Meta)
    ensures m - {CartTokenKeyForDb} - {PendingRecoveryKeyForDb} - {CartTrackingStartedKeyForDb} - {UserIpKeyForDb}
      == m - UserTempKeys
  {
  }

  /** `unsetOrderTempData($user_id)`; `current` is `get_current_user_id()`. */
  method UnsetOrderTempData(shop: Shop, given: int, current: int)
    modifies shop
    ensures shop.Snapshot() == TempDataUnset(old(shop.Snapshot()), given, current)
  {
    ghost var s0 := shop.Snapshot();
    shop.RemoveValue(CartTokenKey);
    shop.RemoveValue(PendingRecoveryKey);
    shop.RemoveValue(CartTrackingStartedKey);
    shop.RemoveValue(PreviousCartHashKey);
    shop.RemoveValue("rnoc_force_refresh_cart");
    shop.RemoveValue("rnoc_recovered_at");
    shop.RemoveValue("rnoc_current_cart_hash");
    shop.RemoveValue("rnoc_recovered_by_retainful");
    shop.RemoveValue("rnoc_recovered_cart_token");
    StorageWithoutTempKeys(s0.storage);
    var userId := ResolveUserId(given, current);
    if userId != 0 {
      RemoveTempDataForUser(shop, userId);
    }
  }

  lemma StorageWithoutTempKeys(m: map<string, Value>)
    ensures m - {CartTokenKey} - {PendingRecoveryKey} - {CartTrackingStartedKey} - {PreviousCartHashKey}
      - {"rnoc_force_refresh_cart"} - {"rnoc_recovered_at"} - {"rnoc_current_cart_hash"}
      - {"rnoc_recovered_by_retainful"} - {"rnoc_recovered_cart_token"} == m - TempStorageKeys
  {
  }

  /** Exactly the nine storage keys go, and, for a resolved user, exactly
      that user's four meta keys; every other entry and store is kept. */
  lemma TempDataUnsetRemovesExactly(s: State, given: int, current: int, u: int, k: string)
    ensures var t := TempDataUnset(s, given, current);
      && (k in t.storage <==> k in s.storage && k !in TempStorageKeys)
      && (k in t.storage ==> t.storage[k] == s.storage[k])
      && (u in t.userMeta <==> u in s.userMeta)
      && (u in s.userMeta ==>
            (k in t.userMeta[u] <==>
               k in s.userMeta[u] && !(u == ResolveUserId(given, current) && u != 0 && k in UserTempKeys)))
      && (u in t.userMeta && k in t.userMeta[u] ==> t.userMeta[u][k] == s.userMeta[u][k])
  {
  }

  /** `unsetOrderTempData` touches only plugin storage and user meta. */
  lemma TempDataUnsetKeepsOtherStores(s: State, given: int, current: int)
    ensures var t := TempDataUnset(s, given, current);
      && t.session == s.session && t.orders == s.orders && t.orderMeta == s.orderMeta
      && t.notes == s.notes && t.jobs == s.jobs && t.outbox == s.outbox
  {
  }

  lemma TempDataUnsetIdempotent(s: State, given: int, current: int)
    ensures TempDataUnset(TempDataUnset(s, given, current), given, current) == TempDataUnset(s, given, current)
  {
    var t := TempDataUnset(s, given, current);
    var userId := ResolveUserId(given, current);
    assert t.storage - TempStorageKeys == t.storage;
    if userId != 0 && userId in s.userMeta {
      assert t.userMeta[userId] - UserTempKeys == t.userMeta[userId];
      assert t.userMeta[userId := t.userMeta[userId] - UserTempKeys] == t.userMeta;
    }
  }

  /** Once a user's temporary data is removed, the per-user lookups see no
      cart token, no pending recovery and no tracking start. */
  lemma TempDataRemovedForUserForgetsCart(s: State, userId: int, current: int)
    requires userId != 0
    ensures var t := TempDataRemovedForUser(s, userId);
      && RetrieveCartToken(t, userId, current) == Str("")
      && !IsPendingRecovery(t, userId, current)
      && UserCartCreatedAt(t, userId, current) == Str("")
  {
  }

  // ---------------------------------------------------------------------
  // Copying the session's cart state onto the order

  /** `meta` after the eleven `update_meta_data` calls of `purchaseComplete`. */
  function WithPurchaseMeta(meta: Meta, s: State, token: Value, req: Request, env: Env): Meta {
    meta[CartTokenKeyForDb := token]
        [CartHashKeyForDb := Str(CartHash(req.cart, req.cartTotal, env.crypto))]
        [CartTrackingStartedKeyForDb := UserCartCreatedAt(s, 0, req.currentUser)]
        [UserIpKeyForDb := Str(RetrieveUserIp(s, env.clean))]
        [AcceptsMarketingKeyForDb := Int(if IsBuyerAcceptsMarketing(s, req.currentUser) then 1 else 0)]
        ["_rnoc_recovered_at" := StorageValue(s, "rnoc_recovered_at")]
        ["_rnoc_recovered_by" := StorageValue(s, "rnoc_recovered_by_retainful")]
        ["_rnoc_recovered_cart_token" := StorageValue(s, "rnoc_recovered_cart_token")]
        ["_rnoc_get_http_user_agent" := req.userAgent]
        ["_rnoc_get_http_accept_language" := req.acceptLanguage]
        [PendingRecoveryKeyForDb := Bool(true)]
  }

  /** The keys `purchaseComplete` writes. */
  const PurchaseKeys: set<string> := {
    CartTokenKeyForDb, CartHashKeyForDb, CartTrackingStartedKeyForDb, UserIpKeyForDb,
    AcceptsMarketingKeyForDb, "_rnoc_recovered_at", "_rnoc_recovered_by",
    "_rnoc_recovered_cart_token", "_rnoc_get_http_user_agent",
    "_rnoc_get_http_accept_language", PendingRecoveryKeyForDb
  }

  /** Whether `purchaseComplete` writes: an order id, a cart token for the
      visitor and an order object. */
  predicate PurchaseWrites(s: State, orderId: int, req: Request) {
    orderId != 0 && !Empty(RetrieveCartToken(s, 0, req.currentUser)) && orderId in s.orders
  }

  /** The stores after `purchaseComplete($order_id)`. */
  function PurchaseCompleted(s: State, orderId: int, req: Request, env: Env): State {
    if !PurchaseWrites(s, orderId, req) then s
    else SavedOrderMeta(s, orderId,
           WithPurchaseMeta(MetaOf(s.orderMeta, orderId), s, RetrieveCartToken(s, 0, req.currentUser), req, env))
  }

  /** `purchaseComplete($order_id)`: the meta updates are collected on the
      order object and written by one `save()`. */
  method PurchaseComplete(shop: Shop, orderId: int, req: Request, env: Env)
    modifies shop
    ensures shop.Snapshot() == PurchaseCompleted(old(shop.Snapshot()), orderId, req, env)
  {
    if orderId == 0 {
      return;
    }
    var s := shop.Snapshot();
    var token := RetrieveCartToken(s, 0, req.currentUser);
    if !Empty(token) {
      var createdAt := UserCartCreatedAt(s, 0, req.currentUser);
      var userIp := RetrieveUserIp(s, env.clean);
      var accepts := if IsBuyerAcceptsMarketing(s, req.currentUser) then 1 else 0;
      var cartHash := GenerateCartHash(req.cart, req.cartTotal, env.crypto);
      var recoveredAt := StorageValue(s, "rnoc_recovered_at");
      var recoveredBy := StorageValue(s, "rnoc_recovered_by_retainful");
      var recoveredToken := StorageValue(s, "rnoc_recovered_cart_token");
      if orderId in shop.orders {
        var meta := MetaOf(shop.orderMeta, orderId);
        meta := meta[CartTokenKeyForDb := token];
        meta := meta[CartHashKeyForDb := Str(cartHash)];
        meta := meta[CartTrackingStartedKeyForDb := createdAt];
        meta := meta[UserIpKeyForDb := Str(userIp)];
        meta := meta[AcceptsMarketingKeyForDb := Int(accepts)];
        meta := meta["_rnoc_recovered_at" := recoveredAt];
        meta := meta["_rnoc_recovered_by" := recoveredBy];
        meta := meta["_rnoc_recovered_cart_token" := recoveredToken];
        meta := meta["_rnoc_get_http_user_agent" := req.userAgent];
        meta := meta["_rnoc_get_http_accept_language" := req.acceptLanguage];
        meta := meta[PendingRecoveryKeyForDb := Bool(true)];
        shop.SaveOrder(orderId, meta);
      }
    }
  }

  /** No order id, no visitor cart token or no such order: nothing is written. */
  lemma PurchaseCompleteGuards(s: State, orderId: int, req: Request, env: Env)
    requires orderId == 0 || Empty(RetrieveCartToken(s, 0, req.currentUser)) || orderId !in s.orders
    ensures PurchaseCompleted(s, orderId, req, env) == s
  {
  }

  /** Eleven distinct keys are written. */
  lemma PurchaseKeysCount()
    ensures |PurchaseKeys| == 11
  {
  }

  /** `WithPurchaseMeta` adds exactly the eleven keys to those already there. */
  lemma PurchaseMetaKeys(meta: Meta, s: State, token: Value, req: Request, env: Env)
    ensures WithPurchaseMeta(meta, s, token, req, env).Keys == meta.Keys + PurchaseKeys
  {
  }

  /** Otherwise every one of the keys is present afterwards. */
  lemma PurchaseCompleteWrites(s: State, orderId: int, req: Request, env: Env)
    requires PurchaseWrites(s, orderId, req)
    ensures var t := PurchaseCompleted(s, orderId, req, env);
      forall k :: k in PurchaseKeys ==> k in MetaOf(t.orderMeta, orderId)
  {
    PurchaseMetaKeys(MetaOf(s.orderMeta, orderId), s, RetrieveCartToken(s, 0, req.currentUser), req, env);
  }

  /** The cart-token key is none of the ten keys written after it. */
  lemma TokenKeyWrittenOnce()
    ensures && CartTokenKeyForDb != CartHashKeyForDb
            && CartTokenKeyForDb != CartTrackingStartedKeyForDb
            && CartTokenKeyForDb != UserIpKeyForDb
            && CartTokenKeyForDb != AcceptsMarketingKeyForDb
            && CartTokenKeyForDb != "_rnoc_recovered_at"
            && CartTokenKeyForDb != "_rnoc_recovered_by"
            && CartTokenKeyForDb != "_rnoc_recovered_cart_token"
            && CartTokenKeyForDb != "_rnoc_get_http_user_agent"
            && CartTokenKeyForDb != "_rnoc_get_http_accept_language"
            && CartTokenKeyForDb != PendingRecoveryKeyForDb
  {
    assert |CartTokenKeyForDb| == 21 && CartTokenKeyForDb[11] == 'c';
    assert |UserIpKeyForDb| == 21 && UserIpKeyForDb[11] == 'i';
  }

  /** The token written first survives the later updates. */
  lemma PurchaseMetaToken(meta: Meta, s: State, token: Value, req: Request, env: Env)
    ensures var m := WithPurchaseMeta(meta, s, token, req, env);
      && CartTokenKeyForDb in m && m[CartTokenKeyForDb] == token
      && PendingRecoveryKeyForDb in m && m[PendingRecoveryKeyForDb] == Bool(true)
  {
    TokenKeyWrittenOnce();
  }

  /** The visitor's cart token is copied and pending recovery is set. */
  lemma PurchaseCompleteCopiesToken(s: State, orderId: int, req: Request, env: Env)
    requires PurchaseWrites(s, orderId, req)
    ensures var t := PurchaseCompleted(s, orderId, req, env);
      && OrderMetaValue(t, orderId, CartTokenKeyForDb) == RetrieveCartToken(s, 0, req.currentUser)
      && OrderMetaValue(t, orderId, PendingRecoveryKeyForDb) == Bool(true)
      && IsOrderInPendingRecovery(t, orderId)
  {
    PurchaseMetaToken(MetaOf(s.orderMeta, orderId), s, RetrieveCartToken(s, 0, req.currentUser), req, env);
  }

  /** Only that order's meta changes. */
  lemma PurchaseCompleteOnlyThatOrder(s: State, orderId: int, req: Request, env: Env)
    ensures var t := PurchaseCompleted(s, orderId, req, env);
      && (forall o :: o != orderId ==> MetaOf(t.orderMeta, o) == MetaOf(s.orderMeta, o))
      && t.(orderMeta := s.orderMeta) == s
  {
  }

  /** Every key outside the eleven keeps its value (or its absence). */
  lemma PurchaseCompleteKeepsOtherKeys(s: State, orderId: int, req: Request, env: Env, k: string)
    requires k !in PurchaseKeys
    ensures var t := PurchaseCompleted(s, orderId, req, env);
      && (k in MetaOf(t.orderMeta, orderId) <==> k in MetaOf(s.orderMeta, orderId))
      && OrderMetaValue(t, orderId, k) == OrderMetaValue(s, orderId, k)
  {
  }

  // ---------------------------------------------------------------------
  // Scheduling a deferred sync

  const SyncHook := "retainful_sync_abandoned_cart_order"
  const OrderIdArg := "_rnoc_order_id"

  /** A queued job syncing this order. */
  predicate IsSyncJobFor(j: Job, orderId: int) {
    j.hook == SyncHook && Get(j.args, OrderIdArg) == Some(Int(orderId))
  }

  /** `hasAnyActiveScheduleExists($hook, $order_id, $meta_key)` over the queue. */
  predicate HasActiveSchedule(jobs: seq<Job>, orderId: int) {
    exists i :: 0 <= i < |jobs| && IsSyncJobFor(jobs[i], orderId)
  }

  /** How many queued jobs sync this order. */
  function CountSyncJobs(jobs: seq<Job>, orderId: int): nat {
    if jobs == [] then 0
    else CountSyncJobs(jobs[..|jobs| - 1], orderId) + (if IsSyncJobFor(jobs[|jobs| - 1], orderId) then 1 else 0)
  }

  function SyncJob(orderId: int, now: int): Job {
    Job(SyncHook, now + 60, [(OrderIdArg, Int(orderId))])
  }

  /** The stores after `scheduleCartSync($order_id)`; `now` is `current_time('timestamp')`. */
  function CartSyncScheduled(s: State, orderId: int, cfg: Config, now: int): State {
    if !cfg.scheduleSync || HasActiveSchedule(s.jobs, orderId) then s
    else WithJob(s, SyncJob(orderId, now))
  }

  /** `scheduleCartSync($order_id)`. */
  method ScheduleCartSync(shop: Shop, orderId: int, cfg: Config, now: int)
    modifies shop
    ensures shop.Snapshot() == CartSyncScheduled(old(shop.Snapshot()), orderId, cfg, now)
  {
    if !cfg.scheduleSync {
      return;
    }
    if !HasActiveSchedule(shop.jobs, orderId) {
      shop.ScheduleEvents(SyncJob(orderId, now));
    }
  }

  /** An order has an active schedule exactly when at least one job syncs it. */
  lemma {:induction false} HasActiveScheduleIffCount(jobs: seq<Job>, orderId: int)
    ensures HasActiveSchedule(jobs, orderId) <==> CountSyncJobs(jobs, orderId) > 0
  {
    if jobs != [] {
      var init := jobs[..|jobs| - 1];
      HasActiveScheduleIffCount(init, orderId);
      if HasActiveSchedule(init, orderId) {
        var i :| 0 <= i < |init| && IsSyncJobFor(init[i], orderId);
        assert jobs[i] == init[i];
      }
      if HasActiveSchedule(jobs, orderId) {
        var i :| 0 <= i < |jobs| && IsSyncJobFor(jobs[i], orderId);
        if i < |init| {
          assert init[i] == jobs[i];
        }
      }
    }
  }

  lemma CountSyncJobsSnoc(jobs: seq<Job>, j: Job, orderId: int)
    ensures CountSyncJobs(jobs + [j], orderId) == CountSyncJobs(jobs, orderId) + (if IsSyncJobFor(j, orderId) then 1 else 0)
  {
    assert (jobs + [j])[..|jobs|] == jobs;
  }

  /** The filter off, nothing is queued. */
  lemma ScheduleOffDoesNothing(s: State, orderId: int, cfg: Config, now: int)
    requires !cfg.scheduleSync
    ensures CartSyncScheduled(s, orderId, cfg, now) == s
  {
  }

  /** With the filter on, after scheduling at least one job syncs the order,
      a job is added only when none did, and that job runs 60 seconds later;
      at most one job is ever added. */
  lemma ScheduleEnsuresOneJob(s: State, orderId: int, cfg: Config, now: int)
    requires cfg.scheduleSync
    ensures var t := CartSyncScheduled(s, orderId, cfg, now);
      && HasActiveSchedule(t.jobs, orderId)
      && (CountSyncJobs(s.jobs, orderId) == 0 ==>
            CountSyncJobs(t.jobs, orderId) == 1 && t.jobs == s.jobs + [SyncJob(orderId, now)])
      && (CountSyncJobs(s.jobs, orderId) > 0 ==> t == s)
      && t.(jobs := s.jobs) == s
  {
    var t := CartSyncScheduled(s, orderId, cfg, now);
    HasActiveScheduleIffCount(s.jobs, orderId);
    CountSyncJobsSnoc(s.jobs, SyncJob(orderId, now), orderId);
    assert IsSyncJobFor(SyncJob(orderId, now), orderId);
    HasActiveScheduleIffCount(t.jobs, orderId);
  }

  /** Two consecutive calls queue what the first one queued; starting
      from no job for the order they leave exactly one. */
  lemma ScheduleTwiceSchedulesOnce(s: State, orderId: int, cfg: Config, now1: int, now2: int)
    ensures var t := CartSyncScheduled(s, orderId, cfg, now1);
      && CartSyncScheduled(t, orderId, cfg, now2) == t
      && (cfg.scheduleSync && CountSyncJobs(s.jobs, orderId) == 0 ==> CountSyncJobs(t.jobs, orderId) == 1)
  {
    if cfg.scheduleSync {
      ScheduleEnsuresOneJob(s, orderId, cfg, now1);
    }
  }

  // ---------------------------------------------------------------------
  // Syncing an order

  /** What a `syncOrder` call sent: nothing, or the order payload with the
      headers built for it. */
  datatype SyncReport = NoSync | Sent(payload: PhpArray, headers: PhpArray)

  /** The four headers `syncOrder` and `syncOrderToAPI` build. */
  function SyncHeaders(clientIp: Value, version: string, token: Value): PhpArray {
    [ ("X-Client-Referrer-IP", if !Empty(clientIp) then clientIp else Null),
      ("X-Retainful-Version", Str(version)),
      ("X-Cart-Token", token),
      ("Cart-Token", token) ]
  }

  /** Whether `syncOrder` stamps the cancellation time: none is recorded and
      the order is cancelled. */
  predicate StampsCancellation(s: State, orderId: int) {
    !Truthy(OrderMetaValue(s, orderId, OrderCancelledDateKeyForDb)) && OrderStatus(s, orderId) == "cancelled"
  }

  /** The cancellation time `syncOrder` works with. */
  function CancelledAt(s: State, orderId: int, req: Request): Value {
    if StampsCancellation(s, orderId) then Int(req.gmtNow)
    else OrderMetaValue(s, orderId, OrderCancelledDateKeyForDb)
  }

  /** The payload `syncOrder` encrypts: the order data with `cancelled_at`. */
  function SyncPayload(data: PhpArray, cancelledAt: Value, env: Env): PhpArray {
    Set(data, "cancelled_at", if !Empty(cancelledAt) then env.formatDate(cancelledAt) else Null)
  }

  /** Whether `syncOrder` gets past its guards. */
  predicate SyncOrderProceeds(s: State, orderId: int, cfg: Config, env: Env) {
    orderId != 0 && !cfg.backgroundSync && !Empty(env.tokenFilter(OrderMetaValue(s, orderId, CartTokenKeyForDb), orderId))
  }

  /** The stores after the cancellation step of `syncOrder`: a stamped
      cancellation also clears the visitor's temporary data. */
  function CancellationHandled(s: State, orderId: int, req: Request): State {
    if StampsCancellation(s, orderId)
    then TempDataUnset(PutOrderMeta(s, orderId, OrderCancelledDateKeyForDb, Int(req.gmtNow)), 0, req.currentUser)
    else s
  }

  /** The encrypted payload `syncOrder` sends, when `encryptData` gives a non-empty one. */
  function SyncDetails(payload: PhpArray, cfg: Config, env: Env, req: Request): Option<string> {
    var hash := EncryptData(Arr(payload), Null, cfg, req.iv, env.crypto);
    if hash.None? || Empty(Str(hash.value)) then None else hash
  }

  /** The stores after `syncOrder($order_id)`, and what it sent. */
  function SyncOrderResult(s: State, orderId: int, cfg: Config, env: Env, req: Request): (State, SyncReport) {
    if !SyncOrderProceeds(s, orderId, cfg, env) then (s, NoSync)
    else
      var s1 := CancellationHandled(s, orderId, req);
      var data := env.orderData(orderId);
      if data == [] then (s1, NoSync)
      else
        var payload := SyncPayload(data, CancelledAt(s, orderId, req), env);
        var details := SyncDetails(payload, cfg, env, req);
        if details.None? then (s1, NoSync)
        else
          var headers := SyncHeaders(OrderMetaValue(s1, orderId, UserIpKeyForDb), cfg.version,
                                     OrderMetaValue(s1, orderId, CartTokenKeyForDb));
          (CartSynced(s1, Str(details.value), cfg), Sent(payload, headers))
  }

  /** The cancellation step touches only order meta, plugin storage and user meta. */
  lemma CancellationHandledKeeps(s: State, orderId: int, req: Request)
    ensures var c := CancellationHandled(s, orderId, req);
      && c.session == s.session && c.orders == s.orders && c.notes == s.notes
      && c.jobs == s.jobs && c.outbox == s.outbox
      && (!StampsCancellation(s, orderId) ==> c == s)
      && (StampsCancellation(s, orderId) ==> OrderMetaValue(c, orderId, OrderCancelledDateKeyForDb) == Int(req.gmtNow))
  {
    if StampsCancellation(s, orderId) {
      var p := PutOrderMeta(s, orderId, OrderCancelledDateKeyForDb, Int(req.gmtNow));
      TempDataUnsetKeepsOtherStores(p, 0, req.currentUser);
    }
  }

  /** What `syncOrder` leaves: the stores after the cancellation step, plus
      at most the one call it sends. */
  lemma SyncOrderShape(s: State, orderId: int, cfg: Config, env: Env, req: Request)
    ensures var (t, report) := SyncOrderResult(s, orderId, cfg, env, req);
      var c := CancellationHandled(s, orderId, req);
      && (!SyncOrderProceeds(s, orderId, cfg, env) ==> t == s && report == NoSync)
      && (SyncOrderProceeds(s, orderId, cfg, env) ==> t.(outbox := c.outbox) == c)
      && (report == NoSync ==> t.outbox == s.outbox)
      && (report.Sent? ==>
            && SyncDetails(report.payload, cfg, env, req).Some?
            && t.outbox == s.outbox + [SyncCall(cfg.apiKey, Str(SyncDetails(report.payload, cfg, env, req).value))])
  {
    CancellationHandledKeeps(s, orderId, req);
  }

  /** `syncOrder($order_id)`. */
  method SyncOrder(shop: Shop, orderId: int, cfg: Config, env: Env, req: Request) returns (report: SyncReport)
    modifies shop
    ensures (shop.Snapshot(), report) == SyncOrderResult(old(shop.Snapshot()), orderId, cfg, env, req)
  {
    report := NoSync;
    if orderId == 0 || cfg.backgroundSync {
      return;
    }
    var token := env.tokenFilter(OrderMetaValue(shop.Snapshot(), orderId, CartTokenKeyForDb), orderId);
    if Empty(token) {
      return;
    }
    ghost var s0 := shop.Snapshot();
    var status := OrderStatus(shop.Snapshot(), orderId);
    var cancelledAt := OrderMetaValue(shop.Snapshot(), orderId, OrderCancelledDateKeyForDb);
    if !Truthy(cancelledAt) && status == "cancelled" {
      cancelledAt := Int(req.gmtNow);
      shop.SetOrderMeta(orderId, OrderCancelledDateKeyForDb, cancelledAt);
      UnsetOrderTempData(shop, 0, req.currentUser);
    }
    assert shop.Snapshot() == CancellationHandled(s0, orderId, req);
    assert cancelledAt == CancelledAt(s0, orderId, req);
    var data := env.orderData(orderId);
    if data == [] {
      return;
    }
    var payload := Set(data, "cancelled_at", if !Empty(cancelledAt) then env.formatDate(cancelledAt) else Null);
    var hash := EncryptData(Arr(payload), Null, cfg, req.iv, env.crypto);
    var clientIp := OrderMetaValue(shop.Snapshot(), orderId, UserIpKeyForDb);
    assert payload == SyncPayload(data, CancelledAt(s0, orderId, req), env);
    if hash.Some? && !Empty(Str(hash.value)) {
      assert SyncDetails(payload, cfg, env, req) == hash;
      var stored := OrderMetaValue(shop.Snapshot(), orderId, CartTokenKeyForDb);
      var headers := SyncHeaders(clientIp, cfg.version, stored);
      SyncCart(shop, Str(hash.value), cfg);
      report := Sent(payload, headers);
    }
  }

  /** No id, background sync, an empty filtered token or empty order data:
      nothing is sent. */
  lemma SyncOrderGuards(s: State, orderId: int, cfg: Config, env: Env, req: Request)
    requires !SyncOrderProceeds(s, orderId, cfg, env) || env.orderData(orderId) == []
    ensures var (t, report) := SyncOrderResult(s, orderId, cfg, env, req);
      report == NoSync && t.outbox == s.outbox
    ensures !SyncOrderProceeds(s, orderId, cfg, env) ==> SyncOrderResult(s, orderId, cfg, env, req).0 == s
  {
  }

  /** A recorded cancellation time is never overwritten; a cancelled order
      without one gets the current time, once; no other order meta or
      storage changes unless it is stamped. */
  lemma SyncOrderStampsCancellationOnce(s: State, orderId: int, cfg: Config, env: Env, req: Request)
    ensures var t := SyncOrderResult(s, orderId, cfg, env, req).0;
      && (Truthy(OrderMetaValue(s, orderId, OrderCancelledDateKeyForDb)) ==>
            OrderMetaValue(t, orderId, OrderCancelledDateKeyForDb) == OrderMetaValue(s, orderId, OrderCancelledDateKeyForDb))
      && (SyncOrderProceeds(s, orderId, cfg, env) && StampsCancellation(s, orderId) ==>
            OrderMetaValue(t, orderId, OrderCancelledDateKeyForDb) == Int(req.gmtNow))
      && (!StampsCancellation(s, orderId) ==> t.orderMeta == s.orderMeta && t.storage == s.storage)
  {
    var t := SyncOrderResult(s, orderId, cfg, env, req).0;
    var c := CancellationHandled(s, orderId, req);
    SyncOrderShape(s, orderId, cfg, env, req);
    CancellationHandledKeeps(s, orderId, req);
    if SyncOrderProceeds(s, orderId, cfg, env) {
      assert t.orderMeta == c.orderMeta && t.storage == c.storage;
    }
  }

  /** When something is sent, the payload carries `cancelled_at`: null exactly
      when the order has no cancellation time, its formatted form otherwise,
      and every other entry of the order data; one call carrying the
      encrypted payload goes out. */
  lemma SyncOrderPayload(s: State, orderId: int, cfg: Config, env: Env, req: Request)
    ensures var (t, report) := SyncOrderResult(s, orderId, cfg, env, req);
      report.Sent? ==>
        var at := CancelledAt(s, orderId, req);
        && cfg.opensslLoaded
        && Get(report.payload, "cancelled_at") == Some(if Empty(at) then Null else env.formatDate(at))
        && (forall k :: k != "cancelled_at" ==> Get(report.payload, k) == Get(env.orderData(orderId), k))
        && t.outbox == s.outbox + [SyncCall(cfg.apiKey, Str(SyncDetails(report.payload, cfg, env, req).value))]
  {
    var (t, report) := SyncOrderResult(s, orderId, cfg, env, req);
    SyncOrderShape(s, orderId, cfg, env, req);
    if report.Sent? {
      var at := CancelledAt(s, orderId, req);
      var v := if !Empty(at) then env.formatDate(at) else Null;
      assert report.payload == Set(env.orderData(orderId), "cancelled_at", v);
      forall k
        ensures Get(report.payload, k) == (if k == "cancelled_at" then Some(v) else Get(env.orderData(orderId), k))
      {
        GetSet(env.orderData(orderId), "cancelled_at", v, k);
      }
    }
  }

  /** Past the guards, with order data and openssl, an order is always sent. */
  lemma SyncOrderSends(s: State, orderId: int, cfg: Config, env: Env, req: Request)
    requires SyncOrderProceeds(s, orderId, cfg, env) && env.orderData(orderId) != [] && cfg.opensslLoaded
    ensures SyncOrderResult(s, orderId, cfg, env, req).1.Sent?
  {
  }

  /** `syncOrder` never queues a job, and never touches the order list or notes. */
  lemma SyncOrderNeverSchedules(s: State, orderId: int, cfg: Config, env: Env, req: Request)
    ensures var t := SyncOrderResult(s, orderId, cfg, env, req).0;
      t.jobs == s.jobs && t.orders == s.orders && t.notes == s.notes
  {
    SyncOrderShape(s, orderId, cfg, env, req);
    CancellationHandledKeeps(s, orderId, req);
  }

  // ---------------------------------------------------------------------
  // Immediate versus scheduled sync

  /** The stores after `syncOrderToAPI($order, $order_id)`. */
  function SyncedToApi(s: State, orderId: int, cfg: Config, env: Env, req: Request): State {
    if cfg.backgroundSync then s
    else if NeedInstantOrderSync(cfg) then
      var cart := env.orderData(orderId);
      if cart == [] then s
      else
        var details := SyncDetails(cart, cfg, env, req);
        if details.None? then s else CartSynced(s, Str(details.value), cfg)
    else CartSyncScheduled(s, orderId, cfg, req.localNow)
  }

  /** `syncOrderToAPI($order, $order_id)`. */
  method SyncOrderToApi(shop: Shop, orderId: int, cfg: Config, env: Env, req: Request)
    modifies shop
    ensures shop.Snapshot() == SyncedToApi(old(shop.Snapshot()), orderId, cfg, env, req)
  {
    if cfg.backgroundSync {
      return;
    }
    if NeedInstantOrderSync(cfg) {
      var cart := env.orderData(orderId);
      if cart != [] {
        var hash := EncryptData(Arr(cart), Null, cfg, req.iv, env.crypto);
        if hash.Some? && !Empty(Str(hash.value)) {
          assert SyncDetails(cart, cfg, env, req) == hash;
          SyncCart(shop, Str(hash.value), cfg);
        }
      }
    } else {
      ScheduleCartSync(shop, orderId, cfg, req.localNow);
    }
  }

  /** Background sync: nothing happens. Otherwise an instant sync only sends
      and a deferred one only queues; the other stores are kept. */
  lemma SyncedToApiDoesOne(s: State, orderId: int, cfg: Config, env: Env, req: Request)
    ensures var t := SyncedToApi(s, orderId, cfg, env, req);
      && (cfg.backgroundSync ==> t == s)
      && (NeedInstantOrderSync(cfg) ==> t.(outbox := s.outbox) == s && |t.outbox| <= |s.outbox| + 1)
      && (!NeedInstantOrderSync(cfg) ==> t.(jobs := s.jobs) == s)
      && (!cfg.backgroundSync && NeedInstantOrderSync(cfg) && env.orderData(orderId) != [] && cfg.opensslLoaded ==>
            |t.outbox| == |s.outbox| + 1)
  {
    if !cfg.backgroundSync && NeedInstantOrderSync(cfg) && env.orderData(orderId) != [] {
      var details := SyncDetails(env.orderData(orderId), cfg, env, req);
      if details.Some? {
        CartSyncedSendsOnce(s, Str(details.value), cfg);
      }
    }
  }

  /** The stores after `orderUpdated($order_id)`. */
  function OrderUpdatedResult(s: State, orderId: int, cfg: Config, env: Env, req: Request): State {
    if NeedInstantOrderSync(cfg) then SyncOrderResult(s, orderId, cfg, env, req).0
    else CartSyncScheduled(s, orderId, cfg, req.localNow)
  }

  /** `orderUpdated($order_id)`. */
  method OrderUpdated(shop: Shop, orderId: int, cfg: Config, env: Env, req: Request)
    modifies shop
    ensures shop.Snapshot() == OrderUpdatedResult(old(shop.Snapshot()), orderId, cfg, env, req)
  {
    if NeedInstantOrderSync(cfg) {
      var _ := SyncOrder(shop, orderId, cfg, env, req);
    } else {
      ScheduleCartSync(shop, orderId, cfg, req.localNow);
    }
  }

  /** An updated order is either synced (no job queued) or scheduled
      (nothing sent, no meta written), never both. */
  lemma OrderUpdatedDoesOne(s: State, orderId: int, cfg: Config, env: Env, req: Request)
    ensures var t := OrderUpdatedResult(s, orderId, cfg, env, req);
      && (NeedInstantOrderSync(cfg) ==> t.jobs == s.jobs)
      && (!NeedInstantOrderSync(cfg) ==> t.outbox == s.outbox && t.orderMeta == s.orderMeta && t.storage == s.storage)
  {
    if NeedInstantOrderSync(cfg) {
      SyncOrderNeverSchedules(s, orderId, cfg, env, req);
    }
  }

  // ---------------------------------------------------------------------
  // Order tokens and flags

  /** The token `setOrderCartToken` stores: the given one, else a fresh one. */
  function OrderCartToken(token: Value, e: TokenEntropy, crypto: Crypto): Value {
    if Empty(token) then Str(GenerateCartToken(e, crypto)) else token
  }

  /** `setOrderCartToken($cart_token, $order_id)`. */
  method SetOrderCartToken(shop: Shop, token: Value, orderId: int, env: Env, req: Request)
    modifies shop
    ensures shop.Snapshot() == PutOrderMeta(old(shop.Snapshot()), orderId, CartTokenKeyForDb,
                                            OrderCartToken(token, req.entropy, env.crypto))
  {
    var t := token;
    if Empty(t) {
      t := Str(GenerateCartToken(req.entropy, env.crypto));
    }
    shop.SetOrderMeta(orderId, CartTokenKeyForDb, t);
  }

  /** The stored token is never empty: a non-empty one is kept, an empty one
      is replaced by a 32-digit md5 value. */
  lemma OrderCartTokenNonEmpty(token: Value, e: TokenEntropy, crypto: Crypto)
    requires crypto.Valid()
    ensures !Empty(OrderCartToken(token, e, crypto))
    ensures !Empty(token) ==> OrderCartToken(token, e, crypto) == token
    ensures Empty(token) ==> OrderCartToken(token, e, crypto).Str? && IsDigest(OrderCartToken(token, e, crypto).s)
  {
  }

  /** The stores after `maybeUpdateOrderOnSuccessfulPayment($result, $order_id)`. */
  function PaymentUpdated(s: State, orderId: int, cfg: Config, env: Env, req: Request): State {
    if !Truthy(OrderMetaValue(s, orderId, CartTokenKeyForDb)) then s
    else SyncedToApi(s, orderId, cfg, env, req)
  }

  /** `maybeUpdateOrderOnSuccessfulPayment($result, $order_id)`: a payment
      gateway filter that syncs a tracked order and hands `$result` back. */
  method MaybeUpdateOrderOnSuccessfulPayment(shop: Shop, result: Value, orderId: int, cfg: Config, env: Env, req: Request)
    returns (r: Value)
    modifies shop
    ensures r == result
    ensures shop.Snapshot() == PaymentUpdated(old(shop.Snapshot()), orderId, cfg, env, req)
  {
    var token := OrderMetaValue(shop.Snapshot(), orderId, CartTokenKeyForDb);
    if !Truthy(token) {
      return result;
    }
    SyncOrderToApi(shop, orderId, cfg, env, req);
    return result;
  }

  /** An order without a cart token is left alone. */
  lemma PaymentUpdatedNeedsToken(s: State, orderId: int, cfg: Config, env: Env, req: Request)
    ensures !Truthy(OrderMetaValue(s, orderId, CartTokenKeyForDb)) ==> PaymentUpdated(s, orderId, cfg, env, req) == s
    ensures Truthy(OrderMetaValue(s, orderId, CartTokenKeyForDb)) ==>
      PaymentUpdated(s, orderId, cfg, env, req) == SyncedToApi(s, orderId, cfg, env, req)
  {
  }

  /** `markOrderAsPendingRecovery($order_id)`. */
  method MarkOrderAsPendingRecovery(shop: Shop, orderId: int)
    modifies shop
    ensures shop.Snapshot() == PutOrderMeta(old(shop.Snapshot()), orderId, PendingRecoveryKeyForDb, Bool(true))
  {
    shop.SetOrderMeta(orderId, PendingRecoveryKeyForDb, Bool(true));
  }

  /** Marking an existing order makes it pending recovery and changes no
      other meta key. */
  lemma PendingRecoveryMarked(s: State, orderId: int)
    ensures var t := PutOrderMeta(s, orderId, PendingRecoveryKeyForDb, Bool(true));
      && (IsOrderInPendingRecovery(t, orderId) <==> orderId in s.orders)
      && (forall k :: k != PendingRecoveryKeyForDb ==> OrderMetaValue(t, orderId, k) == OrderMetaValue(s, orderId, k))
  {
  }

  // ---------------------------------------------------------------------
  // Webhook headers

  /** The seven headers `changeWebHookHeader` adds. */
  function WebhookHeaders(clientIp: Value, version: string, token: Value, appId: string): PhpArray {
    [ ("X-Client-Referrer-IP", if !Empty(clientIp) then clientIp else Null),
      ("X-Retainful-Version", Str(version)),
      ("X-Cart-Token", token),
      ("Cart-Token", token),
      ("app-id", Str(appId)),
      ("app_id", Str(appId)),
      ("Content-Type", Str("application/json")) ]
  }

  /** `$http_args['headers']`, an empty array when unset or not an array. */
  function HeadersOf(args: PhpArray): PhpArray {
    match Get(args, "headers")
    case Some(Arr(h)) => h
    case _ => []
  }

  /** `$headers[$key] = $value` for each extra header in turn. */
  function MergedHeaders(h: PhpArray, extra: PhpArray): PhpArray
    decreases |extra|
  {
    if extra == [] then h
    else
      var n := |extra| - 1;
      Set(MergedHeaders(h, extra[..n]), extra[n].0, extra[n].1)
  }

  /** Whether the webhook is one this plugin decorates, for an order. */
  predicate DecoratesWebhook(orderId: int, webhookId: int, cfg: Config, env: Env) {
    && webhookId > 0 && cfg.webhookClassExists && cfg.connectionActive
    && webhookId in env.webhooks
    && env.webhooks[webhookId].topic in cfg.topicStatus
    && Truthy(cfg.topicStatus[env.webhooks[webhookId].topic])
    && env.webhooks[webhookId].deliveryUrl == cfg.deliveryUrl
    && orderId > 0
  }

  /** Whether `changeWebHookHeader` generates a token for the order. */
  predicate ForcesToken(s: State, orderId: int, cfg: Config) {
    Empty(OrderMetaValue(s, orderId, CartTokenKeyForDb)) && cfg.forceGenerateCartToken == Bool(true)
  }

  /** The stores after the token step of `changeWebHookHeader`. */
  function WebhookTokenState(s: State, orderId: int, cfg: Config, env: Env, req: Request): State {
    if ForcesToken(s, orderId, cfg)
    then PutOrderMeta(s, orderId, CartTokenKeyForDb, Str(GenerateCartToken(req.entropy, env.crypto)))
    else s
  }

  /** The request body: the trimmed JSON of `{data: <encrypted order>}`. */
  function WebhookBody(data: PhpArray, cfg: Config, env: Env, req: Request): string {
    var hash := EncryptData(Arr(data), Null, cfg, req.iv, env.crypto);
    Trim(env.crypto.json(Arr([("data", if hash.Some? then Str(hash.value) else Null)])))
  }

  /** The stores and the HTTP arguments after `changeWebHookHeader($http_args, $order_id, $webhook_id)`;
      a failing `new WC_Webhook($webhook_id)` is an id outside `env.webhooks`. */
  function WebhookHeaderResult(s: State, args: PhpArray, orderId: int, webhookId: int, cfg: Config, env: Env, req: Request)
    : (State, PhpArray)
  {
    if !DecoratesWebhook(orderId, webhookId, cfg, env) then (s, args)
    else
      var s1 := WebhookTokenState(s, orderId, cfg, env, req);
      var token := OrderMetaValue(s1, orderId, CartTokenKeyForDb);
      var data := env.orderData(orderId);
      if Empty(token) || data == [] then (s1, args)
      else
        var extra := WebhookHeaders(OrderMetaValue(s1, orderId, UserIpKeyForDb), cfg.version, token, cfg.apiKey);
        (s1, Set(Set(args, "headers", Arr(MergedHeaders(HeadersOf(args), extra))), "body", Str(WebhookBody(data, cfg, env, req))))
  }

  /** `changeWebHookHeader($http_args, $order_id, $webhook_id)`. */
  method ChangeWebHookHeader(shop: Shop, args: PhpArray, orderId: int, webhookId: int, cfg: Config, env: Env, req: Request)
    returns (r: PhpArray)
    modifies shop
    ensures (shop.Snapshot(), r) == WebhookHeaderResult(old(shop.Snapshot()), args, orderId, webhookId, cfg, env, req)
  {
    r := args;
    if !DecoratesWebhook(orderId, webhookId, cfg, env) {
      return;
    }
    ghost var s0 := shop.Snapshot();
    var token := OrderMetaValue(shop.Snapshot(), orderId, CartTokenKeyForDb);
    if Empty(token) && cfg.forceGenerateCartToken == Bool(true) {
      token := Str(GenerateCartToken(req.entropy, env.crypto));
      shop.SetOrderMeta(orderId, CartTokenKeyForDb, token);
    }
    assert shop.Snapshot() == WebhookTokenState(s0, orderId, cfg, env, req);
    assert token == OrderMetaValue(shop.Snapshot(), orderId, CartTokenKeyForDb);
    if Empty(token) {
      return;
    }
    var data := env.orderData(orderId);
    if data == [] {
      return;
    }
    var clientIp := OrderMetaValue(shop.Snapshot(), orderId, UserIpKeyForDb);
    var stored := OrderMetaValue(shop.Snapshot(), orderId, CartTokenKeyForDb);
    var extra := WebhookHeaders(clientIp, cfg.version, stored, cfg.apiKey);
    r := AssignHeaders(args, extra);
    r := Set(r, "body", Str(WebhookBody(data, cfg, env, req)));
    WebhookDecorated(s0, args, orderId, webhookId, cfg, env, req);
  }

  /** `foreach ($extra_headers as $key => $value) $http_args['headers'][$key] = $value;` */
  method AssignHeaders(args: PhpArray, extra: PhpArray) returns (r: PhpArray)
    ensures extra == [] ==> r == args
    ensures extra != [] ==> r == Set(args, "headers", Arr(MergedHeaders(HeadersOf(args), extra)))
  {
    r := args;
    for i := 0 to |extra|
      invariant i == 0 ==> r == args
      invariant i > 0 ==> r == Set(args, "headers", Arr(MergedHeaders(HeadersOf(args), extra[..i])))
    {
      HeaderAssigned(args, extra, i);
      r := Set(r, "headers", Arr(Set(HeadersOf(r), extra[i].0, extra[i].1)));
    }
    assert extra[..|extra|] == extra;
  }

  /** One `$http_args['headers'][$key] = $value` step extends the merge by one header. */
  lemma HeaderAssigned(args: PhpArray, extra: PhpArray, i: nat)
    requires i < |extra|
    ensures var r := if i == 0 then args else Set(args, "headers", Arr(MergedHeaders(HeadersOf(args), extra[..i])));
      Set(r, "headers", Arr(Set(HeadersOf(r), extra[i].0, extra[i].1)))
        == Set(args, "headers", Arr(MergedHeaders(HeadersOf(args), extra[..i + 1])))
  {
    assert extra[..i + 1][..i] == extra[..i];
    if i > 0 {
      var h := MergedHeaders(HeadersOf(args), extra[..i]);
      GetSet(args, "headers", Arr(h), "headers");
      SetSet(args, "headers", Arr(h), Arr(Set(h, extra[i].0, extra[i].1)));
    }
  }

  /** Setting the headers and then the body of the arguments. */
  lemma ArgsWithHeadersAndBody(args: PhpArray, h: PhpArray, body: string, k: string)
    ensures var r := Set(Set(args, "headers", Arr(h)), "body", Str(body));
      && HeadersOf(r) == h
      && Get(r, "body") == Some(Str(body))
      && (k != "headers" && k != "body" ==> Get(r, k) == Get(args, k))
  {
    var a1 := Set(args, "headers", Arr(h));
    GetSet(a1, "body", Str(body), "headers");
    GetSet(args, "headers", Arr(h), "headers");
    GetSet(a1, "body", Str(body), "body");
    GetSet(a1, "body", Str(body), k);
    GetSet(args, "headers", Arr(h), k);
  }

  /** Merging keeps every header the extra list does not name and takes the
      extra value for each one it does. */
  lemma {:induction false} MergedHeadersGet(h: PhpArray, extra: PhpArray, k: string)
    requires UniqueKeys(extra)
    ensures Get(MergedHeaders(h, extra), k) == if k in Keys(extra) then Get(extra, k) else Get(h, k)
    decreases |extra|
  {
    if extra != [] {
      var n := |extra| - 1;
      var init, e := extra[..n], extra[n];
      assert extra == init + [e];
      UniqueInit(extra);
      MergedHeadersGet(h, init, k);
      GetSet(MergedHeaders(h, init), e.0, e.1, k);
      GetSnoc(init, e, k);
      KeysSnoc(init, e);
    }
  }

  /** Without its last entry an array still has unique keys, none of them the last key. */
  lemma UniqueInit(a: PhpArray)
    requires UniqueKeys(a) && a != []
    ensures UniqueKeys(a[..|a| - 1])
    ensures a[|a| - 1].0 !in Keys(a[..|a| - 1])
  {
    var init := a[..|a| - 1];
    forall i, j | 0 <= i < j < |init| ensures init[i].0 != init[j].0 {
      assert init[i] == a[i] && init[j] == a[j];
    }
    forall i | 0 <= i < |init| ensures Keys(init)[i] != a[|a| - 1].0 {
      assert init[i] == a[i];
    }
  }

  lemma {:induction false} GetSnoc(a: PhpArray, e: (string, Value), k: string)
    ensures Get(a + [e], k) == if k in Keys(a) then Get(a, k) else if k == e.0 then Some(e.1) else None
    decreases |a|
  {
    if a != [] {
      assert (a + [e])[1..] == a[1..] + [e];
      GetSnoc(a[1..], e, k);
    }
  }

  lemma {:induction false} KeysSnoc(a: PhpArray, e: (string, Value))
    ensures Keys(a + [e]) == Keys(a) + [e.0]
  {
  }

  /** The webhook is not one to decorate, or the order has no token and none
      is forced: neither the arguments nor the stores change. */
  lemma WebhookGuards(s: State, args: PhpArray, orderId: int, webhookId: int, cfg: Config, env: Env, req: Request)
    requires !DecoratesWebhook(orderId, webhookId, cfg, env) ||
      (Empty(OrderMetaValue(s, orderId, CartTokenKeyForDb)) && cfg.forceGenerateCartToken != Bool(true))
    ensures WebhookHeaderResult(s, args, orderId, webhookId, cfg, env, req) == (s, args)
  {
  }

  /** A decorated webhook for an order with a token and data gets the seven
      headers, with same-named headers overwritten and all others kept, and
      a body; no other argument changes. */
  lemma WebhookSetsHeaders(s: State, args: PhpArray, orderId: int, webhookId: int, cfg: Config, env: Env, req: Request, k: string)
    requires DecoratesWebhook(orderId, webhookId, cfg, env)
    requires !Empty(OrderMetaValue(WebhookTokenState(s, orderId, cfg, env, req), orderId, CartTokenKeyForDb))
    requires env.orderData(orderId) != []
    ensures var (t, r) := WebhookHeaderResult(s, args, orderId, webhookId, cfg, env, req);
      var s1 := WebhookTokenState(s, orderId, cfg, env, req);
      var extra := WebhookHeaders(OrderMetaValue(s1, orderId, UserIpKeyForDb), cfg.version,
                                  OrderMetaValue(s1, orderId, CartTokenKeyForDb), cfg.apiKey);
      && t == s1
      && Get(HeadersOf(r), k) == (if k in Keys(extra) then Get(extra, k) else Get(HeadersOf(args), k))
      && Get(r, "body") == Some(Str(WebhookBody(env.orderData(orderId), cfg, env, req)))
      && (k != "headers" && k != "body" ==> Get(r, k) == Get(args, k))
  {
    var s1 := WebhookTokenState(s, orderId, cfg, env, req);
    var extra := WebhookHeaders(OrderMetaValue(s1, orderId, UserIpKeyForDb), cfg.version,
                                OrderMetaValue(s1, orderId, CartTokenKeyForDb), cfg.apiKey);
    var merged := MergedHeaders(HeadersOf(args), extra);
    WebhookDecorated(s, args, orderId, webhookId, cfg, env, req);
    ArgsWithHeadersAndBody(args, merged, WebhookBody(env.orderData(orderId), cfg, env, req), k);
    WebhookHeadersUnique(OrderMetaValue(s1, orderId, UserIpKeyForDb), cfg.version,
                         OrderMetaValue(s1, orderId, CartTokenKeyForDb), cfg.apiKey);
    MergedHeadersGet(HeadersOf(args), extra, k);
  }

  lemma WebhookHeadersUnique(clientIp: Value, version: string, token: Value, appId: string)
    ensures UniqueKeys(WebhookHeaders(clientIp, version, token, appId))
  {
  }

  lemma WebhookDecorated(s: State, args: PhpArray, orderId: int, webhookId: int, cfg: Config, env: Env, req: Request)
    requires DecoratesWebhook(orderId, webhookId, cfg, env)
    requires !Empty(OrderMetaValue(WebhookTokenState(s, orderId, cfg, env, req), orderId, CartTokenKeyForDb))
    requires env.orderData(orderId) != []
    ensures var s1 := WebhookTokenState(s, orderId, cfg, env, req);
      var extra := WebhookHeaders(OrderMetaValue(s1, orderId, UserIpKeyForDb), cfg.version,
                                  OrderMetaValue(s1, orderId, CartTokenKeyForDb), cfg.apiKey);
      WebhookHeaderResult(s, args, orderId, webhookId, cfg, env, req) ==
        (s1, Set(Set(args, "headers", Arr(MergedHeaders(HeadersOf(args), extra))), "body",
                 Str(WebhookBody(env.orderData(orderId), cfg, env, req))))
  {
  }

  /** The token step writes only when a token is forced, and then a non-empty
      one; it never replaces an existing token. */
  lemma WebhookTokenForcedOnce(s: State, orderId: int, cfg: Config, env: Env, req: Request)
    requires env.crypto.Valid()
    ensures var s1 := WebhookTokenState(s, orderId, cfg, env, req);
      && (!ForcesToken(s, orderId, cfg) ==> s1 == s)
      && (ForcesToken(s, orderId, cfg) ==> !Empty(OrderMetaValue(s1, orderId, CartTokenKeyForDb)))
      && (!Empty(OrderMetaValue(s, orderId, CartTokenKeyForDb)) ==>
            OrderMetaValue(s1, orderId, CartTokenKeyForDb) == OrderMetaValue(s, orderId, CartTokenKeyForDb))
  {
  }

  // ---------------------------------------------------------------------
  // As written: `self::$storage` is never declared

  /** How a PHP call ends: it returns, or an uncaught `Error` escapes it.
      Neither `RestApi` nor `Checkout` declares a static `$storage`, so
      every `self::$storage->...` raises "access to undeclared static
      property"; an `Error` is not an `Exception`, so no `catch` stops it. */
  datatype Exit = Returns | Raises

  /** `purchaseComplete` as written: past the guard on the visitor's cart
      token it has only read the stores when the read of
      `rnoc_recovered_at` raises, before the order object is fetched. */
  function PurchaseCompleteAsWritten(s: State, orderId: int, req: Request): (State, Exit) {
    if orderId == 0 || Empty(RetrieveCartToken(s, 0, req.currentUser)) then (s, Returns) else (s, Raises)
  }

  /** `unsetOrderTempData` as written: its first statement raises. */
  function UnsetOrderTempDataAsWritten(s: State): (State, Exit) {
    (s, Raises)
  }

  /** `syncOrder` as written: a newly cancelled order is stamped, then
      `unsetOrderTempData` raises and nothing is sent; on every other path
      `self::$storage` is not reached. */
  function SyncOrderAsWritten(s: State, orderId: int, cfg: Config, env: Env, req: Request): (State, SyncReport, Exit) {
    if SyncOrderProceeds(s, orderId, cfg, env) && StampsCancellation(s, orderId)
    then (PutOrderMeta(s, orderId, OrderCancelledDateKeyForDb, Int(req.gmtNow)), NoSync, Raises)
    else
      var (t, report) := SyncOrderResult(s, orderId, cfg, env, req);
      (t, report, Returns)
  }

  /** As written, `purchaseComplete` raises exactly when it gets past its
      first two guards, and writes nothing: an order that was not pending
      recovery stays so, where the corrected `PurchaseCompleted` marks it. */
  lemma PurchaseCompleteAsWrittenWritesNothing(s: State, orderId: int, req: Request, env: Env)
    ensures var (t, exit) := PurchaseCompleteAsWritten(s, orderId, req);
      && t == s
      && (exit == Raises <==> orderId != 0 && !Empty(RetrieveCartToken(s, 0, req.currentUser)))
    ensures PurchaseWrites(s, orderId, req) && !IsOrderInPendingRecovery(s, orderId) ==>
      && !IsOrderInPendingRecovery(PurchaseCompleteAsWritten(s, orderId, req).0, orderId)
      && IsOrderInPendingRecovery(PurchaseCompleted(s, orderId, req, env), orderId)
  {
    if PurchaseWrites(s, orderId, req) {
      PurchaseCompleteCopiesToken(s, orderId, req, env);
    }
  }

  /** As written, `unsetOrderTempData` always raises and removes nothing:
      a guest's stored cart token and a user's cart-token meta survive,
      where the corrected `TempDataUnset` deletes both. */
  lemma UnsetOrderTempDataAsWrittenRemovesNothing(s: State, given: int, current: int)
    ensures UnsetOrderTempDataAsWritten(s).1 == Raises
    ensures var u := ResolveUserId(given, current);
      var t := UnsetOrderTempDataAsWritten(s).0;
      var c := TempDataUnset(s, given, current);
      && (CartTokenKey in s.storage ==> CartTokenKey in t.storage && CartTokenKey !in c.storage)
      && (u != 0 && u in s.userMeta && CartTokenKeyForDb in s.userMeta[u] ==>
            CartTokenKeyForDb in t.userMeta[u] && CartTokenKeyForDb !in c.userMeta[u])
  {
    var u := ResolveUserId(given, current);
    TempDataUnsetRemovesExactly(s, given, current, 0, CartTokenKey);
    TempDataUnsetRemovesExactly(s, given, current, u, CartTokenKeyForDb);
  }

  /** As written, a newly cancelled order past the guards is stamped, then
      the call raises: no temporary data is cleared and nothing is sent,
      where the corrected `SyncOrderResult` sends whenever there is order
      data and openssl. */
  lemma SyncOrderAsWrittenStampsThenRaises(s: State, orderId: int, cfg: Config, env: Env, req: Request)
    requires SyncOrderProceeds(s, orderId, cfg, env) && StampsCancellation(s, orderId)
    ensures var (t, report, exit) := SyncOrderAsWritten(s, orderId, cfg, env, req);
      && exit == Raises && report == NoSync
      && t.outbox == s.outbox && t.storage == s.storage && t.userMeta == s.userMeta
      && OrderMetaValue(t, orderId, OrderCancelledDateKeyForDb) == Int(req.gmtNow)
    ensures env.orderData(orderId) != [] && cfg.opensslLoaded ==>
      SyncOrderResult(s, orderId, cfg, env, req).1.Sent?
  {
    if env.orderData(orderId) != [] && cfg.opensslLoaded {
      SyncOrderSends(s, orderId, cfg, env, req);
    }
  }

  /** On every other path the as-written `syncOrder` returns normally with
      the stores and report of the corrected one. */
  lemma SyncOrderAsWrittenOtherwiseAgrees(s: State, orderId: int, cfg: Config, env: Env, req: Request)
    requires !SyncOrderProceeds(s, orderId, cfg, env) || !StampsCancellation(s, orderId)
    ensures var (t, report, exit) := SyncOrderAsWritten(s, orderId, cfg, env, req);
      exit == Returns && (t, report) == SyncOrderResult(s, orderId, cfg, env, req)
  {
  }
}
