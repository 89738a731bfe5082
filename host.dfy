/** The WordPress / WooCommerce environment the core runs in: the key-value
    stores it reads and writes (PHP session, plugin storage, user meta,
    orders with their meta and notes, the scheduled-job list and the calls
    made to the remote API), the settings and filter results it consults,
    and the per-request inputs (clock, randomness, cart, headers). */
module Host {
  import opened Php
  import opened Encoding
  import opened Primitives

  type Meta = map<string, Value>

  /** What the core asks of a WooCommerce order object. */
  datatype Order = Order(status: string, paid: bool)

  /** A job queued with `scheduleEvents($hook, $time, $args)`. */
  datatype Job = Job(hook: string, due: int, args: PhpArray)

  /** One call `syncCartDetails($app_id, $cart_details)` to the remote API. */
  datatype SyncCall = SyncCall(appId: string, details: Value)

  /** A snapshot of every store the core touches. */
  datatype State = State(
    session: map<string, Value>,
    storage: map<string, Value>,
    userMeta: map<int, Meta>,
    orders: map<int, Order>,
    orderMeta: map<int, Meta>,
    notes: map<int, seq<string>>,
    jobs: seq<Job>,
    outbox: seq<SyncCall>)

  // ---------------------------------------------------------------------
  // Readers, with the value each store gives for a missing key

  /** `getPHPSession($key)`: null when unset. */
  function SessionValue(s: State, key: string): Value {
    if key in s.session then s.session[key] else Null
  }

  /** `$storage->getValue($key)`: null when unset. */
  function StorageValue(s: State, key: string): Value {
    if key in s.storage then s.storage[key] else Null
  }

  function MetaOf(m: map<int, Meta>, id: int): Meta {
    if id in m then m[id] else map[]
  }

  /** `get_user_meta($user_id, $key, true)`: '' when unset. */
  function UserMetaValue(s: State, userId: int, key: string): Value {
    var m := MetaOf(s.userMeta, userId);
    if key in m then m[key] else Str("")
  }

  /** `get_post_meta($order_id, $key, true)` and `getOrderMeta($order, $key)`: '' when unset. */
  function OrderMetaValue(s: State, orderId: int, key: string): Value {
    var m := MetaOf(s.orderMeta, orderId);
    if key in m then m[key] else Str("")
  }

  /** `getStatus($order)`: '' when there is no such order. */
  function OrderStatus(s: State, orderId: int): string {
    if orderId in s.orders then s.orders[orderId].status else ""
  }

  function NotesOf(s: State, orderId: int): seq<string> {
    if orderId in s.notes then s.notes[orderId] else []
  }

  // ---------------------------------------------------------------------
  // Writers, as functions on snapshots

  function MetaWith(m: map<int, Meta>, id: int, key: string, v: Value): map<int, Meta> {
    m[id := MetaOf(m, id)[key := v]]
  }

  function MetaWithout(m: map<int, Meta>, id: int, key: string): map<int, Meta> {
    if id in m then m[id := m[id] - {key}] else m
  }

  /** `setOrderMeta($order_id, $key, $value)`. */
  function PutOrderMeta(s: State, orderId: int, key: string, v: Value): State {
    s.(orderMeta := MetaWith(s.orderMeta, orderId, key, v))
  }

  /** `deleteOrderMeta($order_id, $key)`. */
  function DropOrderMeta(s: State, orderId: int, key: string): State {
    s.(orderMeta := MetaWithout(s.orderMeta, orderId, key))
  }

  /** `$order->save()` after a series of `update_meta_data` calls. */
  function SavedOrderMeta(s: State, orderId: int, meta: Meta): State {
    s.(orderMeta := s.orderMeta[orderId := meta])
  }

  /** `setOrderNote($order_id, $note)`. */
  function AppendOrderNote(s: State, orderId: int, note: string): State {
    s.(notes := s.notes[orderId := NotesOf(s, orderId) + [note]])
  }

  /** `$storage->removeValue($key)`. */
  function WithoutStorageValue(s: State, key: string): State {
    s.(storage := s.storage - {key})
  }

  /** `delete_user_meta($user_id, $key)`. */
  function WithoutUserMeta(s: State, userId: int, key: string): State {
    s.(userMeta := MetaWithout(s.userMeta, userId, key))
  }

  /** `scheduleEvents(...)`. */
  function WithJob(s: State, job: Job): State {
    s.(jobs := s.jobs + [job])
  }

  /** `syncCartDetails(...)`. */
  function WithSync(s: State, call: SyncCall): State {
    s.(outbox := s.outbox + [call])
  }

  /** The stores themselves, updated in place by the collaborator calls. */
  class Shop {
    var session: map<string, Value>
    var storage: map<string, Value>
    var userMeta: map<int, Meta>
    var orders: map<int, Order>
    var orderMeta: map<int, Meta>
    var notes: map<int, seq<string>>
    var jobs: seq<Job>
    var outbox: seq<SyncCall>

    function Snapshot(): State
      reads this
    {
      State(session, storage, userMeta, orders, orderMeta, notes, jobs, outbox)
    }

    constructor (s: State)
      ensures Snapshot() == s
    {
      session, storage, userMeta := s.session, s.storage, s.userMeta;
      orders, orderMeta, notes := s.orders, s.orderMeta, s.notes;
      jobs, outbox := s.jobs, s.outbox;
    }

    method SetOrderMeta(orderId: int, key: string, v: Value)
      modifies this
      ensures Snapshot() == PutOrderMeta(old(Snapshot()), orderId, key, v)
    {
      orderMeta := MetaWith(orderMeta, orderId, key, v);
    }

    method DeleteOrderMeta(orderId: int, key: string)
      modifies this
      ensures Snapshot() == DropOrderMeta(old(Snapshot()), orderId, key)
    {
      orderMeta := MetaWithout(orderMeta, orderId, key);
    }

    method SaveOrder(orderId: int, meta: Meta)
      modifies this
      ensures Snapshot() == SavedOrderMeta(old(Snapshot()), orderId, meta)
    {
      orderMeta := orderMeta[orderId := meta];
    }

    method SetOrderNote(orderId: int, note: string)
      modifies this
      ensures Snapshot() == AppendOrderNote(old(Snapshot()), orderId, note)
    {
      notes := notes[orderId := NotesOf(Snapshot(), orderId) + [note]];
    }

    method RemoveValue(key: string)
      modifies this
      ensures Snapshot() == WithoutStorageValue(old(Snapshot()), key)
    {
      storage := storage - {key};
    }

    method DeleteUserMeta(userId: int, key: string)
      modifies this
      ensures Snapshot() == WithoutUserMeta(old(Snapshot()), userId, key)
    {
      userMeta := MetaWithout(userMeta, userId, key);
    }

    method ScheduleEvents(job: Job)
      modifies this
      ensures Snapshot() == WithJob(old(Snapshot()), job)
    {
      jobs := jobs + [job];
    }

    method SyncCartDetails(call: SyncCall)
      modifies this
      ensures Snapshot() == WithSync(old(Snapshot()), call)
    {
      outbox := outbox + [call];
    }
  }

  // ---------------------------------------------------------------------
  // Settings, filters and request inputs

  /** A WooCommerce webhook: its topic and delivery URL. */
  datatype Webhook = Webhook(topic: string, deliveryUrl: string)

  /** Plugin settings and the results of the WordPress filters the core
      applies; `Defaults` holds when every filter returns its default. */
  datatype Config = Config(
    /** `rnoc_recover_held_orders`, default 'no'. */
    recoverHeldOrdersFilter: string,
    /** `rnoc_sync_order_data_instantly_to_api`, default true. */
    instantSync: bool,
    /** `rnoc_schedule_cart_sync`, default true. */
    scheduleSync: bool,
    /** `rnoc_to_clear_temp_data_order_status`, default ['failed', 'pending']. */
    toClearStatuses: seq<string>,
    /** `rnoc_abandoned_cart_invalid_order_statuses`, default ['pending', 'failed']. */
    invalidStatuses: seq<string>,
    /** The 'consider on-hold as abandoned' admin setting, 0 when unset. */
    considerOnHold: Value,
    /** `rnoc_force_generate_cart_token`, default false. */
    forceGenerateCartToken: Value,
    backgroundSync: bool,
    opensslLoaded: bool,
    secretKey: string,
    apiKey: string,
    version: string,
    connectionActive: bool,
    webhookClassExists: bool,
    /** `getWebHookStatus()`: topic => enabled flag. */
    topicStatus: map<string, Value>,
    deliveryUrl: string)
  {
    predicate Defaults() {
      && recoverHeldOrdersFilter == "no"
      && instantSync
      && scheduleSync
      && toClearStatuses == ["failed", "pending"]
      && invalidStatuses == ["pending", "failed"]
      && forceGenerateCartToken == Bool(false)
    }
  }

  /** Collaborators whose code is not part of this model. */
  datatype Env = Env(
    crypto: Crypto,
    /** `(new Order())->getOrderData($order)`. */
    orderData: int -> PhpArray,
    /** `formatToIso8601($timestamp)`. */
    formatDate: Value -> Value,
    /** `sanitize_text_field(wp_unslash($value))`. */
    clean: Value -> string,
    /** `rnoc_sync_order_change_order_token` applied to (token, order id). */
    tokenFilter: (Value, int) -> Value,
    /** `rnoc_abandoned_cart_is_order_get_placed` applied to (placed, old status, new status). */
    placedFilter: (bool, string, string) -> bool,
    /** `rnoc_can_track_abandoned_carts` applied to (true, ip address). */
    trackFilter: Value -> Value,
    /** The webhooks `new WC_Webhook($id)` can load. */
    webhooks: map<int, Webhook>)

  /** The randomness `generateCartToken` draws: sixteen bytes from
      `random_bytes`, or, when that throws, eight `mt_rand` results. */
  datatype Entropy = RandomBytes(bytes: Bytes) | MtRand(words: seq<int>)
  {
    predicate Valid() {
      match this
      case RandomBytes(b) => |b| == 16
      case MtRand(w) => |w| == 8 && forall i :: 0 <= i < 8 ==> 0 <= w[i] <= MtRandMax(i)
    }
  }

  /** Entropy as the PHP functions deliver it. */
  type TokenEntropy = e: Entropy | e.Valid() witness RandomBytes("0123456789abcdef")

  /** The upper bound passed to the `i`th `mt_rand` call. */
  function MtRandMax(i: int): int {
    if i == 3 then 0x0fff else if i == 4 then 0x3fff else 0xffff
  }

  /** Inputs of one request. */
  datatype Request = Request(
    /** `get_current_user_id()`, 0 for a guest. */
    currentUser: int,
    /** `current_time('timestamp', true)`. */
    gmtNow: int,
    /** `current_time('timestamp')`. */
    localNow: int,
    /** `openssl_random_pseudo_bytes(16)`. */
    iv: Bytes,
    entropy: TokenEntropy,
    /** `getCart()` and `getCartTotalForEdit()`. */
    cart: PhpArray,
    cartTotal: string,
    userAgent: Value,
    acceptLanguage: Value,
    /** `$_SERVER`. */
    server: map<string, string>)
}
