/** The storage adapter `RedisService` (app/services/services.py) over an
    abstract Redis server. The server is its key-value data plus the list of
    commands the adapter attempted. Whether a command gets an answer or the client
    raises `RedisError` is an explicit input to every call. */
module Services {
  import opened Wrappers

  /** Phone to address, as held by Redis (`decode_responses=True`). */
  type Store = map<string, string>

  /** A command the adapter attempts on Redis. */
  datatype Command = Get(key: string) | Set(key: string, value: string) | Del(key: string) | Ping

  /** The server as the adapter sees it: its data, and every command the
      adapter has attempted so far, oldest first, whether or not it reached
      the server. */
  datatype Redis = Redis(data: Store, issued: seq<Command>)

  /** How the server deals with one command: it answers it, or the client
      raises `RedisError` and the command takes no effect. */
  datatype Fault = Answered | RedisError

  /** The adapter's return value together with the server after the call. */
  datatype Answer<+T> = Answer(value: T, redis: Redis)

  /** Records that the adapter attempted command `c`. */
  function Send(r: Redis, c: Command): (r': Redis)
    ensures r'.data == r.data && r'.issued == r.issued + [c]
  {
    r.(issued := r.issued + [c])
  }

  // ---------------------------------------------------------------------------
  // The Redis commands themselves

  /** GET: the value at `key`, or nil. */
  function RedisGet(data: Store, key: string): Option<string> {
    if key in data then Some(data[key]) else None
  }

  /** SET without NX/XX: always stores the value and replies OK, which the
      client returns as True. */
  function RedisSet(data: Store, key: string, value: string): (bool, Store) {
    (true, data[key := value])
  }

  /** DEL: removes the key and replies with the number of keys removed. */
  function RedisDel(data: Store, key: string): (nat, Store) {
    if key in data then (1, data - {key}) else (0, data)
  }

  // ---------------------------------------------------------------------------
  // The adapter

  /** `get_address_by_phone`: `(value or None, True)` when Redis answers,
      `(None, False)` on `RedisError`. It never raises. */
  function GetAddressByPhone(r: Redis, phone: string, f: Fault): (a: Answer<(Option<string>, bool)>)
    ensures a.redis == Send(r, Get(phone))
    ensures a.value.1 <==> f == Answered
    ensures f == RedisError ==> a.value.0 == None
    ensures f == Answered ==> (a.value.0.Some? <==> phone in r.data)
    ensures a.value.0.Some? ==> phone in r.data && a.value.0.value == r.data[phone]
  {
    var r' := Send(r, Get(phone));
    match f
    case RedisError => Answer((None, false), r')
    case Answered => Answer((RedisGet(r.data, phone), true), r')
  }

  /** `save_phone_address`: the truthiness of the SET reply, `False` on
      `RedisError`. */
  function SavePhoneAddress(r: Redis, phone: string, address: string, f: Fault): (a: Answer<bool>)
    ensures a.redis.issued == r.issued + [Set(phone, address)]
    ensures a.value <==> f == Answered
    ensures a.value ==> a.redis.data == r.data[phone := address]
    ensures !a.value ==> a.redis.data == r.data
  {
    var r' := Send(r, Set(phone, address));
    match f
    case RedisError => Answer(false, r')
    case Answered =>
      var (reply, data') := RedisSet(r.data, phone, address);
      Answer(reply, r'.(data := data'))
  }

  /** `delete_phone_address`: True iff DEL removed a key, so deleting an
      absent key reports failure; `False` on `RedisError`. */
  function DeletePhoneAddress(r: Redis, phone: string, f: Fault): (a: Answer<bool>)
    ensures a.redis.issued == r.issued + [Del(phone)]
    ensures a.value <==> f == Answered && phone in r.data
    ensures f == Answered ==> a.redis.data == r.data - {phone}
    ensures f == RedisError ==> a.redis.data == r.data
  {
    var r' := Send(r, Del(phone));
    match f
    case RedisError => Answer(false, r')
    case Answered =>
      var (removed, data') := RedisDel(r.data, phone);
      Answer(removed != 0, r'.(data := data'))
  }

  /** `ping`: the truthiness of the PING reply, `False` on `RedisError`. */
  function PingRedis(r: Redis, f: Fault): (a: Answer<bool>)
    ensures a.redis == Send(r, Ping)
    ensures a.value <==> f == Answered
  {
    var r' := Send(r, Ping);
    match f
    case RedisError => Answer(false, r')
    case Answered => Answer(true, r')
  }

  /** Deleting a key that is not there reports failure even though Redis
      answered, and leaves the data as it was. */
  lemma DeleteAbsentKeyFails(r: Redis, phone: string)
    requires phone !in r.data
    ensures !DeletePhoneAddress(r, phone, Answered).value
    ensures DeletePhoneAddress(r, phone, Answered).redis.data == r.data
  {
  }

  /** A value stored by a successful save is what the next get returns. */
  lemma SaveThenGet(r: Redis, phone: string, address: string)
    ensures var s := SavePhoneAddress(r, phone, address, Answered);
            s.value && GetAddressByPhone(s.redis, phone, Answered).value == (Some(address), true)
  {
  }
}
