/** The five `/contacts` endpoints of app/routers/routers.py as transitions
    of the Redis server. Each handler makes a fixed sequence of adapter calls
    and stops at the first failure by raising through one of the error
    helpers. A handler here takes the server and the fault of each call it may
    make, and returns the reply together with the server afterwards. */
module Routers {
  import opened Wrappers
  import opened Services
  import opened ServiceExceptions
  import opened Models

  const HTTP_200_OK: int := 200
  const HTTP_422_UNPROCESSABLE_ENTITY: int := 422

  /** A successful JSON body. */
  datatype Body =
    | ContactBody(phone: string, address: string)
    | SuccessResponse(status: string, message: string)

  /** How a request ends: a 200 body, an `HTTPException` raised by an error
      helper, or a 422 for a body the payload model refused. */
  datatype Reply =
    | Ok(body: Body)
    | Raised(exception: HttpException)
    | Unprocessable(errors: seq<FieldError>)

  function StatusCode(reply: Reply): int {
    match reply
    case Ok(_) => HTTP_200_OK
    case Raised(e) => e.statusCode
    case Unprocessable(_) => HTTP_422_UNPROCESSABLE_ENTITY
  }

  /** The fault of each adapter call a handler may make; a handler makes
      each kind of call at most once. */
  datatype Faults = Faults(onGet: Fault, onDelete: Fault, onSet: Fault)

  const NoFaults: Faults := Faults(Answered, Answered, Answered)
  const AllFaults: Faults := Faults(RedisError, RedisError, RedisError)

  /** The reply to one request and the server after it. */
  datatype Exchange = Exchange(reply: Reply, redis: Redis)

  /** Python truthiness of an `Optional[str]`: neither `None` nor empty. */
  predicate Truthy(address: Option<string>) {
    address.Some? && address.value != ""
  }

  /** A phone the handlers treat as having a record: present in Redis with a
      non-empty value. An empty stored value counts as absent. */
  predicate HasRecord(data: Store, phone: string) {
    phone in data && data[phone] != ""
  }

  function Succeeded(message: string): Reply {
    Ok(SuccessResponse("success", message))
  }

  // ---------------------------------------------------------------------------
  // Handlers

  /** GET /contacts/{phone}. Reads only. */
  function GetPhoneAddress(r: Redis, phone: string, f: Faults): (x: Exchange)
    ensures x.redis == Send(r, Get(phone))
    ensures f.onGet == RedisError ==> x.reply == Raised(HttpException(HTTP_503_SERVICE_UNAVAILABLE, ServiceUnavailableDetail))
    ensures f.onGet == Answered && !HasRecord(r.data, phone) ==>
              x.reply == Raised(HandleNotFoundError("Адрес", phone, None))
    ensures f.onGet == Answered && HasRecord(r.data, phone) ==> x.reply == Ok(ContactBody(phone, r.data[phone]))
  {
    var Answer((address, success), r1) := GetAddressByPhone(r, phone, f.onGet);
    if !success then
      Exchange(Raised(HandleServiceError("хранилища", "получении адреса", phone)), r1)
    else if !Truthy(address) then
      Exchange(Raised(HandleNotFoundError("Адрес", phone, None)), r1)
    else
      Exchange(Ok(ContactBody(phone, address.value)), r1)
  }

  /** POST /contacts/ with a validated body. There is no write unless the
      existence check answered and found no record. */
  function CreatePhoneAddress(r: Redis, data: PhoneAddressData, f: Faults): (x: Exchange)
    ensures f.onGet == RedisError ==> x.redis == Send(r, Get(data.phone))
    ensures f.onGet == Answered && HasRecord(r.data, data.phone) ==> x.redis == Send(r, Get(data.phone))
    ensures f.onGet == Answered && !HasRecord(r.data, data.phone) ==>
              x.redis.issued == r.issued + [Get(data.phone), Set(data.phone, data.address)]
    ensures x.reply.Ok? <==> f.onGet == Answered && !HasRecord(r.data, data.phone) && f.onSet == Answered
    ensures x.reply.Ok? ==> x.redis.data == r.data[data.phone := data.address]
    ensures !x.reply.Ok? ==> x.redis.data == r.data
    ensures x.reply.Ok? ==> x.reply == Succeeded("Данные успешно сохранены")
    ensures f.onGet == Answered && HasRecord(r.data, data.phone) ==>
              x.reply == Raised(HandleConflictError("Запись", data.phone))
    ensures f.onGet == RedisError ==>
              x.reply == Raised(HandleServiceError("хранилища", "проверке существования телефона", data.phone))
    ensures f.onGet == Answered && !HasRecord(r.data, data.phone) && f.onSet == RedisError ==>
              x.reply == Raised(HandleUpdateError("данных", data.phone, "сохранении"))
  {
    var Answer((existing, success), r1) := GetAddressByPhone(r, data.phone, f.onGet);
    if !success then
      Exchange(Raised(HandleServiceError("хранилища", "проверке существования телефона", data.phone)), r1)
    else if Truthy(existing) then
      Exchange(Raised(HandleConflictError("Запись", data.phone)), r1)
    else
      var Answer(saved, r2) := SavePhoneAddress(r1, data.phone, data.address, f.onSet);
      if !saved then
        Exchange(Raised(HandleUpdateError("данных", data.phone, "сохранении")), r2)
      else
        Exchange(Succeeded("Данные успешно сохранены"), r2)
  }

  /** PUT /contacts/{phone} with a validated body. When the body's phone
      differs from the path phone, the old key is deleted and then the new one
      set, with no check that the new phone is free and no undo if the set
      fails. */
  function UpdatePhoneAddress(r: Redis, phone: string, data: PhoneAddressData, f: Faults): (x: Exchange)
    ensures f.onGet == RedisError ==> x.redis == Send(r, Get(phone))
    ensures f.onGet == Answered && !HasRecord(r.data, phone) ==> x.redis == Send(r, Get(phone))
    ensures f.onGet == Answered && HasRecord(r.data, phone) && phone != data.phone ==>
              x.redis.issued == r.issued + [Get(phone), Del(phone)]
                                + (if f.onDelete == Answered then [Set(data.phone, data.address)] else [])
    ensures f.onGet == Answered && HasRecord(r.data, phone) && phone == data.phone ==>
              x.redis.issued == r.issued + [Get(phone), Set(phone, data.address)]
    ensures x.reply.Ok? <==>
              && f.onGet == Answered
              && HasRecord(r.data, phone)
              && (phone == data.phone || f.onDelete == Answered)
              && f.onSet == Answered
    ensures x.reply.Ok? ==> x.redis.data == (r.data - {phone})[data.phone := data.address]
    ensures !x.reply.Ok? ==>
              x.redis.data == (if f.onGet == Answered && HasRecord(r.data, phone) && phone != data.phone && f.onDelete == Answered
                               then r.data - {phone}
                               else r.data)
    ensures x.reply.Ok? ==> x.reply == Succeeded("Запись успешно обновлена")
    ensures f.onGet == Answered && HasRecord(r.data, phone) && phone != data.phone && f.onDelete == RedisError ==>
              x.reply == Raised(HandleUpdateError("старой записи", phone, "удалении"))
    ensures f.onGet == RedisError ==> x.reply == Raised(HandleServiceError("хранилища", "обновлении записи", phone))
    ensures f.onGet == Answered && !HasRecord(r.data, phone) ==>
              x.reply == Raised(HandleNotFoundError("Запись с указанным номером телефона", phone, Some("обновления")))
    ensures f.onGet == Answered && HasRecord(r.data, phone) && (phone == data.phone || f.onDelete == Answered)
            && f.onSet == RedisError ==>
              x.reply == Raised(HandleUpdateError("новых данных", data.phone, "сохранении"))
  {
    var Answer((address, success), r1) := GetAddressByPhone(r, phone, f.onGet);
    if !success then
      Exchange(Raised(HandleServiceError("хранилища", "обновлении записи", phone)), r1)
    else if !Truthy(address) then
      Exchange(Raised(HandleNotFoundError("Запись с указанным номером телефона", phone, Some("обновления"))), r1)
    else
      var deleted := if phone != data.phone then Services.DeletePhoneAddress(r1, phone, f.onDelete) else Answer(true, r1);
      if !deleted.value then
        Exchange(Raised(HandleUpdateError("старой записи", phone, "удалении")), deleted.redis)
      else
        var Answer(saved, r2) := SavePhoneAddress(deleted.redis, data.phone, data.address, f.onSet);
        if !saved then
          Exchange(Raised(HandleUpdateError("новых данных", data.phone, "сохранении")), r2)
        else
          Exchange(Succeeded("Запись успешно обновлена"), r2)
  }

  /** PATCH /contacts/{phone} with a validated body: replaces the address
      of an existing record. */
  function PartialUpdatePhoneAddress(r: Redis, phone: string, data: PhoneAddressUpdateData, f: Faults): (x: Exchange)
    ensures f.onGet == RedisError ==> x.redis == Send(r, Get(phone))
    ensures f.onGet == Answered && !HasRecord(r.data, phone) ==> x.redis == Send(r, Get(phone))
    ensures f.onGet == Answered && HasRecord(r.data, phone) ==>
              x.redis.issued == r.issued + [Get(phone), Set(phone, data.address)]
    ensures x.reply.Ok? <==> f.onGet == Answered && HasRecord(r.data, phone) && f.onSet == Answered
    ensures x.reply.Ok? ==> x.redis.data.Keys == r.data.Keys && x.redis.data[phone] == data.address
    ensures x.reply.Ok? ==> forall p :: p in r.data && p != phone ==> x.redis.data[p] == r.data[p]
    ensures !x.reply.Ok? ==> x.redis.data == r.data
    ensures x.reply.Ok? ==> x.reply == Succeeded("Адрес успешно обновлен")
    ensures f.onGet == Answered && HasRecord(r.data, phone) && f.onSet == RedisError ==>
              x.reply == Raised(HandleUpdateError("нового адреса", phone, "сохранении"))
    ensures f.onGet == RedisError ==>
              x.reply == Raised(HandleServiceError("хранилища", "частичном обновлении адреса", phone))
    ensures f.onGet == Answered && !HasRecord(r.data, phone) ==>
              x.reply == Raised(HandleNotFoundError("Запись с указанным номером телефона", phone, Some("частичного обновления")))
  {
    var Answer((address, success), r1) := GetAddressByPhone(r, phone, f.onGet);
    if !success then
      Exchange(Raised(HandleServiceError("хранилища", "частичном обновлении адреса", phone)), r1)
    else if !Truthy(address) then
      Exchange(Raised(HandleNotFoundError("Запись с указанным номером телефона", phone, Some("частичного обновления"))), r1)
    else
      var Answer(saved, r2) := SavePhoneAddress(r1, phone, data.address, f.onSet);
      if !saved then
        Exchange(Raised(HandleUpdateError("нового адреса", phone, "сохранении")), r2)
      else
        Exchange(Succeeded("Адрес успешно обновлен"), r2)
  }

  /** DELETE /contacts/{phone}. */
  function DeletePhoneAddress(r: Redis, phone: string, f: Faults): (x: Exchange)
    ensures f.onGet == RedisError ==> x.redis == Send(r, Get(phone))
    ensures f.onGet == Answered && !HasRecord(r.data, phone) ==> x.redis == Send(r, Get(phone))
    ensures f.onGet == Answered && HasRecord(r.data, phone) ==>
              x.redis.issued == r.issued + [Get(phone), Del(phone)]
    ensures x.reply.Ok? <==> f.onGet == Answered && HasRecord(r.data, phone) && f.onDelete == Answered
    ensures x.reply.Ok? ==> x.redis.data == r.data - {phone}
    ensures !x.reply.Ok? ==> x.redis.data == r.data
    ensures x.reply.Ok? ==> x.reply == Succeeded("Запись успешно удалена")
    ensures f.onGet == Answered && HasRecord(r.data, phone) && f.onDelete == RedisError ==>
              x.reply == Raised(HandleUpdateError("записи", phone, "удалении"))
    ensures f.onGet == RedisError ==> x.reply == Raised(HandleServiceError("хранилища", "удалении записи", phone))
    ensures f.onGet == Answered && !HasRecord(r.data, phone) ==>
              x.reply == Raised(HandleNotFoundError("Запись с указанным номером телефона", phone, Some("удаления")))
  {
    var Answer((address, success), r1) := GetAddressByPhone(r, phone, f.onGet);
    if !success then
      Exchange(Raised(HandleServiceError("хранилища", "удалении записи", phone)), r1)
    else if !Truthy(address) then
      Exchange(Raised(HandleNotFoundError("Запись с указанным номером телефона", phone, Some("удаления"))), r1)
    else
      var Answer(deleted, r2) := Services.DeletePhoneAddress(r1, phone, f.onDelete);
      if !deleted then
        Exchange(Raised(HandleUpdateError("записи", phone, "удалении")), r2)
      else
        Exchange(Succeeded("Запись успешно удалена"), r2)
  }

  // ---------------------------------------------------------------------------
  // Requests with raw bodies: the payload model runs before the handler

  /** POST /contacts/ with a raw body. */
  function PostContact(r: Redis, phone: string, address: string, f: Faults): (x: Exchange)
    ensures !(ValidPhone(phone) && AddressAccepted(address)) ==>
              StatusCode(x.reply) == HTTP_422_UNPROCESSABLE_ENTITY && x.redis == r
    ensures x.reply.Ok? ==>
              ValidPhone(phone) && AddressAccepted(address) && x.redis.data == r.data[phone := Strip(address)]
    ensures ValidPhone(phone) && AddressAccepted(address) ==>
              x == CreatePhoneAddress(r, PhoneAddressData(phone, Strip(address)), f)
  {
    match ParsePhoneAddressData(phone, address)
    case Failure(errors) => Exchange(Unprocessable(errors), r)
    case Success(data) =>
      StripUnique(address, data.address);
      CreatePhoneAddress(r, data, f)
  }

  /** PUT /contacts/{phone} with a raw body. The path phone is not
      validated; only the body is. */
  function PutContact(r: Redis, phone: string, bodyPhone: string, bodyAddress: string, f: Faults): (x: Exchange)
    ensures !(ValidPhone(bodyPhone) && AddressAccepted(bodyAddress)) ==>
              StatusCode(x.reply) == HTTP_422_UNPROCESSABLE_ENTITY && x.redis == r
    ensures x.reply.Ok? ==>
              && ValidPhone(bodyPhone)
              && AddressAccepted(bodyAddress)
              && x.redis.data == (r.data - {phone})[bodyPhone := Strip(bodyAddress)]
    ensures ValidPhone(bodyPhone) && AddressAccepted(bodyAddress) ==>
              x == UpdatePhoneAddress(r, phone, PhoneAddressData(bodyPhone, Strip(bodyAddress)), f)
  {
    match ParsePhoneAddressData(bodyPhone, bodyAddress)
    case Failure(errors) => Exchange(Unprocessable(errors), r)
    case Success(data) =>
      StripUnique(bodyAddress, data.address);
      UpdatePhoneAddress(r, phone, data, f)
  }

  /** PATCH /contacts/{phone} with a raw body. */
  function PatchContact(r: Redis, phone: string, bodyAddress: string, f: Faults): (x: Exchange)
    ensures !AddressAccepted(bodyAddress) ==>
              StatusCode(x.reply) == HTTP_422_UNPROCESSABLE_ENTITY && x.redis == r
    ensures x.reply.Ok? ==> AddressAccepted(bodyAddress) && x.redis.data == r.data[phone := Strip(bodyAddress)]
    ensures AddressAccepted(bodyAddress) ==>
              x == PartialUpdatePhoneAddress(r, phone, PhoneAddressUpdateData(Strip(bodyAddress)), f)
  {
    match ParsePhoneAddressUpdateData(bodyAddress)
    case Failure(errors) => Exchange(Unprocessable(errors), r)
    case Success(data) =>
      StripUnique(bodyAddress, data.address);
      PartialUpdatePhoneAddress(r, phone, data, f)
  }
}
