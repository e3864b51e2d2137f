# Phone → address record store, modelled in Dafny

The service keeps one Redis entry per contact. The key is the phone number
and the value is the postal address. It offers five HTTP endpoints under
`/contacts`: read, create, full update, partial update and delete. This
project models the request-level contract of those endpoints. Each handler
is a pure function from the Redis server and the fault of each Redis call
to the reply and the server afterwards.

- `wrappers.dfy`, module `Wrappers`: `Option` stands in for Python's `None`
  and `Result` for a raised validation error.
- `models.dfy`, module `Models`: the payload validators. This covers the
  phone pattern `^8\d{10}$` and Python's `str.strip()`. It also covers the
  `Field(min_length=5, max_length=500)` constraints, which run before the
  address after-validator, and pydantic's construction of the two payload
  classes.
- `services.dfy`, module `Services`: the `RedisService` adapter. The Redis
  server is its data (`map<string, string>`) plus the list of every command
  the adapter attempted, whether or not it reached Redis. This makes "no
  write is issued" a statable fact. Each call
  takes a `Fault` input: `Answered`, or `RedisError`, which the client raises
  and the adapter turns into a false flag.
- `service_exceptions.dfy`, module `ServiceExceptions`: the four error
  helpers. Each returns the `HTTPException` it would raise, with status code
  and detail.
- `routers.dfy`, module `Routers`: the five handlers. Each request runs the
  existence GET first and stops at the first failure. The module also has
  request-level wrappers, where a body the payload model refuses gives 422
  before any Redis command.
- `router_properties.dfy`, module `RouterProperties`: facts about sequences
  of requests. These cover create-then-read, delete-then-read, the rekey's
  silent overwrite and its data-loss window, and "Redis down gives 503
  everywhere".

Two behaviours of the code are easy to misread; the model follows the code:
- One might expect the 5..500 bound to apply to the stripped address. It is
  checked on the raw string only, before stripping, so a stored address can
  be shorter than 5 characters (`Models.StoredAddressMayBeShort`).
- One might expect the adapter's delete to fail only on a communication
  error. Deleting a key that is not in Redis also reports failure
  (`Services.DeleteAbsentKeyFails`).

## Model

| member | source | states |
|---|---|---|
| Models.ValidatePhone | app/models/models.py:8-13 | accepted iff the phone is '8' followed by exactly ten digits (11 characters); an accepted phone is returned unchanged; otherwise a ValueError with the format message |
| Models.DigitsThenEndIff | app/models/models.py:11 | the pattern tail `\d{n}$` matches exactly the strings of length n made only of digits |
| Models.PhonePatternIffValidPhone | app/models/models.py:11 | the regex `^8\d{10}$`, read left to right, accepts exactly the phones of the reference definition |
| Models.SkipSpace | app/models/models.py:18 | the left cut of strip: only whitespace is skipped, and the cut stops at the first non-whitespace character or at the end |
| Models.SkipSpaceBack | app/models/models.py:18 | the right cut of strip: only whitespace is cut from the end, and the cut stops after a non-whitespace character or at the left bound |
| Models.Strip | app/models/models.py:18 | `strip()` returns a slice of the input with only whitespace outside it and no whitespace at either end |
| Models.StripUnique | app/models/models.py:18 | any slice meeting that definition is the one strip returns, so strip is fully determined by it |
| Models.StripIdempotent | app/models/models.py:18 | stripping an already stripped address changes nothing |
| Models.StripEmptyIffAllSpace | app/models/models.py:18-20 | strip returns the empty string exactly when the input is all whitespace |
| Models.CheckAddress | app/models/models.py:15-21 | the after-validator accepts iff the input is not all whitespace, returns the stripped value, which is non-empty, and does not re-check the length |
| Models.ValidateAddressField | app/models/models.py:6-21 | the address is accepted iff the raw length is in [5, 500] and it is not all whitespace; too short, too long and whitespace-only each give their own error, and the kept value is the strip of the raw input |
| Models.ParsePhoneAddressData | app/models/models.py:4-21 | the full payload is built iff the phone is valid and the address accepted; it keeps the phone unchanged and the stripped address; on refusal each failing field, and only those, reports an error |
| Models.ParsePhoneAddressUpdateData | app/models/models.py:23-32 | the partial payload is built iff the address is accepted, keeping the stripped address; otherwise exactly one address error |
| Models.FullAndPartialAddressAgree | app/models/models.py:15-32 | full and partial payloads accept the same raw addresses and keep the same stripped value |
| Models.StoredAddressMayBeShort | app/models/models.py:17-21 | the raw address of four spaces and a letter passes and is kept as one character, below the minimum length of 5 |
| Models.RejectsPhoneWithoutLeadingEight | app/models/models.py:10-12 | the phone 71234567890 is refused |
| Models.RejectsTwelveDigitPhone | app/models/models.py:10-12 | the twelve-digit phone 812345678901 is refused |
| Models.RejectsFourCharacterAddress | app/models/models.py:6 | the address "abcd" is refused as shorter than 5 |
| Services.GetAddressByPhone | app/services/services.py:23-29 | on an answer, `(stored value or None, True)`; on RedisError `(None, False)`; it never raises; only a GET is attempted and the data is unchanged |
| Services.SavePhoneAddress | app/services/services.py:31-36 | true iff Redis answered, and then the key holds the new value; false on RedisError with the data unchanged; a SET is attempted either way |
| Services.DeletePhoneAddress | app/services/services.py:38-43 | true iff Redis answered and the key existed, so DEL removed one key; on an answer the key is gone; false on RedisError with the data unchanged |
| Services.PingRedis | app/services/services.py:45-50 | true iff Redis answered the PING; false on RedisError |
| Services.DeleteAbsentKeyFails | app/services/services.py:38-40 | deleting a key that is not stored reports failure although Redis answered |
| Services.SaveThenGet | app/services/services.py:23-33 | after a successful save, a get returns the saved value with success |
| ServiceExceptions.HandleServiceError | app/exceptions/service_exceptions.py:4-9 | always 503 with the fixed "service temporarily unavailable" detail |
| ServiceExceptions.HandleNotFoundError | app/exceptions/service_exceptions.py:11-17 | 404, with the entity type followed by the not-found suffix as detail |
| ServiceExceptions.HandleConflictError | app/exceptions/service_exceptions.py:19-24 | 409, with the entity type followed by the already-exists suffix as detail |
| ServiceExceptions.HandleUpdateError | app/exceptions/service_exceptions.py:26-31 | 503, with the operation between a fixed prefix and suffix as detail |
| ServiceExceptions.ServiceErrorIgnoresArguments | app/exceptions/service_exceptions.py:4-9 | the service-error exception is the same for all arguments |
| ServiceExceptions.NotFoundDependsOnlyOnEntityType | app/exceptions/service_exceptions.py:11-17 | two not-found exceptions are equal iff their entity types are equal, whatever the id and operation |
| ServiceExceptions.ConflictDependsOnlyOnEntityType | app/exceptions/service_exceptions.py:19-24 | two conflict exceptions are equal iff their entity types are equal, whatever the id |
| ServiceExceptions.UpdateErrorDependsOnlyOnOperation | app/exceptions/service_exceptions.py:26-31 | two update-error exceptions are equal iff their operations are equal, whatever the entity type and id |
| Routers.GetPhoneAddress | app/routers/routers.py:18-33 | a GET fault raises the service-unavailable error; an absent or empty value raises the not-found error for "Адрес"; otherwise 200 with the phone and the stored address; only the GET is attempted and the data never changes |
| Routers.CreatePhoneAddress | app/routers/routers.py:35-55 | a GET fault raises the service-unavailable error and a non-empty stored value the 409 conflict error for "Запись", both with no write attempted; otherwise GET then SET are attempted; success (iff the SET is answered) answers the success body "Данные успешно сохранены" and leaves the data with the phone mapped to the address; a faulted SET raises the update error for saving; every failure leaves the data unchanged |
| Routers.UpdatePhoneAddress | app/routers/routers.py:57-83 | a GET fault raises the service-unavailable error and no record the not-found error for the record, each with nothing attempted after the GET; a changed phone attempts GET, DEL old, then SET new (the SET only if the DEL succeeded); a faulted DEL raises the update error for deleting the old record, a faulted SET the update error for saving the new data; success answers "Запись успешно обновлена" and yields the data minus the old phone with the new phone mapped to the address, overwriting any record there; a failed SET after a successful DEL leaves the old phone deleted |
| Routers.PartialUpdatePhoneAddress | app/routers/routers.py:85-105 | a GET fault raises the service-unavailable error and no record the not-found error for the record, with no write attempted; a faulted SET raises the update error for saving the new address; success answers "Адрес успешно обновлен", and only the value at the path phone changes and the key set is the same; failures leave the data unchanged |
| Routers.DeletePhoneAddress | app/routers/routers.py:107-126 | a GET fault raises the service-unavailable error and no record the not-found error for the record, with no DEL attempted; a faulted DEL raises the update error for deleting; success (iff the DEL is answered) answers "Запись успешно удалена" and removes exactly the path phone; failures leave the data unchanged |
| Routers.PostContact | app/routers/routers.py:35-55 | a body the payload model refuses gives 422 with no command attempted; an accepted body is handed to the create handler with the phone unchanged and the address stripped; success stores the stripped address under the valid phone |
| Routers.PutContact | app/routers/routers.py:57-83 | a refused body gives 422 with no command attempted; an accepted body is handed to the full-update handler with the body phone and the stripped address; success removes the path phone and stores the stripped address under the body phone |
| Routers.PatchContact | app/routers/routers.py:85-105 | a refused address gives 422 with no command attempted; an accepted address is handed to the partial-update handler stripped; success stores the stripped address under the path phone |
| RouterProperties.CreateThenRead | app/routers/routers.py:24-55 | after a successful create, a read of the phone returns the address created |
| RouterProperties.CreateConflictKeepsAddress | app/routers/routers.py:42-48 | a create on a phone with a record gives 409, and a read still returns the old address |
| RouterProperties.EmptyValueIsNoRecord | app/routers/routers.py:29-30 | an empty stored value counts as absent: read, update, partial update and delete give 404, and create overwrites it |
| RouterProperties.DeleteThenRead | app/routers/routers.py:113-126 | after a successful delete, a read of the phone gives 404 |
| RouterProperties.PartialUpdateThenRead | app/routers/routers.py:92-105 | after a successful partial update, a read returns the new address |
| RouterProperties.RekeyThenRead | app/routers/routers.py:72-83 | after a successful update that changes the phone, the old phone reads 404 and the new phone returns the new address |
| RouterProperties.RekeyOverwritesTarget | app/routers/routers.py:72-80 | an update onto a phone that already has a record succeeds with no conflict check, overwrites that record, and leaves one record fewer |
| RouterProperties.RekeyLosesRecordOnFailedSet | app/routers/routers.py:74-80 | when the DEL of the old phone succeeds and the SET fails, the reply is 503 and the old record is gone with nothing in its place |
| RouterProperties.SamePhoneUpdateOverwrites | app/routers/routers.py:72-80 | an update that keeps the phone overwrites the address in place |
| RouterProperties.StoreDownEveryEndpointUnavailable | app/routers/routers.py:24-27 | when Redis raises on every command, all five endpoints give 503 after attempting only the GET, with the data unchanged |
| RouterProperties.RefusedBodySendsNothing | app/routers/routers.py:35-90 | a create, a full update under any path phone, or a partial update whose body is refused attempts no command on Redis |
| RouterProperties.SampleRequestsRefused | app/routers/routers.py:35-39 | the sample phones 71234567890 and 812345678901 and the address "abcd" give 422 |
| RouterProperties.PostThenReadReturnsStripped | app/routers/routers.py:35-55 | after a successful create from a raw body, a read returns the stripped address |

## Left out

- app/main.py is wiring: CORS, the timing middleware, the uvicorn launch and the catch-all 500 handler. It is not modelled. Its health route is a plain if/else on `ping`, which is modelled as `Services.PingRedis`. As written, main.py imports a `get_redis_service` that the routers module does not define.
- app/exceptions/handlers.py, app/config/config.py, app/utils/logging.py and app/services/interfaces.py are not part of this model. They hold JSON responders that are never registered, settings, a logger and abstract signatures. Every log message is dropped.
- The `RedisService` constructor and the Redis connection, timeouts and network behaviour are not modelled. Each call's outcome is an explicit `Fault` input instead.
- A command that faults is modelled as having no effect. A write that reaches Redis but whose reply is lost is not modelled.
- Concurrent and interleaved requests are not modelled, including two creates racing past the existence check. Each handler runs alone.
- Exceptions other than `RedisError` are not modelled.
- A PUT or PATCH without a body is not modelled: the wrappers always receive a body. In the source, `data` is then `None`, but the existence GET still runs first. A body-less request therefore gets 503 on a GET fault and 404 when there is no record. Only when a record exists does the `data.phone` or `data.address` access fail, giving a 500, after the GET was sent.
- Pydantic's structured 422 error list is reduced to a list of (field, kind) pairs with no message layout. JSON bodies that are not strings are not modelled.
- Models.ValidatePhone: does not model two Python regex quirks. `$` also accepts one trailing "\n", and `\d` also matches non-ASCII Unicode digits. The model accepts ASCII digits only and no trailing newline.
- Services.SavePhoneAddress: a SET without NX/XX always replies OK, so a Redis answer is modelled as a true reply. A falsy SET reply cannot arise and is not modelled.
- Services.PingRedis: an answered PING is modelled as a true reply.
