/** Facts about sequences of requests to the `/contacts` endpoints, and
    about the data-loss windows of the full update. */
module RouterProperties {
  import opened Services
  import opened ServiceExceptions
  import opened Models
  import opened Routers

  /** Reading with an answered GET. */
  function Read(r: Redis, phone: string): Reply {
    GetPhoneAddress(r, phone, NoFaults).reply
  }

  /** After a successful create, reading the phone returns the address sent. */
  lemma CreateThenRead(r: Redis, data: PhoneAddressData, f: Faults)
    requires WellFormed(data)
    ensures var x := CreatePhoneAddress(r, data, f);
            x.reply.Ok? ==> Read(x.redis, data.phone) == Ok(ContactBody(data.phone, data.address))
  {
  }

  /** A create on a phone that has a record answers 409, and the stored
      address is what a read still returns. */
  lemma CreateConflictKeepsAddress(r: Redis, data: PhoneAddressData, f: Faults)
    requires f.onGet == Answered && HasRecord(r.data, data.phone)
    ensures var x := CreatePhoneAddress(r, data, f);
            && StatusCode(x.reply) == HTTP_409_CONFLICT
            && Read(x.redis, data.phone) == Ok(ContactBody(data.phone, r.data[data.phone]))
  {
  }

  /** An empty stored value is treated as no record: a read answers 404, a
      create overwrites it, and update, partial update and delete answer 404. */
  lemma EmptyValueIsNoRecord(r: Redis, data: PhoneAddressData, update: PhoneAddressUpdateData, phone: string)
    requires phone in r.data && r.data[phone] == ""
    requires data.phone == phone
    ensures StatusCode(Read(r, phone)) == HTTP_404_NOT_FOUND
    ensures CreatePhoneAddress(r, data, NoFaults).reply.Ok?
    ensures CreatePhoneAddress(r, data, NoFaults).redis.data[phone] == data.address
    ensures StatusCode(UpdatePhoneAddress(r, phone, data, NoFaults).reply) == HTTP_404_NOT_FOUND
    ensures StatusCode(PartialUpdatePhoneAddress(r, phone, update, NoFaults).reply) == HTTP_404_NOT_FOUND
    ensures StatusCode(Routers.DeletePhoneAddress(r, phone, NoFaults).reply) == HTTP_404_NOT_FOUND
  {
  }

  /** After a successful delete, reading the phone answers 404. */
  lemma DeleteThenRead(r: Redis, phone: string, f: Faults)
    ensures var x := Routers.DeletePhoneAddress(r, phone, f);
            x.reply.Ok? ==> StatusCode(Read(x.redis, phone)) == HTTP_404_NOT_FOUND
  {
  }

  /** After a successful partial update, reading the phone returns the new
      address. */
  lemma PartialUpdateThenRead(r: Redis, phone: string, data: PhoneAddressUpdateData, f: Faults)
    requires data.address != ""
    ensures var x := PartialUpdatePhoneAddress(r, phone, data, f);
            x.reply.Ok? ==> Read(x.redis, phone) == Ok(ContactBody(phone, data.address))
  {
  }

  /** After a successful full update that changes the phone, the old phone
      answers 404 and the new one returns the new address. */
  lemma RekeyThenRead(r: Redis, phone: string, data: PhoneAddressData, f: Faults)
    requires WellFormed(data) && phone != data.phone
    ensures var x := UpdatePhoneAddress(r, phone, data, f);
            x.reply.Ok? ==>
              && StatusCode(Read(x.redis, phone)) == HTTP_404_NOT_FOUND
              && Read(x.redis, data.phone) == Ok(ContactBody(data.phone, data.address))
  {
  }

  /** Removing one key and then setting another key that is already present
      leaves one entry fewer. */
  lemma RemoveThenOverwriteSize(m: Store, gone: string, kept: string, v: string)
    requires gone in m && kept in m && gone != kept
    ensures |(m - {gone})[kept := v]| == |m| - 1
  {
    var m' := (m - {gone})[kept := v];
    assert m'.Keys == m.Keys - {gone};
    assert |m.Keys - {gone}| == |m.Keys| - 1;
  }

  /** A full update onto a phone that already has a record succeeds without
      a conflict: that record is overwritten and the store holds one record
      fewer. */
  lemma RekeyOverwritesTarget(r: Redis, phone: string, data: PhoneAddressData)
    requires HasRecord(r.data, phone) && data.phone in r.data && phone != data.phone
    ensures var x := UpdatePhoneAddress(r, phone, data, NoFaults);
            && x.reply.Ok?
            && x.redis.data[data.phone] == data.address
            && |x.redis.data| == |r.data| - 1
  {
    RemoveThenOverwriteSize(r.data, phone, data.phone, data.address);
  }

  /** The rekey is not atomic: when the delete of the old phone succeeds and
      the set of the new one fails, the request answers 503, the old record is
      gone, and nothing replaced it. */
  lemma RekeyLosesRecordOnFailedSet(r: Redis, phone: string, data: PhoneAddressData)
    requires HasRecord(r.data, phone) && phone != data.phone
    ensures var x := UpdatePhoneAddress(r, phone, data, Faults(Answered, Answered, RedisError));
            && StatusCode(x.reply) == HTTP_503_SERVICE_UNAVAILABLE
            && phone !in x.redis.data
            && x.redis.data == r.data - {phone}
            && |x.redis.data| == |r.data| - 1
  {
  }

  /** A full update that keeps the phone overwrites the address in place. */
  lemma SamePhoneUpdateOverwrites(r: Redis, data: PhoneAddressData, f: Faults)
    ensures var x := UpdatePhoneAddress(r, data.phone, data, f);
            x.reply.Ok? ==> x.redis.data == r.data[data.phone := data.address]
  {
  }

  /** When Redis raises on every command, every record endpoint answers 503,
      leaves the data as it was, and attempts nothing after the first GET. */
  lemma StoreDownEveryEndpointUnavailable(r: Redis, phone: string, data: PhoneAddressData,
                                         update: PhoneAddressUpdateData)
    ensures var x := GetPhoneAddress(r, phone, AllFaults);
            StatusCode(x.reply) == HTTP_503_SERVICE_UNAVAILABLE && x.redis == Send(r, Get(phone))
    ensures var x := CreatePhoneAddress(r, data, AllFaults);
            StatusCode(x.reply) == HTTP_503_SERVICE_UNAVAILABLE && x.redis == Send(r, Get(data.phone))
    ensures var x := UpdatePhoneAddress(r, phone, data, AllFaults);
            StatusCode(x.reply) == HTTP_503_SERVICE_UNAVAILABLE && x.redis == Send(r, Get(phone))
    ensures var x := PartialUpdatePhoneAddress(r, phone, update, AllFaults);
            StatusCode(x.reply) == HTTP_503_SERVICE_UNAVAILABLE && x.redis == Send(r, Get(phone))
    ensures var x := Routers.DeletePhoneAddress(r, phone, AllFaults);
            StatusCode(x.reply) == HTTP_503_SERVICE_UNAVAILABLE && x.redis == Send(r, Get(phone))
  {
  }

  /** Validation runs before any command: a refused body attempts no
      command on Redis, for a create, a full update under any path phone, and a partial
      update. */
  lemma RefusedBodySendsNothing(r: Redis, pathPhone: string, bodyPhone: string, address: string, f: Faults)
    ensures !(ValidPhone(bodyPhone) && AddressAccepted(address)) ==>
              PostContact(r, bodyPhone, address, f).redis.issued == r.issued
    ensures !(ValidPhone(bodyPhone) && AddressAccepted(address)) ==>
              PutContact(r, pathPhone, bodyPhone, address, f).redis.issued == r.issued
    ensures !AddressAccepted(address) ==> PatchContact(r, pathPhone, address, f).redis.issued == r.issued
  {
  }

  /** Sample requests refused with 422: a phone without the leading 8, a
      phone with twelve digits, and a four-character address. */
  lemma SampleRequestsRefused(r: Redis, f: Faults)
    ensures StatusCode(PostContact(r, "71234567890", "Moscow, Tverskaya 1", f).reply) == HTTP_422_UNPROCESSABLE_ENTITY
    ensures StatusCode(PostContact(r, "812345678901", "Moscow, Tverskaya 1", f).reply) == HTTP_422_UNPROCESSABLE_ENTITY
    ensures StatusCode(PatchContact(r, "81234567890", "abcd", f).reply) == HTTP_422_UNPROCESSABLE_ENTITY
  {
    RejectsPhoneWithoutLeadingEight();
    RejectsTwelveDigitPhone();
    RejectsFourCharacterAddress();
  }

  /** A create with a raw body whose address has outer whitespace stores the
      stripped address, which a read then returns. */
  lemma PostThenReadReturnsStripped(r: Redis, phone: string, address: string, f: Faults)
    ensures var x := PostContact(r, phone, address, f);
            x.reply.Ok? ==> Read(x.redis, phone) == Ok(ContactBody(phone, Strip(address)))
  {
    var x := PostContact(r, phone, address, f);
    if x.reply.Ok? {
      StripEmptyIffAllSpace(address);
    }
  }
}
