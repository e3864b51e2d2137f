/** Request payload validation of the contact store (app/models/models.py):
    the phone pattern `^8\d{10}$`, the address length constraints of the
    `Field` declarations, and the after-validator that strips the address and
    rejects an empty result. */
module Models {
  import opened Wrappers

  /** `Field(min_length=5, max_length=500)` on both payload classes. */
  const AddressMinLength: nat := 5
  const AddressMaxLength: nat := 500

  const PhoneFormatMessage: string := "Телефон должен быть в формате 8XXXXXXXXXX"
  const EmptyAddressMessage: string := "Адрес не может быть пустым"

  /** Why one field was refused; the first two are the `Field` constraints,
      the last is a `ValueError` raised by a field validator. */
  datatype ErrorKind =
    | StringTooShort(minLength: nat)
    | StringTooLong(maxLength: nat)
    | ValueError(message: string)

  datatype FieldError = FieldError(field: string, kind: ErrorKind)

  /** The body of POST and PUT. */
  datatype PhoneAddressData = PhoneAddressData(phone: string, address: string)

  /** The body of PATCH. */
  datatype PhoneAddressUpdateData = PhoneAddressUpdateData(address: string)

  // ---------------------------------------------------------------------------
  // Phone

  /** `\d`, restricted to ASCII digits. */
  predicate IsDigit(c: char) {
    '0' <= c <= '9'
  }

  /** Reference definition of an accepted phone: eleven characters, the
      first '8', the other ten digits. */
  predicate ValidPhone(s: string) {
    |s| == 11 && s[0] == '8' && forall i :: 1 <= i < |s| ==> IsDigit(s[i])
  }

  /** The tail `\d{n}$` of the pattern: exactly `n` digits, then the end. */
  predicate DigitsThenEnd(t: string, n: nat)
    decreases n
  {
    if n == 0 then t == []
    else |t| > 0 && IsDigit(t[0]) && DigitsThenEnd(t[1..], n - 1)
  }

  /** The whole pattern `^8\d{10}$`, read left to right. */
  predicate MatchesPhonePattern(s: string) {
    |s| > 0 && s[0] == '8' && DigitsThenEnd(s[1..], 10)
  }

  lemma {:induction false} DigitsThenEndIff(t: string, n: nat)
    ensures DigitsThenEnd(t, n) <==> |t| == n && forall i :: 0 <= i < |t| ==> IsDigit(t[i])
    decreases n
  {
    if n > 0 && |t| > 0 {
      DigitsThenEndIff(t[1..], n - 1);
      assert forall i :: 1 <= i < |t| ==> t[i] == t[1..][i - 1];
    }
  }

  /** The pattern matches exactly the phones of the reference definition. */
  lemma PhonePatternIffValidPhone(s: string)
    ensures MatchesPhonePattern(s) <==> ValidPhone(s)
  {
    if |s| > 0 {
      DigitsThenEndIff(s[1..], 10);
      assert forall i :: 1 <= i < |s| ==> s[i] == s[1..][i - 1];
    }
  }

  /** `PhoneAddressData.validate_phone`: the phone is returned unchanged
      when it matches, and refused with a `ValueError` otherwise. */
  function ValidatePhone(v: string): (r: Result<string, ErrorKind>)
    ensures r.Success? <==> ValidPhone(v)
    ensures r.Success? ==> r.value == v
    ensures r.Failure? ==> r.error == ValueError(PhoneFormatMessage)
  {
    PhonePatternIffValidPhone(v);
    if !MatchesPhonePattern(v) then Failure(ValueError(PhoneFormatMessage)) else Success(v)
  }

  // ---------------------------------------------------------------------------
  // Whitespace and strip()

  /** The code points for which Python's `str.isspace` holds; `str.strip()`
      with no argument removes exactly these. */
  predicate IsSpace(c: char) {
    || ('\t' <= c <= '\r')
    || ('\U{1C}' <= c <= ' ')
    || c == '\U{85}'
    || c == '\U{A0}'
    || c == '\U{1680}'
    || ('\U{2000}' <= c <= '\U{200A}')
    || c == '\U{2028}'
    || c == '\U{2029}'
    || c == '\U{202F}'
    || c == '\U{205F}'
    || c == '\U{3000}'
  }

  /** Every character of `s` from index `lo` up to `hi` is whitespace. */
  predicate SpaceBetween(s: string, lo: int, hi: int)
    requires 0 <= lo <= hi <= |s|
  {
    forall k :: lo <= k < hi ==> IsSpace(s[k])
  }

  predicate AllSpace(s: string) {
    SpaceBetween(s, 0, |s|)
  }

  /** Neither the first nor the last character is whitespace. */
  predicate NoOuterSpace(s: string) {
    s == [] || (!IsSpace(s[0]) && !IsSpace(s[|s| - 1]))
  }

  /** `s[i..j]` is what remains of `s` once whitespace is cut off on both
      sides: only whitespace lies outside it and none is left at its ends. */
  ghost predicate StripAt(s: string, i: int, j: int) {
    && 0 <= i <= j <= |s|
    && SpaceBetween(s, 0, i)
    && SpaceBetween(s, j, |s|)
    && (i < j ==> !IsSpace(s[i]) && !IsSpace(s[j - 1]))
  }

  /** Reference definition of strip. */
  ghost predicate IsStripOf(r: string, s: string) {
    exists i, j :: StripAt(s, i, j) && r == s[i..j]
  }

  /** Where `str.lstrip()` cuts: the first index at or after `lo` that holds
      no whitespace, or the end of `s`. */
  function SkipSpace(s: string, lo: nat): (i: nat)
    requires lo <= |s|
    ensures lo <= i <= |s|
    ensures SpaceBetween(s, lo, i)
    ensures i < |s| ==> !IsSpace(s[i])
    decreases |s| - lo
  {
    if lo < |s| && IsSpace(s[lo]) then SkipSpace(s, lo + 1) else lo
  }

  /** Where `str.rstrip()` cuts `s[lo..hi]`: the least index `j` not below
      `lo` such that only whitespace lies from `j` up to `hi`. */
  function SkipSpaceBack(s: string, lo: nat, hi: nat): (j: nat)
    requires lo <= hi <= |s|
    ensures lo <= j <= hi
    ensures SpaceBetween(s, j, hi)
    ensures lo < j ==> !IsSpace(s[j - 1])
    decreases hi - lo
  {
    if lo < hi && IsSpace(s[hi - 1]) then SkipSpaceBack(s, lo, hi - 1) else hi
  }

  /** `str.strip()`. */
  function Strip(s: string): (r: string)
    ensures IsStripOf(r, s)
  {
    var i := SkipSpace(s, 0);
    var j := SkipSpaceBack(s, i, |s|);
    assert StripAt(s, i, j);
    s[i..j]
  }

  /** A strip slice is empty exactly when the whole input is whitespace. */
  lemma StripAtEmptyIffAllSpace(s: string, i: int, j: int)
    requires StripAt(s, i, j)
    ensures i == j <==> AllSpace(s)
  {
  }

  /** Two non-empty strip slices of one input start and end at the same place. */
  lemma StripAtBoundsAgree(s: string, i: int, j: int, i': int, j': int)
    requires StripAt(s, i, j) && StripAt(s, i', j')
    requires i < j && i' < j'
    ensures i == i' && j == j'
  {
  }

  /** Strip has exactly one result: any slice meeting the reference
      definition is the one `Strip` computes. */
  lemma StripUnique(s: string, r: string)
    requires IsStripOf(r, s)
    ensures r == Strip(s)
  {
    var r' := Strip(s);
    var i, j :| StripAt(s, i, j) && r == s[i..j];
    var i', j' :| StripAt(s, i', j') && r' == s[i'..j'];
    StripAtEmptyIffAllSpace(s, i, j);
    StripAtEmptyIffAllSpace(s, i', j');
    if i < j && i' < j' {
      StripAtBoundsAgree(s, i, j, i', j');
    }
  }

  /** Stripping twice strips nothing more. */
  lemma StripIdempotent(s: string)
    ensures Strip(Strip(s)) == Strip(s)
  {
    var r := Strip(s);
    var i, j :| StripAt(s, i, j) && r == s[i..j];
    if r != [] {
      assert r[0] == s[i] && r[|r| - 1] == s[j - 1];
    }
    assert r[0..|r|] == r;
    assert StripAt(r, 0, |r|);
    StripUnique(r, r);
  }

  /** Strip leaves nothing exactly when the input is all whitespace. */
  lemma StripEmptyIffAllSpace(s: string)
    ensures Strip(s) == [] <==> AllSpace(s)
  {
    var r := Strip(s);
    var i, j :| StripAt(s, i, j) && r == s[i..j];
    StripAtEmptyIffAllSpace(s, i, j);
  }

  // ---------------------------------------------------------------------------
  // Address

  /** `validate_address` of both payload classes: strip, then refuse an
      empty result. It does not look at the length again. */
  function CheckAddress(v: string): (r: Result<string, ErrorKind>)
    ensures r.Success? <==> !AllSpace(v)
    ensures r.Success? ==> IsStripOf(r.value, v) && r.value != []
    ensures r.Failure? ==> r.error == ValueError(EmptyAddressMessage)
  {
    StripEmptyIffAllSpace(v);
    var stripped := Strip(v);
    if stripped == [] then Failure(ValueError(EmptyAddressMessage)) else Success(stripped)
  }

  /** An address the payload classes accept, stated on the raw input. */
  predicate AddressAccepted(raw: string) {
    AddressMinLength <= |raw| <= AddressMaxLength && !AllSpace(raw)
  }

  /** The `address` field: the `Field` length constraints on the raw string
      first, then the after-validator `CheckAddress`. */
  function ValidateAddressField(raw: string): (r: Result<string, ErrorKind>)
    ensures r.Success? <==> AddressAccepted(raw)
    ensures r.Success? ==> IsStripOf(r.value, raw) && r.value != []
    ensures |raw| < AddressMinLength ==> r == Failure(StringTooShort(AddressMinLength))
    ensures |raw| > AddressMaxLength ==> r == Failure(StringTooLong(AddressMaxLength))
    ensures AddressMinLength <= |raw| <= AddressMaxLength && AllSpace(raw) ==>
              r == Failure(ValueError(EmptyAddressMessage))
  {
    if |raw| < AddressMinLength then Failure(StringTooShort(AddressMinLength))
    else if |raw| > AddressMaxLength then Failure(StringTooLong(AddressMaxLength))
    else CheckAddress(raw)
  }

  /** What every validated `PhoneAddressData` satisfies. */
  predicate WellFormed(d: PhoneAddressData) {
    ValidPhone(d.phone) && d.address != [] && NoOuterSpace(d.address)
  }

  /** Pydantic's construction of `PhoneAddressData`: each field is validated,
      and every failing field contributes its error, phone before address. */
  function ParsePhoneAddressData(phone: string, address: string): (r: Result<PhoneAddressData, seq<FieldError>>)
    ensures r.Success? <==> ValidPhone(phone) && AddressAccepted(address)
    ensures r.Success? ==> r.value.phone == phone && IsStripOf(r.value.address, address) && WellFormed(r.value)
    ensures r.Failure? ==> r.error != []
    ensures r.Failure? ==> (ValidPhone(phone) <==> forall e <- r.error :: e.field != "phone")
    ensures r.Failure? ==> (AddressAccepted(address) <==> forall e <- r.error :: e.field != "address")
  {
    var p := ValidatePhone(phone);
    var a := ValidateAddressField(address);
    if p.Success? && a.Success? then
      var r := a.value;
      assert NoOuterSpace(r) by {
        var i, j :| StripAt(address, i, j) && r == address[i..j];
        assert r[0] == address[i] && r[|r| - 1] == address[j - 1];
      }
      Success(PhoneAddressData(p.value, a.value))
    else
      Failure((if p.Failure? then [FieldError("phone", p.error)] else [])
              + (if a.Failure? then [FieldError("address", a.error)] else []))
  }

  /** Pydantic's construction of `PhoneAddressUpdateData`. */
  function ParsePhoneAddressUpdateData(address: string): (r: Result<PhoneAddressUpdateData, seq<FieldError>>)
    ensures r.Success? <==> AddressAccepted(address)
    ensures r.Success? ==> IsStripOf(r.value.address, address) && r.value.address != []
    ensures r.Failure? ==> |r.error| == 1 && r.error[0].field == "address"
  {
    match ValidateAddressField(address)
    case Success(v) => Success(PhoneAddressUpdateData(v))
    case Failure(k) => Failure([FieldError("address", k)])
  }

  // ---------------------------------------------------------------------------
  // Facts about the validators

  /** A full and a partial payload carrying the same raw address are accepted
      alike and store the same stripped address. */
  lemma FullAndPartialAddressAgree(phone: string, address: string)
    requires ValidPhone(phone)
    ensures ParsePhoneAddressData(phone, address).Success? <==> ParsePhoneAddressUpdateData(address).Success?
    ensures ParsePhoneAddressData(phone, address).Success? ==>
              ParsePhoneAddressData(phone, address).value.address == ParsePhoneAddressUpdateData(address).value.address
  {
  }

  /** The length bound applies to the raw string only: four spaces before
      one letter pass, and the address kept is a single character. */
  lemma StoredAddressMayBeShort()
    ensures ValidateAddressField("    a") == Success("a")
    ensures |ValidateAddressField("    a").value| < AddressMinLength
  {
    var raw := "    a";
    assert !IsSpace(raw[4]);
    assert IsStripOf("a", raw) by {
      assert raw[4..5] == "a";
      assert StripAt(raw, 4, 5);
    }
    StripUnique(raw, "a");
  }

  /** A phone without the leading 8 is refused. */
  lemma RejectsPhoneWithoutLeadingEight()
    ensures ValidatePhone("71234567890").Failure?
  {
  }

  /** A phone with twelve digits is refused. */
  lemma RejectsTwelveDigitPhone()
    ensures ValidatePhone("812345678901").Failure?
  {
  }

  /** A four-character address is refused by the length constraint. */
  lemma RejectsFourCharacterAddress()
    ensures ValidateAddressField("abcd") == Failure(StringTooShort(AddressMinLength))
  {
  }
}
