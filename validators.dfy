/**
 * The five FluentValidation rule sets (Calorizer.Business/DTOs/Validator). Each is a
 * function from a DTO to the list of failures FluentValidation reports: rules run in
 * declaration order, every rule of a chain is evaluated (no cascade stop), and a `When`
 * condition guards every rule of its chain.
 */
module Validators {
  import opened Wrappers
  import opened Dates
  import opened Entities

  /** The DTO properties the rules are attached to (`RuleFor(x => x.P)`). */
  datatype Property =
    | FullNameEn | FullNameAr | MobileNumber | GenderId | Address | DateOfBirth | Height | Weight
    | MedicalData | Drug | MedicalNote
  {
    /** The PropertyName FluentValidation reports: the member's name. */
    function Name(): (n: string)
      ensures |n| > 0
    {
      match this
      case FullNameEn => "FullNameEn"
      case FullNameAr => "FullNameAr"
      case MobileNumber => "MobileNumber"
      case GenderId => "GenderId"
      case Address => "Address"
      case DateOfBirth => "DateOfBirth"
      case Height => "Height"
      case Weight => "Weight"
      case MedicalData => "MedicalData"
      case Drug => "Drug"
      case MedicalNote => "MedicalNote"
    }
  }

  /** The `WithMessage` texts of the rules, one constructor per distinct text. */
  datatype Message =
    | EnglishNameRequired | EnglishNameTooLong | ArabicNameRequired | ArabicNameTooLong
    | MobileNumberTooLong | MobileNumberFormat | GenderRequired | AddressTooLong
    | DateOfBirthRequired | DateOfBirthNotPast | HeightRange | WeightRange
    | MedicalDataRequired | MedicalDataTooLong | DrugRequired | DrugTooLong
    | MedicalNoteRequired | MedicalNoteTooLong
  {
    function Text(): string
    {
      match this
      case EnglishNameRequired => "English name is required"
      case EnglishNameTooLong => "English name must not exceed 500 characters"
      case ArabicNameRequired => "Arabic name is required"
      case ArabicNameTooLong => "Arabic name must not exceed 500 characters"
      case MobileNumberTooLong => "Mobile number must not exceed 20 characters"
      case MobileNumberFormat => "Invalid mobile number format"
      case GenderRequired => "Gender is required"
      case AddressTooLong => "Address must not exceed 2000 characters"
      case DateOfBirthRequired => "Date of birth is required"
      case DateOfBirthNotPast => "Date of birth must be in the past"
      case HeightRange => "Height must be between 0.01 and 999.99"
      case WeightRange => "Weight must be between 0.01 and 999.99"
      case MedicalDataRequired => "Medical data is required"
      case MedicalDataTooLong => "Medical data must not exceed 4000 characters"
      case DrugRequired => "Drug/Supplement name is required"
      case DrugTooLong => "Drug/Supplement name must not exceed 500 characters"
      case MedicalNoteRequired => "Medical note is required"
      case MedicalNoteTooLong => "Medical note must not exceed 4000 characters"
    }

    /** The property whose rule chain carries this message. */
    function Owner(): Property
    {
      match this
      case EnglishNameRequired | EnglishNameTooLong => FullNameEn
      case ArabicNameRequired | ArabicNameTooLong => FullNameAr
      case MobileNumberTooLong | MobileNumberFormat => MobileNumber
      case GenderRequired => GenderId
      case AddressTooLong => Address
      case DateOfBirthRequired | DateOfBirthNotPast => DateOfBirth
      case HeightRange => Height
      case WeightRange => Weight
      case MedicalDataRequired | MedicalDataTooLong => MedicalData
      case DrugRequired | DrugTooLong => Drug
      case MedicalNoteRequired | MedicalNoteTooLong => MedicalNote
    }

    /**
     * The position of the message's rule when the validators' rules are listed one validator
     * after another, each in declaration order; ClientDtoValidator's twelve rules take 0 to 11.
     */
    function Rank(): nat
    {
      match this
      case EnglishNameRequired => 0
      case EnglishNameTooLong => 1
      case ArabicNameRequired => 2
      case ArabicNameTooLong => 3
      case MobileNumberTooLong => 4
      case MobileNumberFormat => 5
      case GenderRequired => 6
      case AddressTooLong => 7
      case DateOfBirthRequired => 8
      case DateOfBirthNotPast => 9
      case HeightRange => 10
      case WeightRange => 11
      case MedicalDataRequired => 12
      case MedicalDataTooLong => 13
      case DrugRequired => 14
      case DrugTooLong => 15
      case MedicalNoteRequired => 16
      case MedicalNoteTooLong => 17
    }
  }

  /** FluentValidation's ValidationFailure: the property a rule is attached to and its message. */
  datatype Failure = Failure(property: Property, message: Message) {
    function PropertyName(): string { property.Name() }
    function ErrorMessage(): string { message.Text() }
  }

  // ---------------------------------------------------------------- rule building blocks

  /** `char.IsWhiteSpace`, which is also the set the regular-expression class `\s` matches. */
  predicate IsWhiteSpace(c: char)
  {
    || ('\t' <= c <= '\r')
    || c == ' ' || c == '\U{85}' || c == '\U{A0}' || c == '\U{1680}'
    || ('\U{2000}' <= c <= '\U{200A}')
    || c == '\U{2028}' || c == '\U{2029}' || c == '\U{202F}' || c == '\U{205F}' || c == '\U{3000}'
  }

  /** What `NotEmpty()` rejects on a string: null, empty or whitespace only. */
  predicate IsBlank(s: Option<string>)
  {
    s.None? || forall i :: 0 <= i < |s.value| ==> IsWhiteSpace(s.value[i])
  }

  /** What `MaximumLength(max)` rejects: a non-null string longer than `max` (null passes). */
  predicate IsLongerThan(s: Option<string>, max: int)
  {
    s.Some? && |s.value| > max
  }

  /** The character class `[0-9\s\-()]` of the mobile-number pattern. */
  predicate IsMobileChar(c: char)
  {
    ('0' <= c <= '9') || IsWhiteSpace(c) || c == '-' || c == '(' || c == ')'
  }

  /**
   * `Regex.IsMatch(s, @"^\+?[0-9\s\-()]*$")`. `$` may also match before a final newline, but
   * a newline is in the class, so that changes nothing: the string is an optional `+`
   * followed by class characters only.
   */
  predicate IsMobileFormat(s: string)
  {
    var body := if |s| > 0 && s[0] == '+' then s[1..] else s;
    forall i :: 0 <= i < |body| ==> IsMobileChar(body[i])
  }

  /** `InclusiveBetween(0.01m, 999.99m)`, the range of both measurements. */
  predicate InMeasurementRange(x: real)
  {
    0.01 <= x <= 999.99
  }

  /** A rule: one failure when `broken` holds, none otherwise. */
  function Check(broken: bool, property: Property, message: Message): (r: seq<Failure>)
    ensures broken <==> r == [Failure(property, message)]
    ensures !broken <==> r == []
  {
    if broken then [Failure(property, message)] else []
  }

  /** `RuleFor(p).NotEmpty().WithMessage(required).MaximumLength(max).WithMessage(tooLong)`. */
  function RequiredText(property: Property, s: Option<string>, max: int, required: Message, tooLong: Message): (r: seq<Failure>)
    requires required != tooLong
    ensures Failure(property, required) in r <==> IsBlank(s)
    ensures Failure(property, tooLong) in r <==> IsLongerThan(s, max)
    ensures r == [] <==> !IsBlank(s) && !IsLongerThan(s, max)
    ensures forall f | f in r :: f.property == property && (f.message == required || f.message == tooLong)
  {
    Check(IsBlank(s), property, required) + Check(IsLongerThan(s, max), property, tooLong)
  }

  /** An `InclusiveBetween(0.01m, 999.99m)` rule, skipped when the value is null. */
  function MeasurementFailures(property: Property, x: Option<real>, message: Message): (r: seq<Failure>)
    ensures Failure(property, message) in r <==> x.Some? && !InMeasurementRange(x.value)
    ensures r == [] <==> x.None? || InMeasurementRange(x.value)
    ensures forall f | f in r :: f == Failure(property, message)
  {
    Check(x.Some? && !InMeasurementRange(x.value), property, message)
  }

  /** Both ends of the measurement range are accepted; the values just outside are not. */
  lemma MeasurementRangeIsInclusive()
    ensures InMeasurementRange(0.01) && InMeasurementRange(999.99)
    ensures !InMeasurementRange(0.009) && !InMeasurementRange(999.991)
  {
  }

  /**
   * A stretch of failures as a validator emits it: each message is reported against its own
   * property, the rule positions lie in `lo..hi`, and they strictly increase along the list.
   */
  predicate OrderedRun(r: seq<Failure>, lo: nat, hi: nat)
  {
    && (forall f | f in r :: f.message.Owner() == f.property && lo <= f.message.Rank() <= hi)
    && (forall i, j | 0 <= i < j < |r| :: r[i].message.Rank() < r[j].message.Rank())
  }

  lemma CheckIsOrderedRun(broken: bool, property: Property, message: Message)
    requires message.Owner() == property
    ensures OrderedRun(Check(broken, property, message), message.Rank(), message.Rank())
  {
  }

  /** Two runs whose positions do not overlap, the first below the second, join into one run. */
  lemma {:induction false} JoinRuns(a: seq<Failure>, b: seq<Failure>, lo: nat, mid: nat, hi: nat)
    requires lo <= mid < hi
    requires OrderedRun(a, lo, mid) && OrderedRun(b, mid + 1, hi)
    ensures OrderedRun(a + b, lo, hi)
  {
    forall f | f in a + b
      ensures f.message.Owner() == f.property && lo <= f.message.Rank() <= hi
    {
      if f !in a { assert f in b; }
    }
    forall i, j | 0 <= i < j < |a + b|
      ensures (a + b)[i].message.Rank() < (a + b)[j].message.Rank()
    {
      if j < |a| {
        assert (a + b)[i] == a[i] && (a + b)[j] == a[j];
      } else if i < |a| {
        assert (a + b)[i] == a[i] && a[i] in a;
        assert (a + b)[j] == b[j - |a|] && b[j - |a|] in b;
      } else {
        assert (a + b)[i] == b[i - |a|] && (a + b)[j] == b[j - |a|];
      }
    }
  }

  // ---------------------------------------------------------------- ClientDtoValidator

  /** The eight ClientDto properties ClientDtoValidator has rules for. */
  predicate IsClientProperty(p: Property)
  {
    !(p.MedicalData? || p.Drug? || p.MedicalNote?)
  }

  /** The FullNameEn and FullNameAr rules hold: neither name is blank or longer than 500. */
  predicate NameRulesHold(dto: ClientDto)
  {
    && !IsBlank(Some(dto.fullNameEn)) && |dto.fullNameEn| <= 500
    && !IsBlank(Some(dto.fullNameAr)) && |dto.fullNameAr| <= 500
  }

  /** The MobileNumber, GenderId and Address rules hold. */
  predicate ContactRulesHold(dto: ClientDto)
  {
    && (IsNullOrEmpty(dto.mobileNumber) || (|dto.mobileNumber.value| <= 20 && IsMobileFormat(dto.mobileNumber.value)))
    && dto.genderId > 0
    && (IsNullOrEmpty(dto.address) || |dto.address.value| <= 2000)
  }

  /** The DateOfBirth, Height and Weight rules hold. */
  predicate BodyRulesHold(dto: ClientDto, today: DateTime)
  {
    && dto.dateOfBirth != MinValue && Before(dto.dateOfBirth, today)
    && (dto.height.None? || InMeasurementRange(dto.height.value))
    && (dto.weight.None? || InMeasurementRange(dto.weight.value))
  }

  /**
   * Every rule of ClientDtoValidator holds. This is the validator's meaning stated field by
   * field, independently of the order and shape of the failure list.
   */
  predicate ClientRulesHold(dto: ClientDto, today: DateTime)
  {
    NameRulesHold(dto) && ContactRulesHold(dto) && BodyRulesHold(dto, today)
  }

  /** The MobileNumber chain (MaximumLength(20), Matches), skipped when the number is null or empty. */
  function MobileNumberFailures(m: Option<string>): (r: seq<Failure>)
    ensures Failure(MobileNumber, MobileNumberTooLong) in r <==> !IsNullOrEmpty(m) && |m.value| > 20
    ensures Failure(MobileNumber, MobileNumberFormat) in r <==> !IsNullOrEmpty(m) && !IsMobileFormat(m.value)
    ensures r == [] <==> IsNullOrEmpty(m) || (|m.value| <= 20 && IsMobileFormat(m.value))
    ensures forall f | f in r :: f.property == MobileNumber && (f.message == MobileNumberTooLong || f.message == MobileNumberFormat)
  {
    if IsNullOrEmpty(m) then []
    else Check(|m.value| > 20, MobileNumber, MobileNumberTooLong) + Check(!IsMobileFormat(m.value), MobileNumber, MobileNumberFormat)
  }

  /** The Address rule (MaximumLength(2000)), skipped when the address is null or empty. */
  function AddressFailures(a: Option<string>): (r: seq<Failure>)
    ensures Failure(Address, AddressTooLong) in r <==> !IsNullOrEmpty(a) && |a.value| > 2000
    ensures r == [] <==> IsNullOrEmpty(a) || |a.value| <= 2000
    ensures forall f | f in r :: f == Failure(Address, AddressTooLong)
  {
    Check(!IsNullOrEmpty(a) && |a.value| > 2000, Address, AddressTooLong)
  }

  /** The DateOfBirth chain (NotEmpty, LessThan(today)). */
  function DateOfBirthFailures(dob: DateTime, today: DateTime): (r: seq<Failure>)
    ensures Failure(DateOfBirth, DateOfBirthRequired) in r <==> dob == MinValue
    ensures Failure(DateOfBirth, DateOfBirthNotPast) in r <==> !Before(dob, today)
    ensures r == [] <==> dob != MinValue && Before(dob, today)
    ensures forall f | f in r :: f.property == DateOfBirth && (f.message == DateOfBirthRequired || f.message == DateOfBirthNotPast)
  {
    Check(dob == MinValue, DateOfBirth, DateOfBirthRequired) + Check(!Before(dob, today), DateOfBirth, DateOfBirthNotPast)
  }

  /** The two name chains of ClientDtoValidator. */
  function NameFailures(dto: ClientDto): (r: seq<Failure>)
    ensures Failure(FullNameEn, EnglishNameRequired) in r <==> IsBlank(Some(dto.fullNameEn))
    ensures Failure(FullNameEn, EnglishNameTooLong) in r <==> |dto.fullNameEn| > 500
    ensures Failure(FullNameAr, ArabicNameRequired) in r <==> IsBlank(Some(dto.fullNameAr))
    ensures Failure(FullNameAr, ArabicNameTooLong) in r <==> |dto.fullNameAr| > 500
    ensures r == [] <==> NameRulesHold(dto)
    ensures forall f | f in r :: f.property == FullNameEn || f.property == FullNameAr
  {
    RequiredText(FullNameEn, Some(dto.fullNameEn), 500, EnglishNameRequired, EnglishNameTooLong)
    + RequiredText(FullNameAr, Some(dto.fullNameAr), 500, ArabicNameRequired, ArabicNameTooLong)
  }

  /** The MobileNumber, GenderId and Address chains of ClientDtoValidator. */
  function ContactFailures(dto: ClientDto): (r: seq<Failure>)
    ensures Failure(MobileNumber, MobileNumberTooLong) in r
        <==> (!IsNullOrEmpty(dto.mobileNumber) && |dto.mobileNumber.value| > 20)
    ensures Failure(MobileNumber, MobileNumberFormat) in r
        <==> (!IsNullOrEmpty(dto.mobileNumber) && !IsMobileFormat(dto.mobileNumber.value))
    ensures Failure(GenderId, GenderRequired) in r <==> dto.genderId <= 0
    ensures Failure(Address, AddressTooLong) in r <==> !IsNullOrEmpty(dto.address) && |dto.address.value| > 2000
    ensures r == [] <==> ContactRulesHold(dto)
    ensures forall f | f in r :: f.property == MobileNumber || f.property == GenderId || f.property == Address
  {
    MobileNumberFailures(dto.mobileNumber)
    + Check(dto.genderId <= 0, GenderId, GenderRequired)
    + AddressFailures(dto.address)
  }

  /** The DateOfBirth, Height and Weight chains of ClientDtoValidator. */
  function BodyFailures(dto: ClientDto, today: DateTime): (r: seq<Failure>)
    ensures Failure(DateOfBirth, DateOfBirthRequired) in r <==> dto.dateOfBirth == MinValue
    ensures Failure(DateOfBirth, DateOfBirthNotPast) in r <==> !Before(dto.dateOfBirth, today)
    ensures Failure(Height, HeightRange) in r <==> dto.height.Some? && !InMeasurementRange(dto.height.value)
    ensures Failure(Weight, WeightRange) in r <==> dto.weight.Some? && !InMeasurementRange(dto.weight.value)
    ensures r == [] <==> BodyRulesHold(dto, today)
    ensures forall f | f in r :: f.property == DateOfBirth || f.property == Height || f.property == Weight
  {
    DateOfBirthFailures(dto.dateOfBirth, today)
    + MeasurementFailures(Height, dto.height, HeightRange)
    + MeasurementFailures(Weight, dto.weight, WeightRange)
  }

  /**
   * ClientDtoValidator: the eight chains in declaration order. Its `LessThan(DateTime.Today)`
   * fixed `today` when the validator was constructed.
   */
  function ValidateClient(dto: ClientDto, today: DateTime): (r: seq<Failure>)
    ensures r == [] <==> ClientRulesHold(dto, today)
  {
    NameFailures(dto) + ContactFailures(dto) + BodyFailures(dto, today)
  }

  /**
   * ClientDtoValidator reports each failure against the property whose rule it comes from,
   * only against the eight ClientDto properties, and in rule declaration order; so no rule is
   * reported twice.
   */
  lemma ClientFailuresFollowRuleOrder(dto: ClientDto, today: DateTime)
    ensures var r := ValidateClient(dto, today);
      && (forall f | f in r :: f.message.Owner() == f.property && IsClientProperty(f.property))
      && (forall i, j | 0 <= i < j < |r| :: r[i].message.Rank() < r[j].message.Rank())
      && (forall i, j | 0 <= i < j < |r| :: r[i] != r[j])
  {
    ClientFailuresRun(dto, today);
    var r := ValidateClient(dto, today);
    forall f | f in r
      ensures IsClientProperty(f.property)
    {
      ClientRankOwner(f.message);
    }
    forall i, j | 0 <= i < j < |r|
      ensures r[i] != r[j]
    {
      assert r[i].message.Rank() < r[j].message.Rank();
    }
  }

  lemma ClientFailuresRun(dto: ClientDto, today: DateTime)
    ensures OrderedRun(ValidateClient(dto, today), 0, 11)
  {
    NameFailuresRun(dto);
    ContactFailuresRun(dto);
    BodyFailuresRun(dto, today);
    JoinRuns(NameFailures(dto), ContactFailures(dto), 0, 3, 7);
    JoinRuns(NameFailures(dto) + ContactFailures(dto), BodyFailures(dto, today), 0, 7, 11);
  }

  lemma ClientRankOwner(m: Message)
    requires m.Rank() <= 11
    ensures IsClientProperty(m.Owner())
  {
  }

  lemma RequiredTextRun(property: Property, s: Option<string>, max: int, required: Message, tooLong: Message)
    requires required.Owner() == property && tooLong.Owner() == property
    requires required.Rank() + 1 == tooLong.Rank()
    ensures OrderedRun(RequiredText(property, s, max, required, tooLong), required.Rank(), tooLong.Rank())
  {
    CheckIsOrderedRun(IsBlank(s), property, required);
    CheckIsOrderedRun(IsLongerThan(s, max), property, tooLong);
    JoinRuns(Check(IsBlank(s), property, required), Check(IsLongerThan(s, max), property, tooLong),
      required.Rank(), required.Rank(), tooLong.Rank());
  }

  lemma NameFailuresRun(dto: ClientDto)
    ensures OrderedRun(NameFailures(dto), 0, 3)
  {
    RequiredTextRun(FullNameEn, Some(dto.fullNameEn), 500, EnglishNameRequired, EnglishNameTooLong);
    RequiredTextRun(FullNameAr, Some(dto.fullNameAr), 500, ArabicNameRequired, ArabicNameTooLong);
    JoinRuns(RequiredText(FullNameEn, Some(dto.fullNameEn), 500, EnglishNameRequired, EnglishNameTooLong),
      RequiredText(FullNameAr, Some(dto.fullNameAr), 500, ArabicNameRequired, ArabicNameTooLong), 0, 1, 3);
  }

  lemma MobileNumberRun(m: Option<string>)
    ensures OrderedRun(MobileNumberFailures(m), 4, 5)
  {
    if !IsNullOrEmpty(m) {
      CheckIsOrderedRun(|m.value| > 20, MobileNumber, MobileNumberTooLong);
      CheckIsOrderedRun(!IsMobileFormat(m.value), MobileNumber, MobileNumberFormat);
      JoinRuns(Check(|m.value| > 20, MobileNumber, MobileNumberTooLong),
        Check(!IsMobileFormat(m.value), MobileNumber, MobileNumberFormat), 4, 4, 5);
    }
  }

  lemma ContactFailuresRun(dto: ClientDto)
    ensures OrderedRun(ContactFailures(dto), 4, 7)
  {
    var mobile := MobileNumberFailures(dto.mobileNumber);
    var gender := Check(dto.genderId <= 0, GenderId, GenderRequired);
    MobileNumberRun(dto.mobileNumber);
    CheckIsOrderedRun(dto.genderId <= 0, GenderId, GenderRequired);
    JoinRuns(mobile, gender, 4, 5, 6);
    CheckIsOrderedRun(!IsNullOrEmpty(dto.address) && |dto.address.value| > 2000, Address, AddressTooLong);
    JoinRuns(mobile + gender, AddressFailures(dto.address), 4, 6, 7);
  }

  lemma DateOfBirthRun(dob: DateTime, today: DateTime)
    ensures OrderedRun(DateOfBirthFailures(dob, today), 8, 9)
  {
    CheckIsOrderedRun(dob == MinValue, DateOfBirth, DateOfBirthRequired);
    CheckIsOrderedRun(!Before(dob, today), DateOfBirth, DateOfBirthNotPast);
    JoinRuns(Check(dob == MinValue, DateOfBirth, DateOfBirthRequired),
      Check(!Before(dob, today), DateOfBirth, DateOfBirthNotPast), 8, 8, 9);
  }

  lemma BodyFailuresRun(dto: ClientDto, today: DateTime)
    ensures OrderedRun(BodyFailures(dto, today), 8, 11)
  {
    var born := DateOfBirthFailures(dto.dateOfBirth, today);
    var height := MeasurementFailures(Height, dto.height, HeightRange);
    var weight := MeasurementFailures(Weight, dto.weight, WeightRange);
    DateOfBirthRun(dto.dateOfBirth, today);
    CheckIsOrderedRun(dto.height.Some? && !InMeasurementRange(dto.height.value), Height, HeightRange);
    assert OrderedRun(height, 10, 10);
    JoinRuns(born, height, 8, 9, 10);
    CheckIsOrderedRun(dto.weight.Some? && !InMeasurementRange(dto.weight.value), Weight, WeightRange);
    assert OrderedRun(weight, 11, 11);
    JoinRuns(born + height, weight, 8, 10, 11);
  }

  /** Each name rule of ClientDtoValidator is reported exactly when it is broken. */
  lemma ClientNameRulesReported(dto: ClientDto, today: DateTime)
    ensures var r := ValidateClient(dto, today);
      && (Failure(FullNameEn, EnglishNameRequired) in r <==> IsBlank(Some(dto.fullNameEn)))
      && (Failure(FullNameEn, EnglishNameTooLong) in r <==> |dto.fullNameEn| > 500)
      && (Failure(FullNameAr, ArabicNameRequired) in r <==> IsBlank(Some(dto.fullNameAr)))
      && (Failure(FullNameAr, ArabicNameTooLong) in r <==> |dto.fullNameAr| > 500)
  {
    var names, contact, body := NameFailures(dto), ContactFailures(dto), BodyFailures(dto, today);
    forall f: Failure | f.property == FullNameEn || f.property == FullNameAr
      ensures f in ValidateClient(dto, today) <==> f in names
    {
      assert f !in contact && f !in body;
    }
  }

  /** Each MobileNumber, GenderId and Address rule of ClientDtoValidator is reported exactly when it is broken. */
  lemma ClientContactRulesReported(dto: ClientDto, today: DateTime)
    ensures var r := ValidateClient(dto, today);
      && (Failure(MobileNumber, MobileNumberTooLong) in r
          <==> !IsNullOrEmpty(dto.mobileNumber) && |dto.mobileNumber.value| > 20)
      && (Failure(MobileNumber, MobileNumberFormat) in r
          <==> !IsNullOrEmpty(dto.mobileNumber) && !IsMobileFormat(dto.mobileNumber.value))
      && (Failure(GenderId, GenderRequired) in r <==> dto.genderId <= 0)
      && (Failure(Address, AddressTooLong) in r <==> !IsNullOrEmpty(dto.address) && |dto.address.value| > 2000)
  {
    var names, contact, body := NameFailures(dto), ContactFailures(dto), BodyFailures(dto, today);
    forall f: Failure | f.property == MobileNumber || f.property == GenderId || f.property == Address
      ensures f in ValidateClient(dto, today) <==> f in contact
    {
      assert f !in names && f !in body;
    }
  }

  /** Each DateOfBirth, Height and Weight rule of ClientDtoValidator is reported exactly when it is broken. */
  lemma ClientBodyRulesReported(dto: ClientDto, today: DateTime)
    ensures var r := ValidateClient(dto, today);
      && (Failure(DateOfBirth, DateOfBirthRequired) in r <==> dto.dateOfBirth == MinValue)
      && (Failure(DateOfBirth, DateOfBirthNotPast) in r <==> !Before(dto.dateOfBirth, today))
      && (Failure(Height, HeightRange) in r <==> dto.height.Some? && !InMeasurementRange(dto.height.value))
      && (Failure(Weight, WeightRange) in r <==> dto.weight.Some? && !InMeasurementRange(dto.weight.value))
  {
    var names, contact, body := NameFailures(dto), ContactFailures(dto), BodyFailures(dto, today);
    forall f: Failure | f.property == DateOfBirth || f.property == Height || f.property == Weight
      ensures f in ValidateClient(dto, today) <==> f in body
    {
      assert f !in names && f !in contact;
    }
  }

  /** A client born today is rejected, however well-formed the rest of the DTO is. */
  lemma BornTodayIsRejected(dto: ClientDto, today: DateTime)
    requires dto.dateOfBirth == today
    ensures Failure(DateOfBirth, DateOfBirthNotPast) in ValidateClient(dto, today)
  {
    ClientBodyRulesReported(dto, today);
  }

  // ---------------------------------------------------------------- WeightHistoryDtoValidator

  function ValidateWeightHistory(dto: WeightHistoryDto): (r: seq<Failure>)
    ensures Failure(Weight, WeightRange) in r <==> dto.weight.Some? && !InMeasurementRange(dto.weight.value)
    ensures Failure(Height, HeightRange) in r <==> dto.height.Some? && !InMeasurementRange(dto.height.value)
    ensures r == [] <==> ((dto.weight.None? || InMeasurementRange(dto.weight.value))
                          && (dto.height.None? || InMeasurementRange(dto.height.value)))
    ensures dto.weight.None? && dto.height.None? ==> r == []
    ensures forall f | f in r :: f == Failure(Weight, WeightRange) || f == Failure(Height, HeightRange)
    ensures |r| <= 2
  {
    MeasurementFailures(Weight, dto.weight, WeightRange) + MeasurementFailures(Height, dto.height, HeightRange)
  }

  /** The weight-history rules read only Weight and Height: Id, ClientId, CreatedOn and CreatedBy are never checked. */
  lemma WeightHistoryChecksOnlyMeasurements(a: WeightHistoryDto, b: WeightHistoryDto)
    requires a.weight == b.weight && a.height == b.height
    ensures ValidateWeightHistory(a) == ValidateWeightHistory(b)
  {
  }

  // ---------------------------------------------------------------- the three text validators

  /** BiochemicalMedicalTestDtoValidator. */
  function ValidateBiochemicalMedicalTest(dto: BiochemicalMedicalTestDto): (r: seq<Failure>)
    ensures Failure(MedicalData, MedicalDataRequired) in r <==> IsBlank(dto.medicalData)
    ensures Failure(MedicalData, MedicalDataTooLong) in r <==> IsLongerThan(dto.medicalData, 4000)
    ensures r == [] <==> !IsBlank(dto.medicalData) && |dto.medicalData.value| <= 4000
    ensures forall f | f in r :: f == Failure(MedicalData, MedicalDataRequired) || f == Failure(MedicalData, MedicalDataTooLong)
    ensures |r| <= 2
  {
    RequiredText(MedicalData, dto.medicalData, 4000, MedicalDataRequired, MedicalDataTooLong)
  }

  /** DrugsSupplementDtoValidator. */
  function ValidateDrugsSupplement(dto: DrugsSupplementDto): (r: seq<Failure>)
    ensures Failure(Drug, DrugRequired) in r <==> IsBlank(dto.drug)
    ensures Failure(Drug, DrugTooLong) in r <==> IsLongerThan(dto.drug, 500)
    ensures r == [] <==> !IsBlank(dto.drug) && |dto.drug.value| <= 500
    ensures forall f | f in r :: f == Failure(Drug, DrugRequired) || f == Failure(Drug, DrugTooLong)
    ensures |r| <= 2
  {
    RequiredText(Drug, dto.drug, 500, DrugRequired, DrugTooLong)
  }

  /** MedicalHistoryDtoValidator. */
  function ValidateMedicalHistory(dto: MedicalHistoryDto): (r: seq<Failure>)
    ensures Failure(MedicalNote, MedicalNoteRequired) in r <==> IsBlank(dto.medicalNote)
    ensures Failure(MedicalNote, MedicalNoteTooLong) in r <==> IsLongerThan(dto.medicalNote, 4000)
    ensures r == [] <==> !IsBlank(dto.medicalNote) && |dto.medicalNote.value| <= 4000
    ensures forall f | f in r :: f == Failure(MedicalNote, MedicalNoteRequired) || f == Failure(MedicalNote, MedicalNoteTooLong)
    ensures |r| <= 2
  {
    RequiredText(MedicalNote, dto.medicalNote, 4000, MedicalNoteRequired, MedicalNoteTooLong)
  }

  /** A whitespace-only note over the limit breaks both rules of its chain: FluentValidation does not stop at the first. */
  lemma BlankAndTooLongBothReported(n: nat)
    requires n > 4000
    ensures var dto := MedicalHistoryDto(0, 0, Some(seq(n, _ => ' ')), MinValue, 0);
            ValidateMedicalHistory(dto) == [Failure(MedicalNote, MedicalNoteRequired), Failure(MedicalNote, MedicalNoteTooLong)]
  {
  }
}
