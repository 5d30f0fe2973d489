/**
 * BaseService (Calorizer.Business/Services/BaseService.cs): picks the validator registered
 * for a DTO's runtime type and turns its verdict into an envelope.
 */
module BaseService {
  import opened Wrappers
  import opened Dates
  import opened Entities
  import opened Validators
  import opened Responses
  import opened Validation

  /** The runtime types of the objects the services validate. LookupDto has no validator class. */
  datatype DtoKind = ClientKind | WeightHistoryKind | BiochemicalMedicalTestKind | DrugsSupplementKind | MedicalHistoryKind | LookupKind

  /** An object handed to `Validate`, tagged with its runtime type. */
  datatype Dto =
    | ClientValue(client: ClientDto)
    | WeightHistoryValue(weightHistory: WeightHistoryDto)
    | BiochemicalMedicalTestValue(test: BiochemicalMedicalTestDto)
    | DrugsSupplementValue(drug: DrugsSupplementDto)
    | MedicalHistoryValue(medicalHistory: MedicalHistoryDto)
    | LookupValue(lookup: LookupDto)
  {
    function Kind(): DtoKind
    {
      match this
      case ClientValue(_) => ClientKind
      case WeightHistoryValue(_) => WeightHistoryKind
      case BiochemicalMedicalTestValue(_) => BiochemicalMedicalTestKind
      case DrugsSupplementValue(_) => DrugsSupplementKind
      case MedicalHistoryValue(_) => MedicalHistoryKind
      case LookupValue(_) => LookupKind
    }
  }

  /**
   * IValidatorFactory: the runtime types it holds a validator for, and the clock reading at
   * which its ClientDtoValidator was constructed.
   */
  datatype ValidatorFactory = ValidatorFactory(registered: set<DtoKind>, constructedAt: DateTime)
  {
    /** The `DateTime.Today` that ClientDtoValidator captured when it was constructed. */
    function ValidationDay(): DateTime
    {
      Today(constructedAt)
    }
  }

  /** The failures of the validator class written for this DTO's type, or None when the repository has none. */
  function RunValidator(dto: Dto, today: DateTime): (r: Option<seq<Failure>>)
    ensures r.None? <==> dto.Kind() == LookupKind
  {
    match dto
    case ClientValue(c) => Some(ValidateClient(c, today))
    case WeightHistoryValue(w) => Some(ValidateWeightHistory(w))
    case BiochemicalMedicalTestValue(b) => Some(ValidateBiochemicalMedicalTest(b))
    case DrugsSupplementValue(d) => Some(ValidateDrugsSupplement(d))
    case MedicalHistoryValue(m) => Some(ValidateMedicalHistory(m))
    case LookupValue(_) => None
  }

  /** `GetValidator(dto.GetType())` followed by `Validate`: None when the factory has no validator for the type. */
  function GetValidatorFailures(factory: ValidatorFactory, dto: Dto): (r: Option<seq<Failure>>)
    ensures r.Some? <==> dto.Kind() in factory.registered && dto.Kind() != LookupKind
  {
    if dto.Kind() in factory.registered then RunValidator(dto, factory.ValidationDay()) else None
  }

  /** The failures a factory reports for a DTO: none when there is no factory or no validator. */
  function ReportedFailures(factory: Option<ValidatorFactory>, dto: Dto): seq<Failure>
  {
    if factory.None? then [] else GetValidatorFailures(factory.value, dto).GetOr([])
  }

  /**
   * `ValidateAsync(dto)`: success (200) unless a registered validator reports failures, in
   * which case the 422 envelope carrying those failures in order.
   */
  function ValidateAsync(factory: Option<ValidatorFactory>, dto: Dto): (r: Response<bool>)
    ensures Consistent(r) && r.data.None?
    ensures factory.None? ==> r == OfOutcome(true)
    ensures factory.Some? && GetValidatorFailures(factory.value, dto).None? ==> r == OfOutcome(true)
    ensures r.succeeded <==> ReportedFailures(factory, dto) == []
    ensures r.succeeded ==> r.statusCode == OK && r.brokenRules == [] && r.message == ""
    ensures !r.succeeded ==> r == FailureEnvelope(ValidationResult(ReportedFailures(factory, dto)))
  {
    if factory.None? then OfOutcome(true)
    else
      var validator := GetValidatorFailures(factory.value, dto);
      if validator.Some? then
        var result := ValidationResult(validator.value);
        if !result.IsValid() then FailureEnvelope(result) else OfOutcome(true)
      else OfOutcome(true)
  }

  /** `Validate(obj)`: the verdict of `ValidateAsync`, re-typed to carry the object itself. */
  function Validate(factory: Option<ValidatorFactory>, obj: Dto): (r: Response<Dto>)
    ensures var v := ValidateAsync(factory, obj);
      r.succeeded == v.succeeded && r.message == v.message && r.statusCode == v.statusCode && r.brokenRules == v.brokenRules
    ensures r.data == Some(obj)
    ensures Consistent(r)
  {
    ConvertToResponseOf(ValidateAsync(factory, obj), Some(obj))
  }

  /** With ClientDtoValidator registered, a client DTO is accepted exactly when every client rule holds. */
  lemma ClientAcceptedIffRulesHold(factory: ValidatorFactory, dto: ClientDto)
    requires ClientKind in factory.registered
    ensures Validate(Some(factory), ClientValue(dto)).succeeded <==> ClientRulesHold(dto, factory.ValidationDay())
  {
  }

  /** A rejected DTO's envelope carries exactly its validator's failures, in order, as broken rules. */
  lemma RejectionCarriesFailures(factory: ValidatorFactory, dto: Dto)
    requires !Validate(Some(factory), dto).succeeded
    ensures var r := Validate(Some(factory), dto);
      var fs := GetValidatorFailures(factory, dto).value;
      && r.statusCode == BusinessRuleViolation && r.message == ValidationErrorMessage
      && |r.brokenRules| == |fs| > 0
      && forall i | 0 <= i < |fs| :: r.brokenRules[i] == ValidationRule(fs[i].property.Name(), fs[i].message.Text())
  {
  }

  /** A lookup DTO is never rejected: no validator exists for its type. */
  lemma LookupNeverRejected(factory: Option<ValidatorFactory>, dto: LookupDto)
    ensures Validate(factory, LookupValue(dto)).succeeded
  {
  }
}
