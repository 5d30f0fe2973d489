/**
 * ValidationProcessor (Calorizer.Business/Validation/ValidationProcessor.cs): turns a
 * FluentValidation result into the 422 envelope, and re-types an envelope.
 */
module Validation {
  import opened Wrappers
  import opened Validators
  import opened Responses

  /** FluentValidation's ValidationResult: the failures, in the order the rules reported them. */
  datatype ValidationResult = ValidationResult(errors: seq<Failure>) {
    /** `IsValid`: no rule failed. */
    predicate IsValid() { |errors| == 0 }
  }

  const ValidationErrorMessage: string := "ValidationError"

  /** The broken rule reported for one failure: its PropertyName and ErrorMessage. */
  function RuleOf(f: Failure): (rule: ValidationRule)
    ensures rule.propertyName == f.property.Name() && rule.message == f.message.Text()
  {
    ValidationRule(f.PropertyName(), f.ErrorMessage())
  }

  /** The broken rules reported for a list of failures, built by appending one per failure. */
  function RulesOf(failures: seq<Failure>): (rules: seq<ValidationRule>)
    ensures |rules| == |failures|
    ensures forall i | 0 <= i < |failures| :: rules[i] == RuleOf(failures[i])
    decreases |failures|
  {
    if failures == [] then []
    else
      var init := failures[..|failures| - 1];
      var last := failures[|failures| - 1];
      assert forall i | 0 <= i < |init| :: init[i] == failures[i];
      RulesOf(init) + [RuleOf(last)]
  }

  /**
   * The envelope ProcessValidationResultOnFailure returns: a 422 "ValidationError" failure
   * whose broken rules are the result's failures, one each and in order. A valid result
   * still yields the failure envelope, with no broken rules.
   */
  function FailureEnvelope<T>(result: ValidationResult): (r: Response<T>)
    ensures !r.succeeded && r.message == ValidationErrorMessage && r.statusCode == BusinessRuleViolation
    ensures Consistent(r) && r.data.None?
    ensures |r.brokenRules| == |result.errors|
    ensures forall i | 0 <= i < |result.errors| ::
      && r.brokenRules[i].propertyName == result.errors[i].property.Name()
      && r.brokenRules[i].message == result.errors[i].message.Text()
    ensures result.IsValid() ==> r.brokenRules == []
  {
    Response(false, ValidationErrorMessage, BusinessRuleViolation, RulesOf(result.errors), None)
  }

  /** `ProcessValidationResultOnFailure`: starts from the failure envelope and appends one rule per failure. */
  method ProcessValidationResultOnFailure<T>(result: ValidationResult) returns (response: Response<T>)
    ensures response == FailureEnvelope(result)
  {
    response := Response(false, ValidationErrorMessage, BusinessRuleViolation, [], None);
    if !result.IsValid() {
      var i := 0;
      while i < |result.errors|
        invariant 0 <= i <= |result.errors|
        invariant response == Response(false, ValidationErrorMessage, BusinessRuleViolation, RulesOf(result.errors[..i]), None)
      {
        var failure := result.errors[i];
        response := response.(brokenRules := response.brokenRules + [ValidationRule(failure.PropertyName(), failure.ErrorMessage())]);
        assert result.errors[..i + 1][..i] == result.errors[..i];
        i := i + 1;
      }
      assert result.errors[..i] == result.errors;
    }
  }

  /** `ProcessValidationResultOnFailureAsync`: the synchronous result, wrapped in a completed task. */
  method ProcessValidationResultOnFailureAsync<T>(result: ValidationResult) returns (response: Response<T>)
    ensures response == FailureEnvelope(result)
  {
    response := ProcessValidationResultOnFailure(result);
  }

  /**
   * `source.ConvertToResponseOf<T>(data)`: the same outcome, message, status and broken
   * rules, carrying `data`. `asTarget` is the outcome of the `data is T` type test: the
   * object as a `T`, or None when it is not one (or is null), which leaves `default(T)`.
   */
  function ConvertToResponseOf<T>(source: Response<bool>, asTarget: Option<T>): (r: Response<T>)
    ensures r.succeeded == source.succeeded && r.message == source.message
    ensures r.statusCode == source.statusCode && r.brokenRules == source.brokenRules
    ensures r.data == asTarget
    ensures Consistent(r) <==> Consistent(source)
  {
    Response(source.succeeded, source.message, source.statusCode, source.brokenRules, asTarget)
  }
}
