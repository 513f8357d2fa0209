/**
 * The company step of onboarding: a company name and two selections, checked
 * before the form data is passed on as it is.
 */
module CompanyInfo {
  import opened Wrappers
  import opened Text
  import opened Entities

  const NatureOfWorkOptions := ["Technology", "Healthcare", "Finance", "Education", "Manufacturing",
                                "Retail", "Consulting", "Marketing", "Real Estate", "Other"]
  const EmployeeCountOptions := ["1-10", "11-50", "51-200", "201-500", "501-1000", "1000+"]

  /** The keys of the error record. */
  datatype CompanyField = CompanyName | NatureOfWork | NumberOfEmployees

  const CompanyNameRequired := "Company name is required"
  const SelectNatureOfWork := "Please select nature of work"
  const SelectNumberOfEmployees := "Please select number of employees"

  /** What a valid form amounts to: a company name that is not blank and both selections made. */
  predicate Acceptable(f: CompanyData)
  {
    !IsBlank(f.companyName) && f.natureOfWork != "" && f.numberOfEmployees != ""
  }

  /** `validateForm`: the error record, and whether it came out empty. */
  method Validate(f: CompanyData) returns (errors: map<CompanyField, string>, valid: bool)
    ensures Lookup(errors, CompanyName) == (if IsBlank(f.companyName) then Some(CompanyNameRequired) else None)
    ensures Lookup(errors, NatureOfWork) == (if f.natureOfWork == "" then Some(SelectNatureOfWork) else None)
    ensures Lookup(errors, NumberOfEmployees) == (if f.numberOfEmployees == "" then Some(SelectNumberOfEmployees) else None)
    ensures valid <==> errors == map[]
    ensures valid <==> Acceptable(f)
  {
    errors := map[];
    if IsBlank(f.companyName) {
      errors := errors[CompanyName := CompanyNameRequired];
    }
    if f.natureOfWork == "" {
      errors := errors[NatureOfWork := SelectNatureOfWork];
    }
    if f.numberOfEmployees == "" {
      errors := errors[NumberOfEmployees := SelectNumberOfEmployees];
    }
    valid := errors.Keys == {};
  }

  /** `handleSubmit`: the form data, unchanged (the name is not trimmed), only for a valid form. */
  method Submit(f: CompanyData) returns (errors: map<CompanyField, string>, sent: Option<CompanyData>)
    ensures sent.Some? <==> Acceptable(f)
    ensures sent.Some? <==> errors == map[]
    ensures sent.Some? ==> sent.value == f
  {
    var valid;
    errors, valid := Validate(f);
    sent := if valid then Some(f) else None;
  }

  /** Any name that is not blank, with any offered choices, makes a valid form. */
  lemma OfferedChoicesAccepted(name: string, i: nat, j: nat)
    requires !IsBlank(name) && i < |NatureOfWorkOptions| && j < |EmployeeCountOptions|
    ensures Acceptable(CompanyData(name, NatureOfWorkOptions[i], EmployeeCountOptions[j]))
  {
    assert forall k :: 0 <= k < |NatureOfWorkOptions| ==> |NatureOfWorkOptions[k]| > 0;
    assert forall k :: 0 <= k < |EmployeeCountOptions| ==> |EmployeeCountOptions[k]| > 0;
  }
}
