/** The business fields a vendor account carries, shared by the registration
    and profile forms, and the names their inputs use. */
module Vendor {
  import opened Common

  datatype BusinessField = BusinessName | BusinessAddress | BusinessPhone | BusinessDescription | BusinessCategory

  /** The categories the registration form offers. */
  const BusinessCategories: seq<string> := ["restaurant", "retail", "service", "other"]

  function FieldName(f: BusinessField): string {
    match f
    case BusinessName => "businessName"
    case BusinessAddress => "businessAddress"
    case BusinessPhone => "businessPhone"
    case BusinessDescription => "businessDescription"
    case BusinessCategory => "businessCategory"
  }

  function FieldNamed(s: string): (r: Option<BusinessField>)
    ensures r.Some? ==> FieldName(r.value) == s
  {
    if s == "businessName" then Some(BusinessName)
    else if s == "businessAddress" then Some(BusinessAddress)
    else if s == "businessPhone" then Some(BusinessPhone)
    else if s == "businessDescription" then Some(BusinessDescription)
    else if s == "businessCategory" then Some(BusinessCategory)
    else None
  }

  /** Each field's name reads back as that field, contains no '.', and starts
      with "business". */
  lemma FieldNameRoundTrip(f: BusinessField)
    ensures FieldNamed(FieldName(f)) == Some(f)
    ensures '.' !in FieldName(f)
    ensures StartsWith(FieldName(f), "business")
  {
  }
}
