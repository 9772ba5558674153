/**
 * The part of a bound Django form the application's validators touch: the
 * list of errors collected so far and the cleaned data. `add_error` records
 * an error against a field and drops that field from the cleaned data.
 */
module Forms {
  import opened Wrappers

  /** The `params` of a ValidationError: none, the offending length, or the offending value. */
  datatype ErrorParam = NoParam | LengthParam(length: nat) | ValueParam(value: Option<string>)

  datatype FieldError = FieldError(field: string, code: string, param: ErrorParam)

  /** The errors recorded against one field, in the order they were added. */
  function ErrorsOn(errors: seq<FieldError>, field: string): (r: seq<FieldError>)
    ensures |r| <= |errors|
    ensures forall e :: e in r <==> e in errors && e.field == field
  {
    if errors == [] then []
    else (if errors[0].field == field then [errors[0]] else []) + ErrorsOn(errors[1..], field)
  }

  class Form {
    var errors: seq<FieldError>
    var cleaned: map<string, string>

    constructor (data: map<string, string>)
      ensures errors == [] && cleaned == data
    {
      errors := [];
      cleaned := data;
    }

    /** `cleaned_data.get(key)`. */
    function Get(key: string): (r: Option<string>)
      reads this
      ensures r.Some? <==> key in cleaned
      ensures r.Some? ==> r.value == cleaned[key]
    {
      if key in cleaned then Some(cleaned[key]) else None
    }

    predicate IsValid()
      reads this
    {
      errors == []
    }

    /** `add_error(field, error)`. */
    method AddError(e: FieldError)
      modifies this
      ensures errors == old(errors) + [e]
      ensures cleaned == old(cleaned) - {e.field}
    {
      errors := errors + [e];
      cleaned := cleaned - {e.field};
    }
  }
}
