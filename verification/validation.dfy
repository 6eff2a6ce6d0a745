/** The validators of the database library that the schemas use, and the
    error a failed validation throws. */
module Validation {
  import opened Wrappers
  import ErrorHandler
  import Text

  /** A validator failure, in the wording of the database library. */
  datatype FieldError = Required(path: string) | NotInEnum(path: string, value: string)

  function FieldMessage(e: FieldError): string {
    match e
    case Required(p) => "Path `" + p + "` is required."
    case NotInEnum(p, v) => "`" + v + "` is not a valid enum value for path `" + p + "`."
  }

  function FieldMessages(es: seq<FieldError>): (r: seq<string>)
    ensures |r| == |es|
    ensures forall i :: 0 <= i < |es| ==> r[i] == FieldMessage(es[i])
  {
    if es == [] then [] else [FieldMessage(es[0])] + FieldMessages(es[1..])
  }

  /** The `ValidationError` that a failed save or validated update throws. */
  function ValidationFailure(es: seq<FieldError>): (e: ErrorHandler.AppError)
    ensures e.name == "ValidationError" && e.code.None?
    ensures e.fieldMessages == FieldMessages(es)
  {
    ErrorHandler.AppError("ValidationError", "Validation failed", None, false, None, [],
                          FieldMessages(es), "ValidationError: Validation failed")
  }

  /** The required validator on a string path: absent and empty both fail. */
  predicate Present(v: Option<string>) {
    v.Some? && v.value != ""
  }

  function RequiredText(path: string, v: Option<string>): seq<FieldError> {
    if Present(v) then [] else [Required(path)]
  }

  /** A failed save or validated update answers 400 with the validators'
      messages joined by ", ". */
  lemma ValidationIs400(es: seq<FieldError>, development: bool)
    ensures ErrorHandler.Classify(ValidationFailure(es), development).status == 400
    ensures ErrorHandler.Classify(ValidationFailure(es), development).error.message ==
            Text.Join(FieldMessages(es), ", ")
  {
  }
}
