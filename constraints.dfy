/** The Jakarta Bean Validation constraints the entity classes declare, as
    explicit checks. Each check returns the field errors its one constraint
    reports for a field value (`None` is a null field); the messages are the
    validator's default English messages. */
module Constraints {
  import opened Wrappers
  import opened Text

  /** One entry of the binding result: the field name and the constraint's message. */
  datatype FieldError = FieldError(field: string, message: string)

  const NullMessage := "must be null"
  const NotNullMessage := "must not be null"
  const NotBlankMessage := "must not be blank"
  const EmailMessage := "must be a well-formed email address"

  function SizeMessage(min: nat, max: nat): string {
    "size must be between " + NatToDecimal(min) + " and " + NatToDecimal(max)
  }

  function MinMessage(min: int): string {
    "must be greater than or equal to " + LongToString(min)
  }

  function MaxMessage(max: int): string {
    "must be less than or equal to " + LongToString(max)
  }

  /** Blank as `@NotBlank` decides it, through `String.trim()`: nothing is
      left once every character up to U+0020 is trimmed. Both halves of a
      surrogate pair lie above U+0020, so judging whole characters agrees. */
  predicate IsBlank(s: string) {
    forall i :: 0 <= i < |s| ==> s[i] <= ' '
  }

  /** The field names an error list mentions. */
  function Fields(errors: seq<FieldError>): set<string> {
    set e | e in errors :: e.field
  }

  lemma FieldsAppend(a: seq<FieldError>, b: seq<FieldError>)
    ensures Fields(a + b) == Fields(a) + Fields(b)
  {
  }

  /** An error list is empty exactly when it names no field. */
  lemma FieldsEmpty(errors: seq<FieldError>)
    ensures errors == [] <==> Fields(errors) == {}
  {
    if errors != [] {
      assert errors[0].field in Fields(errors);
    }
  }

  /** What a group of constraints on one field reports: no error when the
      field is `ok`, otherwise errors that all name `field`. */
  ghost predicate ReportsOn(errors: seq<FieldError>, field: string, ok: bool) {
    Fields(errors) == if ok then {} else {field}
  }

  /** A required text field: not null, not blank, `min` to `max` UTF-16
      code units long. */
  predicate ValidText(value: Option<string>, min: nat, max: nat) {
    value.Some? && !IsBlank(value.value) && min <= Utf16Length(value.value) <= max
  }

  /** `@NotNull @NotBlank @Size(min, max)` on one field. */
  function CheckText(field: string, value: Option<string>, min: nat, max: nat): (errors: seq<FieldError>)
    ensures ReportsOn(errors, field, ValidText(value, min, max))
  {
    var notNull, notBlank, size := CheckNotNull(field, value), CheckNotBlank(field, value), CheckSize(field, value, min, max);
    FieldsAppend(notNull, notBlank);
    FieldsAppend(notNull + notBlank, size);
    notNull + notBlank + size
  }

  /** `@Null`. */
  function CheckNull<T>(field: string, value: Option<T>): seq<FieldError> {
    if value.Some? then [FieldError(field, NullMessage)] else []
  }

  /** `@NotNull`. */
  function CheckNotNull<T>(field: string, value: Option<T>): seq<FieldError> {
    if value.None? then [FieldError(field, NotNullMessage)] else []
  }

  /** `@NotBlank`: null fails too. */
  function CheckNotBlank(field: string, value: Option<string>): seq<FieldError> {
    if value.None? || IsBlank(value.value) then [FieldError(field, NotBlankMessage)] else []
  }

  /** `@Size(min, max)`: null passes; a string's size is its `length()`,
      counted in UTF-16 code units. */
  function CheckSize(field: string, value: Option<string>, min: nat, max: nat): seq<FieldError> {
    if value.Some? && !(min <= Utf16Length(value.value) <= max) then [FieldError(field, SizeMessage(min, max))] else []
  }

  /** `@Email`: null passes; the address syntax is the validator's and is
      given as the predicate `isEmail`. */
  function CheckEmail(field: string, value: Option<string>, isEmail: string -> bool): seq<FieldError> {
    if value.Some? && !isEmail(value.value) then [FieldError(field, EmailMessage)] else []
  }

  /** `@Min(min)`: null passes. */
  function CheckMin(field: string, value: Option<int>, min: int): seq<FieldError> {
    if value.Some? && value.value < min then [FieldError(field, MinMessage(min))] else []
  }

  /** `@Max(max)`: null passes. */
  function CheckMax(field: string, value: Option<int>, max: int): seq<FieldError> {
    if value.Some? && value.value > max then [FieldError(field, MaxMessage(max))] else []
  }
}
