/**
 * The habit document schema (`src/models/habit.model.ts`): field bounds,
 * defaults, the frequency enumeration, and the JSON view without `__v`.
 *
 * Validation follows the document library's order: a missing field takes its
 * default, the `trim` setter runs when a value is assigned, and each path
 * then runs its validators in declaration order (`required` first), the first
 * failure being that path's error. Lengths are JavaScript lengths.
 */
module HabitModel {
  import opened Common
  import opened Text

  /** The four values of the `frequency` enumeration. */
  datatype Frequency = Daily | Weekly | Biweekly | Monthly

  /** The stored string of each frequency. */
  function FrequencyName(f: Frequency): (s: string)
    ensures FrequencyOfName(s) == Some(f)
  {
    match f
    case Daily => "Diário"
    case Weekly => "Semanal"
    case Biweekly => "Quinzenal"
    case Monthly => "Mensal"
  }

  /** The frequency a string names, when it is one of the enumeration's values. */
  function FrequencyOfName(s: string): (r: Option<Frequency>)
  {
    if s == "Diário" then Some(Daily)
    else if s == "Semanal" then Some(Weekly)
    else if s == "Quinzenal" then Some(Biweekly)
    else if s == "Mensal" then Some(Monthly)
    else None
  }

  /** Reading a name back gives the frequency, and only the four names are read. */
  lemma FrequencyNameRoundTrip(s: string)
    ensures FrequencyOfName(s).Some? ==> FrequencyName(FrequencyOfName(s).value) == s
  {
  }

  const DEFAULT_FREQUENCY: string := "Diário"

  const NAME_REQUIRED: string := "Nome do hábito é obrigatório"
  const NAME_TOO_SHORT: string := "Nome deve ter pelo menos 2 caracteres"
  const NAME_TOO_LONG: string := "Nome deve ter no máximo 100 caracteres"
  const DESCRIPTION_TOO_LONG: string := "Descrição deve ter no máximo 500 caracteres"
  const FREQUENCY_REQUIRED: string := "Frequência é obrigatória"
  const FREQUENCY_NOT_IN_ENUM: string := "Frequência deve ser: Diário, Semanal, Quinzenal ou Mensal"
  const USER_REQUIRED: string := "Usuário é obrigatório"

  /** The fields given to a new habit document; `None` is an absent field. */
  datatype HabitFields = HabitFields(
    name: Option<string>,
    description: Option<string>,
    frequency: Option<string>,
    isActive: Option<bool>,
    userId: Option<string>)

  /** A habit document that passed validation, with setters and defaults applied. */
  datatype HabitDocument = HabitDocument(
    name: string,
    description: string,
    frequency: Frequency,
    isActive: bool,
    userId: string)

  /** The schema's constraints, stated on the raw fields. */
  predicate FieldsValid(f: HabitFields) {
    && f.name.Some? && 2 <= Utf16Length(Trim(f.name.value)) <= 100
    && Utf16Length(Trim(f.description.GetOr(""))) <= 500
    && FrequencyOfName(f.frequency.GetOr(DEFAULT_FREQUENCY)).Some?
    && f.userId.Some?
  }

  /** `name`: required, trimmed, 2 to 100 long. */
  function NameError(name: Option<string>): Option<string> {
    if name.None? || Trim(name.value) == [] then Some(NAME_REQUIRED)
    else if Utf16Length(Trim(name.value)) < 2 then Some(NAME_TOO_SHORT)
    else if Utf16Length(Trim(name.value)) > 100 then Some(NAME_TOO_LONG)
    else None
  }

  /** `description`: trimmed, at most 500 long, default empty. */
  function DescriptionError(description: Option<string>): Option<string> {
    if Utf16Length(Trim(description.GetOr(""))) > 500 then Some(DESCRIPTION_TOO_LONG) else None
  }

  /** `frequency`: default "Diário", required, one of the enumeration. */
  function FrequencyError(frequency: Option<string>): Option<string> {
    var value := frequency.GetOr(DEFAULT_FREQUENCY);
    if value == [] then Some(FREQUENCY_REQUIRED)
    else if FrequencyOfName(value).None? then Some(FREQUENCY_NOT_IN_ENUM)
    else None
  }

  /** `userId`: required. */
  function UserIdError(userId: Option<string>): Option<string> {
    if userId.None? then Some(USER_REQUIRED) else None
  }

  function ErrorsOf(path: string, e: Option<string>): seq<FieldError> {
    if e.Some? then [FieldError(path, e.value)] else []
  }

  /** Validates a new habit document: the normalised document, or every failing path in schema order. */
  function ValidateHabit(f: HabitFields): (r: Result<HabitDocument, seq<FieldError>>)
    ensures r.Ok? <==> FieldsValid(f)
    ensures r.Ok? ==> r.value.name == Trim(f.name.value)
    ensures r.Ok? ==> r.value.description == Trim(f.description.GetOr(""))
    ensures r.Ok? ==> FrequencyName(r.value.frequency) == f.frequency.GetOr(DEFAULT_FREQUENCY)
    ensures r.Ok? ==> r.value.isActive == f.isActive.GetOr(true) && r.value.userId == f.userId.value
    ensures r.Err? ==> r.error != []
  {
    var errors :=
      ErrorsOf("name", NameError(f.name))
      + ErrorsOf("description", DescriptionError(f.description))
      + ErrorsOf("frequency", FrequencyError(f.frequency))
      + ErrorsOf("userId", UserIdError(f.userId));
    if errors != [] then Err(errors)
    else
      FrequencyNameRoundTrip(f.frequency.GetOr(DEFAULT_FREQUENCY));
      Ok(HabitDocument(
        Trim(f.name.value),
        Trim(f.description.GetOr("")),
        FrequencyOfName(f.frequency.GetOr(DEFAULT_FREQUENCY)).value,
        f.isActive.GetOr(true),
        f.userId.value))
  }

  /** Surrounding whitespace does not count towards the name's length. */
  lemma PaddedNameValidatesTrimmed(f: HabitFields, padded: string)
    requires f.name.Some? && Trim(padded) == Trim(f.name.value)
    ensures ValidateHabit(f.(name := Some(padded))) == ValidateHabit(f)
  {
    var g := f.(name := Some(padded));
    assert NameError(g.name) == NameError(f.name);
    assert FieldsValid(g) == FieldsValid(f);
  }

  /** The serialised view (`toJSON`): `__v` removed, every other field kept as it is. */
  function HabitToJson(ret: JsonObject): (r: JsonObject)
    ensures "__v" !in r
    ensures r.Keys == ret.Keys - {"__v"}
    ensures forall k | k in r :: r[k] == ret[k]
  {
    ret - {"__v"}
  }
}
