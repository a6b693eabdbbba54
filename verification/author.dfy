/** The field rules of the `Author` entity and the wrappers that run them
    whenever `name` or `phone_number` is assigned. */
module AuthorRules {
  import opened Results
  import opened ValidationErrors

  /** The validated fields of an author; identity and timestamps belong to the store. */
  datatype Author = Author(name: Option<string>, phoneNumber: Option<string>)

  /** The only phone-number length the rule admits. */
  const PhoneLength: nat := 10

  /** Rule body: the author must have a name. */
  function CheckName(name: Option<string>): (r: Outcome<ValidationError>)
    ensures r.Fail? <==> name == None || name == Some("")
    ensures r.Fail? ==> r.error == EmptyName
  {
    if !Truthy(name) then Fail(EmptyName) else Pass
  }

  /** Rule body: no stored author may already carry `name`; `existing` stands
      for the names the store holds when the rule runs. */
  function CheckUniqueName(name: string, existing: set<string>): (r: Outcome<ValidationError>)
    ensures r.Fail? <==> name in existing
    ensures r.Fail? ==> r.error == DuplicateName
  {
    if name in existing then Fail(DuplicateName) else Pass
  }

  /** Rule body: a phone number, when given, has exactly ten characters.
      Only the length is looked at, never whether the characters are digits. */
  function CheckPhoneNumber(phone: Option<string>): (r: Outcome<ValidationError>)
    ensures r.Pass? <==> phone == None || |phone.value| == 0 || |phone.value| == PhoneLength
    ensures r.Fail? ==> r.error == BadPhoneLength
  {
    if Truthy(phone) && |phone.value| != PhoneLength then Fail(BadPhoneLength) else Pass
  }

  /** Wrapper for `name`: emptiness first, then uniqueness, then the name is
      handed back unchanged. */
  function ValidateName(name: Option<string>, existing: set<string>): (r: Result<Option<string>, ValidationError>)
    ensures r.Ok? ==> r.value == name
    ensures r.Ok? <==> name.Some? && name.value != "" && name.value !in existing
    ensures !Truthy(name) ==> r == Err(EmptyName)
    ensures r == Err(DuplicateName) <==> name.Some? && name.value != "" && name.value in existing
  {
    match CheckName(name)
    case Fail(e) => Err(e)
    case Pass => Accept(name, CheckUniqueName(name.value, existing))
  }

  /** Wrapper for `phone_number`: the value comes back unchanged when the rule passes. */
  function ValidatePhoneNumber(phone: Option<string>): (r: Result<Option<string>, ValidationError>)
    ensures r.Ok? ==> r.value == phone
    ensures r.Ok? <==> !Truthy(phone) || |phone.value| == PhoneLength
    ensures r.Err? ==> r.error == BadPhoneLength
  {
    Accept(phone, CheckPhoneNumber(phone))
  }

  /** Every rule `a` breaks, stated field by field without reference to the
      rule bodies. */
  function AuthorViolations(a: Author, existing: set<string>): set<ValidationError>
  {
    (if a.name == None || a.name == Some("") then {EmptyName} else {})
    + (if a.name.Some? && a.name.value != "" && a.name.value in existing then {DuplicateName} else {})
    + (if a.phoneNumber.Some? && |a.phoneNumber.value| != 0 && |a.phoneNumber.value| != PhoneLength
       then {BadPhoneLength} else {})
  }

  /** A whole candidate author, its fields checked in declaration order. */
  function ValidateAuthor(a: Author, existing: set<string>): (r: Result<Author, ValidationError>)
    ensures r.Ok? ==> r.value == a
    ensures r.Ok? <==> AuthorViolations(a, existing) == {}
    ensures r.Err? ==> FirstOf(r.error, AuthorViolations(a, existing))
  {
    var _ :- ValidateName(a.name, existing);
    var _ :- ValidatePhoneNumber(a.phoneNumber);
    Ok(a)
  }

  /** An empty name is always reported as missing, whatever names are stored,
      even when the empty string is among them. */
  lemma EmptyNameNeverDuplicate(a: Author, existing: set<string>)
    requires a.name == None || a.name == Some("")
    ensures ValidateAuthor(a, existing) == Err(EmptyName)
    ensures DuplicateName !in AuthorViolations(a, existing)
  {
  }

  /** The length boundary of the phone rule: ten characters pass, nine and
      eleven do not, and non-digit characters are not rejected. */
  lemma PhoneLengthBoundary(p: string)
    ensures |p| == 10 ==> ValidatePhoneNumber(Some(p)) == Ok(Some(p))
    ensures |p| == 9 || |p| == 11 ==> ValidatePhoneNumber(Some(p)) == Err(BadPhoneLength)
    ensures ValidatePhoneNumber(None) == Ok(None)
    ensures ValidatePhoneNumber(Some("")) == Ok(Some(""))
  {
  }

  /** Concrete authors: a ten-digit phone passes, a dashed twelve-character
      one fails, an empty name fails, and a ten-character phone made of
      letters is let through. */
  lemma AuthorScenarios()
    ensures ValidateAuthor(Author(Some("Jane Doe"), Some("5551234567")), {}).Ok?
    ensures ValidateAuthor(Author(Some("Jane Doe"), Some("555-123-4567")), {}) == Err(BadPhoneLength)
    ensures ValidateAuthor(Author(Some(""), None), {"Jane Doe"}) == Err(EmptyName)
    ensures ValidateAuthor(Author(Some("Jane Doe"), None), {"Jane Doe"}) == Err(DuplicateName)
    ensures ValidateAuthor(Author(Some("Jane Doe"), Some("abcdefghij")), {}).Ok?
  {
  }
}
