/** The `ValueError`s the validators raise, one variant per distinct message. */
module ValidationErrors {

  datatype ValidationError =
    | EmptyName        // the author has no name
    | DuplicateName    // another author already has this name
    | BadPhoneLength   // a phone number that is non-empty but not ten characters
    | NotClickbait     // the title has none of the clickbait phrases
    | ContentTooShort  // the content is under 250 characters
    | SummaryTooLong   // the summary is over 250 characters
    | InvalidCategory  // the category is neither Fiction nor Non-Fiction

  /** The message text carried by the raised `ValueError`. */
  function Message(e: ValidationError): string
  {
    match e
    case EmptyName => "Author must have a name."
    case DuplicateName => "An author with this name already exists."
    case BadPhoneLength => "Phone number must be exactly ten digits."
    case NotClickbait => "Title must be sufficiently clickbait-y."
    case ContentTooShort => "Post content must be at least 250 characters long."
    case SummaryTooLong => "Post summary must be a maximum of 250 characters."
    case InvalidCategory => "Post category must be either Fiction or Non-Fiction."
  }

  /** Every error is a `ValueError`, so a caller can only tell them apart by
      their message: no two errors share one. */
  lemma MessageIdentifiesError(e1: ValidationError, e2: ValidationError)
    ensures Message(e1) == Message(e2) <==> e1 == e2
  {
  }

  /** Position of the rule that raises `e` in the order the wrappers are
      declared: name (emptiness, then uniqueness), phone number; title,
      content, summary, category. */
  function Rank(e: ValidationError): nat
  {
    match e
    case EmptyName => 0
    case DuplicateName => 1
    case BadPhoneLength => 2
    case NotClickbait => 3
    case ContentTooShort => 4
    case SummaryTooLong => 5
    case InvalidCategory => 6
  }

  /** `e` is the first error, in declaration order, among `errors`. */
  predicate FirstOf(e: ValidationError, errors: set<ValidationError>)
  {
    e in errors && forall f :: f in errors ==> Rank(e) <= Rank(f)
  }
}
