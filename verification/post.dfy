/** The field rules of the `Post` entity and the wrappers that run them
    whenever `title`, `content`, `summary` or `category` is assigned. */
module PostRules {
  import opened Results
  import opened ValidationErrors
  import opened Substrings

  /** The validated fields of a post. `title` and `content` are plain strings:
      an absent one makes the rule crash rather than raise a validation error. */
  datatype Post = Post(title: string, content: string, summary: Option<string>, category: Option<string>)

  /** The phrases one of which a title must contain, matched case-sensitively. */
  const ClickbaitPhrases: seq<string> := ["Won't Believe", "Secret", "Top", "Guess"]

  /** Shortest content, and longest summary, the rules admit. */
  const MinContentLength: nat := 250
  const MaxSummaryLength: nat := 250

  /** The two admitted categories, compared exactly. */
  const Categories: seq<string> := ["Fiction", "Non-Fiction"]

  /** Reference meaning of a clickbait title: one of the phrases occurs in it. */
  ghost predicate Clickbait(title: string)
  {
    Occurs("Won't Believe", title) || Occurs("Secret", title)
    || Occurs("Top", title) || Occurs("Guess", title)
  }

  /** Rule body: the title must contain a clickbait phrase. */
  function CheckTitle(title: string): (r: Outcome<ValidationError>)
    ensures r.Pass? <==> Clickbait(title)
    ensures r.Fail? ==> r.error == NotClickbait
  {
    var found := ContainsAny(title, ClickbaitPhrases);
    assert found <==> Clickbait(title) by {
      assert forall k :: 0 <= k < |ClickbaitPhrases| ==>
        ClickbaitPhrases[k] in {"Won't Believe", "Secret", "Top", "Guess"};
      if Clickbait(title) {
        if Occurs("Won't Believe", title) { assert Occurs(ClickbaitPhrases[0], title); }
        else if Occurs("Secret", title) { assert Occurs(ClickbaitPhrases[1], title); }
        else if Occurs("Top", title) { assert Occurs(ClickbaitPhrases[2], title); }
        else { assert Occurs(ClickbaitPhrases[3], title); }
      }
    }
    if !found then Fail(NotClickbait) else Pass
  }

  /** Rule body: the content must be at least 250 characters long. */
  function CheckContent(content: string): (r: Outcome<ValidationError>)
    ensures r.Pass? <==> |content| >= 250
    ensures r.Fail? ==> r.error == ContentTooShort
  {
    if |content| < MinContentLength then Fail(ContentTooShort) else Pass
  }

  /** Rule body: a summary, when given, is at most 250 characters long. */
  function CheckSummary(summary: Option<string>): (r: Outcome<ValidationError>)
    ensures r.Pass? <==> summary == None || |summary.value| <= 250
    ensures r.Fail? ==> r.error == SummaryTooLong
  {
    if Truthy(summary) && |summary.value| > MaxSummaryLength then Fail(SummaryTooLong) else Pass
  }

  /** Rule body: the category is one of the two admitted values; an absent
      category is not among them. */
  function CheckCategory(category: Option<string>): (r: Outcome<ValidationError>)
    ensures r.Pass? <==> category == Some("Fiction") || category == Some("Non-Fiction")
    ensures r.Fail? ==> r.error == InvalidCategory
  {
    if !(category.Some? && category.value in Categories) then Fail(InvalidCategory) else Pass
  }

  /** Wrapper for `title`: the title comes back unchanged when it is clickbait. */
  function ValidateTitle(title: string): (r: Result<string, ValidationError>)
    ensures r.Ok? ==> r.value == title
    ensures r.Ok? <==> Clickbait(title)
    ensures r.Err? ==> r.error == NotClickbait
  {
    Accept(title, CheckTitle(title))
  }

  /** Wrapper for `content`. */
  function ValidateContent(content: string): (r: Result<string, ValidationError>)
    ensures r.Ok? ==> r.value == content
    ensures r.Ok? <==> |content| >= 250
    ensures r.Err? ==> r.error == ContentTooShort
  {
    Accept(content, CheckContent(content))
  }

  /** Wrapper for `summary`. */
  function ValidateSummary(summary: Option<string>): (r: Result<Option<string>, ValidationError>)
    ensures r.Ok? ==> r.value == summary
    ensures r.Ok? <==> summary == None || |summary.value| <= 250
    ensures r.Err? ==> r.error == SummaryTooLong
  {
    Accept(summary, CheckSummary(summary))
  }

  /** Wrapper for `category`. */
  function ValidateCategory(category: Option<string>): (r: Result<Option<string>, ValidationError>)
    ensures r.Ok? ==> r.value == category
    ensures r.Ok? <==> category == Some("Fiction") || category == Some("Non-Fiction")
    ensures r.Err? ==> r.error == InvalidCategory
  {
    Accept(category, CheckCategory(category))
  }

  /** Every rule `p` breaks, stated field by field without reference to the
      rule bodies. */
  ghost function PostViolations(p: Post): set<ValidationError>
  {
    (if !Clickbait(p.title) then {NotClickbait} else {})
    + (if |p.content| < 250 then {ContentTooShort} else {})
    + (if p.summary.Some? && |p.summary.value| > 250 then {SummaryTooLong} else {})
    + (if p.category != Some("Fiction") && p.category != Some("Non-Fiction") then {InvalidCategory} else {})
  }

  /** A whole candidate post, its fields checked in declaration order. */
  function ValidatePost(p: Post): (r: Result<Post, ValidationError>)
    ensures r.Ok? ==> r.value == p
    ensures r.Ok? <==> PostViolations(p) == {}
    ensures r.Err? ==> FirstOf(r.error, PostViolations(p))
  {
    var _ :- ValidateTitle(p.title);
    var _ :- ValidateContent(p.content);
    var _ :- ValidateSummary(p.summary);
    var _ :- ValidateCategory(p.category);
    Ok(p)
  }

  /** No rule looks at more than one field: in an accepted post, any field
      may be replaced by a value its own wrapper accepts, and the post is
      still accepted as it stands. */
  lemma FieldsAreIndependent(p: Post, title: string, content: string,
                             summary: Option<string>, category: Option<string>)
    requires ValidatePost(p).Ok?
    ensures ValidateTitle(title).Ok? ==> ValidatePost(p.(title := title)) == Ok(p.(title := title))
    ensures ValidateContent(content).Ok? ==> ValidatePost(p.(content := content)) == Ok(p.(content := content))
    ensures ValidateSummary(summary).Ok? ==> ValidatePost(p.(summary := summary)) == Ok(p.(summary := summary))
    ensures ValidateCategory(category).Ok? ==> ValidatePost(p.(category := category)) == Ok(p.(category := category))
  {
  }

  /** The length boundaries: content of 249 characters fails and of 250
      passes; a summary of 250 passes and of 251 fails, an empty or absent one passes. */
  lemma LengthBoundaries(s: string)
    ensures |s| == 249 ==> ValidateContent(s) == Err(ContentTooShort)
    ensures |s| == 250 ==> ValidateContent(s) == Ok(s)
    ensures |s| == 250 ==> ValidateSummary(Some(s)) == Ok(Some(s))
    ensures |s| == 251 ==> ValidateSummary(Some(s)) == Err(SummaryTooLong)
    ensures ValidateSummary(None) == Ok(None) && ValidateSummary(Some("")) == Ok(Some(""))
  {
  }

  /** The category is compared exactly: no case folding and no trimming. */
  lemma CategoryIsExact()
    ensures ValidateCategory(Some("Fiction")).Ok? && ValidateCategory(Some("Non-Fiction")).Ok?
    ensures ValidateCategory(Some("fiction")) == Err(InvalidCategory)
    ensures ValidateCategory(Some(" Fiction")) == Err(InvalidCategory)
    ensures ValidateCategory(Some("Nonfiction")) == Err(InvalidCategory)
    ensures ValidateCategory(None) == Err(InvalidCategory)
  {
  }

  /** The phrase match is case-sensitive: "top" alone is not clickbait, while
      a phrase anywhere inside the title, even inside a word, is. */
  lemma TitleIsCaseSensitive()
    ensures ValidateTitle("top") == Err(NotClickbait)
    ensures ValidateTitle("Topical") == Ok("Topical")
    ensures ValidateTitle("Top 10 Secrets") == Ok("Top 10 Secrets")
  {
    assert OccursAt("Top", "Topical", 0);
    assert OccursAt("Top", "Top 10 Secrets", 0);
    forall i: nat ensures !OccursAt("Top", "top", i) {
      if i == 0 {
        assert "top"[0..3][0] != "Top"[0];
      }
    }
  }
}
