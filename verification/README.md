# Blog field validation, modelled in Dafny

This project models the validation layer of a small Flask/SQLAlchemy blog
(`server/models.py`). There are two entities. An **Author** has a required,
unique `name` and an optional `phone_number`. A **Post** has a `title`,
`content`, an optional `summary` and a `category`. Each field has a rule
body that either returns or raises a `ValueError`. Each field also has a
`@db.validates` wrapper that runs the rule whenever the field is assigned,
and then hands the value back unchanged.

Modules:

- `Results` (`results.dfy`): `Option`, `Result`, `Outcome`. It also holds
  Python truthiness on an optional string (`Truthy`) and the generic
  wrapper `Accept`.
- `ValidationErrors` (`errors.dfy`): one variant per raised message, the
  message text, and the declaration order of the rules (`Rank`, `FirstOf`).
- `Substrings` (`substrings.dfy`): Python's `phrase in title`, given as a
  search (`Contains`, `ContainsAny`) and as a declarative reference
  (`Occurs`). A proof shows the two agree.
- `AuthorRules` (`author.dfy`) and `PostRules` (`post.dfy`): a `Check…`
  function per rule body, a `Validate…` function per wrapper, and a
  whole-record `ValidateAuthor` / `ValidatePost`. Each whole-record result
  is tied to a declarative set of violated rules.
- `AuthorStore` (`author_store.dfy`): the stored authors as a sequence. The
  uniqueness rule reads the set of stored names. `Insert` appends a
  candidate only when it validates. The invariant "no two stored authors
  share a name" is proved for any series of inserts.

The model follows the code as written, even where an error message suggests more:

- The phone rule checks only the length (exactly 10 when non-empty), not
  that the characters are digits. `AuthorRules.AuthorScenarios` shows a
  ten-letter phone number being accepted.
- The uniqueness rule consults every stored name, including the name of the
  record being written. It makes no exception for the record itself.
  `AuthorStore.UpdateToOwnNameRejected` proves that assigning a stored
  author its own current name reports `DuplicateName`.
- `len(None)` on absent `content` crashes in the code, so `content` is modelled as a plain string (see Left out).

## Model

| member | source | states |
|---|---|---|
| Results.FalsyValues | server/models.py:16 | `not x` on an optional string holds exactly for `None` and `""` |
| Results.Accept | server/models.py:36-39 | a wrapper succeeds exactly when its rule passes, returns its input unchanged, and otherwise raises the rule's error |
| ValidationErrors.MessageIdentifiesError | server/models.py:15-73 | the seven raised messages are pairwise distinct, so the message alone identifies the rule that failed |
| Substrings.ContainsIffOccurs | server/models.py:57 | the prefix-then-slide search finds a phrase exactly when some position of the string starts a copy of it |
| Substrings.ContainsAny | server/models.py:57 | `any(p in s for p in ps)` holds exactly when some phrase of the list occurs in the string |
| AuthorRules.CheckName | server/models.py:15-17 | the name rule fails, with the missing-name error, exactly for `None` and `""`; every non-empty name passes |
| AuthorRules.CheckUniqueName | server/models.py:25-28 | the uniqueness rule fails, with the duplicate error, exactly when the name is already stored |
| AuthorRules.CheckPhoneNumber | server/models.py:20-22 | a phone number passes exactly when it is absent, empty or exactly 10 characters long; a failure is the phone-length error |
| AuthorRules.ValidateName | server/models.py:30-34 | the name is accepted and returned unchanged exactly when it is non-empty and not stored; a falsy name is always the missing-name error, and the duplicate error is raised exactly for a non-empty stored name |
| AuthorRules.ValidatePhoneNumber | server/models.py:36-39 | the phone number is returned unchanged exactly when it is falsy or 10 characters long; otherwise the phone-length error is raised |
| AuthorRules.ValidateAuthor | server/models.py:30-39 | a candidate author is accepted unchanged exactly when it breaks no rule; otherwise the error raised is the first broken rule in declaration order |
| AuthorRules.EmptyNameNeverDuplicate | server/models.py:30-34 | an empty or absent name is reported as missing, never as a duplicate, whatever names are stored |
| AuthorRules.PhoneLengthBoundary | server/models.py:20-22 | phone numbers of length 10 pass, lengths 9 and 11 fail, and absent or empty ones pass |
| AuthorRules.AuthorScenarios | server/models.py:14-39 | concrete authors: a ten-digit phone passes; "555-123-4567" fails on length; an empty name fails as missing; a stored name fails as duplicate; ten letters pass as a phone number |
| PostRules.CheckTitle | server/models.py:56-58 | a title passes exactly when one of "Won't Believe", "Secret", "Top", "Guess" occurs in it; a failure is the clickbait error |
| PostRules.CheckContent | server/models.py:61-63 | content passes exactly when it has at least 250 characters; a failure is the too-short error |
| PostRules.CheckSummary | server/models.py:66-68 | a summary passes exactly when it is absent or at most 250 characters long (so the empty one passes); a failure is the too-long error |
| PostRules.CheckCategory | server/models.py:71-73 | a category passes exactly when it is `Some("Fiction")` or `Some("Non-Fiction")`; an absent one fails; a failure is the category error |
| PostRules.ValidateTitle | server/models.py:75-78 | the title is returned unchanged exactly when it contains a clickbait phrase; otherwise the clickbait error is raised |
| PostRules.ValidateContent | server/models.py:80-83 | the content is returned unchanged exactly when it has at least 250 characters; otherwise the too-short error is raised |
| PostRules.ValidateSummary | server/models.py:85-88 | the summary is returned unchanged exactly when it is absent or at most 250 characters; otherwise the too-long error is raised |
| PostRules.ValidateCategory | server/models.py:90-93 | the category is returned unchanged exactly when it is one of the two admitted values; otherwise the category error is raised |
| PostRules.ValidatePost | server/models.py:55-93 | a candidate post is accepted unchanged exactly when it breaks no rule; otherwise the error raised is the first broken rule in declaration order |
| PostRules.FieldsAreIndependent | server/models.py:55-93 | no rule reads more than one field: replacing any one field of an accepted post with a value its own wrapper accepts leaves the post accepted |
| PostRules.LengthBoundaries | server/models.py:61-68 | content of 249 characters fails and of 250 passes; a summary of 250 passes, of 251 fails, and an absent or empty one passes |
| PostRules.CategoryIsExact | server/models.py:71-73 | "Fiction" and "Non-Fiction" pass; "fiction", " Fiction", "Nonfiction" and an absent category fail, so there is no case folding or trimming |
| PostRules.TitleIsCaseSensitive | server/models.py:56-58 | "top" alone is not clickbait, while "Topical" and "Top 10 Secrets" are, because matching is case-sensitive and does not respect word boundaries |
| AuthorStore.Names | server/models.py:25-26 | the set the uniqueness query consults holds exactly the names of the stored authors |
| AuthorStore.Insert | server/models.py:25-39 | creating an author appends it unchanged exactly when it has a non-empty name that no stored author has and an admissible phone number; a rejection raises the first broken rule; an accepted insert keeps the store free of duplicate and missing names |
| AuthorStore.InsertAllKeepsStoreValid | server/models.py:25-34 | after any series of create requests, rejected ones dropped, no two stored authors share a name, none lacks one, and earlier rows are untouched |
| AuthorStore.NameCountIsAuthorCount | server/models.py:25-28 | in a valid store the number of distinct names equals the number of authors |
| AuthorStore.ReinsertRejected | server/models.py:25-28 | once an author is stored, a second create request for the same author raises the duplicate error |
| AuthorStore.UpdateName | server/models.py:25-34 | assigning a stored author a new name succeeds exactly when the name is non-empty and no stored author, the same one included, has it; only that row's name changes; a falsy name is always the missing-name error and a non-empty name some stored author has is always the duplicate error; a valid store stays valid |
| AuthorStore.UpdateToOwnNameRejected | server/models.py:25-28 | assigning a stored author its own current name raises the duplicate error, because the query does not exclude the record being written |

## Left out

- ORM plumbing is not modelled: column declarations, the `db` object, the `id` column, the `created_at`/`updated_at` timestamps and `__repr__`. They are storage and framework concerns.
- The database query `Author.query.filter_by(name=...).first()` is replaced by the set of stored names (`AuthorStore.Names`). The database-level `unique=True` constraint is not modelled.
- The race between the uniqueness check and the commit is not modelled. The model is sequential.
- In the source, each `@db.validates` method shadows the static rule of the same name. As written, every validated assignment calls itself until Python raises `RecursionError`, so no record can be created at all. The model treats each rule body and each wrapper as separate functions, which is the evident intent.
- An absent `title` or `content` makes the rule crash with a `TypeError`, not a validation error. The model treats both fields as plain strings, so it does not model these crashes.
- SQLAlchemy runs each wrapper at the moment its attribute is assigned. The order in which errors are reported therefore depends on the order in which the caller assigns fields. `ValidateAuthor` and `ValidatePost` fix the declaration order of the wrappers.
- String length counts Unicode scalar values, like Python's `len`; Python strings may also hold lone surrogates, which a Dafny string cannot.
- PostRules.ValidatePost models a candidate whose every field is assigned. SQLAlchemy runs a wrapper only when its attribute is assigned, so a post created without a `category` (or `content` or `summary`) is never checked on that field and is stored with NULL there; the model instead runs every rule, and rejects an absent category.
- AuthorRules.ValidateAuthor models a candidate whose every field is assigned. An author created without a `name` skips the name wrapper in the source and is stopped only by the database's NOT NULL constraint, which is not modelled; the model runs every rule and reports the missing name.
