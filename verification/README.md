# Portfolio site: a verified model of its content-store layer

This project models the state-transition layer of a small Django portfolio
site (the `pages` app) in Dafny and proves what that layer promises. It
covers the request handlers, the guest auto-login middleware, the model
records with their derived attributes and list orderings, and the two
seeding commands. Everything is written as pure functions over an
immutable store:

- `Db.Store` holds one map per table:
  - experiences by auto-increment id, plus the next id;
  - skills by name;
  - projects by title;
  - technologies by name;
  - the contact messages as a list;
  - the user accounts by username.
- Each handler maps (store, request) to an `Outcome`. An outcome is the new
  store, the request's identity afterwards, the response (a template with
  its dynamic context, a redirect, or 204) and the flash notices queued.
- The seeders map (store, time) to a new store.

Each table is a map keyed by the column the code looks rows up by. Only
`Technology.name` is declared `unique=True`; skill names and project titles
are not unique in the schema, and the model assumes each occurs at most
once (see "Left out"). A look-up by skill name or project title is then a
look-up of one row.

Modules, one per file:

- `Values`: Python truthiness of optional strings, `dict.get`, and f-string
  rendering of `None`.
- `Text`: `startswith`, `str.strip`, code-point string order, and
  zero-padded decimal digits.
- `Listing`: a listing in `Meta.ordering` (the unique ordered sequence of a
  table's rows), filtering, and `.first()`.
- `Dates`: calendar dates, chronological order, and `strftime('%B %Y')`
  with its parser.
- `Models`: the records, the defaults, the level validators, `period`,
  `is_current`, `mark_as_read`, and the four orderings.
- `Auth`: accounts, request identity, and `is_admin`.
- `Db`: the store and its invariants.
- `Middleware`: `AutoGuestLoginMiddleware.process_request`.
- `Forms`: `ExperienceForm` validation, the instance it builds, and `save`.
- `Views`: the view functions.
- `SeedSkills`: the `seed_skills` command.
- `SeedProjects`: the `seed_projects` command and `get_techs`.

## Model

| member | source | states |
|---|---|---|
| Auth.GuestNeverAdmin | pages/views.py:10-12 | An account named "guest" is never admin, even when flagged staff or superuser, and an anonymous visitor is never admin. |
| Middleware.ProcessRequest | pages/middleware.py:10-38 | Authenticated requests and /login/ or /logout/ paths pass through with table and identity unchanged. Any other anonymous request is signed in as the table's "guest" row, which is added if missing. No other account is added or removed, and the fields the model keeps are unchanged. |
| Middleware.CreatedGuestIsUnprivileged | pages/middleware.py:20-32 | A guest created on first use is not staff, not superuser, has no usable password, and is not admin. |
| Middleware.NeverGrantsAdmin | pages/middleware.py:12-36 | The hook keeps the user table keyed by username and never changes whether the request is admin. An anonymous request off the login/logout paths always ends up signed in as "guest". |
| Middleware.GuestIsReused | pages/middleware.py:20-27 | Once a guest exists, the hook adds no account and leaves the modelled fields of the user table as they were, so there is at most one guest. A run adds at most one account. |
| Views.ReadOnlyPagesChangeNothing | pages/views.py:14-71 | Home, about and portfolio leave the store, the identity and the notices as they were. The home page is the same for every visitor and every store. |
| Views.GroupsAreExact | pages/views.py:30-34 | Every group is non-empty and is exactly (label, the listed skills with that code, in listing order) for one declared choice. |
| Views.GroupLabelsInDeclaredOrder | pages/views.py:31-34 | The group labels are a subsequence of the declared labels, in `CATEGORY_CHOICES` order. |
| Views.GroupLabelShown | pages/views.py:31-34 | A label is shown exactly when some choice carrying that label has at least one skill with its code. |
| Views.LabelShownIffSkillInCategory | pages/views.py:31-34 | With distinct labels, a category's label is shown if and only if some skill has its code. |
| Views.ListedUnderItsLabel | pages/views.py:31-34 | With distinct labels, a listed skill whose code is a declared choice appears in the group headed by that choice's label. |
| Views.DefaultSkillIsListedUnderOther | pages/models.py:56 | A skill created without a category gets the code 'OTHER', which is a declared code. With a level within 0..100 it is valid, and the about page lists it under "Other". |
| Views.CategoryLabelsDistinct | pages/models.py:44-53 | The eight declared category labels are pairwise distinct. |
| Views.UndeclaredCodeIsNotShown | pages/views.py:31-34 | A skill whose stored code is not a declared choice appears in no group. |
| Views.About | pages/views.py:24-52 | The about page lists all skills and all experiences in their model orderings. It groups the skill listing by declared category. It changes nothing, and the HX-Request header picks about_content.html. |
| Views.AboutShowsCategoryIffStocked | pages/views.py:27-34 | The about page shows a category heading if and only if some stored skill has that category's code. |
| Views.AboutPartialOnlyPicksTemplate | pages/views.py:48-52 | On the about page, the partial-fetch header changes only the template. The store, identity, notices and context are the same. |
| Views.Portfolio | pages/views.py:54-71 | The portfolio lists all projects in project order and changes nothing. |
| Views.FeaturedProjectIsFirstFeatured | pages/views.py:58 | `featured_project` is absent exactly when no project is featured. Otherwise it is a featured stored project that the listing order puts before every other featured one. |
| Views.PortfolioPartialOnlyPicksTemplate | pages/views.py:67-71 | On the portfolio, the partial-fetch header changes only the template. |
| Views.Contact | pages/views.py:88-115 | A POST with all four fields non-empty appends one unread message with those values; otherwise the store is unchanged. Every POST replies "Thank you {name}! Your message has been sent successfully." as the success fragment with no notice on a partial fetch, and otherwise as one success notice over the full contact page. A GET renders the page or fragment with no notice. |
| Views.ContactAddsAtMostOne | pages/views.py:88-102 | A contact request adds exactly one message (unread, with the submitted values) when it is a complete POST, and none otherwise. Earlier messages are kept. |
| Views.ContactThanksByName | pages/views.py:90-109 | A POST thanks the sender by the posted name, or as "None" when no name was posted; in that case nothing is stored. |
| Views.ContactReplyIgnoresSaving | pages/views.py:104-109 | A POST gets the same reply and notices whether or not a message was stored. The reply depends only on the name and the partial-fetch flag. |
| Views.ContactPartialOnlyPicksTemplate | pages/views.py:104-115 | The partial-fetch header never changes the contact store effect. For a GET it changes only the template. |
| Views.AddExperience | pages/views.py:117-137 | A non-admin, a GET or an invalid POST leaves the store unchanged. An invalid POST re-renders the form with its errors. An admin's valid POST stores the saved row under the next id, bumps the counter, and redirects to the list. |
| Views.ExperienceList | pages/views.py:139-154 | An admin gets every experience in experience order with `is_admin` true. Nothing changes. |
| Views.EditExperience | pages/views.py:156-184 | An unknown id gives a redirect to the list with the error "Experience not found." and no change. A valid admin POST replaces only that row with the saved submission. An invalid POST re-renders the edit form with its errors and the instance validation built from the stored row; a GET shows the stored row. Every case but the valid POST leaves the store unchanged. |
| Views.InvalidEditShowsPassingFields | pages/views.py:169-184 | An invalid admin edit changes nothing stored and re-renders the form with a non-empty error set. The shown instance keeps that id. It fails a check exactly when an over-range display order was written onto it, and only then can it hold the whole submission. |
| Views.DeleteExperience | pages/views.py:186-201 | An admin delete of an existing id removes exactly that row and keeps all others and all other tables. It names the row in the success notice. An unknown id changes nothing and gives the error notice. Both redirect to the list. |
| Views.NonAdminIsTurnedAway | pages/views.py:117-191 | For anyone not admin, add, list, edit and delete all leave the store and identity unchanged. Each queues one warning and redirects to login. |
| Views.DeleteUndoesAdd | pages/views.py:123-128 | Deleting the row an admin just added restores the experience table. Only the id counter has advanced. |
| Views.EditIsIdempotent | pages/views.py:169-174 | Submitting the same edit twice leaves the store as one submission did (an uploaded image is its stored path; see "Left out"). |
| Views.AddExperiencePreservesWellFormed | pages/views.py:123-128 | Adding keeps ids below the counter and every stored date valid. |
| Views.EditExperiencePreservesWellFormed | pages/views.py:169-174 | Editing keeps the store invariants. |
| Views.DeleteExperiencePreservesWellFormed | pages/views.py:193-201 | Deleting keeps the store invariants. |
| Views.LoginView | pages/views.py:203-226 | An admin is sent home unchanged. A non-admin POST the credential check accepts signs that account in and redirects to a non-empty `next`, or else home. The identity changes only in that case, and no modelled table changes. |
| Views.LogoutView | pages/views.py:228-233 | Logging out always leaves the request anonymous. A signed-in user gets one notice and goes home. An anonymous user is sent to login by `login_required`. |
| Views.FaviconIgnoresRequest | pages/views.py:235-237 | The favicon reply is 204 whatever the store and the request, and it changes nothing. |
| Models.LevelErrors | pages/models.py:58-61 | A level has no validation error if and only if 0 <= level <= 100. |
| Models.PeriodRoundTrip | pages/models.py:91-96 | The period text reads back as the start month and year, and the end month and year when there is an end date, or "Present" otherwise. |
| Models.PeriodPresentIffCurrent | pages/models.py:91-101 | The period ends in "Present" if and only if the position is current, i.e. it has no end date. |
| Models.MarkAsReadIdempotent | pages/models.py:120-123 | Marking as read sets the flag and differs from the message in nothing else. Marking twice is the same as once, and a read message is unchanged. |
| Models.ExperienceOrderIsStrictTotal | pages/models.py:86 | The experience ordering (display order ascending, start date descending, then id) is a strict total order on any table. |
| Models.ProjectOrderIsStrictTotal | pages/models.py:32 | The project ordering (display order ascending, creation time descending, then title) is a strict total order. |
| Models.SkillOrderIsStrictTotal | pages/models.py:67 | The skill ordering (category code, display order, name) is a strict total order. |
| Models.TechnologyOrderIsStrictTotal | pages/models.py:10 | The technology ordering by name is a strict total order. |
| Models.ExperienceListing | pages/models.py:85-86 | `Experience.objects.all()` lists each row once, in experience order. |
| Models.ProjectListing | pages/models.py:31-32 | `Project.objects.all()` lists each row once, in project order. |
| Models.SkillListing | pages/models.py:66-67 | `Skill.objects.all()` lists each row once, in skill order. |
| Models.SkillListingOrdersCodesAlphabetically | pages/models.py:44-67 | The eight codes sort alphabetically (AIML, BACK, CLOUD, FRAME, FUND, LANG, OTHER, TOOL), which differs from the declared order: LANG is declared first, but AIML sorts before it. |
| Listing.ListingIsUnique | pages/models.py:86 | Any duplicate-free sequence of a table's rows sorted by a strict total order equals the model's listing. |
| Listing.FirstOfFilterIsLeast | pages/views.py:58 | `.filter(p).first()` on a sorted listing is None exactly when no row satisfies p. Otherwise it is the least row satisfying p. |
| Dates.BeforeIsStrictTotal | pages/models.py:86 | Chronological order on dates is irreflexive, transitive and total. |
| Dates.MonthNumber | pages/models.py:95 | A month name is recognised exactly when it is one of the twelve English names, and it maps back to that month. |
| Dates.MonthYearRoundTrip | pages/models.py:95 | `strftime('%B %Y')` of a date reads back as its month and year. |
| Dates.ParseMonthYearSound | pages/models.py:95 | Whatever the month-year parser accepts is exactly the `%B %Y` rendering of the month (1..12) and the four-digit year (0..9999) it returns. |
| Text.Strip | pages/management/commands/seed_projects.py:14 | `strip()` returns the middle slice left after removing only whitespace at both ends, and it neither starts nor ends with whitespace. |
| Text.StripIdempotent | pages/management/commands/seed_projects.py:14 | Stripping twice is stripping once. |
| Text.StrLtTransitive | pages/models.py:67 | Code-point string order is transitive. |
| Text.PadDigitsRoundTrip | pages/models.py:95 | The zero-padded year digits read back as the year. |
| Forms.ValidIffRecordable | pages/models.py:75-81 | A submission is valid exactly when some row passing every field check holds what was submitted. The checks are: required text non-blank after stripping, free of NUL characters, and within 200 characters for title and company; a real start date; a real end date if given; a display order within 0..2147483647 if given. |
| Forms.Apply | pages/forms.py:52-57 | Saving a valid form gives a valid experience. It has the stripped texts and the submitted dates, and it is current exactly when no end date was given. A left-out image or display order keeps the row's. |
| Forms.OptionalFields | pages/forms.py:54-57 | Image, end date and display order may be left out. Such a submission is valid and saves as a current position with display order 0. |
| Forms.ConstructKeepsFailedFields | pages/views.py:169-171 | Validating a bound form writes onto the stored row every field that passed the form field's own checks and keeps the stored value of each that failed them. The instance holds the whole submission exactly when every form field passed. It passes every check exactly when no display order above 2147483647 was written onto it. The form is valid exactly when both hold. |
| Forms.OverRangeOrderIsWritten | pages/views.py:169-171 | A display order above 2147483647 passes the form field, which bounds it only below, so it is written onto the instance. The model's range check still reports it, and the form is invalid. |
| Forms.ApplyIdempotent | pages/views.py:170-172 | Saving the same submission onto its own result changes nothing (an uploaded image is its stored path; see "Left out"). |
| Forms.ApplyIgnoresOverwrittenFields | pages/views.py:170-172 | Of the row edited, only image, display order and creation time can show through a save. |
| SeedSkills.UpsertSkill | pages/management/commands/seed_skills.py:68-83 | One iteration adds the name if missing. The row then carries the entry's category, icon, level and order, and keeps its creation time if it existed. Every other row is untouched. |
| SeedSkills.UpsertAllEffect | pages/management/commands/seed_skills.py:67-83 | For distinct names, the loop adds exactly the missing names. Every listed row carries its entry, whether it was created or already existed. Every other skill is untouched. |
| SeedSkills.UpsertAllIdempotent | pages/management/commands/seed_skills.py:67-83 | Running the loop twice gives the same table as once. |
| SeedSkills.UpsertAllKeepsValid | pages/management/commands/seed_skills.py:67-83 | Upserting valid entries keeps every skill valid. |
| SeedSkills.CatalogueNamesDistinct | pages/management/commands/seed_skills.py:15-64 | The 35 catalogue names are pairwise distinct. |
| SeedSkills.CatalogueRowsValid | pages/management/commands/seed_skills.py:15-64 | Every catalogue level is in 0..100 and every category is a declared code. |
| SeedSkills.SkillSeederEffect | pages/management/commands/seed_skills.py:66-87 | One run reports 35 processed skills, one per catalogue entry, and adds only the missing catalogue names. Every catalogue name carries its entry, existing rows keep their creation time, and other skills and all other tables are untouched. |
| SeedSkills.SkillSeederIdempotent | pages/management/commands/seed_skills.py:66-87 | Running the command twice leaves the same store as once. |
| SeedSkills.SkillSeederKeepsInvariants | pages/management/commands/seed_skills.py:15-87 | Seeding keeps the store invariants and keeps every skill valid. |
| SeedProjects.GetTechsEffect | pages/management/commands/seed_projects.py:11-16 | `get_techs` adds exactly the names it lacked, created now. It never changes or removes an existing technology. |
| SeedProjects.TechKeysAreStripped | pages/management/commands/seed_projects.py:14 | A linked technology name is exactly the stripped form of one of the listed names. |
| SeedProjects.UpsertProjectRow | pages/management/commands/seed_projects.py:48-65 | One iteration leaves the project with the entry's description, order and links. A new project is featured, with no image or link, created now. An existing one keeps those fields. No other project changes. |
| SeedProjects.UpsertProjectTechnologies | pages/management/commands/seed_projects.py:63-65 | One iteration grows the technology table by exactly the missing linked names and keeps existing rows. |
| SeedProjects.SeedAllOtherProjects | pages/management/commands/seed_projects.py:47-65 | The loop adds exactly the listed titles and leaves other projects untouched. |
| SeedProjects.SeedAllProjectRow | pages/management/commands/seed_projects.py:47-65 | For distinct titles, after the loop each listed project carries its entry. It also keeps, or gets by default, the fields the command does not write. |
| SeedProjects.SeedAllProjects | pages/management/commands/seed_projects.py:47-65 | The project table after the loop is the old one with every entry upserted. |
| SeedProjects.SeedAllTechnologies | pages/management/commands/seed_projects.py:47-65 | The technology table after the loop gains exactly the missing linked names and keeps every existing row. |
| SeedProjects.SeedAllKeepsWellFormed | pages/management/commands/seed_projects.py:63-65 | Every project link still names a stored technology after the loop. |
| SeedProjects.SeedAllIdempotent | pages/management/commands/seed_projects.py:47-65 | Running the loop twice leaves the same store as once. |
| SeedProjects.CatalogueTitlesDistinct | pages/management/commands/seed_projects.py:19-44 | The four catalogue titles are distinct. |
| SeedProjects.ProjectSeederProjectsEffect | pages/management/commands/seed_projects.py:19-65 | After one run, the four projects carry their entries. New ones are featured and created now, existing ones keep featured and their creation time, and other projects are untouched. |
| SeedProjects.ProjectSeederTechnologiesEffect | pages/management/commands/seed_projects.py:11-16 | One run only adds the linked technology names it lacked. |
| SeedProjects.ProjectSeederIdempotent | pages/management/commands/seed_projects.py:47-65 | Running the command twice leaves the same store as once. |
| SeedProjects.ProjectSeederKeepsWellFormed | pages/management/commands/seed_projects.py:63-65 | Seeding keeps every project link inside the technology table. |

Notes on choices the code makes:

- A non-partial contact POST queues the thank-you notice and then falls
  through to render the full contact page. It does not redirect, and the
  model follows that.
- The thank-you text interpolates the raw `name` value. A POST without a
  name is thanked as "None", even though nothing was stored.
- `Skill.category` is stored as its code. The database does not restrict it
  to the declared choices, so a skill with an unknown code is listed but
  belongs to no group.
- A bound model form builds its instance before the model's own validation runs. The form field for `display_order` bounds it only below, so a value above 2147483647 is written onto the instance that an invalid edit shows, and the model's range validator then reports it.
- `delete_experience` acts on any verb, GET included, as the code does.
- Experience edit and delete are not routed in `pages/urls.py`. They are
  modelled as the functions the file defines.

## Left out

- Listing.SortedSeq: Django leaves rows that tie on the whole `Meta.ordering` in database order. The model breaks such ties by the key (experience id, project title, skill name), so each listing is one definite sequence.
- Text.StrLt: string columns sort by code point. The database collation is not modelled.
- Dates.MonthYear: years below 1000 are zero-padded to four digits. Python's `strftime` padding of such years depends on the platform. `%B` gives the month name of the process locale; the model fixes the English names of the C locale, which Django never changes.
- Views.LoginView: `AuthenticationForm`'s credential check is Django's. It is the `accepted` parameter, and an invalid login simply re-renders the page.
- Views.LoginView: `login()` also writes the account's `last_login`, which the model does not keep. `redirect(next)` first tries `next` as a URL pattern name, so `?next=pages:home` goes to "/" and a bare word that names no pattern raises an error; the model redirects to the literal text.
- Middleware.ProcessRequest: signing in the guest on every anonymous request writes the guest's `last_login` through `login()`. That field is not modelled, so the model leaves the guest row as it was.
- Middleware.GuestIsReused: for the same reason, the guest's `last_login` does change on every run; only the modelled fields stay the same.
- Views.LogoutView: `login_required` sends anonymous users to `LOGIN_URL`, assumed to be the login page.
- Forms.Apply: a field left blank and a field left out are both `None`. A blank `display_order` would make the database reject the save; the model keeps the row's value instead.
- Forms.Errors: Django's own date parsing and image-file checks are not modelled. Dates arrive parsed, and an image is its stored path. The upper bound on `display_order` is the default backend range for a `PositiveIntegerField` (2147483647); a backend with another range is not modelled.
- Forms.ApplyIdempotent: an uploaded image is modelled as the path it is stored under. Django's storage stores a second upload of the same file under a fresh name, so with an image a second identical save changes the path. Without an image the lemma holds as stated.
- Views.EditIsIdempotent: the same image caveat applies. A re-submitted upload is stored under a fresh name.
- Views.Contact: the e-mail address is not validated, because the view never calls a form. `objects.create` skips model validation too. On a database that enforces column lengths, a name or subject over 200 characters or an e-mail over 254 characters makes the insert fail with a server error and nothing stored. The model always appends, as on a database that does not enforce lengths.
- `updated_at` (`auto_now`) is not modelled. With it, a re-run of a seeder would differ only in that timestamp.
- Sessions, the messages framework, template rendering and file storage are Django internals. They appear only as the identity, the notice list and the template name with its dynamic context. The fixed page texts in each context are not modelled.
- Duplicate skill names or project titles cannot be represented in a map keyed by them. `get_or_create` would raise `MultipleObjectsReturned` for them.
- The stdout progress messages of both seeders are not modelled; only the count is.
- `ContactMessage` ordering (`-created_at`) only affects the admin console. The admin site configuration, `createsuperuser` (which only raises) and the markdown template filter are not modelled.
- `static/js/cursor-trail.js` is browser animation and is not modelled.
