# Portfolio site back end and contact form, modelled in Dafny

The system is a personal portfolio web site. Its server keeps four tables:
users, projects, contact-form submissions and testimonials. It exposes a
small JSON API over them: list, fetch, create, patch and delete projects
and testimonials; submit and list contact messages; a health check. The
client's contact form validates its four fields before it posts them.

This project models:

- the in-memory store `MemStorage`. Each table is a JavaScript `Map`
  that remembers insertion order, with a serial counter beside it.
  `Storage.Tables` is the store as a value, with one function per
  operation. `Storage.MemStorage` is the class that updates the same
  fields in place, and each of its methods is proved to agree with its
  function.
- the insert schemas the server validates request bodies with: which
  keys are read, what each column accepts, and what `.partial()` changes
  for PATCH.
- every route handler, as a function from the path id, the body and the
  store to a status and a body, plus a method over the store object that
  takes the handler's steps in order. This includes `parseInt` on the
  path id, with JavaScript's white-space skipping, sign, `0x` prefix and
  trailing-text rules.
- the contact form: the per-field error messages, the email pattern
  `/^\S+@\S+\.\S+$/` (as a regular-expression meaning and a decision
  procedure, proved equivalent), and the change, validate and submit
  steps of the component's state.

Modules: `Values` (Option, Result, the JSON value and the three-way
`Nullable` of a spread payload), `Schema`, `JsMaps`, `Storage`, `JsText`
(white space and `trim`), `Routes` and `ContactForm`.

Inputs the system reads from the outside world are parameters here:

- the clock reading stamped on a new row (`now`, an opaque `nat`);
- whether a storage call throws (`fault`; only a database back end can
  throw);
- the outcome of the form's network request (`Outcome`).

## Model

| member | source | states |
|---|---|---|
| Schema.RequiredString | shared/schema.ts:22-23 | a `notNull` text column accepts exactly a string stored under its key, and yields that string |
| Schema.OptionalString | server/routes.ts:67-69 | under `.partial()` a required text column may be left out (then no value), a string is taken as is, and `null` or any other value is rejected |
| Schema.NullableString | shared/schema.ts:24 | a nullable text column reads absent, `null` or a string, and rejects every other value |
| Schema.NullableJson | shared/schema.ts:25 | a `json` column accepts every JSON value; `null` reads as null and a left-out key as absent |
| Schema.NullableInt32 | shared/schema.ts:71 | an `integer` column accepts absent, `null`, or a whole number within the signed 32-bit range |
| Schema.ParseInsertUser | shared/schema.ts:11-14 | the user body is accepted iff it is an object with string `username` and `password`, and the payload holds those strings; a rejection lists at least one issue; the payload, encoded back as JSON, is exactly the body restricted to the schema's picked keys, so every value it holds is the body's own |
| Schema.ParseInsertProject | shared/schema.ts:31-38 | the project body is accepted iff it is an object whose title and description are strings and whose three URL keys are absent, null or strings; a rejection lists at least one issue; the payload, encoded back as JSON, is exactly the body restricted to the schema's picked keys, so every value it holds is the body's own |
| Schema.ParseProjectPatch | server/routes.ts:68-69 | the partial project body is accepted iff title and description are absent or strings and the URL keys are absent, null or strings; the payload, encoded back as JSON, is exactly the body restricted to the schema's picked keys, so every value it holds is the body's own |
| Schema.ParseInsertContact | shared/schema.ts:53-58 | the contact body is accepted iff name, email and message are strings and subject is absent, null or a string; the payload, encoded back as JSON, is exactly the body restricted to the schema's picked keys, so every value it holds is the body's own |
| Schema.ParseInsertTestimonial | shared/schema.ts:75-82 | the testimonial body is accepted iff name, role, company and quote are strings, image_url is absent, null or a string, and display_order is absent, null or a 32-bit integer; the payload, encoded back as JSON, is exactly the body restricted to the schema's picked keys, so every value it holds is the body's own |
| Schema.ParseTestimonialPatch | server/routes.ts:207-208 | the partial testimonial body is accepted iff the four text keys are absent or strings and the nullable keys are as for insert; the payload, encoded back as JSON, is exactly the body restricted to the schema's picked keys, so every value it holds is the body's own |
| Schema.InsertUserRoundTrip | shared/schema.ts:11-14 | the JSON a client sends for a user payload is accepted back as exactly that payload |
| Schema.InsertProjectRoundTrip | shared/schema.ts:31-38 | every project payload the schema can yield is accepted back unchanged from its JSON, with absent keys left out and null ones sent as `null` |
| Schema.ProjectPatchRoundTrip | server/routes.ts:68-69 | every partial project payload is accepted back unchanged from its JSON |
| Schema.InsertContactRoundTrip | shared/schema.ts:53-58 | every contact payload is accepted back unchanged from its JSON |
| Schema.InsertTestimonialRoundTrip | shared/schema.ts:75-82 | every testimonial payload with a 32-bit display order is accepted back unchanged from its JSON |
| Schema.TestimonialPatchRoundTrip | server/routes.ts:207-208 | every partial testimonial payload is accepted back unchanged from its JSON |
| Schema.AtUnion | server/storage.ts:209 | `{...a, ...b}` holds at each key `b`'s value when `b` has that key, and `a`'s otherwise |
| Schema.AtExtensional | server/storage.ts:209 | two objects that agree at every key are equal |
| Schema.InsertUserFromBody | shared/schema.ts:11-14 | a user payload whose two strings are the body's encodes to the body restricted to `username` and `password` |
| Schema.InsertProjectFromBody | shared/schema.ts:31-38 | a project payload whose six columns are what the validators read from a body encodes to that body restricted to the six picked keys |
| Schema.ProjectPatchFromBody | server/routes.ts:68-69 | the same for the partial project schema: a left-out key stays left out |
| Schema.InsertContactFromBody | shared/schema.ts:53-58 | the same for the contact schema and its four keys |
| Schema.InsertTestimonialFromBody | shared/schema.ts:75-82 | the same for the testimonial schema; the display order read is within 32 bits |
| Schema.TestimonialPatchFromBody | server/routes.ts:207-208 | the same for the partial testimonial schema |
| Schema.Restrict | shared/schema.ts:11-14 | restricting a body to a key set keeps exactly the keys in both, with their values |
| Schema.InsertUserReadsPickedKeys | shared/schema.ts:11-14 | the user schema's verdict depends only on the picked keys: any other key is ignored |
| Schema.InsertProjectReadsPickedKeys | shared/schema.ts:31-38 | the project schema's verdict and payload depend only on its six picked keys |
| Schema.ProjectPatchReadsPickedKeys | server/routes.ts:68-69 | the partial project schema reads only the same six keys |
| Schema.InsertContactReadsPickedKeys | shared/schema.ts:53-58 | the contact schema reads only name, email, message and subject |
| Schema.InsertTestimonialReadsPickedKeys | shared/schema.ts:75-82 | the testimonial schema reads only its six picked keys |
| Schema.TestimonialPatchReadsPickedKeys | server/routes.ts:207-208 | the partial testimonial schema reads only the same six keys |
| Schema.ServerColumnsNotPicked | shared/schema.ts:31-38 | setting `id` or `created_at` in a body changes nothing any insert schema reads |
| Schema.ProjectPatchOf | server/routes.ts:68-69 | an insert payload seen as a patch sets title and description |
| Schema.InsertProjectIsFullPatch | server/routes.ts:68-69 | a body the project schema accepts is accepted by its `.partial()` with the same values; conversely a partial body with title and description present is a full insert body |
| Schema.TestimonialPatchOf | server/routes.ts:207-208 | an insert payload seen as a patch sets all four text columns |
| Schema.InsertTestimonialIsFullPatch | server/routes.ts:207-208 | the same two directions for testimonials |
| JsMaps.Without | server/storage.ts:215 | removing a key from the key order keeps exactly the other keys and never lengthens it |
| JsMaps.WithoutIncreasing | server/storage.ts:215 | deleting a key keeps an increasing key order increasing |
| JsMaps.WithoutDistinct | server/storage.ts:215 | deleting a key keeps the key order free of duplicates |
| JsMaps.DistinctCard | server/storage.ts:244 | a duplicate-free key order is as long as the set of its keys |
| JsMaps.JsMap.Get | server/storage.ts:172 | `map.get(k)` is defined exactly when `k` is mapped, and is its value |
| JsMaps.JsMap.Size | server/storage.ts:244 | the length of `Array.from(map.values())` is the number of mapped keys |
| JsMaps.JsMap.Values | server/storage.ts:190 | `values()` lists the value of each key in key-insertion order |
| JsMaps.JsMap.Set | server/storage.ts:184 | `map.set` maps the key to the value, keeps a present key's position and appends a new key |
| JsMaps.JsMap.Delete | server/storage.ts:215 | `map.delete` unmaps the key and takes it out of the order, the rest in order |
| JsMaps.Empty | server/storage.ts:160 | `new Map()` maps nothing and lists nothing |
| JsMaps.SetPresentKeepsOrder | server/storage.ts:210 | replacing a present key's value changes only that key's slot of `values()` |
| JsMaps.SetAbsentAppends | server/storage.ts:201 | setting a new key appends its value at the end of `values()` |
| Storage.DefaultDisplayOrder | server/storage.ts:244 | a supplied non-zero display order is kept; a missing, null or zero one becomes the number of stored testimonials plus one; the result is never zero |
| Storage.ApplyProjectPatch | server/storage.ts:209 | the merged project keeps its id and creation time; ProjectPatchIsSpread states the whole merge |
| Storage.ProjectMergeAt | server/storage.ts:209 | at each column the merged project holds the patch's value when the patch carries that key (`null` included), and the old row's otherwise |
| Storage.ProjectPatchIsSpread | server/storage.ts:205-212 | for every row and patch, the merged row as a JSON object is `{...row, ...patch}`: the old row's object overwritten by exactly the keys the patch body carries |
| Storage.ApplyTestimonialPatch | server/storage.ts:259 | the merged testimonial keeps its id and creation time; TestimonialPatchIsSpread states the whole merge |
| Storage.TestimonialMergeAt | server/storage.ts:259 | at each column the merged testimonial holds the patch's value when the patch carries that key, and the old row's otherwise |
| Storage.TestimonialPatchIsSpread | server/storage.ts:255-262 | for every row and every patch with a 32-bit display order, the merged row as a JSON object is `{...row, ...patch}` |
| Storage.InsertByKeyMultiset | server/storage.ts:233-234 | inserting into the sorted prefix adds exactly that element |
| Storage.InsertByKeySorted | server/storage.ts:233-234 | inserting into a list sorted by display order keeps it sorted |
| Storage.InsertByKeyStable | server/storage.ts:233-234 | an inserted element goes before every element of equal display order that comes later in the input, so equal keys keep input order |
| Storage.SortByDisplayOrder | server/storage.ts:233-234 | the sort's output is a permutation of its input (sortedness and stability are SortByDisplayOrderCorrect) |
| Storage.SortByDisplayOrderCorrect | server/storage.ts:233-234 | the sort's output is sorted by display order (missing and null read as 0), is a permutation of its input, and keeps input order among equal keys |
| Storage.FirstWithUsername | server/storage.ts:175-179 | the lookup is undefined iff no user has the name, and otherwise is a user with that name |
| Storage.Tables.GetUser | server/storage.ts:171-173 | the lookup is defined exactly when the id is stored and is the row stored there; in a valid store that row carries the id, which is below the counter |
| Storage.Tables.GetUserByUsername | server/storage.ts:175-179 | the lookup is undefined exactly when no stored user has the name; otherwise it is a stored user with that name, found again under its own id |
| Storage.Tables.CreateUser | server/storage.ts:181-186 | creating a user keeps the store invariant (counters beyond every id, each row under its own id) |
| Storage.Tables.GetProjects | server/storage.ts:189-191 | the project listing is in increasing id order, lists only stored rows, and lists every stored row |
| Storage.Tables.GetProject | server/storage.ts:193-195 | defined exactly when the id is stored, the stored row, which carries the id |
| Storage.Tables.CreateProject | server/storage.ts:197-203 | creating a project keeps the store invariant |
| Storage.Tables.UpdateProject | server/storage.ts:205-212 | updating a project keeps the store invariant |
| Storage.Tables.DeleteProject | server/storage.ts:214-216 | deleting a project keeps the store invariant |
| Storage.Tables.GetContacts | server/storage.ts:227-229 | the contact listing is in increasing id order, lists only stored rows, and lists every stored row |
| Storage.Tables.CreateContact | server/storage.ts:219-225 | creating a contact keeps the store invariant |
| Storage.Tables.GetTestimonials | server/storage.ts:232-235 | the listing is sorted by display order, is a permutation of the stored rows, and holds exactly the rows `getTestimonial` finds under their ids |
| Storage.Tables.GetTestimonial | server/storage.ts:237-239 | defined exactly when the id is stored, the stored row, which carries the id |
| Storage.Tables.CreateTestimonial | server/storage.ts:241-253 | creating a testimonial keeps the store invariant |
| Storage.Tables.UpdateTestimonial | server/storage.ts:255-262 | updating a testimonial keeps the store invariant |
| Storage.Tables.DeleteTestimonial | server/storage.ts:264-266 | deleting a testimonial keeps the store invariant |
| Storage.InitialTables | server/storage.ts:159-168 | a new store has empty tables and every counter at 1 |
| Storage.MemStorage.constructor | server/storage.ts:159-168 | the object starts as the empty store |
| Storage.MemStorage.GetUser | server/storage.ts:171-173 | returns the user stored under the id, or undefined when none is |
| Storage.MemStorage.GetUserByUsername | server/storage.ts:175-179 | returns the first user in insertion order with that name |
| Storage.MemStorage.CreateUser | server/storage.ts:181-186 | the new fields and the returned user are those of `Tables.CreateUser` on the old fields |
| Storage.MemStorage.GetProjects | server/storage.ts:189-191 | returns the listing of `Tables.GetProjects` |
| Storage.MemStorage.GetProject | server/storage.ts:193-195 | returns the project stored under the id, or undefined |
| Storage.MemStorage.CreateProject | server/storage.ts:197-203 | the new fields and the result are those of `Tables.CreateProject` |
| Storage.MemStorage.UpdateProject | server/storage.ts:205-212 | the new fields and the result are those of `Tables.UpdateProject` |
| Storage.MemStorage.DeleteProject | server/storage.ts:214-216 | the new fields and the result are those of `Tables.DeleteProject` |
| Storage.MemStorage.CreateContact | server/storage.ts:219-225 | the new fields and the result are those of `Tables.CreateContact` |
| Storage.MemStorage.GetContacts | server/storage.ts:227-229 | returns the listing of `Tables.GetContacts` |
| Storage.MemStorage.GetTestimonials | server/storage.ts:232-235 | returns the sorted listing of `Tables.GetTestimonials` |
| Storage.MemStorage.GetTestimonial | server/storage.ts:237-239 | returns the testimonial stored under the id, or undefined |
| Storage.MemStorage.CreateTestimonial | server/storage.ts:241-253 | the new fields and the result are those of `Tables.CreateTestimonial` |
| Storage.MemStorage.UpdateTestimonial | server/storage.ts:255-262 | the new fields and the result are those of `Tables.UpdateTestimonial` |
| Storage.MemStorage.DeleteTestimonial | server/storage.ts:264-266 | the new fields and the result are those of `Tables.DeleteTestimonial` |
| Storage.CreateProjectThenGet | server/storage.ts:197-203 | a created project gets the current counter as id, which was free; it then advances. The row is the payload plus id and clock reading, it is what `getProject` returns, every other id is unaffected, and the listing gains it at the end |
| Storage.CreateContactThenList | server/storage.ts:219-229 | a created contact gets the next id, carries the payload and clock reading, and is appended to the listing |
| Storage.CreateTestimonialThenGet | server/storage.ts:241-253 | a created testimonial gets the next id and the default display order; its other columns are the payload's, it is stored, and no other id changes |
| Storage.CreateUserThenGet | server/storage.ts:181-186 | a created user gets the next id, which was free, keeps name and password, is stored under that id, and every other id is unaffected |
| Storage.FirstWithUsernameSkips | server/storage.ts:175-179 | users without the name in front of a list do not change what the lookup finds |
| Storage.DuplicateUsernameAccepted | server/storage.ts:175-186 | uniqueness is not enforced: when no stored user has the name, two creations with it store two users under distinct ids, and lookup by name finds the first |
| Storage.DeleteThenCreateFreshId | server/storage.ts:214-216 | a deletion leaves the counter alone, so the next project's id differs from the deleted one and exceeds every id stored before |
| Storage.UpdateAbsentChangesNothing | server/storage.ts:206-207 | updating an id that is not stored answers undefined and leaves the store unchanged |
| Storage.UpdateProjectPresent | server/storage.ts:205-212 | updating a stored project stores and returns the merge, keeps id and creation time, leaves other rows, the counter and the key order alone, and replaces the row in place in the listing |
| Storage.UpdateTestimonialPresent | server/storage.ts:255-262 | updating a stored testimonial stores and returns the merge, keeping id, creation time, other rows, the key order and the counter |
| Storage.DeleteProjectTwice | server/storage.ts:214-216 | delete answers whether the id was stored and removes only it; deleting again answers false and changes nothing |
| Storage.DeleteTestimonialTwice | server/storage.ts:264-266 | delete answers whether the id was stored, removes only it and leaves the counter alone; deleting again answers false and changes nothing |
| Storage.GetTestimonialsOrdered | server/storage.ts:232-235 | the testimonial listing is sorted by display order, is a permutation of the stored rows, keeps insertion order among equal orders, and contains every stored row |
| Storage.ProjectPatchLaws | server/storage.ts:209 | an empty patch leaves a row as it is, and applying a patch twice equals applying it once |
| Storage.TitleOnlyPatch | server/storage.ts:209 | a patch naming only the title changes only the title |
| JsText.Trim | client/src/components/ContactForm.tsx:44 | `trim()` never lengthens a string, and what it leaves neither starts nor ends with white space |
| JsText.TrimStartFacts | client/src/components/ContactForm.tsx:44 | trimming the start cuts a prefix made only of white space and leaves a string that does not start with white space |
| JsText.TrimEndFacts | client/src/components/ContactForm.tsx:44 | trimming the end cuts a suffix made only of white space and leaves a string that does not end with white space |
| JsText.TrimIsSlice | client/src/components/ContactForm.tsx:44 | `trim()` is the slice between a white-space prefix and a white-space suffix, with visible characters at both ends |
| JsText.TrimEmptyIffBlank | client/src/components/ContactForm.tsx:44 | `!s.trim()` holds exactly when every character of `s` is white space |
| Routes.ParseInt | server/routes.ts:23 | `parseInt` is NaN exactly when, after leading white space and one optional sign, there is no decimal digit (or, after a `0x` prefix, no hex digit); a negative result comes only after `-`, and `-` gives no positive result |
| Routes.DigitPrefix | server/routes.ts:23 | the digit run `parseInt` reads is the longest prefix of digits of the radix |
| Routes.NatToDecimalValue | server/routes.ts:23 | the decimal digits of a number denote that number |
| Routes.ParseIntReadsDecimal | server/routes.ts:23-26 | `parseInt` gives back every integer written in decimal, followed by any text that does not start with a digit (nor with `x` or `X` when the number is 0) |
| Routes.ParseIntIgnoresTrailingText | server/routes.ts:62 | `parseInt("12abc")` is 12, so such a path id passes the NaN check |
| Routes.ParseIntStopsAtFraction | server/routes.ts:92 | `parseInt("1.5")` is 1 |
| Routes.ParseIntWithoutDigits | server/routes.ts:23-26 | `parseInt("abc")` is NaN |
| Routes.ParseIntSignWithoutDigits | server/routes.ts:160-163 | a lone sign is NaN |
| Routes.ParseIntSkipsWhitespace | server/routes.ts:201 | leading white space does not change the result |
| Routes.ParseIntSkipsSpace | server/routes.ts:232 | `parseInt(" -7")` is -7 |
| Routes.ParseIntHexPrefix | server/routes.ts:62 | `parseInt("0x1A")` is 26: a `0x` prefix switches to radix 16 |
| Routes.HealthRoute | server/routes.ts:252-254 | the health route answers 200 with status `ok` |
| Routes.ListProjectsRoute | server/routes.ts:10-18 | 200 exactly when storage does not fail, with a listing in increasing id order that holds exactly the stored projects |
| Routes.GetProjectRoute | server/routes.ts:21-38 | 400 exactly for an id `parseInt` reads as NaN; 200 exactly when the id is read, storage does not fail and a project is stored there, whose row is the body; 404 exactly when no project is stored there |
| Routes.PostProjectRoute | server/routes.ts:41-57 | the create-project decision keeps the store invariant |
| Routes.PatchProjectRoute | server/routes.ts:60-87 | the patch-project decision keeps the store invariant |
| Routes.DeleteProjectRoute | server/routes.ts:90-107 | the delete-project decision keeps the store invariant |
| Routes.PostContactRoute | server/routes.ts:113-129 | the contact-submission decision keeps the store invariant |
| Routes.ListContactsRoute | server/routes.ts:132-141 | 200 exactly when storage does not fail, with a listing in increasing id order that holds exactly the stored contacts |
| Routes.ListTestimonialsRoute | server/routes.ts:147-155 | 200 exactly when storage does not fail, with a listing sorted by display order that is a permutation of the stored testimonials |
| Routes.GetTestimonialRoute | server/routes.ts:158-175 | 400 exactly for an unreadable id; 200 with the stored row exactly when one is stored under the id and storage does not fail; 404 exactly when none is |
| Routes.PostTestimonialRoute | server/routes.ts:178-195 | the create-testimonial decision keeps the store invariant |
| Routes.PatchTestimonialRoute | server/routes.ts:198-226 | the patch-testimonial decision keeps the store invariant |
| Routes.DeleteTestimonialRoute | server/routes.ts:229-247 | the delete-testimonial decision keeps the store invariant |
| Routes.HandleListProjects | server/routes.ts:10-18 | the handler's response is that of `ListProjectsRoute` on the store |
| Routes.HandleGetProject | server/routes.ts:21-38 | the handler's response is that of `GetProjectRoute` |
| Routes.HandlePostProject | server/routes.ts:41-57 | new store and response are those of `PostProjectRoute` on the old store |
| Routes.HandlePatchProject | server/routes.ts:60-87 | new store and response are those of `PatchProjectRoute` |
| Routes.HandleDeleteProject | server/routes.ts:90-107 | new store and response are those of `DeleteProjectRoute` |
| Routes.HandlePostContact | server/routes.ts:113-129 | new store and response are those of `PostContactRoute` |
| Routes.HandleListContacts | server/routes.ts:132-141 | the response is that of `ListContactsRoute` |
| Routes.HandleListTestimonials | server/routes.ts:147-155 | the response is that of `ListTestimonialsRoute` |
| Routes.HandleGetTestimonial | server/routes.ts:158-175 | the response is that of `GetTestimonialRoute` |
| Routes.HandlePostTestimonial | server/routes.ts:178-195 | new store and response are those of `PostTestimonialRoute` |
| Routes.HandlePatchTestimonial | server/routes.ts:198-226 | new store and response are those of `PatchTestimonialRoute` |
| Routes.HandleDeleteTestimonial | server/routes.ts:229-247 | new store and response are those of `DeleteTestimonialRoute` |
| Routes.UnreadableIdRejected | server/routes.ts:62-65 | an id that `parseInt` reads as NaN gets 400 with the route's message on GET, PATCH and DELETE, whatever the body, before any validation or storage call, and the store is unchanged |
| Routes.InvalidProjectBodyRejected | server/routes.ts:43-49 | a project body that fails validation gets 400 with "Invalid project data" and a non-empty issue list on POST and PATCH, and nothing is written |
| Routes.InvalidContactBodyRejected | server/routes.ts:115-121 | a contact body that fails validation gets 400 with "Invalid contact data" and a non-empty issue list, and nothing is written |
| Routes.InvalidTestimonialBodyRejected | server/routes.ts:181-187 | a testimonial body that fails validation gets 400 with "Invalid testimonial data" and a non-empty issue list on POST and PATCH, and nothing is written |
| Routes.StorageFaultAnswers500 | server/routes.ts:53-56 | when the storage call throws, every handler answers 500 with its fixed message and the store is unchanged |
| Routes.PostProjectThenGet | server/routes.ts:41-52 | a valid project body gets 201 with the created row (payload, next id, clock reading); GET of that id then answers 200 with it, and the listing gains it at the end |
| Routes.PatchProjectAnswers | server/routes.ts:60-82 | with a readable id and a valid body, PATCH answers 200 with the merged row, which GET then returns, and other rows are unchanged; an unknown id answers 404 and changes nothing |
| Routes.DeleteProjectThenGone | server/routes.ts:97-102 | DELETE answers 204 exactly when the id was stored, else 404; afterwards GET and a second DELETE answer 404 |
| Routes.PostContactAnswers | server/routes.ts:115-124 | a valid contact body gets 201 `{success: true, id}` with the next contact id, and the listing gains the submission; an invalid one gets 400 with issues and nothing is written |
| Routes.PostTestimonialThenGet | server/routes.ts:181-190 | a valid testimonial body gets 201 with the row and its default display order; GET of its id answers 200 with it and the listing contains it |
| Routes.TestimonialUpdateAndDelete | server/routes.ts:198-242 | PATCH and DELETE of testimonials answer as those of projects: 200 with the merge or 404, and 204 then 404 |
| Routes.FreshStoreContact | server/routes.ts:113-124 | on a fresh store, Ana's submission gets 201 `{success: true, id: 1}` and is then the only contact listed |
| Routes.FreshStoreBadIds | server/routes.ts:90-100 | `GET /api/projects/abc` gets 400, and `DELETE /api/projects/999` on a fresh store gets 404 |
| ContactForm.FormState.With | client/src/components/ContactForm.tsx:31 | setting a field changes that field to the value and no other field |
| ContactForm.MatchesEmailPattern | client/src/components/ContactForm.tsx:50 | the regular expression `^\S+@\S+\.\S+$` as a predicate: non-empty runs without white space around an `@` and a later `.` (its decision procedure is proved equal to it in EmailCheckMatchesPattern) |
| ContactForm.EmailLooksValid | client/src/components/ContactForm.tsx:50 | the decision procedure for the pattern: no white space, a first `@` after index 0 and a last `.` at least two places after it and before the end |
| ContactForm.FindFrom | client/src/components/ContactForm.tsx:50 | finds the first `@` at or after a position, or reports there is none |
| ContactForm.FindLastBefore | client/src/components/ContactForm.tsx:50 | finds the last `.` before a position, or reports there is none |
| ContactForm.PatternGivesPositions | client/src/components/ContactForm.tsx:50 | a match of the pattern has no white space, an `@` at an index i > 0, and a `.` at an index j with i + 1 < j < length - 1 |
| ContactForm.PositionsGivePattern | client/src/components/ContactForm.tsx:50 | such positions in a string without white space give a match of the pattern |
| ContactForm.EmailCheckMatchesPattern | client/src/components/ContactForm.tsx:50 | the decision procedure accepts exactly the strings the pattern matches |
| ContactForm.EmailAccepted | client/src/components/ContactForm.tsx:50 | `ana@x.io` passes |
| ContactForm.EmailNoDotRejected | client/src/components/ContactForm.tsx:50 | `ana@xio` fails: no dot after the `@` |
| ContactForm.EmailEmptyNameRejected | client/src/components/ContactForm.tsx:50 | `@x.io` fails: nothing before the `@` |
| ContactForm.EmailSpaceRejected | client/src/components/ContactForm.tsx:50 | a trailing space fails, since the email is tested untrimmed |
| ContactForm.ValidationErrors | client/src/components/ContactForm.tsx:40-60 | the error map has an entry for a field exactly when that field's check fails, holding that check's message |
| ContactForm.RequiredError | client/src/components/ContactForm.tsx:44-46 | the check of a required field on its trimmed value (its meaning is RequiredErrorMeaning) |
| ContactForm.EmailError | client/src/components/ContactForm.tsx:48-52 | the check of the email field, "required" before "invalid" (its meaning is EmailErrorMeaning) |
| ContactForm.FieldError | client/src/components/ContactForm.tsx:43-56 | the error each field gets, the subject none (its meaning is ValidationErrorsMeaning) |
| ContactForm.RequiredErrorMeaning | client/src/components/ContactForm.tsx:44-46 | a required field has its message exactly when it is blank |
| ContactForm.EmailErrorMeaning | client/src/components/ContactForm.tsx:48-52 | a blank email gets "Email is required"; a non-blank one failing the pattern gets "Please enter a valid email address"; there is no email error exactly when the pattern matches |
| ContactForm.ValidationErrorsMeaning | client/src/components/ContactForm.tsx:43-56 | name and message errors exactly when blank, the email error with "required" before "invalid", and never a subject error |
| ContactForm.ValidExactlyWhen | client/src/components/ContactForm.tsx:58-59 | the form is valid exactly when name and message are not blank and the email matches the pattern |
| ContactForm.EmptyFormRejected | client/src/components/ContactForm.tsx:82-88 | the form as reset after a successful send fails with the three "required" messages |
| ContactForm.ServerAcceptsEveryForm | client/src/components/ContactForm.tsx:74-78 | the server's contact schema accepts whatever the form posts, even a form the client would reject, and stores the subject as sent |
| ContactForm.ContactFormComponent.constructor | client/src/components/ContactForm.tsx:17-26 | the form starts with four empty fields, no errors, not submitting, status idle |
| ContactForm.ContactFormComponent.HandleChange | client/src/components/ContactForm.tsx:29-37 | sets only the named field; clears that field's error only if one was shown; leaves the rest of the state alone |
| ContactForm.ContactFormComponent.ValidateForm | client/src/components/ContactForm.tsx:40-60 | replaces the errors by those of the current fields and answers whether there are none |
| ContactForm.ContactFormComponent.HandleSubmit | client/src/components/ContactForm.tsx:63-100 | an invalid form sends nothing and keeps the fields, flag and status. A valid one sends the fields; an ok response sets success and resets the fields, any other outcome sets error and keeps them. The submitting flag ends false |

## Left out

- `PostgresStorage` and the choice of back end by environment variable: every method there is one call into a database driver. The possibility that such a call throws is kept, as the `fault` input of the handlers.
- Express, HTTP and the `async`/`Promise` wrapping: handlers are synchronous decisions returning a status and a body, and `res.json` serialisation is not modelled.
- Logging (`console.error`, `log`).
- Zod's issue objects: a rejection carries the list of offending keys, not zod's codes, paths and messages.
- Routes.ParseInt: integers are exact. JavaScript's `parseInt` returns a float, so digit strings beyond 2^53 lose precision, and `-0` is not distinguished from `0`. Such ids are never stored, so they answer 404 either way.
- Schema.NullableJson: `tags` accepts any JSON value. The column's `$type<string[]>()` annotation is a compile-time type only, and the insert schema built from a `json` column does not check element types at run time. A "list of strings" constraint is therefore not enforced by the code.
- Schema.NullableInt32: follows the insert schema of an `integer` column as a whole number within 32 bits. Older versions of the schema generator accept any number; that variant is not modelled.
- `Date` values are an opaque `nat` clock reading supplied by the caller.
- ContactForm.ContactFormComponent.HandleChange: the source sets a cleared error to `undefined` and keeps the key; the model removes the key. No reader of the errors can tell the two apart, since both are falsy and `validateForm` builds a fresh map.
- ContactForm.ContactFormComponent.HandleSubmit: the intermediate render state (submitting flag true, status idle while the request is in flight) is internal to the method. The request itself is the returned `sent` value, and its outcome is an input. What the server does with the request is covered by the route lemmas.
- The presentational components, the mobile menu, the carousels and the intersection-observer hook: markup, timers and browser APIs only.
