/** The four tables of the portfolio database and their insert schemas.

    A table row is a datatype whose nullable columns are `Nullable` (see
    module Values). An insert payload holds exactly the picked columns:
    never `id` (a serial primary key) and never `created_at` (defaulted to
    the insert time). A patch is the `.partial()` of an insert schema: every
    column becomes optional, so a required column is an `Option` and a
    nullable one is a `Nullable` whose `Absent` means "not in the patch".

    Validation follows the insert schemas derived from the table
    definitions: a `text` column accepts a JSON string, an `integer` column a
    whole number in the 32-bit range, a `json` column any JSON value; a
    nullable column also accepts `null` and may be left out; keys the schema
    does not pick are dropped, not rejected. */
module Schema {
  import opened Values

  /** A reading of the server clock; its representation is not modelled. */
  type Timestamp = nat

  const Int32Min: int := -0x8000_0000
  const Int32Max: int := 0x7FFF_FFFF

  // ---------------------------------------------------------------------
  // Table rows

  datatype User = User(id: int, username: string, password: string)

  datatype Project = Project(
    id: int,
    title: string,
    description: string,
    imageUrl: Nullable<string>,
    tags: Nullable<Json>,
    projectUrl: Nullable<string>,
    githubUrl: Nullable<string>,
    createdAt: Timestamp)

  datatype Contact = Contact(
    id: int,
    name: string,
    email: string,
    message: string,
    subject: Nullable<string>,
    createdAt: Timestamp)

  datatype Testimonial = Testimonial(
    id: int,
    name: string,
    role: string,
    company: string,
    quote: string,
    imageUrl: Nullable<string>,
    displayOrder: Nullable<int>,
    createdAt: Timestamp)

  // ---------------------------------------------------------------------
  // Insert payloads and patches

  datatype InsertUser = InsertUser(username: string, password: string)

  datatype InsertProject = InsertProject(
    title: string,
    description: string,
    imageUrl: Nullable<string>,
    tags: Nullable<Json>,
    projectUrl: Nullable<string>,
    githubUrl: Nullable<string>)

  datatype ProjectPatch = ProjectPatch(
    title: Option<string>,
    description: Option<string>,
    imageUrl: Nullable<string>,
    tags: Nullable<Json>,
    projectUrl: Nullable<string>,
    githubUrl: Nullable<string>)

  datatype InsertContact = InsertContact(
    name: string,
    email: string,
    message: string,
    subject: Nullable<string>)

  datatype InsertTestimonial = InsertTestimonial(
    name: string,
    role: string,
    company: string,
    quote: string,
    imageUrl: Nullable<string>,
    displayOrder: Nullable<int>)

  datatype TestimonialPatch = TestimonialPatch(
    name: Option<string>,
    role: Option<string>,
    company: Option<string>,
    quote: Option<string>,
    imageUrl: Nullable<string>,
    displayOrder: Nullable<int>)

  /** One complaint of a failed validation: the body is not a JSON object,
      or the named key holds a value its column does not accept. */
  datatype Issue = NotAnObject | BadField(key: string)

  // ---------------------------------------------------------------------
  // Column validators: None means the value is rejected.

  /** A `text().notNull()` column: the key must hold a string. */
  function RequiredString(o: map<string, Json>, key: string): (r: Option<string>)
    ensures r.Some? <==> key in o && o[key].JStr?
    ensures r.Some? ==> o[key] == JStr(r.value)
  {
    if key in o && o[key].JStr? then Some(o[key].s) else None
  }

  /** A `text().notNull()` column under `.partial()`: may be left out, but
      `null` is still rejected. */
  function OptionalString(o: map<string, Json>, key: string): (r: Option<Option<string>>)
    ensures r.Some? <==> key !in o || o[key].JStr?
    ensures r == Some(None) <==> key !in o
    ensures r.Some? && r.value.Some? ==> key in o && o[key] == JStr(r.value.value)
  {
    if key !in o then Some(None)
    else if o[key].JStr? then Some(Some(o[key].s))
    else None
  }

  /** A nullable `text()` column. */
  function NullableString(o: map<string, Json>, key: string): (r: Option<Nullable<string>>)
    ensures r.Some? <==> key !in o || o[key] == JNull || o[key].JStr?
    ensures r == Some(Absent) <==> key !in o
    ensures r == Some(Null) <==> key in o && o[key] == JNull
    ensures r.Some? && r.value.Present? ==> key in o && o[key] == JStr(r.value.value)
  {
    if key !in o then Some(Absent)
    else match o[key]
      case JNull => Some(Null)
      case JStr(s) => Some(Present(s))
      case _ => None
  }

  /** A nullable `json()` column: every JSON value is accepted. */
  function NullableJson(o: map<string, Json>, key: string): (r: Option<Nullable<Json>>)
    ensures r.Some?
    ensures r.value == Absent <==> key !in o
    ensures r.value == Null <==> key in o && o[key] == JNull
    ensures r.value.Present? ==> key in o && o[key] == r.value.value && r.value.value != JNull
  {
    if key !in o then Some(Absent)
    else if o[key] == JNull then Some(Null)
    else Some(Present(o[key]))
  }

  predicate IsInt32(i: int) {
    Int32Min <= i <= Int32Max
  }

  /** A nullable `integer()` column: a whole number in the 32-bit range. */
  function NullableInt32(o: map<string, Json>, key: string): (r: Option<Nullable<int>>)
    ensures r.Some? <==> key !in o || o[key] == JNull || (o[key].JInt? && IsInt32(o[key].i))
    ensures r == Some(Absent) <==> key !in o
    ensures r == Some(Null) <==> key in o && o[key] == JNull
    ensures r.Some? && r.value.Present? ==> key in o && o[key] == JInt(r.value.value) && IsInt32(r.value.value)
  {
    if key !in o then Some(Absent)
    else match o[key]
      case JNull => Some(Null)
      case JInt(i) => if IsInt32(i) then Some(Present(i)) else None
      case _ => None
  }

  /** The complaint a rejected key contributes to the validation details. */
  function Check<T>(key: string, r: Option<T>): (issues: seq<Issue>)
    ensures issues == [] <==> r.Some?
    ensures r.None? ==> issues == [BadField(key)]
  {
    if r.Some? then [] else [BadField(key)]
  }

  // ---------------------------------------------------------------------
  // Insert schemas (`safeParse` of the request body)

  const UserKeys: set<string> := {"username", "password"}
  const ProjectKeys: set<string> := {"title", "description", "image_url", "tags", "project_url", "github_url"}
  const ContactKeys: set<string> := {"name", "email", "message", "subject"}
  const TestimonialKeys: set<string> := {"name", "role", "company", "quote", "image_url", "display_order"}

  function ParseInsertUser(body: Json): (r: Result<InsertUser, seq<Issue>>)
    ensures r.Ok? <==> body.JObj? && RequiredString(body.fields, "username").Some?
                       && RequiredString(body.fields, "password").Some?
    ensures r.Ok? ==> body.fields["username"] == JStr(r.value.username)
                      && body.fields["password"] == JStr(r.value.password)
    ensures r.Ok? ==> body.JObj? && EncodeInsertUser(r.value) == JObj(Restrict(body.fields, UserKeys))
    ensures r.Err? ==> r.error != []
  {
    match body
    case JObj(o) =>
      var username := RequiredString(o, "username");
      var password := RequiredString(o, "password");
      var issues := Check("username", username) + Check("password", password);
      if issues == [] then
        var v := InsertUser(username.value, password.value);
        InsertUserFromBody(o, v);
        Ok(v)
      else Err(issues)
    case _ => Err([NotAnObject])
  }

  function ParseInsertProject(body: Json): (r: Result<InsertProject, seq<Issue>>)
    ensures r.Ok? <==> body.JObj? && RequiredString(body.fields, "title").Some?
                       && RequiredString(body.fields, "description").Some?
                       && NullableString(body.fields, "image_url").Some?
                       && NullableString(body.fields, "project_url").Some?
                       && NullableString(body.fields, "github_url").Some?
    ensures r.Ok? ==> body.JObj? && EncodableProject(r.value.tags)
                      && EncodeInsertProject(r.value) == JObj(Restrict(body.fields, ProjectKeys))
    ensures r.Err? ==> r.error != []
  {
    match body
    case JObj(o) =>
      var title := RequiredString(o, "title");
      var description := RequiredString(o, "description");
      var imageUrl := NullableString(o, "image_url");
      var tags := NullableJson(o, "tags");
      var projectUrl := NullableString(o, "project_url");
      var githubUrl := NullableString(o, "github_url");
      var issues := Check("title", title) + Check("description", description)
                    + Check("image_url", imageUrl) + Check("tags", tags)
                    + Check("project_url", projectUrl) + Check("github_url", githubUrl);
      if issues == [] then
        var v := InsertProject(title.value, description.value, imageUrl.value, tags.value,
                          projectUrl.value, githubUrl.value);
        InsertProjectFromBody(o, v);
        Ok(v)
      else Err(issues)
    case _ => Err([NotAnObject])
  }

  function ParseProjectPatch(body: Json): (r: Result<ProjectPatch, seq<Issue>>)
    ensures r.Ok? <==> body.JObj? && OptionalString(body.fields, "title").Some?
                       && OptionalString(body.fields, "description").Some?
                       && NullableString(body.fields, "image_url").Some?
                       && NullableString(body.fields, "project_url").Some?
                       && NullableString(body.fields, "github_url").Some?
    ensures r.Ok? ==> body.JObj? && EncodableProject(r.value.tags)
                      && EncodeProjectPatch(r.value) == JObj(Restrict(body.fields, ProjectKeys))
    ensures r.Err? ==> r.error != []
  {
    match body
    case JObj(o) =>
      var title := OptionalString(o, "title");
      var description := OptionalString(o, "description");
      var imageUrl := NullableString(o, "image_url");
      var tags := NullableJson(o, "tags");
      var projectUrl := NullableString(o, "project_url");
      var githubUrl := NullableString(o, "github_url");
      var issues := Check("title", title) + Check("description", description)
                    + Check("image_url", imageUrl) + Check("tags", tags)
                    + Check("project_url", projectUrl) + Check("github_url", githubUrl);
      if issues == [] then
        var v := ProjectPatch(title.value, description.value, imageUrl.value, tags.value,
                          projectUrl.value, githubUrl.value);
        ProjectPatchFromBody(o, v);
        Ok(v)
      else Err(issues)
    case _ => Err([NotAnObject])
  }

  function ParseInsertContact(body: Json): (r: Result<InsertContact, seq<Issue>>)
    ensures r.Ok? <==> body.JObj? && RequiredString(body.fields, "name").Some?
                       && RequiredString(body.fields, "email").Some?
                       && RequiredString(body.fields, "message").Some?
                       && NullableString(body.fields, "subject").Some?
    ensures r.Ok? ==> body.JObj? && EncodeInsertContact(r.value) == JObj(Restrict(body.fields, ContactKeys))
    ensures r.Err? ==> r.error != []
  {
    match body
    case JObj(o) =>
      var name := RequiredString(o, "name");
      var email := RequiredString(o, "email");
      var message := RequiredString(o, "message");
      var subject := NullableString(o, "subject");
      var issues := Check("name", name) + Check("email", email)
                    + Check("message", message) + Check("subject", subject);
      if issues == [] then
        var v := InsertContact(name.value, email.value, message.value, subject.value);
        InsertContactFromBody(o, v);
        Ok(v)
      else Err(issues)
    case _ => Err([NotAnObject])
  }

  function ParseInsertTestimonial(body: Json): (r: Result<InsertTestimonial, seq<Issue>>)
    ensures r.Ok? <==> body.JObj? && RequiredString(body.fields, "name").Some?
                       && RequiredString(body.fields, "role").Some?
                       && RequiredString(body.fields, "company").Some?
                       && RequiredString(body.fields, "quote").Some?
                       && NullableString(body.fields, "image_url").Some?
                       && NullableInt32(body.fields, "display_order").Some?
    ensures r.Ok? ==> body.JObj? && EncodableOrder(r.value.displayOrder)
                      && EncodeInsertTestimonial(r.value) == JObj(Restrict(body.fields, TestimonialKeys))
    ensures r.Err? ==> r.error != []
  {
    match body
    case JObj(o) =>
      var name := RequiredString(o, "name");
      var role := RequiredString(o, "role");
      var company := RequiredString(o, "company");
      var quote := RequiredString(o, "quote");
      var imageUrl := NullableString(o, "image_url");
      var displayOrder := NullableInt32(o, "display_order");
      var issues := Check("name", name) + Check("role", role)
                    + Check("company", company) + Check("quote", quote)
                    + Check("image_url", imageUrl) + Check("display_order", displayOrder);
      if issues == [] then
        var v := InsertTestimonial(name.value, role.value, company.value, quote.value,
                          imageUrl.value, displayOrder.value);
        InsertTestimonialFromBody(o, v);
        Ok(v)
      else Err(issues)
    case _ => Err([NotAnObject])
  }

  function ParseTestimonialPatch(body: Json): (r: Result<TestimonialPatch, seq<Issue>>)
    ensures r.Ok? <==> body.JObj? && OptionalString(body.fields, "name").Some?
                       && OptionalString(body.fields, "role").Some?
                       && OptionalString(body.fields, "company").Some?
                       && OptionalString(body.fields, "quote").Some?
                       && NullableString(body.fields, "image_url").Some?
                       && NullableInt32(body.fields, "display_order").Some?
    ensures r.Ok? ==> body.JObj? && EncodableOrder(r.value.displayOrder)
                      && EncodeTestimonialPatch(r.value) == JObj(Restrict(body.fields, TestimonialKeys))
    ensures r.Err? ==> r.error != []
  {
    match body
    case JObj(o) =>
      var name := OptionalString(o, "name");
      var role := OptionalString(o, "role");
      var company := OptionalString(o, "company");
      var quote := OptionalString(o, "quote");
      var imageUrl := NullableString(o, "image_url");
      var displayOrder := NullableInt32(o, "display_order");
      var issues := Check("name", name) + Check("role", role)
                    + Check("company", company) + Check("quote", quote)
                    + Check("image_url", imageUrl) + Check("display_order", displayOrder);
      if issues == [] then
        var v := TestimonialPatch(name.value, role.value, company.value, quote.value,
                          imageUrl.value, displayOrder.value);
        TestimonialPatchFromBody(o, v);
        Ok(v)
      else Err(issues)
    case _ => Err([NotAnObject])
  }

  // ---------------------------------------------------------------------
  // Encoders: the JSON body a client sends for a payload. An Absent column
  // is left out of the object, a Null one is sent as `null`.

  function StringEntry(key: string, v: Nullable<string>): (m: map<string, Json>)
    ensures m.Keys <= {key}
    ensures NullableString(m, key) == Some(v)
  {
    match v
    case Absent => map[]
    case Null => map[key := JNull]
    case Present(s) => map[key := JStr(s)]
  }

  function JsonEntry(key: string, v: Nullable<Json>): (m: map<string, Json>)
    requires v != Present(JNull)
    ensures m.Keys <= {key}
    ensures NullableJson(m, key) == Some(v)
  {
    match v
    case Absent => map[]
    case Null => map[key := JNull]
    case Present(j) => map[key := j]
  }

  function IntEntry(key: string, v: Nullable<int>): (m: map<string, Json>)
    requires v.Present? ==> IsInt32(v.value)
    ensures m.Keys <= {key}
    ensures NullableInt32(m, key) == Some(v)
  {
    match v
    case Absent => map[]
    case Null => map[key := JNull]
    case Present(i) => map[key := JInt(i)]
  }

  function OptionEntry(key: string, v: Option<string>): (m: map<string, Json>)
    ensures m.Keys <= {key}
    ensures OptionalString(m, key) == Some(v)
  {
    match v
    case None => map[]
    case Some(s) => map[key := JStr(s)]
  }

  /** A payload the validators can produce: a json column never holds
      Present(null) (null reads as Null) and an integer column stays in
      32 bits. */
  predicate EncodableProject(tags: Nullable<Json>) { tags != Present(JNull) }

  predicate EncodableOrder(displayOrder: Nullable<int>) {
    displayOrder.Present? ==> IsInt32(displayOrder.value)
  }

  function EncodeInsertUser(u: InsertUser): Json {
    JObj(map["username" := JStr(u.username), "password" := JStr(u.password)])
  }

  function EncodeInsertProject(p: InsertProject): Json
    requires EncodableProject(p.tags)
  {
    JObj(map["title" := JStr(p.title), "description" := JStr(p.description)]
         + StringEntry("image_url", p.imageUrl) + JsonEntry("tags", p.tags)
         + StringEntry("project_url", p.projectUrl) + StringEntry("github_url", p.githubUrl))
  }

  function EncodeProjectPatch(p: ProjectPatch): Json
    requires EncodableProject(p.tags)
  {
    JObj(OptionEntry("title", p.title) + OptionEntry("description", p.description)
         + StringEntry("image_url", p.imageUrl) + JsonEntry("tags", p.tags)
         + StringEntry("project_url", p.projectUrl) + StringEntry("github_url", p.githubUrl))
  }

  function EncodeInsertContact(c: InsertContact): Json {
    JObj(map["name" := JStr(c.name), "email" := JStr(c.email), "message" := JStr(c.message)]
         + StringEntry("subject", c.subject))
  }

  function EncodeInsertTestimonial(t: InsertTestimonial): Json
    requires EncodableOrder(t.displayOrder)
  {
    JObj(map["name" := JStr(t.name), "role" := JStr(t.role),
             "company" := JStr(t.company), "quote" := JStr(t.quote)]
         + StringEntry("image_url", t.imageUrl) + IntEntry("display_order", t.displayOrder))
  }

  function EncodeTestimonialPatch(t: TestimonialPatch): Json
    requires EncodableOrder(t.displayOrder)
  {
    JObj(OptionEntry("name", t.name) + OptionEntry("role", t.role)
         + OptionEntry("company", t.company) + OptionEntry("quote", t.quote)
         + StringEntry("image_url", t.imageUrl) + IntEntry("display_order", t.displayOrder))
  }

  // ---------------------------------------------------------------------
  // Reading one key of an encoded object

  /** The value an object holds under a key, or None when the key is
      missing. */
  function At(o: map<string, Json>, k: string): Option<Json> {
    if k in o then Some(o[k]) else None
  }

  /** What a column of each kind puts under its key: nothing when absent,
      `null`, or its value. */
  function JsonOfString(v: Nullable<string>): Option<Json> {
    match v
    case Absent => None
    case Null => Some(JNull)
    case Present(s) => Some(JStr(s))
  }

  function JsonOfJson(v: Nullable<Json>): Option<Json> {
    match v
    case Absent => None
    case Null => Some(JNull)
    case Present(j) => Some(j)
  }

  function JsonOfInt(v: Nullable<int>): Option<Json> {
    match v
    case Absent => None
    case Null => Some(JNull)
    case Present(i) => Some(JInt(i))
  }

  function JsonOfOption(v: Option<string>): Option<Json> {
    match v
    case None => None
    case Some(s) => Some(JStr(s))
  }

  /** `{...a, ...b}` at one key: `b`'s value when `b` has the key. */
  lemma AtUnion(a: map<string, Json>, b: map<string, Json>, k: string)
    ensures At(a + b, k) == if At(b, k).Some? then At(b, k) else At(a, k)
  {
  }

  /** Two objects that agree at every key are equal. */
  lemma AtExtensional(a: map<string, Json>, b: map<string, Json>)
    requires forall k :: At(a, k) == At(b, k)
    ensures a == b
  {
    assert forall k :: k in a <==> At(a, k).Some?;
    assert forall k :: k in a ==> a[k] == At(b, k).value;
  }

  lemma StringEntryAt(key: string, v: Nullable<string>, k: string)
    ensures At(StringEntry(key, v), k) == if k == key then JsonOfString(v) else None
  {
  }

  lemma JsonEntryAt(key: string, v: Nullable<Json>, k: string)
    requires v != Present(JNull)
    ensures At(JsonEntry(key, v), k) == if k == key then JsonOfJson(v) else None
  {
  }

  lemma IntEntryAt(key: string, v: Nullable<int>, k: string)
    requires v.Present? ==> IsInt32(v.value)
    ensures At(IntEntry(key, v), k) == if k == key then JsonOfInt(v) else None
  {
  }

  lemma OptionEntryAt(key: string, v: Option<string>, k: string)
    ensures At(OptionEntry(key, v), k) == if k == key then JsonOfOption(v) else None
  {
  }

  /** What a project patch carries under each key. */
  function ProjectPatchColumn(q: ProjectPatch, k: string): Option<Json> {
    if k == "title" then JsonOfOption(q.title)
    else if k == "description" then JsonOfOption(q.description)
    else if k == "image_url" then JsonOfString(q.imageUrl)
    else if k == "tags" then JsonOfJson(q.tags)
    else if k == "project_url" then JsonOfString(q.projectUrl)
    else if k == "github_url" then JsonOfString(q.githubUrl)
    else None
  }

  function TestimonialPatchColumn(q: TestimonialPatch, k: string): Option<Json> {
    if k == "name" then JsonOfOption(q.name)
    else if k == "role" then JsonOfOption(q.role)
    else if k == "company" then JsonOfOption(q.company)
    else if k == "quote" then JsonOfOption(q.quote)
    else if k == "image_url" then JsonOfString(q.imageUrl)
    else if k == "display_order" then JsonOfInt(q.displayOrder)
    else None
  }

  lemma ProjectPatchAt(q: ProjectPatch, k: string)
    requires EncodableProject(q.tags)
    ensures At(EncodeProjectPatch(q).fields, k) == ProjectPatchColumn(q, k)
  {
    var e0, e1 := OptionEntry("title", q.title), OptionEntry("description", q.description);
    var e2, e3 := StringEntry("image_url", q.imageUrl), JsonEntry("tags", q.tags);
    var e4, e5 := StringEntry("project_url", q.projectUrl), StringEntry("github_url", q.githubUrl);
    OptionEntryAt("title", q.title, k);
    OptionEntryAt("description", q.description, k);
    StringEntryAt("image_url", q.imageUrl, k);
    JsonEntryAt("tags", q.tags, k);
    StringEntryAt("project_url", q.projectUrl, k);
    StringEntryAt("github_url", q.githubUrl, k);
    AtUnion(e0, e1, k);
    AtUnion(e0 + e1, e2, k);
    AtUnion(e0 + e1 + e2, e3, k);
    AtUnion(e0 + e1 + e2 + e3, e4, k);
    AtUnion(e0 + e1 + e2 + e3 + e4, e5, k);
  }

  lemma TestimonialPatchAt(q: TestimonialPatch, k: string)
    requires EncodableOrder(q.displayOrder)
    ensures At(EncodeTestimonialPatch(q).fields, k) == TestimonialPatchColumn(q, k)
  {
    var e0, e1 := OptionEntry("name", q.name), OptionEntry("role", q.role);
    var e2, e3 := OptionEntry("company", q.company), OptionEntry("quote", q.quote);
    var e4, e5 := StringEntry("image_url", q.imageUrl), IntEntry("display_order", q.displayOrder);
    OptionEntryAt("name", q.name, k);
    OptionEntryAt("role", q.role, k);
    OptionEntryAt("company", q.company, k);
    OptionEntryAt("quote", q.quote, k);
    StringEntryAt("image_url", q.imageUrl, k);
    IntEntryAt("display_order", q.displayOrder, k);
    AtUnion(e0, e1, k);
    AtUnion(e0 + e1, e2, k);
    AtUnion(e0 + e1 + e2, e3, k);
    AtUnion(e0 + e1 + e2 + e3, e4, k);
    AtUnion(e0 + e1 + e2 + e3 + e4, e5, k);
  }

  /** What an accepted contact body carries under each key. */
  function ContactColumn(c: InsertContact, k: string): Option<Json> {
    if k == "name" then Some(JStr(c.name))
    else if k == "email" then Some(JStr(c.email))
    else if k == "message" then Some(JStr(c.message))
    else if k == "subject" then JsonOfString(c.subject)
    else None
  }

  lemma InsertProjectAt(p: InsertProject, k: string)
    requires EncodableProject(p.tags)
    ensures At(EncodeInsertProject(p).fields, k) == ProjectPatchColumn(ProjectPatchOf(p), k)
  {
    var m0 := map["title" := JStr(p.title), "description" := JStr(p.description)];
    var e1, e2 := StringEntry("image_url", p.imageUrl), JsonEntry("tags", p.tags);
    var e3, e4 := StringEntry("project_url", p.projectUrl), StringEntry("github_url", p.githubUrl);
    StringEntryAt("image_url", p.imageUrl, k);
    JsonEntryAt("tags", p.tags, k);
    StringEntryAt("project_url", p.projectUrl, k);
    StringEntryAt("github_url", p.githubUrl, k);
    AtUnion(m0, e1, k);
    AtUnion(m0 + e1, e2, k);
    AtUnion(m0 + e1 + e2, e3, k);
    AtUnion(m0 + e1 + e2 + e3, e4, k);
  }

  lemma InsertContactAt(c: InsertContact, k: string)
    ensures At(EncodeInsertContact(c).fields, k) == ContactColumn(c, k)
  {
    var m0 := map["name" := JStr(c.name), "email" := JStr(c.email), "message" := JStr(c.message)];
    StringEntryAt("subject", c.subject, k);
    AtUnion(m0, StringEntry("subject", c.subject), k);
  }

  lemma InsertTestimonialAt(t: InsertTestimonial, k: string)
    requires EncodableOrder(t.displayOrder)
    ensures At(EncodeInsertTestimonial(t).fields, k) == TestimonialPatchColumn(TestimonialPatchOf(t), k)
  {
    var m0 := map["name" := JStr(t.name), "role" := JStr(t.role),
                  "company" := JStr(t.company), "quote" := JStr(t.quote)];
    var e1, e2 := StringEntry("image_url", t.imageUrl), IntEntry("display_order", t.displayOrder);
    StringEntryAt("image_url", t.imageUrl, k);
    IntEntryAt("display_order", t.displayOrder, k);
    AtUnion(m0, e1, k);
    AtUnion(m0 + e1, e2, k);
  }

  // ---------------------------------------------------------------------
  // The payload of an accepted body: exactly the body's picked keys

  /** What each validator's verdict says about the value under its key. */
  lemma ValidatorAt(o: map<string, Json>, key: string)
    ensures RequiredString(o, key).Some? ==> At(o, key) == Some(JStr(RequiredString(o, key).value))
    ensures OptionalString(o, key).Some? ==> At(o, key) == JsonOfOption(OptionalString(o, key).value)
    ensures NullableString(o, key).Some? ==> At(o, key) == JsonOfString(NullableString(o, key).value)
    ensures NullableJson(o, key).Some? ==> At(o, key) == JsonOfJson(NullableJson(o, key).value)
    ensures NullableInt32(o, key).Some? ==> At(o, key) == JsonOfInt(NullableInt32(o, key).value)
  {
  }

  lemma RestrictAt(o: map<string, Json>, keys: set<string>, k: string)
    ensures At(Restrict(o, keys), k) == if k in keys then At(o, k) else None
  {
  }

  lemma InsertUserFromBody(o: map<string, Json>, u: InsertUser)
    requires RequiredString(o, "username") == Some(u.username)
    requires RequiredString(o, "password") == Some(u.password)
    ensures EncodeInsertUser(u) == JObj(Restrict(o, UserKeys))
  {
    var l := EncodeInsertUser(u).fields;
    var r := Restrict(o, UserKeys);
    forall k ensures At(l, k) == At(r, k) {
      RestrictAt(o, UserKeys, k);
      ValidatorAt(o, k);
    }
    AtExtensional(l, r);
  }

  /** Key by key, an accepted project body holds what the payload holds. */
  lemma InsertProjectColumnOfBody(o: map<string, Json>, p: InsertProject, k: string)
    requires RequiredString(o, "title") == Some(p.title)
    requires RequiredString(o, "description") == Some(p.description)
    requires NullableString(o, "image_url") == Some(p.imageUrl)
    requires NullableJson(o, "tags") == Some(p.tags)
    requires NullableString(o, "project_url") == Some(p.projectUrl)
    requires NullableString(o, "github_url") == Some(p.githubUrl)
    ensures ProjectPatchColumn(ProjectPatchOf(p), k) == if k in ProjectKeys then At(o, k) else None
  {
    if k == "title" {
      ValidatorAt(o, "title");
    }     else if k == "description" {
      ValidatorAt(o, "description");
    }     else if k == "image_url" {
      ValidatorAt(o, "image_url");
    }     else if k == "tags" {
      ValidatorAt(o, "tags");
    }     else if k == "project_url" {
      ValidatorAt(o, "project_url");
    }     else if k == "github_url" {
      ValidatorAt(o, "github_url");
    }
  }

  lemma InsertProjectFromBody(o: map<string, Json>, p: InsertProject)
    requires RequiredString(o, "title") == Some(p.title)
    requires RequiredString(o, "description") == Some(p.description)
    requires NullableString(o, "image_url") == Some(p.imageUrl)
    requires NullableJson(o, "tags") == Some(p.tags)
    requires NullableString(o, "project_url") == Some(p.projectUrl)
    requires NullableString(o, "github_url") == Some(p.githubUrl)
    ensures EncodableProject(p.tags)
    ensures EncodeInsertProject(p) == JObj(Restrict(o, ProjectKeys))
  {
    var l := EncodeInsertProject(p).fields;
    var r := Restrict(o, ProjectKeys);
    forall k ensures At(l, k) == At(r, k) {
      InsertProjectAt(p, k);
      RestrictAt(o, ProjectKeys, k);
      InsertProjectColumnOfBody(o, p, k);
    }
    AtExtensional(l, r);
  }

  /** Key by key, an accepted project patch holds what the body holds. */
  lemma ProjectPatchColumnOfBody(o: map<string, Json>, p: ProjectPatch, k: string)
    requires OptionalString(o, "title") == Some(p.title)
    requires OptionalString(o, "description") == Some(p.description)
    requires NullableString(o, "image_url") == Some(p.imageUrl)
    requires NullableJson(o, "tags") == Some(p.tags)
    requires NullableString(o, "project_url") == Some(p.projectUrl)
    requires NullableString(o, "github_url") == Some(p.githubUrl)
    ensures ProjectPatchColumn(p, k) == if k in ProjectKeys then At(o, k) else None
  {
    if k == "title" {
      ValidatorAt(o, "title");
    } else if k == "description" {
      ValidatorAt(o, "description");
    } else if k == "image_url" {
      ValidatorAt(o, "image_url");
    } else if k == "tags" {
      ValidatorAt(o, "tags");
    } else if k == "project_url" {
      ValidatorAt(o, "project_url");
    } else if k == "github_url" {
      ValidatorAt(o, "github_url");
    }
  }

  lemma ProjectPatchFromBody(o: map<string, Json>, p: ProjectPatch)
    requires OptionalString(o, "title") == Some(p.title)
    requires OptionalString(o, "description") == Some(p.description)
    requires NullableString(o, "image_url") == Some(p.imageUrl)
    requires NullableJson(o, "tags") == Some(p.tags)
    requires NullableString(o, "project_url") == Some(p.projectUrl)
    requires NullableString(o, "github_url") == Some(p.githubUrl)
    ensures EncodableProject(p.tags)
    ensures EncodeProjectPatch(p) == JObj(Restrict(o, ProjectKeys))
  {
    var l := EncodeProjectPatch(p).fields;
    var r := Restrict(o, ProjectKeys);
    forall k ensures At(l, k) == At(r, k) {
      ProjectPatchAt(p, k);
      RestrictAt(o, ProjectKeys, k);
      ProjectPatchColumnOfBody(o, p, k);
    }
    AtExtensional(l, r);
  }

  /** Key by key, an accepted contact body holds what the payload holds. */
  lemma InsertContactColumnOfBody(o: map<string, Json>, c: InsertContact, k: string)
    requires RequiredString(o, "name") == Some(c.name)
    requires RequiredString(o, "email") == Some(c.email)
    requires RequiredString(o, "message") == Some(c.message)
    requires NullableString(o, "subject") == Some(c.subject)
    ensures ContactColumn(c, k) == if k in ContactKeys then At(o, k) else None
  {
    if k == "name" {
      ValidatorAt(o, "name");
    }     else if k == "email" {
      ValidatorAt(o, "email");
    }     else if k == "message" {
      ValidatorAt(o, "message");
    }     else if k == "subject" {
      ValidatorAt(o, "subject");
    }
  }

  lemma InsertContactFromBody(o: map<string, Json>, c: InsertContact)
    requires RequiredString(o, "name") == Some(c.name)
    requires RequiredString(o, "email") == Some(c.email)
    requires RequiredString(o, "message") == Some(c.message)
    requires NullableString(o, "subject") == Some(c.subject)
    ensures EncodeInsertContact(c) == JObj(Restrict(o, ContactKeys))
  {
    var l := EncodeInsertContact(c).fields;
    var r := Restrict(o, ContactKeys);
    forall k ensures At(l, k) == At(r, k) {
      InsertContactAt(c, k);
      RestrictAt(o, ContactKeys, k);
      InsertContactColumnOfBody(o, c, k);
    }
    AtExtensional(l, r);
  }

  /** Key by key, an accepted testimonial body holds what the payload holds. */
  lemma InsertTestimonialColumnOfBody(o: map<string, Json>, t: InsertTestimonial, k: string)
    requires RequiredString(o, "name") == Some(t.name)
    requires RequiredString(o, "role") == Some(t.role)
    requires RequiredString(o, "company") == Some(t.company)
    requires RequiredString(o, "quote") == Some(t.quote)
    requires NullableString(o, "image_url") == Some(t.imageUrl)
    requires NullableInt32(o, "display_order") == Some(t.displayOrder)
    ensures TestimonialPatchColumn(TestimonialPatchOf(t), k) == if k in TestimonialKeys then At(o, k) else None
  {
    if k == "name" {
      ValidatorAt(o, "name");
    }     else if k == "role" {
      ValidatorAt(o, "role");
    }     else if k == "company" {
      ValidatorAt(o, "company");
    }     else if k == "quote" {
      ValidatorAt(o, "quote");
    }     else if k == "image_url" {
      ValidatorAt(o, "image_url");
    }     else if k == "display_order" {
      ValidatorAt(o, "display_order");
    }
  }

  lemma InsertTestimonialFromBody(o: map<string, Json>, t: InsertTestimonial)
    requires RequiredString(o, "name") == Some(t.name)
    requires RequiredString(o, "role") == Some(t.role)
    requires RequiredString(o, "company") == Some(t.company)
    requires RequiredString(o, "quote") == Some(t.quote)
    requires NullableString(o, "image_url") == Some(t.imageUrl)
    requires NullableInt32(o, "display_order") == Some(t.displayOrder)
    ensures EncodableOrder(t.displayOrder)
    ensures EncodeInsertTestimonial(t) == JObj(Restrict(o, TestimonialKeys))
  {
    var l := EncodeInsertTestimonial(t).fields;
    var r := Restrict(o, TestimonialKeys);
    forall k ensures At(l, k) == At(r, k) {
      InsertTestimonialAt(t, k);
      RestrictAt(o, TestimonialKeys, k);
      InsertTestimonialColumnOfBody(o, t, k);
    }
    AtExtensional(l, r);
  }

  /** Key by key, an accepted testimonial patch holds what the body holds. */
  lemma TestimonialPatchColumnOfBody(o: map<string, Json>, t: TestimonialPatch, k: string)
    requires OptionalString(o, "name") == Some(t.name)
    requires OptionalString(o, "role") == Some(t.role)
    requires OptionalString(o, "company") == Some(t.company)
    requires OptionalString(o, "quote") == Some(t.quote)
    requires NullableString(o, "image_url") == Some(t.imageUrl)
    requires NullableInt32(o, "display_order") == Some(t.displayOrder)
    ensures TestimonialPatchColumn(t, k) == if k in TestimonialKeys then At(o, k) else None
  {
    if k == "name" {
      ValidatorAt(o, "name");
    } else if k == "role" {
      ValidatorAt(o, "role");
    } else if k == "company" {
      ValidatorAt(o, "company");
    } else if k == "quote" {
      ValidatorAt(o, "quote");
    } else if k == "image_url" {
      ValidatorAt(o, "image_url");
    } else if k == "display_order" {
      ValidatorAt(o, "display_order");
    }
  }

  lemma TestimonialPatchFromBody(o: map<string, Json>, t: TestimonialPatch)
    requires OptionalString(o, "name") == Some(t.name)
    requires OptionalString(o, "role") == Some(t.role)
    requires OptionalString(o, "company") == Some(t.company)
    requires OptionalString(o, "quote") == Some(t.quote)
    requires NullableString(o, "image_url") == Some(t.imageUrl)
    requires NullableInt32(o, "display_order") == Some(t.displayOrder)
    ensures EncodableOrder(t.displayOrder)
    ensures EncodeTestimonialPatch(t) == JObj(Restrict(o, TestimonialKeys))
  {
    var l := EncodeTestimonialPatch(t).fields;
    var r := Restrict(o, TestimonialKeys);
    forall k ensures At(l, k) == At(r, k) {
      TestimonialPatchAt(t, k);
      RestrictAt(o, TestimonialKeys, k);
      TestimonialPatchColumnOfBody(o, t, k);
    }
    AtExtensional(l, r);
  }

  /** The validators look at their own key only. */
  lemma SameAtKey(o1: map<string, Json>, o2: map<string, Json>, key: string)
    requires key in o1 <==> key in o2
    requires key in o1 ==> o1[key] == o2[key]
    ensures RequiredString(o1, key) == RequiredString(o2, key)
    ensures OptionalString(o1, key) == OptionalString(o2, key)
    ensures NullableString(o1, key) == NullableString(o2, key)
    ensures NullableJson(o1, key) == NullableJson(o2, key)
    ensures NullableInt32(o1, key) == NullableInt32(o2, key)
  {
  }

  // ---------------------------------------------------------------------
  // Round trips: every payload the schema can produce is accepted back
  // unchanged from its own encoding. The side conditions are exactly the
  // values a validator never yields: a json column holding Present(null),
  // or an integer column outside 32 bits.

  lemma InsertUserRoundTrip(u: InsertUser)
    ensures ParseInsertUser(EncodeInsertUser(u)) == Ok(u)
  {
  }

  /** The project parser succeeds with `p` once every column's validator
      yields `p`'s value for it. */
  lemma ParseInsertProjectFrom(o: map<string, Json>, p: InsertProject)
    requires RequiredString(o, "title") == Some(p.title)
    requires RequiredString(o, "description") == Some(p.description)
    requires NullableString(o, "image_url") == Some(p.imageUrl)
    requires NullableJson(o, "tags") == Some(p.tags)
    requires NullableString(o, "project_url") == Some(p.projectUrl)
    requires NullableString(o, "github_url") == Some(p.githubUrl)
    ensures ParseInsertProject(JObj(o)) == Ok(p)
  {
  }

  lemma InsertProjectRoundTrip(p: InsertProject)
    requires EncodableProject(p.tags)
    ensures ParseInsertProject(EncodeInsertProject(p)) == Ok(p)
  {
    var o := EncodeInsertProject(p).fields;
    InsertProjectEncodesUrls(p);
    InsertProjectEncodesTags(p);
    ParseInsertProjectFrom(o, p);
  }

  lemma InsertProjectEncodesUrls(p: InsertProject)
    requires EncodableProject(p.tags)
    ensures var o := EncodeInsertProject(p).fields;
      && NullableString(o, "image_url") == Some(p.imageUrl)
      && NullableString(o, "project_url") == Some(p.projectUrl)
      && NullableString(o, "github_url") == Some(p.githubUrl)
  {
    var m0 := map["title" := JStr(p.title), "description" := JStr(p.description)];
    var e1, e2 := StringEntry("image_url", p.imageUrl), JsonEntry("tags", p.tags);
    var e3, e4 := StringEntry("project_url", p.projectUrl), StringEntry("github_url", p.githubUrl);
    var o := m0 + e1 + e2 + e3 + e4;
    assert o == EncodeInsertProject(p).fields;
    assert NullableString(o, "image_url") == Some(p.imageUrl) by { SameAtKey(o, e1, "image_url"); }
    assert NullableString(o, "project_url") == Some(p.projectUrl) by { SameAtKey(o, e3, "project_url"); }
    assert NullableString(o, "github_url") == Some(p.githubUrl) by { SameAtKey(o, e4, "github_url"); }
  }

  lemma InsertProjectEncodesTags(p: InsertProject)
    requires EncodableProject(p.tags)
    ensures var o := EncodeInsertProject(p).fields;
      && RequiredString(o, "title") == Some(p.title)
      && RequiredString(o, "description") == Some(p.description)
      && NullableJson(o, "tags") == Some(p.tags)
  {
    var m0 := map["title" := JStr(p.title), "description" := JStr(p.description)];
    var e1, e2 := StringEntry("image_url", p.imageUrl), JsonEntry("tags", p.tags);
    var e3, e4 := StringEntry("project_url", p.projectUrl), StringEntry("github_url", p.githubUrl);
    var o := m0 + e1 + e2 + e3 + e4;
    assert o == EncodeInsertProject(p).fields;
    assert NullableJson(o, "tags") == Some(p.tags) by { SameAtKey(o, e2, "tags"); }
  }

  lemma ParseProjectPatchFrom(o: map<string, Json>, p: ProjectPatch)
    requires OptionalString(o, "title") == Some(p.title)
    requires OptionalString(o, "description") == Some(p.description)
    requires NullableString(o, "image_url") == Some(p.imageUrl)
    requires NullableJson(o, "tags") == Some(p.tags)
    requires NullableString(o, "project_url") == Some(p.projectUrl)
    requires NullableString(o, "github_url") == Some(p.githubUrl)
    ensures ParseProjectPatch(JObj(o)) == Ok(p)
  {
  }

  lemma ProjectPatchRoundTrip(p: ProjectPatch)
    requires EncodableProject(p.tags)
    ensures ParseProjectPatch(EncodeProjectPatch(p)) == Ok(p)
  {
    var o := EncodeProjectPatch(p).fields;
    ProjectPatchEncodesUrls(p);
    ProjectPatchEncodesTags(p);
    ParseProjectPatchFrom(o, p);
  }

  lemma ProjectPatchEncodesUrls(p: ProjectPatch)
    requires EncodableProject(p.tags)
    ensures var o := EncodeProjectPatch(p).fields;
      && NullableString(o, "image_url") == Some(p.imageUrl)
      && NullableString(o, "project_url") == Some(p.projectUrl)
      && NullableString(o, "github_url") == Some(p.githubUrl)
  {
    var e0, e1 := OptionEntry("title", p.title), OptionEntry("description", p.description);
    var e2, e3 := StringEntry("image_url", p.imageUrl), JsonEntry("tags", p.tags);
    var e4, e5 := StringEntry("project_url", p.projectUrl), StringEntry("github_url", p.githubUrl);
    var o := e0 + e1 + e2 + e3 + e4 + e5;
    assert o == EncodeProjectPatch(p).fields;
    assert NullableString(o, "image_url") == Some(p.imageUrl) by { SameAtKey(o, e2, "image_url"); }
    assert NullableString(o, "project_url") == Some(p.projectUrl) by { SameAtKey(o, e4, "project_url"); }
    assert NullableString(o, "github_url") == Some(p.githubUrl) by { SameAtKey(o, e5, "github_url"); }
  }

  lemma ProjectPatchEncodesTags(p: ProjectPatch)
    requires EncodableProject(p.tags)
    ensures var o := EncodeProjectPatch(p).fields;
      && OptionalString(o, "title") == Some(p.title)
      && OptionalString(o, "description") == Some(p.description)
      && NullableJson(o, "tags") == Some(p.tags)
  {
    var e0, e1 := OptionEntry("title", p.title), OptionEntry("description", p.description);
    var e2, e3 := StringEntry("image_url", p.imageUrl), JsonEntry("tags", p.tags);
    var e4, e5 := StringEntry("project_url", p.projectUrl), StringEntry("github_url", p.githubUrl);
    var o := e0 + e1 + e2 + e3 + e4 + e5;
    assert o == EncodeProjectPatch(p).fields;
    assert OptionalString(o, "title") == Some(p.title) by { SameAtKey(o, e0, "title"); }
    assert OptionalString(o, "description") == Some(p.description) by { SameAtKey(o, e1, "description"); }
    assert NullableJson(o, "tags") == Some(p.tags) by { SameAtKey(o, e3, "tags"); }
  }

  lemma InsertContactRoundTrip(c: InsertContact)
    ensures ParseInsertContact(EncodeInsertContact(c)) == Ok(c)
  {
  }

  lemma ParseInsertTestimonialFrom(o: map<string, Json>, t: InsertTestimonial)
    requires RequiredString(o, "name") == Some(t.name)
    requires RequiredString(o, "role") == Some(t.role)
    requires RequiredString(o, "company") == Some(t.company)
    requires RequiredString(o, "quote") == Some(t.quote)
    requires NullableString(o, "image_url") == Some(t.imageUrl)
    requires NullableInt32(o, "display_order") == Some(t.displayOrder)
    ensures ParseInsertTestimonial(JObj(o)) == Ok(t)
  {
  }

  lemma InsertTestimonialRoundTrip(t: InsertTestimonial)
    requires EncodableOrder(t.displayOrder)
    ensures ParseInsertTestimonial(EncodeInsertTestimonial(t)) == Ok(t)
  {
    var m0 := map["name" := JStr(t.name), "role" := JStr(t.role),
                  "company" := JStr(t.company), "quote" := JStr(t.quote)];
    var e1, e2 := StringEntry("image_url", t.imageUrl), IntEntry("display_order", t.displayOrder);
    var o := m0 + e1 + e2;
    assert o == EncodeInsertTestimonial(t).fields;
    assert NullableString(o, "image_url") == Some(t.imageUrl) by { SameAtKey(o, e1, "image_url"); }
    assert NullableInt32(o, "display_order") == Some(t.displayOrder) by { SameAtKey(o, e2, "display_order"); }
    ParseInsertTestimonialFrom(o, t);
  }

  lemma ParseTestimonialPatchFrom(o: map<string, Json>, t: TestimonialPatch)
    requires OptionalString(o, "name") == Some(t.name)
    requires OptionalString(o, "role") == Some(t.role)
    requires OptionalString(o, "company") == Some(t.company)
    requires OptionalString(o, "quote") == Some(t.quote)
    requires NullableString(o, "image_url") == Some(t.imageUrl)
    requires NullableInt32(o, "display_order") == Some(t.displayOrder)
    ensures ParseTestimonialPatch(JObj(o)) == Ok(t)
  {
  }

  lemma TestimonialPatchRoundTrip(t: TestimonialPatch)
    requires EncodableOrder(t.displayOrder)
    ensures ParseTestimonialPatch(EncodeTestimonialPatch(t)) == Ok(t)
  {
    var o := EncodeTestimonialPatch(t).fields;
    TestimonialPatchEncodesText(t);
    TestimonialPatchEncodesRest(t);
    ParseTestimonialPatchFrom(o, t);
  }

  lemma TestimonialPatchEncodesText(t: TestimonialPatch)
    requires EncodableOrder(t.displayOrder)
    ensures var o := EncodeTestimonialPatch(t).fields;
      && OptionalString(o, "name") == Some(t.name)
      && OptionalString(o, "role") == Some(t.role)
      && OptionalString(o, "company") == Some(t.company)
  {
    var e0, e1 := OptionEntry("name", t.name), OptionEntry("role", t.role);
    var e2, e3 := OptionEntry("company", t.company), OptionEntry("quote", t.quote);
    var e4, e5 := StringEntry("image_url", t.imageUrl), IntEntry("display_order", t.displayOrder);
    var o := e0 + e1 + e2 + e3 + e4 + e5;
    assert o == EncodeTestimonialPatch(t).fields;
    assert OptionalString(o, "name") == Some(t.name) by { SameAtKey(o, e0, "name"); }
    assert OptionalString(o, "role") == Some(t.role) by { SameAtKey(o, e1, "role"); }
    assert OptionalString(o, "company") == Some(t.company) by { SameAtKey(o, e2, "company"); }
  }

  lemma TestimonialPatchEncodesRest(t: TestimonialPatch)
    requires EncodableOrder(t.displayOrder)
    ensures var o := EncodeTestimonialPatch(t).fields;
      && OptionalString(o, "quote") == Some(t.quote)
      && NullableString(o, "image_url") == Some(t.imageUrl)
      && NullableInt32(o, "display_order") == Some(t.displayOrder)
  {
    var e0, e1 := OptionEntry("name", t.name), OptionEntry("role", t.role);
    var e2, e3 := OptionEntry("company", t.company), OptionEntry("quote", t.quote);
    var e4, e5 := StringEntry("image_url", t.imageUrl), IntEntry("display_order", t.displayOrder);
    var o := e0 + e1 + e2 + e3 + e4 + e5;
    assert o == EncodeTestimonialPatch(t).fields;
    assert OptionalString(o, "quote") == Some(t.quote) by { SameAtKey(o, e3, "quote"); }
    assert NullableString(o, "image_url") == Some(t.imageUrl) by { SameAtKey(o, e4, "image_url"); }
    assert NullableInt32(o, "display_order") == Some(t.displayOrder) by { SameAtKey(o, e5, "display_order"); }
  }

  // ---------------------------------------------------------------------
  // Only the picked keys matter: every other key of the body, `id` and
  // `created_at` included, is dropped before the payload is built.

  function Restrict(o: map<string, Json>, keys: set<string>): (r: map<string, Json>)
    ensures forall k :: k in r <==> k in o && k in keys
    ensures forall k :: k in r ==> r[k] == o[k]
  {
    map k | k in o && k in keys :: o[k]
  }

  lemma InsertUserReadsPickedKeys(o: map<string, Json>)
    ensures ParseInsertUser(JObj(o)) == ParseInsertUser(JObj(Restrict(o, UserKeys)))
  {
    var r := Restrict(o, UserKeys);
    SameAtKey(o, r, "username");
    SameAtKey(o, r, "password");
  }

  lemma InsertProjectReadsPickedKeys(o: map<string, Json>)
    ensures ParseInsertProject(JObj(o)) == ParseInsertProject(JObj(Restrict(o, ProjectKeys)))
  {
    var r := Restrict(o, ProjectKeys);
    SameAtKey(o, r, "title");
    SameAtKey(o, r, "description");
    SameAtKey(o, r, "image_url");
    SameAtKey(o, r, "tags");
    SameAtKey(o, r, "project_url");
    SameAtKey(o, r, "github_url");
  }

  lemma ProjectPatchReadsPickedKeys(o: map<string, Json>)
    ensures ParseProjectPatch(JObj(o)) == ParseProjectPatch(JObj(Restrict(o, ProjectKeys)))
  {
    var r := Restrict(o, ProjectKeys);
    SameAtKey(o, r, "title");
    SameAtKey(o, r, "description");
    SameAtKey(o, r, "image_url");
    SameAtKey(o, r, "tags");
    SameAtKey(o, r, "project_url");
    SameAtKey(o, r, "github_url");
  }

  lemma InsertContactReadsPickedKeys(o: map<string, Json>)
    ensures ParseInsertContact(JObj(o)) == ParseInsertContact(JObj(Restrict(o, ContactKeys)))
  {
    var r := Restrict(o, ContactKeys);
    SameAtKey(o, r, "name");
    SameAtKey(o, r, "email");
    SameAtKey(o, r, "message");
    SameAtKey(o, r, "subject");
  }

  lemma InsertTestimonialReadsPickedKeys(o: map<string, Json>)
    ensures ParseInsertTestimonial(JObj(o)) == ParseInsertTestimonial(JObj(Restrict(o, TestimonialKeys)))
  {
    var r := Restrict(o, TestimonialKeys);
    SameAtKey(o, r, "name");
    SameAtKey(o, r, "role");
    SameAtKey(o, r, "company");
    SameAtKey(o, r, "quote");
    SameAtKey(o, r, "image_url");
    SameAtKey(o, r, "display_order");
  }

  lemma TestimonialPatchReadsPickedKeys(o: map<string, Json>)
    ensures ParseTestimonialPatch(JObj(o)) == ParseTestimonialPatch(JObj(Restrict(o, TestimonialKeys)))
  {
    var r := Restrict(o, TestimonialKeys);
    SameAtKey(o, r, "name");
    SameAtKey(o, r, "role");
    SameAtKey(o, r, "company");
    SameAtKey(o, r, "quote");
    SameAtKey(o, r, "image_url");
    SameAtKey(o, r, "display_order");
  }

  /** A client cannot choose the server-assigned columns: setting `id` or
      `created_at` in a body leaves what every insert schema reads unchanged. */
  lemma ServerColumnsNotPicked(o: map<string, Json>, id: Json, createdAt: Json)
    ensures forall keys :: keys in {UserKeys, ProjectKeys, ContactKeys, TestimonialKeys} ==>
              Restrict(o["id" := id]["created_at" := createdAt], keys) == Restrict(o, keys)
  {
    forall keys | keys in {UserKeys, ProjectKeys, ContactKeys, TestimonialKeys}
      ensures Restrict(o["id" := id]["created_at" := createdAt], keys) == Restrict(o, keys)
    {
      assert "id" !in keys && "created_at" !in keys;
    }
  }

  // ---------------------------------------------------------------------
  // An insert body is a patch body that sets every required column.

  function ProjectPatchOf(p: InsertProject): (q: ProjectPatch)
    ensures q.title == Some(p.title) && q.description == Some(p.description)
  {
    ProjectPatch(Some(p.title), Some(p.description), p.imageUrl, p.tags, p.projectUrl, p.githubUrl)
  }

  lemma InsertProjectIsFullPatch(body: Json)
    ensures ParseInsertProject(body).Ok? ==>
              ParseProjectPatch(body) == Ok(ProjectPatchOf(ParseInsertProject(body).value))
    ensures ParseInsertProject(body).Ok? <==>
              ParseProjectPatch(body).Ok? && ParseProjectPatch(body).value.title.Some?
              && ParseProjectPatch(body).value.description.Some?
  {
  }

  function TestimonialPatchOf(t: InsertTestimonial): (q: TestimonialPatch)
    ensures q.name == Some(t.name) && q.role == Some(t.role)
    ensures q.company == Some(t.company) && q.quote == Some(t.quote)
  {
    TestimonialPatch(Some(t.name), Some(t.role), Some(t.company), Some(t.quote),
                     t.imageUrl, t.displayOrder)
  }

  lemma InsertTestimonialIsFullPatch(body: Json)
    ensures ParseInsertTestimonial(body).Ok? ==>
              ParseTestimonialPatch(body) == Ok(TestimonialPatchOf(ParseInsertTestimonial(body).value))
    ensures ParseInsertTestimonial(body).Ok? <==>
              ParseTestimonialPatch(body).Ok? && ParseTestimonialPatch(body).value.name.Some?
              && ParseTestimonialPatch(body).value.role.Some?
              && ParseTestimonialPatch(body).value.company.Some?
              && ParseTestimonialPatch(body).value.quote.Some?
  {
  }
}
