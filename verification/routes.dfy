/** The HTTP route handlers of the API, without the web framework: each
    handler is a decision procedure from the path parameter, the request
    body and the store to a status code and a response body.

    For every route there is a function over the store's value (`Tables`)
    giving the new store and the response, and a method over the
    `MemStorage` object that performs the same steps in the handler's
    order, proved to agree with the function. The parameter `fault` says
    that the storage call throws (which only a database backend can do);
    the handler then answers 500 with its fixed message and nothing is
    written. The clock reading `now` is what the store stamps on a new row. */
module Routes {
  import opened Values
  import opened Schema
  import opened JsText
  import opened Storage

  // -----------------------------------------------------------------------
  // parseInt(string) with no radix argument

  /** The value of a character as a digit of radix up to 36, or 36 when it
      is no digit at all. */
  function DigitValue(c: char): (d: nat)
    ensures d <= 36
  {
    if '0' <= c <= '9' then c as int - '0' as int
    else if 'a' <= c <= 'z' then c as int - 'a' as int + 10
    else if 'A' <= c <= 'Z' then c as int - 'A' as int + 10
    else 36
  }

  predicate IsDigit(c: char, radix: nat) {
    DigitValue(c) < radix
  }

  /** Length of the longest prefix of `s` made of digits of `radix`. */
  function DigitPrefix(s: string, radix: nat): (n: nat)
    ensures n <= |s|
    ensures forall i :: 0 <= i < n ==> IsDigit(s[i], radix)
    ensures n < |s| ==> !IsDigit(s[n], radix)
  {
    if s == [] || !IsDigit(s[0], radix) then 0 else 1 + DigitPrefix(s[1..], radix)
  }

  /** The number a string of digits denotes in `radix`. */
  function DigitsValue(ds: string, radix: nat): nat
    requires forall i :: 0 <= i < |ds| ==> IsDigit(ds[i], radix)
  {
    if ds == [] then 0
    else DigitsValue(ds[..|ds| - 1], radix) * radix + DigitValue(ds[|ds| - 1])
  }

  /** The unsigned part of `parseInt`: a `0x`/`0X` prefix selects radix 16
      (otherwise radix 10), and the longest run of digits that follows is
      the number; without any digit the result is NaN (None). */
  function ParseMagnitude(u: string): Option<nat>
  {
    var radix := if HasHexPrefix(u) then 16 else 10;
    var v := if HasHexPrefix(u) then u[2..] else u;
    var n := DigitPrefix(v, radix);
    if n == 0 then None else Some(DigitsValue(v[..n], radix))
  }

  predicate HasHexPrefix(u: string) {
    |u| >= 2 && u[0] == '0' && (u[1] == 'x' || u[1] == 'X')
  }

  /** `parseInt(s)`: skip leading white space, then read a signed number.
      Trailing characters are ignored. */
  function ParseInt(s: string): (r: Option<int>)
    ensures var t := TrimStart(s);
            var u := if |t| > 0 && (t[0] == '-' || t[0] == '+') then t[1..] else t;
            r.Some? <==> if HasHexPrefix(u) then |u| > 2 && IsDigit(u[2], 16)
                         else |u| > 0 && '0' <= u[0] <= '9'
    ensures r.Some? ==> |TrimStart(s)| > 0
                        && (r.value < 0 ==> TrimStart(s)[0] == '-')
                        && (TrimStart(s)[0] == '-' ==> r.value <= 0)
  {
    ParseSigned(TrimStart(s))
  }

  /** An optional sign followed by the magnitude. */
  function ParseSigned(t: string): Option<int> {
    if |t| > 0 && t[0] == '-' then
      match ParseMagnitude(t[1..])
      case None => None
      case Some(m) => Some(-(m as int))
    else
      var u := if |t| > 0 && t[0] == '+' then t[1..] else t;
      match ParseMagnitude(u)
      case None => None
      case Some(m) => Some(m)
  }

  /** Decimal numeral of a natural number, most significant digit first. */
  function NatToDecimal(n: nat): (s: string)
    ensures |s| > 0
    ensures forall i :: 0 <= i < |s| ==> '0' <= s[i] <= '9'
    ensures |s| > 1 ==> s[0] != '0'
    ensures s[0] == '0' <==> n == 0
  {
    var d := ['0' + (n % 10) as char];
    if n < 10 then d else NatToDecimal(n / 10) + d
  }

  /** How a number is written in a URL path: `-` before a negative one. */
  function IntToDecimal(i: int): string {
    if i < 0 then "-" + NatToDecimal(-i) else NatToDecimal(i)
  }

  lemma {:induction false} NatToDecimalValue(n: nat)
    ensures DigitsValue(NatToDecimal(n), 10) == n
  {
    var s := NatToDecimal(n);
    if n >= 10 {
      NatToDecimalValue(n / 10);
      assert s[..|s| - 1] == NatToDecimal(n / 10);
    }
  }

  lemma {:induction false} DecimalDigitPrefix(d: string, rest: string)
    requires forall i :: 0 <= i < |d| ==> '0' <= d[i] <= '9'
    requires rest == [] || !('0' <= rest[0] <= '9')
    ensures DigitPrefix(d + rest, 10) == |d|
  {
    if d == [] {
      assert d + rest == rest;
    } else {
      assert (d + rest)[0] == d[0];
      assert (d + rest)[1..] == d[1..] + rest;
      DecimalDigitPrefix(d[1..], rest);
    }
  }

  /** The magnitude of a decimal numeral is read back whatever follows it,
      as long as the next character neither continues the numeral nor makes
      the numeral `0` into a hex prefix. */
  lemma DecimalMagnitude(n: nat, rest: string)
    requires rest == [] || (!('0' <= rest[0] <= '9') && (n == 0 ==> rest[0] != 'x' && rest[0] != 'X'))
    ensures ParseMagnitude(NatToDecimal(n) + rest) == Some(n)
  {
    var d := NatToDecimal(n);
    var u := d + rest;
    assert !HasHexPrefix(u) by {
      assert u[0] == d[0];
      if |d| == 1 && |u| >= 2 {
        assert u[1] == rest[0];
      }
    }
    DecimalDigitPrefix(d, rest);
    assert u[..|d|] == d;
    NatToDecimalValue(n);
  }

  lemma ParseSignedNegative(n: nat, rest: string)
    requires rest == [] || (!('0' <= rest[0] <= '9') && (n == 0 ==> rest[0] != 'x' && rest[0] != 'X'))
    ensures ParseSigned("-" + (NatToDecimal(n) + rest)) == Some(-(n as int))
  {
    DecimalMagnitude(n, rest);
    var s := "-" + (NatToDecimal(n) + rest);
    assert s[1..] == NatToDecimal(n) + rest;
  }

  lemma ParseSignedNonNegative(n: nat, rest: string)
    requires rest == [] || (!('0' <= rest[0] <= '9') && (n == 0 ==> rest[0] != 'x' && rest[0] != 'X'))
    ensures ParseSigned(NatToDecimal(n) + rest) == Some(n as int)
  {
    DecimalMagnitude(n, rest);
    var s := NatToDecimal(n) + rest;
    assert s[0] == NatToDecimal(n)[0];
  }

  /** `parseInt` reads back every number written in decimal, whatever
      follows it, provided the text that follows does not start with a
      digit, nor with an `x` right after the numeral `0` (which makes a hex
      prefix); so `parseInt("12abc")` and `parseInt("12x")` are 12. */
  lemma ParseIntReadsDecimal(i: int, rest: string)
    requires rest == [] || (!('0' <= rest[0] <= '9') && (i == 0 ==> rest[0] != 'x' && rest[0] != 'X'))
    ensures ParseInt(IntToDecimal(i) + rest) == Some(i)
  {
    var s := IntToDecimal(i) + rest;
    DecimalNotBlankAtStart(i, rest);
    if i < 0 {
      var n: nat := -i;
      assert s == "-" + (NatToDecimal(n) + rest);
      ParseSignedNegative(n, rest);
    } else {
      assert s == NatToDecimal(i) + rest;
      ParseSignedNonNegative(i, rest);
    }
  }

  lemma DecimalNotBlankAtStart(i: int, rest: string)
    ensures TrimStart(IntToDecimal(i) + rest) == IntToDecimal(i) + rest
  {
    var s := IntToDecimal(i) + rest;
    assert s[0] == '-' || '0' <= s[0] <= '9' by {
      if i >= 0 {
        assert s[0] == NatToDecimal(i)[0];
      }
    }
    TrimStartKeeps(s);
  }

  lemma ParseIntIgnoresTrailingText()
    ensures ParseInt("12abc") == Some(12)
  {
    assert IntToDecimal(12) + "abc" == "12abc" by {
      assert NatToDecimal(12) == NatToDecimal(1) + "2";
    }
    ParseIntReadsDecimal(12, "abc");
  }

  lemma ParseIntStopsAtFraction()
    ensures ParseInt("1.5") == Some(1)
  {
    assert IntToDecimal(1) + ".5" == "1.5";
    ParseIntReadsDecimal(1, ".5");
  }

  lemma ParseIntWithoutDigits()
    ensures ParseInt("abc") == None
  {
    assert TrimStart("abc") == "abc";
  }

  lemma ParseIntSignWithoutDigits()
    ensures ParseInt("-") == None
  {
    TrimStartKeeps("-");
    assert "-"[1..] == "";
  }

  /** Leading white space does not change the result. */
  lemma ParseIntSkipsWhitespace(c: char, s: string)
    requires IsJsWhitespace(c)
    ensures ParseInt([c] + s) == ParseInt(s)
  {
    assert ([c] + s)[1..] == s;
  }

  lemma ParseIntSkipsSpace()
    ensures ParseInt(" -7") == Some(-7)
  {
    assert IntToDecimal(-7) + "" == "-7";
    ParseIntReadsDecimal(-7, "");
    assert " -7" == [' '] + "-7";
    ParseIntSkipsWhitespace(' ', "-7");
  }

  lemma HexDigits()
    ensures DigitPrefix("1A", 16) == 2
    ensures DigitsValue("1A", 16) == 26
  {
    assert "1A"[1..] == "A";
    assert "A"[1..] == "";
    assert "1A"[..1] == "1";
    assert "1"[..0] == "";
  }

  lemma ParseIntHexPrefix()
    ensures ParseInt("0x1A") == Some(26)
  {
    assert TrimStart("0x1A") == "0x1A";
    assert ParseMagnitude("0x1A") == Some(26) by {
      assert HasHexPrefix("0x1A");
      assert "0x1A"[2..] == "1A";
      HexDigits();
      assert "1A"[..2] == "1A";
    }
  }

  // -----------------------------------------------------------------------
  // Responses

  datatype Body =
    | NoContent
    | Error(error: string)
    | InvalidData(error: string, details: seq<Issue>)
    | ProjectJson(project: Project)
    | ProjectsJson(projects: seq<Project>)
    | ContactsJson(contacts: seq<Contact>)
    | ContactCreated(success: bool, id: int)
    | TestimonialJson(testimonial: Testimonial)
    | TestimonialsJson(testimonials: seq<Testimonial>)
    | HealthStatus(status: string, message: string)

  datatype Response = Response(status: nat, body: Body)

  // -----------------------------------------------------------------------
  // Route decisions over the store's value

  /** GET /api/health */
  function HealthRoute(): (r: Response)
    ensures r.status == 200 && r.body.HealthStatus? && r.body.status == "ok"
  {
    Response(200, HealthStatus("ok", "Server is running!"))
  }

  /** GET /api/projects */
  function ListProjectsRoute(t: Tables, fault: bool): (r: Response)
    requires t.Valid()
    ensures r.status == 200 <==> !fault
    ensures !fault ==> r.body.ProjectsJson?
                       && (forall p :: p in r.body.projects <==> t.GetProject(p.id) == Some(p))
                       && (forall i, j :: 0 <= i < j < |r.body.projects| ==> r.body.projects[i].id < r.body.projects[j].id)
  {
    if fault then Response(500, Error("Failed to fetch projects"))
    else Response(200, ProjectsJson(t.GetProjects()))
  }

  /** GET /api/projects/:id */
  function GetProjectRoute(t: Tables, rawId: string, fault: bool): (r: Response)
    ensures r.status == 400 <==> ParseInt(rawId).None?
    ensures r.status == 200 <==> ParseInt(rawId).Some? && !fault && t.GetProject(ParseInt(rawId).value).Some?
    ensures r.status == 404 <==> ParseInt(rawId).Some? && !fault && t.GetProject(ParseInt(rawId).value).None?
    ensures r.status == 200 ==> r.body.ProjectJson? && t.GetProject(ParseInt(rawId).value) == Some(r.body.project)
  {
    match ParseInt(rawId)
    case None => Response(400, Error("Invalid project ID"))
    case Some(id) =>
      if fault then Response(500, Error("Failed to fetch project"))
      else match t.GetProject(id)
        case None => Response(404, Error("Project not found"))
        case Some(p) => Response(200, ProjectJson(p))
  }

  /** POST /api/projects */
  function PostProjectRoute(t: Tables, body: Json, now: Timestamp, fault: bool): (r: (Tables, Response))
    requires t.Valid()
    ensures r.0.Valid()
  {
    match ParseInsertProject(body)
    case Err(issues) => (t, Response(400, InvalidData("Invalid project data", issues)))
    case Ok(ins) =>
      if fault then (t, Response(500, Error("Failed to create project")))
      else
        var (t', p) := t.CreateProject(ins, now);
        (t', Response(201, ProjectJson(p)))
  }

  /** PATCH /api/projects/:id */
  function PatchProjectRoute(t: Tables, rawId: string, body: Json, fault: bool): (r: (Tables, Response))
    requires t.Valid()
    ensures r.0.Valid()
  {
    match ParseInt(rawId)
    case None => (t, Response(400, Error("Invalid project ID")))
    case Some(id) =>
      match ParseProjectPatch(body)
      case Err(issues) => (t, Response(400, InvalidData("Invalid project data", issues)))
      case Ok(q) =>
        if fault then (t, Response(500, Error("Failed to update project")))
        else
          var (t', updated) := t.UpdateProject(id, q);
          match updated
          case None => (t', Response(404, Error("Project not found")))
          case Some(p) => (t', Response(200, ProjectJson(p)))
  }

  /** DELETE /api/projects/:id */
  function DeleteProjectRoute(t: Tables, rawId: string, fault: bool): (r: (Tables, Response))
    requires t.Valid()
    ensures r.0.Valid()
  {
    match ParseInt(rawId)
    case None => (t, Response(400, Error("Invalid project ID")))
    case Some(id) =>
      if fault then (t, Response(500, Error("Failed to delete project")))
      else
        var (t', success) := t.DeleteProject(id);
        if success then (t', Response(204, NoContent))
        else (t', Response(404, Error("Project not found")))
  }

  /** POST /api/contact */
  function PostContactRoute(t: Tables, body: Json, now: Timestamp, fault: bool): (r: (Tables, Response))
    requires t.Valid()
    ensures r.0.Valid()
  {
    match ParseInsertContact(body)
    case Err(issues) => (t, Response(400, InvalidData("Invalid contact data", issues)))
    case Ok(ins) =>
      if fault then (t, Response(500, Error("Failed to submit contact form")))
      else
        var (t', c) := t.CreateContact(ins, now);
        (t', Response(201, ContactCreated(true, c.id)))
  }

  /** GET /api/contact */
  function ListContactsRoute(t: Tables, fault: bool): (r: Response)
    requires t.Valid()
    ensures r.status == 200 <==> !fault
    ensures !fault ==> r.body.ContactsJson?
                       && (forall c :: c in r.body.contacts <==> c.id in t.contacts.entries && t.contacts.entries[c.id] == c)
                       && (forall i, j :: 0 <= i < j < |r.body.contacts| ==> r.body.contacts[i].id < r.body.contacts[j].id)
  {
    if fault then Response(500, Error("Failed to fetch contacts"))
    else Response(200, ContactsJson(t.GetContacts()))
  }

  /** GET /api/testimonials */
  function ListTestimonialsRoute(t: Tables, fault: bool): (r: Response)
    requires t.Valid()
    ensures r.status == 200 <==> !fault
    ensures !fault ==> r.body.TestimonialsJson? && SortedByKey(r.body.testimonials)
                       && multiset(r.body.testimonials) == multiset(t.testimonials.Values())
                       && (forall x :: x in r.body.testimonials <==> t.GetTestimonial(x.id) == Some(x))
  {
    if fault then Response(500, Error("Failed to fetch testimonials"))
    else Response(200, TestimonialsJson(t.GetTestimonials()))
  }

  /** GET /api/testimonials/:id */
  function GetTestimonialRoute(t: Tables, rawId: string, fault: bool): (r: Response)
    ensures r.status == 400 <==> ParseInt(rawId).None?
    ensures r.status == 200 <==> ParseInt(rawId).Some? && !fault && t.GetTestimonial(ParseInt(rawId).value).Some?
    ensures r.status == 404 <==> ParseInt(rawId).Some? && !fault && t.GetTestimonial(ParseInt(rawId).value).None?
    ensures r.status == 200 ==> r.body.TestimonialJson? && t.GetTestimonial(ParseInt(rawId).value) == Some(r.body.testimonial)
  {
    match ParseInt(rawId)
    case None => Response(400, Error("Invalid testimonial ID"))
    case Some(id) =>
      if fault then Response(500, Error("Failed to fetch testimonial"))
      else match t.GetTestimonial(id)
        case None => Response(404, Error("Testimonial not found"))
        case Some(x) => Response(200, TestimonialJson(x))
  }

  /** POST /api/testimonials */
  function PostTestimonialRoute(t: Tables, body: Json, now: Timestamp, fault: bool): (r: (Tables, Response))
    requires t.Valid()
    ensures r.0.Valid()
  {
    match ParseInsertTestimonial(body)
    case Err(issues) => (t, Response(400, InvalidData("Invalid testimonial data", issues)))
    case Ok(ins) =>
      if fault then (t, Response(500, Error("Failed to create testimonial")))
      else
        var (t', x) := t.CreateTestimonial(ins, now);
        (t', Response(201, TestimonialJson(x)))
  }

  /** PATCH /api/testimonials/:id */
  function PatchTestimonialRoute(t: Tables, rawId: string, body: Json, fault: bool): (r: (Tables, Response))
    requires t.Valid()
    ensures r.0.Valid()
  {
    match ParseInt(rawId)
    case None => (t, Response(400, Error("Invalid testimonial ID")))
    case Some(id) =>
      match ParseTestimonialPatch(body)
      case Err(issues) => (t, Response(400, InvalidData("Invalid testimonial data", issues)))
      case Ok(q) =>
        if fault then (t, Response(500, Error("Failed to update testimonial")))
        else
          var (t', updated) := t.UpdateTestimonial(id, q);
          match updated
          case None => (t', Response(404, Error("Testimonial not found")))
          case Some(x) => (t', Response(200, TestimonialJson(x)))
  }

  /** DELETE /api/testimonials/:id */
  function DeleteTestimonialRoute(t: Tables, rawId: string, fault: bool): (r: (Tables, Response))
    requires t.Valid()
    ensures r.0.Valid()
  {
    match ParseInt(rawId)
    case None => (t, Response(400, Error("Invalid testimonial ID")))
    case Some(id) =>
      if fault then (t, Response(500, Error("Failed to delete testimonial")))
      else
        var (t', success) := t.DeleteTestimonial(id);
        if success then (t', Response(204, NoContent))
        else (t', Response(404, Error("Testimonial not found")))
  }

  // -----------------------------------------------------------------------
  // The handlers, step by step over the store object

  method HandleListProjects(store: MemStorage, fault: bool) returns (r: Response)
    requires store.Valid()
    ensures r == ListProjectsRoute(store.Model(), fault)
  {
    if fault {
      return Response(500, Error("Failed to fetch projects"));
    }
    var projects := store.GetProjects();
    r := Response(200, ProjectsJson(projects));
  }

  method HandleGetProject(store: MemStorage, rawId: string, fault: bool) returns (r: Response)
    ensures r == GetProjectRoute(store.Model(), rawId, fault)
  {
    var id := ParseInt(rawId);
    if id.None? {
      return Response(400, Error("Invalid project ID"));
    }
    if fault {
      return Response(500, Error("Failed to fetch project"));
    }
    var project := store.GetProject(id.value);
    if project.None? {
      return Response(404, Error("Project not found"));
    }
    r := Response(200, ProjectJson(project.value));
  }

  method HandlePostProject(store: MemStorage, body: Json, now: Timestamp, fault: bool) returns (r: Response)
    requires store.Valid()
    modifies store
    ensures store.Valid()
    ensures (store.Model(), r) == PostProjectRoute(old(store.Model()), body, now, fault)
  {
    var validation := ParseInsertProject(body);
    if validation.Err? {
      return Response(400, InvalidData("Invalid project data", validation.error));
    }
    if fault {
      return Response(500, Error("Failed to create project"));
    }
    var project := store.CreateProject(validation.value, now);
    r := Response(201, ProjectJson(project));
  }

  method HandlePatchProject(store: MemStorage, rawId: string, body: Json, fault: bool) returns (r: Response)
    requires store.Valid()
    modifies store
    ensures store.Valid()
    ensures (store.Model(), r) == PatchProjectRoute(old(store.Model()), rawId, body, fault)
  {
    var id := ParseInt(rawId);
    if id.None? {
      return Response(400, Error("Invalid project ID"));
    }
    var validation := ParseProjectPatch(body);
    if validation.Err? {
      return Response(400, InvalidData("Invalid project data", validation.error));
    }
    if fault {
      return Response(500, Error("Failed to update project"));
    }
    var updated := store.UpdateProject(id.value, validation.value);
    if updated.None? {
      return Response(404, Error("Project not found"));
    }
    r := Response(200, ProjectJson(updated.value));
  }

  method HandleDeleteProject(store: MemStorage, rawId: string, fault: bool) returns (r: Response)
    requires store.Valid()
    modifies store
    ensures store.Valid()
    ensures (store.Model(), r) == DeleteProjectRoute(old(store.Model()), rawId, fault)
  {
    var id := ParseInt(rawId);
    if id.None? {
      return Response(400, Error("Invalid project ID"));
    }
    if fault {
      return Response(500, Error("Failed to delete project"));
    }
    var success := store.DeleteProject(id.value);
    if !success {
      return Response(404, Error("Project not found"));
    }
    r := Response(204, NoContent);
  }

  method HandlePostContact(store: MemStorage, body: Json, now: Timestamp, fault: bool) returns (r: Response)
    requires store.Valid()
    modifies store
    ensures store.Valid()
    ensures (store.Model(), r) == PostContactRoute(old(store.Model()), body, now, fault)
  {
    var validation := ParseInsertContact(body);
    if validation.Err? {
      return Response(400, InvalidData("Invalid contact data", validation.error));
    }
    if fault {
      return Response(500, Error("Failed to submit contact form"));
    }
    var contact := store.CreateContact(validation.value, now);
    r := Response(201, ContactCreated(true, contact.id));
  }

  method HandleListContacts(store: MemStorage, fault: bool) returns (r: Response)
    requires store.Valid()
    ensures r == ListContactsRoute(store.Model(), fault)
  {
    if fault {
      return Response(500, Error("Failed to fetch contacts"));
    }
    var contacts := store.GetContacts();
    r := Response(200, ContactsJson(contacts));
  }

  method HandleListTestimonials(store: MemStorage, fault: bool) returns (r: Response)
    requires store.Valid()
    ensures r == ListTestimonialsRoute(store.Model(), fault)
  {
    if fault {
      return Response(500, Error("Failed to fetch testimonials"));
    }
    var testimonials := store.GetTestimonials();
    r := Response(200, TestimonialsJson(testimonials));
  }

  method HandleGetTestimonial(store: MemStorage, rawId: string, fault: bool) returns (r: Response)
    ensures r == GetTestimonialRoute(store.Model(), rawId, fault)
  {
    var id := ParseInt(rawId);
    if id.None? {
      return Response(400, Error("Invalid testimonial ID"));
    }
    if fault {
      return Response(500, Error("Failed to fetch testimonial"));
    }
    var testimonial := store.GetTestimonial(id.value);
    if testimonial.None? {
      return Response(404, Error("Testimonial not found"));
    }
    r := Response(200, TestimonialJson(testimonial.value));
  }

  method HandlePostTestimonial(store: MemStorage, body: Json, now: Timestamp, fault: bool) returns (r: Response)
    requires store.Valid()
    modifies store
    ensures store.Valid()
    ensures (store.Model(), r) == PostTestimonialRoute(old(store.Model()), body, now, fault)
  {
    var validation := ParseInsertTestimonial(body);
    if validation.Err? {
      return Response(400, InvalidData("Invalid testimonial data", validation.error));
    }
    if fault {
      return Response(500, Error("Failed to create testimonial"));
    }
    var testimonial := store.CreateTestimonial(validation.value, now);
    r := Response(201, TestimonialJson(testimonial));
  }

  method HandlePatchTestimonial(store: MemStorage, rawId: string, body: Json, fault: bool) returns (r: Response)
    requires store.Valid()
    modifies store
    ensures store.Valid()
    ensures (store.Model(), r) == PatchTestimonialRoute(old(store.Model()), rawId, body, fault)
  {
    var id := ParseInt(rawId);
    if id.None? {
      return Response(400, Error("Invalid testimonial ID"));
    }
    var validation := ParseTestimonialPatch(body);
    if validation.Err? {
      return Response(400, InvalidData("Invalid testimonial data", validation.error));
    }
    if fault {
      return Response(500, Error("Failed to update testimonial"));
    }
    var updated := store.UpdateTestimonial(id.value, validation.value);
    if updated.None? {
      return Response(404, Error("Testimonial not found"));
    }
    r := Response(200, TestimonialJson(updated.value));
  }

  method HandleDeleteTestimonial(store: MemStorage, rawId: string, fault: bool) returns (r: Response)
    requires store.Valid()
    modifies store
    ensures store.Valid()
    ensures (store.Model(), r) == DeleteTestimonialRoute(old(store.Model()), rawId, fault)
  {
    var id := ParseInt(rawId);
    if id.None? {
      return Response(400, Error("Invalid testimonial ID"));
    }
    if fault {
      return Response(500, Error("Failed to delete testimonial"));
    }
    var success := store.DeleteTestimonial(id.value);
    if !success {
      return Response(404, Error("Testimonial not found"));
    }
    r := Response(204, NoContent);
  }

  // -----------------------------------------------------------------------
  // The API contract

  /** A path id that `parseInt` cannot read is answered with 400 whatever
      the body and whether or not the store would fail: the check comes
      before any validation and any storage call, so nothing is written. */
  lemma UnreadableIdRejected(t: Tables, rawId: string, body: Json, fault: bool)
    requires t.Valid() && ParseInt(rawId).None?
    ensures GetProjectRoute(t, rawId, fault) == Response(400, Error("Invalid project ID"))
    ensures PatchProjectRoute(t, rawId, body, fault) == (t, Response(400, Error("Invalid project ID")))
    ensures DeleteProjectRoute(t, rawId, fault) == (t, Response(400, Error("Invalid project ID")))
    ensures GetTestimonialRoute(t, rawId, fault) == Response(400, Error("Invalid testimonial ID"))
    ensures PatchTestimonialRoute(t, rawId, body, fault) == (t, Response(400, Error("Invalid testimonial ID")))
    ensures DeleteTestimonialRoute(t, rawId, fault) == (t, Response(400, Error("Invalid testimonial ID")))
  {
  }

  /** A project body that fails validation is answered with 400, the
      route's message and a non-empty list of issues, and nothing is written. */
  lemma InvalidProjectBodyRejected(t: Tables, rawId: string, body: Json, now: Timestamp, fault: bool)
    requires t.Valid()
    ensures ParseInsertProject(body).Err? ==>
      var issues := ParseInsertProject(body).error;
      |issues| > 0 && PostProjectRoute(t, body, now, fault) == (t, Response(400, InvalidData("Invalid project data", issues)))
    ensures ParseInt(rawId).Some? && ParseProjectPatch(body).Err? ==>
      var issues := ParseProjectPatch(body).error;
      |issues| > 0 && PatchProjectRoute(t, rawId, body, fault) == (t, Response(400, InvalidData("Invalid project data", issues)))
  {
  }

  /** The same for the contact form. */
  lemma InvalidContactBodyRejected(t: Tables, body: Json, now: Timestamp, fault: bool)
    requires t.Valid()
    ensures ParseInsertContact(body).Err? ==>
      var issues := ParseInsertContact(body).error;
      |issues| > 0 && PostContactRoute(t, body, now, fault) == (t, Response(400, InvalidData("Invalid contact data", issues)))
  {
  }

  /** The same for testimonials. */
  lemma InvalidTestimonialBodyRejected(t: Tables, rawId: string, body: Json, now: Timestamp, fault: bool)
    requires t.Valid()
    ensures ParseInsertTestimonial(body).Err? ==>
      var issues := ParseInsertTestimonial(body).error;
      |issues| > 0 && PostTestimonialRoute(t, body, now, fault) == (t, Response(400, InvalidData("Invalid testimonial data", issues)))
    ensures ParseInt(rawId).Some? && ParseTestimonialPatch(body).Err? ==>
      var issues := ParseTestimonialPatch(body).error;
      |issues| > 0 && PatchTestimonialRoute(t, rawId, body, fault) == (t, Response(400, InvalidData("Invalid testimonial data", issues)))
  {
  }

  /** When the storage call throws, the handler answers 500 with its fixed
      message and the store is as it was. */
  lemma StorageFaultAnswers500(t: Tables, rawId: string, body: Json, now: Timestamp)
    requires t.Valid()
    ensures ListProjectsRoute(t, true) == Response(500, Error("Failed to fetch projects"))
    ensures ListContactsRoute(t, true) == Response(500, Error("Failed to fetch contacts"))
    ensures ListTestimonialsRoute(t, true) == Response(500, Error("Failed to fetch testimonials"))
    ensures ParseInt(rawId).Some? ==>
      && GetProjectRoute(t, rawId, true) == Response(500, Error("Failed to fetch project"))
      && DeleteProjectRoute(t, rawId, true) == (t, Response(500, Error("Failed to delete project")))
      && GetTestimonialRoute(t, rawId, true) == Response(500, Error("Failed to fetch testimonial"))
      && DeleteTestimonialRoute(t, rawId, true) == (t, Response(500, Error("Failed to delete testimonial")))
    ensures ParseInsertProject(body).Ok? ==>
      PostProjectRoute(t, body, now, true) == (t, Response(500, Error("Failed to create project")))
    ensures ParseInt(rawId).Some? && ParseProjectPatch(body).Ok? ==>
      PatchProjectRoute(t, rawId, body, true) == (t, Response(500, Error("Failed to update project")))
    ensures ParseInsertContact(body).Ok? ==>
      PostContactRoute(t, body, now, true) == (t, Response(500, Error("Failed to submit contact form")))
    ensures ParseInsertTestimonial(body).Ok? ==>
      PostTestimonialRoute(t, body, now, true) == (t, Response(500, Error("Failed to create testimonial")))
    ensures ParseInt(rawId).Some? && ParseTestimonialPatch(body).Ok? ==>
      PatchTestimonialRoute(t, rawId, body, true) == (t, Response(500, Error("Failed to update testimonial")))
  {
  }

  /** A valid project body is answered with 201 and the created row: the
      payload as validated, the next id and the clock reading. Fetching
      that id afterwards answers 200 with the same row, and the listing
      gains it at the end. */
  lemma PostProjectThenGet(t: Tables, body: Json, now: Timestamp)
    requires t.Valid() && ParseInsertProject(body).Ok?
    ensures var (t', r) := PostProjectRoute(t, body, now, false);
      && r.status == 201 && r.body.ProjectJson?
      && ProjectPayload(r.body.project) == ParseInsertProject(body).value
      && r.body.project.id == t.projectId && r.body.project.createdAt == now
      && GetProjectRoute(t', IntToDecimal(t.projectId), false) == Response(200, r.body)
      && ListProjectsRoute(t', false) == Response(200, ProjectsJson(t.GetProjects() + [r.body.project]))
  {
    CreateProjectThenGet(t, ParseInsertProject(body).value, now);
    ParseIntReadsDecimal(t.projectId, "");
    assert IntToDecimal(t.projectId) + "" == IntToDecimal(t.projectId);
  }

  /** PATCH with a readable id and a valid partial body answers 200 with the
      merge of the stored row and the patch, which is then what GET
      returns; an unknown id answers 404 and changes nothing. */
  lemma PatchProjectAnswers(t: Tables, rawId: string, body: Json)
    requires t.Valid() && ParseInt(rawId).Some? && ParseProjectPatch(body).Ok?
    ensures var id := ParseInt(rawId).value;
            var (t', r) := PatchProjectRoute(t, rawId, body, false);
      if id in t.projects.entries then
        var merged := ApplyProjectPatch(t.projects.entries[id], ParseProjectPatch(body).value);
        && r == Response(200, ProjectJson(merged))
        && GetProjectRoute(t', rawId, false) == r
        && (forall k :: k != id ==> t'.GetProject(k) == t.GetProject(k))
      else
        t' == t && r == Response(404, Error("Project not found"))
  {
    var id := ParseInt(rawId).value;
    var q := ParseProjectPatch(body).value;
    if id in t.projects.entries {
      UpdateProjectPresent(t, id, q);
    } else {
      UpdateAbsentChangesNothing(t, id, q, TestimonialPatch(None, None, None, None, Absent, Absent));
    }
  }

  /** DELETE answers 204 exactly when the id was stored; afterwards the id
      is gone, so GET and a second DELETE both answer 404. */
  lemma DeleteProjectThenGone(t: Tables, rawId: string)
    requires t.Valid() && ParseInt(rawId).Some?
    ensures var id := ParseInt(rawId).value;
            var (t1, r1) := DeleteProjectRoute(t, rawId, false);
            var (t2, r2) := DeleteProjectRoute(t1, rawId, false);
      && (r1 == Response(204, NoContent) <==> id in t.projects.entries)
      && (id !in t.projects.entries ==> r1 == Response(404, Error("Project not found")))
      && (forall k :: k != id ==> t1.GetProject(k) == t.GetProject(k))
      && GetProjectRoute(t1, rawId, false) == Response(404, Error("Project not found"))
      && r2 == Response(404, Error("Project not found"))
      && t2.projects.entries == t1.projects.entries
  {
    DeleteProjectTwice(t, ParseInt(rawId).value);
  }

  /** A valid contact body is answered with 201 `{ success: true, id }`
      where `id` is the next contact id, and the admin listing gains the
      submission at the end; an invalid one is answered 400. */
  lemma PostContactAnswers(t: Tables, body: Json, now: Timestamp)
    requires t.Valid()
    ensures var (t', r) := PostContactRoute(t, body, now, false);
      if ParseInsertContact(body).Ok? then
        var ins := ParseInsertContact(body).value;
        && r == Response(201, ContactCreated(true, t.contactId))
        && ListContactsRoute(t', false) == Response(200, ContactsJson(t.GetContacts() + [NewContact(ins, t.contactId, now)]))
      else
        t' == t && r.status == 400 && r.body.InvalidData? && |r.body.details| > 0
  {
    if ParseInsertContact(body).Ok? {
      CreateContactThenList(t, ParseInsertContact(body).value, now);
    }
  }

  /** A valid testimonial body is answered with 201 and the created row,
      whose display order is the supplied non-zero one or else the number
      of stored testimonials plus one; fetching its id answers 200 with it
      and the listing contains it. */
  lemma PostTestimonialThenGet(t: Tables, body: Json, now: Timestamp)
    requires t.Valid() && ParseInsertTestimonial(body).Ok?
    ensures var ins := ParseInsertTestimonial(body).value;
            var (t', r) := PostTestimonialRoute(t, body, now, false);
      && r.status == 201 && r.body.TestimonialJson?
      && r.body.testimonial.id == t.testimonialId
      && r.body.testimonial.displayOrder == Present(DefaultDisplayOrder(ins.displayOrder, |t.testimonials.entries|))
      && TestimonialPayload(r.body.testimonial) == ins.(displayOrder := r.body.testimonial.displayOrder)
      && GetTestimonialRoute(t', IntToDecimal(t.testimonialId), false) == Response(200, r.body)
      && r.body.testimonial in ListTestimonialsRoute(t', false).body.testimonials
  {
    var ins := ParseInsertTestimonial(body).value;
    CreateTestimonialThenGet(t, ins, now);
    var (t', x) := t.CreateTestimonial(ins, now);
    GetTestimonialsOrdered(t');
    ParseIntReadsDecimal(t.testimonialId, "");
    assert IntToDecimal(t.testimonialId) + "" == IntToDecimal(t.testimonialId);
  }

  /** PATCH and DELETE of testimonials behave as those of projects. */
  lemma TestimonialUpdateAndDelete(t: Tables, rawId: string, body: Json)
    requires t.Valid() && ParseInt(rawId).Some?
    ensures var id := ParseInt(rawId).value;
            var (t1, r1) := DeleteTestimonialRoute(t, rawId, false);
      && (r1 == Response(204, NoContent) <==> id in t.testimonials.entries)
      && GetTestimonialRoute(t1, rawId, false) == Response(404, Error("Testimonial not found"))
      && DeleteTestimonialRoute(t1, rawId, false).1 == Response(404, Error("Testimonial not found"))
    ensures ParseTestimonialPatch(body).Ok? ==>
      var id := ParseInt(rawId).value;
      var (t', r) := PatchTestimonialRoute(t, rawId, body, false);
      if id in t.testimonials.entries then
        var merged := ApplyTestimonialPatch(t.testimonials.entries[id], ParseTestimonialPatch(body).value);
        r == Response(200, TestimonialJson(merged)) && GetTestimonialRoute(t', rawId, false) == r
      else
        t' == t && r == Response(404, Error("Testimonial not found"))
  {
    var id := ParseInt(rawId).value;
    DeleteTestimonialTwice(t, id);
    if ParseTestimonialPatch(body).Ok? {
      var q := ParseTestimonialPatch(body).value;
      if id in t.testimonials.entries {
        UpdateTestimonialPresent(t, id, q);
      } else {
        UpdateAbsentChangesNothing(t, id, EmptyProjectPatch, q);
      }
    }
  }

  /** On a fresh store, the contact form submission of Ana is answered with
      201 `{ success: true, id: 1 }` and is then the only submission listed. */
  lemma FreshStoreContact(now: Timestamp)
    ensures var ins := InsertContact("Ana", "ana@example.com", "Hi", Absent);
            var (t1, r) := PostContactRoute(InitialTables(), EncodeInsertContact(ins), now, false);
      && r == Response(201, ContactCreated(true, 1))
      && ListContactsRoute(t1, false) == Response(200, ContactsJson([Contact(1, "Ana", "ana@example.com", "Hi", Absent, now)]))
  {
    var t0 := InitialTables();
    var ins := InsertContact("Ana", "ana@example.com", "Hi", Absent);
    InsertContactRoundTrip(ins);
    CreateContactThenList(t0, ins, now);
    var (t1, c) := t0.CreateContact(ins, now);
    assert c == Contact(1, "Ana", "ana@example.com", "Hi", Absent, now);
    assert t0.GetContacts() == [];
    assert t1.GetContacts() == [c];
  }

  /** `GET /api/projects/abc` is answered 400 and, on a fresh store,
      `DELETE /api/projects/999` is answered 404. */
  lemma FreshStoreBadIds()
    ensures GetProjectRoute(InitialTables(), "abc", false) == Response(400, Error("Invalid project ID"))
    ensures DeleteProjectRoute(InitialTables(), "999", false).1 == Response(404, Error("Project not found"))
  {
    ParseIntWithoutDigits();
    assert ParseInt("999") == Some(999) by {
      assert IntToDecimal(999) + "" == "999" by {
        assert NatToDecimal(999) == NatToDecimal(99) + "9";
        assert NatToDecimal(99) == NatToDecimal(9) + "9";
      }
      ParseIntReadsDecimal(999, "");
    }
  }
}
