/** The in-memory storage backend `MemStorage`: four keyed tables (users,
    projects, contacts, testimonials), each a JavaScript `Map` from id to
    row, and four id counters that start at 1.

    `Tables` is the state of a store as a value and carries one function
    per storage operation (new state and result); the class `MemStorage`
    holds the same eight fields and updates them in place, each method
    proved to do what its function says. The lemmas at the end state the
    storage contract in terms of the functions. */
module Storage {
  import opened Values
  import opened Schema
  import opened JsMaps

  // -----------------------------------------------------------------------
  // Rows built by the store

  /** `{...insertUser, id}` */
  function NewUser(ins: InsertUser, id: int): User {
    User(id, ins.username, ins.password)
  }

  /** `{...project, id, created_at: now}` */
  function NewProject(ins: InsertProject, id: int, now: Timestamp): Project {
    Project(id, ins.title, ins.description, ins.imageUrl, ins.tags, ins.projectUrl, ins.githubUrl, now)
  }

  /** `{...contact, id, created_at: now}` */
  function NewContact(ins: InsertContact, id: int, now: Timestamp): Contact {
    Contact(id, ins.name, ins.email, ins.message, ins.subject, now)
  }

  /** `{...testimonial, id, created_at: now, display_order}` */
  function NewTestimonial(ins: InsertTestimonial, id: int, now: Timestamp, displayOrder: int): Testimonial {
    Testimonial(id, ins.name, ins.role, ins.company, ins.quote, ins.imageUrl, Present(displayOrder), now)
  }

  /** The client-supplied columns of a row: the row without id and created_at. */
  function ProjectPayload(p: Project): InsertProject {
    InsertProject(p.title, p.description, p.imageUrl, p.tags, p.projectUrl, p.githubUrl)
  }

  function ContactPayload(c: Contact): InsertContact {
    InsertContact(c.name, c.email, c.message, c.subject)
  }

  function TestimonialPayload(t: Testimonial): InsertTestimonial {
    InsertTestimonial(t.name, t.role, t.company, t.quote, t.imageUrl, t.displayOrder)
  }

  /** `testimonial.display_order || count + 1`: a missing, null or zero
      display order is replaced by one more than the number of stored
      testimonials; any other value is kept. */
  function DefaultDisplayOrder(requested: Nullable<int>, count: nat): (order: int)
    ensures requested.Present? && requested.value != 0 ==> order == requested.value
    ensures !(requested.Present? && requested.value != 0) ==> order == count + 1
    ensures order != 0
  {
    match requested
    case Present(v) => if v != 0 then v else count + 1
    case _ => count + 1
  }

  // -----------------------------------------------------------------------
  // Merging a patch into a row: `{...existing, ...patch}` copies exactly the
  // keys the patch has.

  function Overlay<T>(current: T, patch: Option<T>): T {
    match patch
    case Some(v) => v
    case None => current
  }

  function OverlayNullable<T>(current: Nullable<T>, patch: Nullable<T>): Nullable<T> {
    if patch.Absent? then current else patch
  }

  function ApplyProjectPatch(p: Project, q: ProjectPatch): (r: Project)
    ensures r.id == p.id && r.createdAt == p.createdAt
  {
    p.(title := Overlay(p.title, q.title),
       description := Overlay(p.description, q.description),
       imageUrl := OverlayNullable(p.imageUrl, q.imageUrl),
       tags := OverlayNullable(p.tags, q.tags),
       projectUrl := OverlayNullable(p.projectUrl, q.projectUrl),
       githubUrl := OverlayNullable(p.githubUrl, q.githubUrl))
  }

  function ApplyTestimonialPatch(t: Testimonial, q: TestimonialPatch): (r: Testimonial)
    ensures r.id == t.id && r.createdAt == t.createdAt
  {
    t.(name := Overlay(t.name, q.name),
       role := Overlay(t.role, q.role),
       company := Overlay(t.company, q.company),
       quote := Overlay(t.quote, q.quote),
       imageUrl := OverlayNullable(t.imageUrl, q.imageUrl),
       displayOrder := OverlayNullable(t.displayOrder, q.displayOrder))
  }

  // -----------------------------------------------------------------------
  // Listing testimonials: `Array.prototype.sort` (stable) with the
  // comparator `(a.display_order || 0) - (b.display_order || 0)`.

  function SortKey(t: Testimonial): int {
    match t.displayOrder
    case Present(v) => v
    case _ => 0
  }

  predicate SortedByKey(s: seq<Testimonial>) {
    forall i, j :: 0 <= i < j < |s| ==> SortKey(s[i]) <= SortKey(s[j])
  }

  /** The testimonials of `s` whose sort key is `k`, in their order in `s`. */
  function WithKey(s: seq<Testimonial>, k: int): seq<Testimonial> {
    if s == [] then []
    else (if SortKey(s[0]) == k then [s[0]] else []) + WithKey(s[1..], k)
  }

  /** Puts `x` before the first element whose key is not smaller. */
  function InsertByKey(x: Testimonial, s: seq<Testimonial>): seq<Testimonial> {
    if s == [] || SortKey(x) <= SortKey(s[0]) then [x] + s
    else [s[0]] + InsertByKey(x, s[1..])
  }

  function SortByDisplayOrder(s: seq<Testimonial>): (r: seq<Testimonial>)
    ensures multiset(r) == multiset(s)
  {
    if s == [] then []
    else
      var sorted := SortByDisplayOrder(s[1..]);
      InsertByKeyMultiset(s[0], sorted);
      assert s == [s[0]] + s[1..];
      InsertByKey(s[0], sorted)
  }

  lemma {:induction false} WithKeyCons(x: Testimonial, s: seq<Testimonial>, k: int)
    ensures WithKey([x] + s, k) == (if SortKey(x) == k then [x] else []) + WithKey(s, k)
  {
    assert ([x] + s)[1..] == s;
  }

  /** Every element of `s` other than `x` stays in `InsertByKey(x, s)`, and
      `x` is added. */
  lemma {:induction false} InsertByKeyMultiset(x: Testimonial, s: seq<Testimonial>)
    ensures multiset(InsertByKey(x, s)) == multiset(s) + multiset{x}
  {
    if s != [] && SortKey(x) > SortKey(s[0]) {
      InsertByKeyMultiset(x, s[1..]);
      assert s == [s[0]] + s[1..];
    }
  }

  lemma {:induction false} InsertByKeySorted(x: Testimonial, s: seq<Testimonial>)
    requires SortedByKey(s)
    ensures SortedByKey(InsertByKey(x, s))
  {
    if s != [] && SortKey(x) > SortKey(s[0]) {
      var tail := s[1..];
      assert SortedByKey(tail) by {
        forall i, j | 0 <= i < j < |tail| ensures SortKey(tail[i]) <= SortKey(tail[j]) {
          assert tail[i] == s[i + 1] && tail[j] == s[j + 1];
        }
      }
      InsertByKeySorted(x, tail);
      InsertByKeyMultiset(x, tail);
      var rest := InsertByKey(x, tail);
      var r := [s[0]] + rest;
      assert r == InsertByKey(x, s);
      forall i, j | 0 <= i < j < |r| ensures SortKey(r[i]) <= SortKey(r[j]) {
        var y := rest[j - 1];
        assert r[j] == y;
        if i == 0 {
          assert y in multiset(rest);
          if y != x {
            assert y in multiset(tail);
            var n :| 0 <= n < |tail| && tail[n] == y;
            assert s[n + 1] == y;
          }
        } else {
          assert r[i] == rest[i - 1];
        }
      }
    }
  }

  /** `x` never lands after an element with the same key, so for each key
      the subsequence of that key gains `x` at its front. */
  lemma {:induction false} InsertByKeyStable(x: Testimonial, s: seq<Testimonial>, k: int)
    ensures WithKey(InsertByKey(x, s), k) == (if SortKey(x) == k then [x] else []) + WithKey(s, k)
  {
    if s == [] || SortKey(x) <= SortKey(s[0]) {
      WithKeyCons(x, s, k);
    } else {
      var tail := s[1..];
      InsertByKeyStable(x, tail, k);
      assert s == [s[0]] + tail;
      WithKeyCons(s[0], InsertByKey(x, tail), k);
      WithKeyCons(s[0], tail, k);
    }
  }

  /** The list is ordered by display order, holds exactly the stored
      testimonials, and testimonials with equal keys keep their relative
      order (the sort is stable). */
  lemma {:induction false} SortByDisplayOrderCorrect(s: seq<Testimonial>)
    ensures SortedByKey(SortByDisplayOrder(s))
    ensures multiset(SortByDisplayOrder(s)) == multiset(s)
    ensures forall k :: WithKey(SortByDisplayOrder(s), k) == WithKey(s, k)
  {
    if s != [] {
      var sorted := SortByDisplayOrder(s[1..]);
      SortByDisplayOrderCorrect(s[1..]);
      InsertByKeySorted(s[0], sorted);
      InsertByKeyMultiset(s[0], sorted);
      assert s == [s[0]] + s[1..];
      forall k ensures WithKey(SortByDisplayOrder(s), k) == WithKey(s, k) {
        InsertByKeyStable(s[0], sorted, k);
        WithKeyCons(s[0], s[1..], k);
      }
    }
  }

  // -----------------------------------------------------------------------
  // `Array.from(users.values()).find(u => u.username === username)`

  function FirstWithUsername(us: seq<User>, name: string): (r: Option<User>)
    ensures r.None? <==> forall i :: 0 <= i < |us| ==> us[i].username != name
    ensures r.Some? ==> exists i :: 0 <= i < |us| && us[i] == r.value && r.value.username == name
                                     && forall j :: 0 <= j < i ==> us[j].username != name
  {
    if us == [] then None
    else if us[0].username == name then Some(us[0])
    else
      var r := FirstWithUsername(us[1..], name);
      assert forall i :: 0 < i < |us| ==> us[i] == us[1..][i - 1];
      r
  }

  // -----------------------------------------------------------------------
  // The store as a value

  /** Every key of `t` is a serial id issued before `counter`, listed in
      increasing order. */
  ghost predicate Serial<V>(t: JsMap<V>, counter: nat) {
    && t.Valid()
    && Increasing(t.keys)
    && 1 <= counter
    && (forall k :: k in t.entries ==> 1 <= k < counter)
  }

  lemma SerialSetFresh<V>(t: JsMap<V>, counter: nat, v: V)
    requires Serial(t, counter)
    ensures counter !in t.entries
    ensures Serial(t.Set(counter, v), counter + 1)
  {
    var ks := t.Set(counter, v).keys;
    assert ks == t.keys + [counter];
    forall i, j | 0 <= i < j < |ks| ensures ks[i] < ks[j] {
      assert ks[i] in t.entries;
      if j < |t.keys| {
        assert ks[i] == t.keys[i] && ks[j] == t.keys[j];
      }
    }
  }

  lemma SerialSetPresent<V>(t: JsMap<V>, counter: nat, k: int, v: V)
    requires Serial(t, counter) && k in t.entries
    ensures Serial(t.Set(k, v), counter)
  {
  }

  lemma SerialDelete<V>(t: JsMap<V>, counter: nat, k: int)
    requires Serial(t, counter)
    ensures Serial(t.Delete(k), counter)
  {
    WithoutIncreasing(t.keys, k);
  }

  datatype Tables = Tables(
    users: JsMap<User>,
    projects: JsMap<Project>,
    contacts: JsMap<Contact>,
    testimonials: JsMap<Testimonial>,
    userId: nat,
    projectId: nat,
    contactId: nat,
    testimonialId: nat)
  {
    /** Each table holds rows under the id they carry, every id below its
        table's counter. */
    ghost predicate Valid() {
      && Serial(users, userId)
      && Serial(projects, projectId)
      && Serial(contacts, contactId)
      && Serial(testimonials, testimonialId)
      && (forall k :: k in users.entries ==> users.entries[k].id == k)
      && (forall k :: k in projects.entries ==> projects.entries[k].id == k)
      && (forall k :: k in contacts.entries ==> contacts.entries[k].id == k)
      && (forall k :: k in testimonials.entries ==> testimonials.entries[k].id == k)
    }

    // --- users

    function GetUser(id: int): (r: Option<User>)
      ensures r.Some? <==> id in users.entries
      ensures r.Some? ==> r.value == users.entries[id]
      ensures Valid() && r.Some? ==> r.value.id == id && 1 <= id < userId
    {
      users.Get(id)
    }

    function GetUserByUsername(name: string): (r: Option<User>)
      requires Valid()
      ensures r.None? <==> forall k :: k in users.entries ==> users.entries[k].username != name
      ensures r.Some? ==> r.value.username == name && GetUser(r.value.id) == r
    {
      var vs := users.Values();
      var r := FirstWithUsername(vs, name);
      assert (forall k :: k in users.entries ==> users.entries[k].username != name) ==> r.None? by {
        if forall k :: k in users.entries ==> users.entries[k].username != name {
          forall i | 0 <= i < |vs| ensures vs[i].username != name {
            assert users.keys[i] in users.entries;
          }
        }
      }
      assert r.None? ==> forall k :: k in users.entries ==> users.entries[k].username != name by {
        forall k | k in users.entries && r.None? ensures users.entries[k].username != name {
          assert k in users.keys;
          var i :| 0 <= i < |users.keys| && users.keys[i] == k;
          assert vs[i] == users.entries[k];
        }
      }
      assert r.Some? ==> GetUser(r.value.id) == r by {
        if r.Some? {
          var i :| 0 <= i < |vs| && vs[i] == r.value;
          assert users.keys[i] in users.entries;
        }
      }
      r
    }

    function CreateUser(ins: InsertUser): (r: (Tables, User))
      requires Valid()
      ensures r.0.Valid()
    {
      var u := NewUser(ins, userId);
      SerialSetFresh(users, userId, u);
      (this.(users := users.Set(userId, u), userId := userId + 1), u)
    }

    // --- projects

    /** The projects in insertion order, which is increasing id order. */
    function GetProjects(): (ps: seq<Project>)
      requires Valid()
      ensures forall i, j :: 0 <= i < j < |ps| ==> ps[i].id < ps[j].id
      ensures forall p :: p in ps ==> p.id in projects.entries && projects.entries[p.id] == p
      ensures forall k :: k in projects.entries ==> projects.entries[k] in ps
    {
      var ps := projects.Values();
      assert forall i :: 0 <= i < |ps| ==> ps[i].id == projects.keys[i];
      assert forall k :: k in projects.entries ==> projects.entries[k] in ps by {
        forall k | k in projects.entries ensures projects.entries[k] in ps {
          assert k in projects.keys;
          var i :| 0 <= i < |projects.keys| && projects.keys[i] == k;
          assert ps[i] == projects.entries[k];
        }
      }
      ps
    }

    function GetProject(id: int): (r: Option<Project>)
      ensures r.Some? <==> id in projects.entries
      ensures r.Some? ==> r.value == projects.entries[id]
      ensures Valid() && r.Some? ==> r.value.id == id && 1 <= id < projectId
    {
      projects.Get(id)
    }

    function CreateProject(ins: InsertProject, now: Timestamp): (r: (Tables, Project))
      requires Valid()
      ensures r.0.Valid()
    {
      var p := NewProject(ins, projectId, now);
      SerialSetFresh(projects, projectId, p);
      (this.(projects := projects.Set(projectId, p), projectId := projectId + 1), p)
    }

    function UpdateProject(id: int, q: ProjectPatch): (r: (Tables, Option<Project>))
      requires Valid()
      ensures r.0.Valid()
    {
      match projects.Get(id)
      case None => (this, None)
      case Some(p) =>
        var u := ApplyProjectPatch(p, q);
        SerialSetPresent(projects, projectId, id, u);
        (this.(projects := projects.Set(id, u)), Some(u))
    }

    function DeleteProject(id: int): (r: (Tables, bool))
      requires Valid()
      ensures r.0.Valid()
    {
      SerialDelete(projects, projectId, id);
      (this.(projects := projects.Delete(id)), id in projects.entries)
    }

    // --- contacts

    /** The contacts in insertion order, which is increasing id order. */
    function GetContacts(): (cs: seq<Contact>)
      requires Valid()
      ensures forall i, j :: 0 <= i < j < |cs| ==> cs[i].id < cs[j].id
      ensures forall c :: c in cs ==> c.id in contacts.entries && contacts.entries[c.id] == c
      ensures forall k :: k in contacts.entries ==> contacts.entries[k] in cs
    {
      var cs := contacts.Values();
      assert forall i :: 0 <= i < |cs| ==> cs[i].id == contacts.keys[i];
      assert forall k :: k in contacts.entries ==> contacts.entries[k] in cs by {
        forall k | k in contacts.entries ensures contacts.entries[k] in cs {
          assert k in contacts.keys;
          var i :| 0 <= i < |contacts.keys| && contacts.keys[i] == k;
          assert cs[i] == contacts.entries[k];
        }
      }
      cs
    }

    function CreateContact(ins: InsertContact, now: Timestamp): (r: (Tables, Contact))
      requires Valid()
      ensures r.0.Valid()
    {
      var c := NewContact(ins, contactId, now);
      SerialSetFresh(contacts, contactId, c);
      (this.(contacts := contacts.Set(contactId, c), contactId := contactId + 1), c)
    }

    // --- testimonials

    function GetTestimonials(): (r: seq<Testimonial>)
      requires Valid()
      ensures SortedByKey(r)
      ensures multiset(r) == multiset(testimonials.Values())
      ensures forall x :: x in r <==> GetTestimonial(x.id) == Some(x)
    {
      var vs := testimonials.Values();
      SortByDisplayOrderCorrect(vs);
      var r := SortByDisplayOrder(vs);
      assert forall x :: x in r <==> x in vs by {
        forall x ensures x in r <==> x in vs {
          assert x in r <==> x in multiset(r);
          assert x in vs <==> x in multiset(vs);
        }
      }
      assert forall x :: x in vs <==> GetTestimonial(x.id) == Some(x) by {
        forall x ensures x in vs <==> GetTestimonial(x.id) == Some(x) {
          if x in vs {
            var i :| 0 <= i < |vs| && vs[i] == x;
            assert testimonials.keys[i] in testimonials.entries;
          }
          if GetTestimonial(x.id) == Some(x) {
            assert x.id in testimonials.keys;
            var i :| 0 <= i < |testimonials.keys| && testimonials.keys[i] == x.id;
            assert vs[i] == x;
          }
        }
      }
      r
    }

    function GetTestimonial(id: int): (r: Option<Testimonial>)
      ensures r.Some? <==> id in testimonials.entries
      ensures r.Some? ==> r.value == testimonials.entries[id]
      ensures Valid() && r.Some? ==> r.value.id == id && 1 <= id < testimonialId
    {
      testimonials.Get(id)
    }

    function CreateTestimonial(ins: InsertTestimonial, now: Timestamp): (r: (Tables, Testimonial))
      requires Valid()
      ensures r.0.Valid()
    {
      var order := DefaultDisplayOrder(ins.displayOrder, |testimonials.Values()|);
      var t := NewTestimonial(ins, testimonialId, now, order);
      SerialSetFresh(testimonials, testimonialId, t);
      (this.(testimonials := testimonials.Set(testimonialId, t), testimonialId := testimonialId + 1), t)
    }

    function UpdateTestimonial(id: int, q: TestimonialPatch): (r: (Tables, Option<Testimonial>))
      requires Valid()
      ensures r.0.Valid()
    {
      match testimonials.Get(id)
      case None => (this, None)
      case Some(t) =>
        var u := ApplyTestimonialPatch(t, q);
        SerialSetPresent(testimonials, testimonialId, id, u);
        (this.(testimonials := testimonials.Set(id, u)), Some(u))
    }

    function DeleteTestimonial(id: int): (r: (Tables, bool))
      requires Valid()
      ensures r.0.Valid()
    {
      SerialDelete(testimonials, testimonialId, id);
      (this.(testimonials := testimonials.Delete(id)), id in testimonials.entries)
    }
  }

  /** The state `new MemStorage()` starts in: empty tables, counters at 1. */
  function InitialTables(): (t: Tables)
    ensures t.Valid()
    ensures t.userId == 1 && t.projectId == 1 && t.contactId == 1 && t.testimonialId == 1
    ensures t.users.entries == map[] && t.projects.entries == map[]
    ensures t.contacts.entries == map[] && t.testimonials.entries == map[]
  {
    Tables(Empty(), Empty(), Empty(), Empty(), 1, 1, 1, 1)
  }

  // -----------------------------------------------------------------------
  // The class that updates the store in place

  class MemStorage {
    var users: JsMap<User>
    var projects: JsMap<Project>
    var contacts: JsMap<Contact>
    var testimonials: JsMap<Testimonial>
    var userId: nat
    var projectId: nat
    var contactId: nat
    var testimonialId: nat

    /** The eight fields as one value. */
    function Model(): Tables
      reads this
    {
      Tables(users, projects, contacts, testimonials, userId, projectId, contactId, testimonialId)
    }

    ghost predicate Valid()
      reads this
    {
      Model().Valid()
    }

    constructor ()
      ensures Valid()
      ensures Model() == InitialTables()
    {
      users, projects, contacts, testimonials := Empty(), Empty(), Empty(), Empty();
      userId, projectId, contactId, testimonialId := 1, 1, 1, 1;
    }

    method GetUser(id: int) returns (r: Option<User>)
      ensures r.Some? <==> id in users.entries
      ensures r.Some? ==> r.value == users.entries[id]
    {
      r := users.Get(id);
    }

    method GetUserByUsername(name: string) returns (r: Option<User>)
      requires Valid()
      ensures r == Model().GetUserByUsername(name)
    {
      r := FirstWithUsername(users.Values(), name);
    }

    method CreateUser(ins: InsertUser) returns (u: User)
      requires Valid()
      modifies this
      ensures Valid()
      ensures (Model(), u) == old(Model()).CreateUser(ins)
    {
      var id := userId;
      userId := userId + 1;
      u := NewUser(ins, id);
      users := users.Set(id, u);
    }

    method GetProjects() returns (ps: seq<Project>)
      requires Valid()
      ensures ps == Model().GetProjects()
    {
      ps := projects.Values();
    }

    method GetProject(id: int) returns (r: Option<Project>)
      ensures r.Some? <==> id in projects.entries
      ensures r.Some? ==> r.value == projects.entries[id]
    {
      r := projects.Get(id);
    }

    method CreateProject(ins: InsertProject, now: Timestamp) returns (p: Project)
      requires Valid()
      modifies this
      ensures Valid()
      ensures (Model(), p) == old(Model()).CreateProject(ins, now)
    {
      var id := projectId;
      projectId := projectId + 1;
      p := NewProject(ins, id, now);
      projects := projects.Set(id, p);
    }

    method UpdateProject(id: int, q: ProjectPatch) returns (r: Option<Project>)
      requires Valid()
      modifies this
      ensures Valid()
      ensures (Model(), r) == old(Model()).UpdateProject(id, q)
    {
      var existing := projects.Get(id);
      if existing.None? {
        return None;
      }
      var updated := ApplyProjectPatch(existing.value, q);
      SerialSetPresent(projects, projectId, id, updated);
      projects := projects.Set(id, updated);
      r := Some(updated);
      assert Model() == old(Model()).UpdateProject(id, q).0;
    }

    method DeleteProject(id: int) returns (existed: bool)
      requires Valid()
      modifies this
      ensures Valid()
      ensures (Model(), existed) == old(Model()).DeleteProject(id)
    {
      existed := id in projects.entries;
      projects := projects.Delete(id);
      assert Model() == old(Model()).DeleteProject(id).0;
    }

    method CreateContact(ins: InsertContact, now: Timestamp) returns (c: Contact)
      requires Valid()
      modifies this
      ensures Valid()
      ensures (Model(), c) == old(Model()).CreateContact(ins, now)
    {
      var id := contactId;
      contactId := contactId + 1;
      c := NewContact(ins, id, now);
      contacts := contacts.Set(id, c);
    }

    method GetContacts() returns (cs: seq<Contact>)
      requires Valid()
      ensures cs == Model().GetContacts()
    {
      cs := contacts.Values();
    }

    method GetTestimonials() returns (ts: seq<Testimonial>)
      requires Valid()
      ensures ts == Model().GetTestimonials()
    {
      ts := SortByDisplayOrder(testimonials.Values());
    }

    method GetTestimonial(id: int) returns (r: Option<Testimonial>)
      ensures r.Some? <==> id in testimonials.entries
      ensures r.Some? ==> r.value == testimonials.entries[id]
    {
      r := testimonials.Get(id);
    }

    method CreateTestimonial(ins: InsertTestimonial, now: Timestamp) returns (t: Testimonial)
      requires Valid()
      modifies this
      ensures Valid()
      ensures (Model(), t) == old(Model()).CreateTestimonial(ins, now)
    {
      var id := testimonialId;
      testimonialId := testimonialId + 1;
      var order := DefaultDisplayOrder(ins.displayOrder, |testimonials.Values()|);
      t := NewTestimonial(ins, id, now, order);
      testimonials := testimonials.Set(id, t);
    }

    method UpdateTestimonial(id: int, q: TestimonialPatch) returns (r: Option<Testimonial>)
      requires Valid()
      modifies this
      ensures Valid()
      ensures (Model(), r) == old(Model()).UpdateTestimonial(id, q)
    {
      var existing := testimonials.Get(id);
      if existing.None? {
        return None;
      }
      var updated := ApplyTestimonialPatch(existing.value, q);
      SerialSetPresent(testimonials, testimonialId, id, updated);
      testimonials := testimonials.Set(id, updated);
      r := Some(updated);
      assert Model() == old(Model()).UpdateTestimonial(id, q).0;
    }

    method DeleteTestimonial(id: int) returns (existed: bool)
      requires Valid()
      modifies this
      ensures Valid()
      ensures (Model(), existed) == old(Model()).DeleteTestimonial(id)
    {
      existed := id in testimonials.entries;
      testimonials := testimonials.Delete(id);
      assert Model() == old(Model()).DeleteTestimonial(id).0;
    }
  }

  // -----------------------------------------------------------------------
  // The storage contract

  /** A created project is stored under the current counter, which then
      advances; it carries exactly the payload plus that id and the clock
      reading, and no other row changes. */
  lemma CreateProjectThenGet(t: Tables, ins: InsertProject, now: Timestamp)
    requires t.Valid()
    ensures var (t', p) := t.CreateProject(ins, now);
      && p.id == t.projectId && t'.projectId == t.projectId + 1
      && t.GetProject(p.id) == None
      && t'.GetProject(p.id) == Some(p)
      && ProjectPayload(p) == ins && p.createdAt == now
      && (forall k :: k != p.id ==> t'.GetProject(k) == t.GetProject(k))
      && t'.GetProjects() == t.GetProjects() + [p]
  {
    var p := NewProject(ins, t.projectId, now);
    SerialSetFresh(t.projects, t.projectId, p);
    SetAbsentAppends(t.projects, t.projectId, p);
  }

  lemma CreateContactThenList(t: Tables, ins: InsertContact, now: Timestamp)
    requires t.Valid()
    ensures var (t', c) := t.CreateContact(ins, now);
      && c.id == t.contactId && t'.contactId == t.contactId + 1
      && ContactPayload(c) == ins && c.createdAt == now
      && t'.GetContacts() == t.GetContacts() + [c]
  {
    var c := NewContact(ins, t.contactId, now);
    SerialSetFresh(t.contacts, t.contactId, c);
    SetAbsentAppends(t.contacts, t.contactId, c);
  }

  /** A created testimonial keeps a supplied non-zero display order and
      otherwise gets the number of stored testimonials plus one. */
  lemma CreateTestimonialThenGet(t: Tables, ins: InsertTestimonial, now: Timestamp)
    requires t.Valid()
    ensures var (t', r) := t.CreateTestimonial(ins, now);
      && r.id == t.testimonialId && t'.testimonialId == t.testimonialId + 1
      && t.GetTestimonial(r.id) == None
      && t'.GetTestimonial(r.id) == Some(r)
      && r.createdAt == now
      && r.displayOrder == Present(DefaultDisplayOrder(ins.displayOrder, |t.testimonials.entries|))
      && TestimonialPayload(r) == ins.(displayOrder := r.displayOrder)
      && (forall k :: k != r.id ==> t'.GetTestimonial(k) == t.GetTestimonial(k))
  {
    var n := t.testimonials.Size();
    SerialSetFresh(t.testimonials, t.testimonialId,
      NewTestimonial(ins, t.testimonialId, now, DefaultDisplayOrder(ins.displayOrder, n)));
  }

  lemma CreateUserThenGet(t: Tables, ins: InsertUser)
    requires t.Valid()
    ensures var (t', u) := t.CreateUser(ins);
      && u.id == t.userId && t'.userId == t.userId + 1
      && t.GetUser(u.id) == None && t'.GetUser(u.id) == Some(u)
      && u.username == ins.username && u.password == ins.password
      && (forall k :: k != u.id ==> t'.GetUser(k) == t.GetUser(k))
  {
    SerialSetFresh(t.users, t.userId, NewUser(ins, t.userId));
  }

  /** Users that do not carry the name are skipped by the lookup. */
  lemma {:induction false} FirstWithUsernameSkips(xs: seq<User>, ys: seq<User>, name: string)
    requires forall i :: 0 <= i < |xs| ==> xs[i].username != name
    ensures FirstWithUsername(xs + ys, name) == FirstWithUsername(ys, name)
  {
    if xs == [] {
      assert xs + ys == ys;
    } else {
      FirstWithUsernameSkips(xs[1..], ys, name);
      assert (xs + ys)[0] == xs[0];
      assert (xs + ys)[1..] == xs[1..] + ys;
    }
  }

  /** `createUser` does not enforce the column's uniqueness: a second user
      with the same name is stored too, and lookup by name finds the first. */
  lemma DuplicateUsernameAccepted(t: Tables, a: InsertUser, b: InsertUser)
    requires t.Valid() && t.GetUserByUsername(a.username) == None
    requires a.username == b.username
    ensures var (t1, u1) := t.CreateUser(a);
            var (t2, u2) := t1.CreateUser(b);
      && u1.id != u2.id
      && t2.GetUser(u1.id) == Some(u1) && t2.GetUser(u2.id) == Some(u2)
      && t2.GetUserByUsername(a.username) == Some(u1)
  {
    var (t1, u1) := t.CreateUser(a);
    var (t2, u2) := t1.CreateUser(b);
    SerialSetFresh(t.users, t.userId, u1);
    SerialSetFresh(t1.users, t1.userId, u2);
    SetAbsentAppends(t.users, t.userId, u1);
    SetAbsentAppends(t1.users, t1.userId, u2);
    assert t2.users.Values() == t.users.Values() + [u1, u2];
    FirstWithUsernameSkips(t.users.Values(), [u1, u2], a.username);
  }

  /** Ids are never reused: a deletion leaves the counter where it was, so
      the next row gets an id that no row ever had. */
  lemma DeleteThenCreateFreshId(t: Tables, id: int, ins: InsertProject, now: Timestamp)
    requires t.Valid() && id in t.projects.entries
    ensures var (t1, _) := t.DeleteProject(id);
            var (_, p) := t1.CreateProject(ins, now);
      && t1.projectId == t.projectId
      && p.id != id
      && (forall k :: k in t.projects.entries ==> k < p.id)
  {
  }

  /** Updating an absent id answers None and changes nothing. */
  lemma UpdateAbsentChangesNothing(t: Tables, id: int, q: ProjectPatch, r: TestimonialPatch)
    requires t.Valid()
    ensures id !in t.projects.entries ==> t.UpdateProject(id, q) == (t, None)
    ensures id !in t.testimonials.entries ==> t.UpdateTestimonial(id, r) == (t, None)
  {
  }

  /** Updating a present project stores and returns the merge of the old row
      with the patch; every other row, the counter and the listing order
      stay as they were. */
  lemma UpdateProjectPresent(t: Tables, id: int, q: ProjectPatch)
    requires t.Valid() && id in t.projects.entries
    ensures var (t', r) := t.UpdateProject(id, q);
      && r == Some(ApplyProjectPatch(t.projects.entries[id], q))
      && t'.GetProject(id) == r
      && r.value.id == id && r.value.createdAt == t.projects.entries[id].createdAt
      && (forall k :: k != id ==> t'.GetProject(k) == t.GetProject(k))
      && t'.projectId == t.projectId
      && t'.projects.keys == t.projects.keys
      && exists i :: 0 <= i < |t.projects.keys| && t.projects.keys[i] == id
                     && t'.GetProjects() == t.GetProjects()[i := r.value]
  {
    var u := ApplyProjectPatch(t.projects.entries[id], q);
    assert id in t.projects.keys;
    var i :| 0 <= i < |t.projects.keys| && t.projects.keys[i] == id;
    SetPresentKeepsOrder(t.projects, id, u, i);
  }

  lemma UpdateTestimonialPresent(t: Tables, id: int, q: TestimonialPatch)
    requires t.Valid() && id in t.testimonials.entries
    ensures var (t', r) := t.UpdateTestimonial(id, q);
      && r == Some(ApplyTestimonialPatch(t.testimonials.entries[id], q))
      && t'.GetTestimonial(id) == r
      && r.value.id == id && r.value.createdAt == t.testimonials.entries[id].createdAt
      && (forall k :: k != id ==> t'.GetTestimonial(k) == t.GetTestimonial(k))
      && t'.testimonials.keys == t.testimonials.keys
      && t'.testimonialId == t.testimonialId
  {
  }

  /** Delete answers whether the id was present and removes that key only;
      a second delete of the same id answers false and changes nothing. */
  lemma DeleteProjectTwice(t: Tables, id: int)
    requires t.Valid()
    ensures var (t1, first) := t.DeleteProject(id);
            var (t2, second) := t1.DeleteProject(id);
      && first == (id in t.projects.entries)
      && t1.GetProject(id) == None
      && (forall k :: k != id ==> t1.GetProject(k) == t.GetProject(k))
      && t1.projectId == t.projectId
      && !second && t2.projects.entries == t1.projects.entries
  {
  }

  lemma DeleteTestimonialTwice(t: Tables, id: int)
    requires t.Valid()
    ensures var (t1, first) := t.DeleteTestimonial(id);
            var (t2, second) := t1.DeleteTestimonial(id);
      && first == (id in t.testimonials.entries)
      && t1.GetTestimonial(id) == None
      && (forall k :: k != id ==> t1.GetTestimonial(k) == t.GetTestimonial(k))
      && t1.testimonialId == t.testimonialId
      && !second && t2.testimonials.entries == t1.testimonials.entries
  {
  }

  /** The testimonial listing is a permutation of the stored testimonials,
      in non-decreasing display order (missing, null and 0 read as 0), with
      ties in insertion order. */
  lemma GetTestimonialsOrdered(t: Tables)
    requires t.Valid()
    ensures SortedByKey(t.GetTestimonials())
    ensures multiset(t.GetTestimonials()) == multiset(t.testimonials.Values())
    ensures forall k :: WithKey(t.GetTestimonials(), k) == WithKey(t.testimonials.Values(), k)
    ensures forall id :: id in t.testimonials.entries ==> t.testimonials.entries[id] in t.GetTestimonials()
  {
    var vs := t.testimonials.Values();
    SortByDisplayOrderCorrect(vs);
    forall id | id in t.testimonials.entries
      ensures t.testimonials.entries[id] in t.GetTestimonials()
    {
      assert id in t.testimonials.keys;
      var i :| 0 <= i < |t.testimonials.keys| && t.testimonials.keys[i] == id;
      assert vs[i] in multiset(vs);
    }
  }

  // -----------------------------------------------------------------------
  // Patches

  const EmptyProjectPatch := ProjectPatch(None, None, Absent, Absent, Absent, Absent)

  /** An empty patch leaves a row as it is, and applying a patch twice is
      the same as applying it once. */
  lemma ProjectPatchLaws(p: Project, q: ProjectPatch)
    ensures ApplyProjectPatch(p, EmptyProjectPatch) == p
    ensures ApplyProjectPatch(ApplyProjectPatch(p, q), q) == ApplyProjectPatch(p, q)
  {
  }

  /** A patch that names only the title changes only the title. */
  lemma TitleOnlyPatch(p: Project, title: string)
    ensures ApplyProjectPatch(p, EmptyProjectPatch.(title := Some(title))) == p.(title := title)
  {
  }

  // -----------------------------------------------------------------------
  // The merge as a spread: a row seen as the JavaScript object it is stored
  // as, `{...existing, ...patch}` is the override of one object by the other.

  /** A nullable integer column of a stored row as an object entry; a row's
      display order need not fit in 32 bits. */
  function OrderEntry(key: string, v: Nullable<int>): (m: map<string, Json>)
    ensures m.Keys <= {key}
    ensures key in m <==> !v.Absent?
  {
    match v
    case Absent => map[]
    case Null => map[key := JNull]
    case Present(i) => map[key := JInt(i)]
  }

  lemma OrderEntryAt(key: string, v: Nullable<int>, k: string)
    ensures At(OrderEntry(key, v), k) == if k == key then JsonOfInt(v) else None
  {
  }

  /** A project row as an object; the clock reading stands for the
      `created_at` date. */
  function ProjectRowJson(p: Project): map<string, Json>
    requires EncodableProject(p.tags)
  {
    map["id" := JInt(p.id), "created_at" := JInt(p.createdAt),
        "title" := JStr(p.title), "description" := JStr(p.description)]
      + StringEntry("image_url", p.imageUrl) + JsonEntry("tags", p.tags)
      + StringEntry("project_url", p.projectUrl) + StringEntry("github_url", p.githubUrl)
  }

  function TestimonialRowJson(t: Testimonial): map<string, Json> {
    map["id" := JInt(t.id), "created_at" := JInt(t.createdAt),
        "name" := JStr(t.name), "role" := JStr(t.role),
        "company" := JStr(t.company), "quote" := JStr(t.quote)]
      + StringEntry("image_url", t.imageUrl) + OrderEntry("display_order", t.displayOrder)
  }

  /** What a project row holds under each key. */
  function ProjectColumn(p: Project, k: string): Option<Json> {
    if k == "id" then Some(JInt(p.id))
    else if k == "created_at" then Some(JInt(p.createdAt))
    else if k == "title" then Some(JStr(p.title))
    else if k == "description" then Some(JStr(p.description))
    else if k == "image_url" then JsonOfString(p.imageUrl)
    else if k == "tags" then JsonOfJson(p.tags)
    else if k == "project_url" then JsonOfString(p.projectUrl)
    else if k == "github_url" then JsonOfString(p.githubUrl)
    else None
  }

  function TestimonialColumn(t: Testimonial, k: string): Option<Json> {
    if k == "id" then Some(JInt(t.id))
    else if k == "created_at" then Some(JInt(t.createdAt))
    else if k == "name" then Some(JStr(t.name))
    else if k == "role" then Some(JStr(t.role))
    else if k == "company" then Some(JStr(t.company))
    else if k == "quote" then Some(JStr(t.quote))
    else if k == "image_url" then JsonOfString(t.imageUrl)
    else if k == "display_order" then JsonOfInt(t.displayOrder)
    else None
  }

  lemma ProjectRowAt(p: Project, k: string)
    requires EncodableProject(p.tags)
    ensures At(ProjectRowJson(p), k) == ProjectColumn(p, k)
  {
    var m0 := map["id" := JInt(p.id), "created_at" := JInt(p.createdAt),
                  "title" := JStr(p.title), "description" := JStr(p.description)];
    var e1, e2 := StringEntry("image_url", p.imageUrl), JsonEntry("tags", p.tags);
    var e3, e4 := StringEntry("project_url", p.projectUrl), StringEntry("github_url", p.githubUrl);
    StringEntryAt("image_url", p.imageUrl, k);
    JsonEntryAt("tags", p.tags, k);
    StringEntryAt("project_url", p.projectUrl, k);
    StringEntryAt("github_url", p.githubUrl, k);
    AtUnion(m0, e1, k);
    AtUnion(m0 + e1, e2, k);
    AtUnion(m0 + e1 + e2, e3, k);
    AtUnion(m0 + e1 + e2 + e3, e4, k);
  }

  lemma TestimonialRowAt(t: Testimonial, k: string)
    ensures At(TestimonialRowJson(t), k) == TestimonialColumn(t, k)
  {
    var m0 := map["id" := JInt(t.id), "created_at" := JInt(t.createdAt),
                  "name" := JStr(t.name), "role" := JStr(t.role),
                  "company" := JStr(t.company), "quote" := JStr(t.quote)];
    StringEntryAt("image_url", t.imageUrl, k);
    OrderEntryAt("display_order", t.displayOrder, k);
    AtUnion(m0, StringEntry("image_url", t.imageUrl), k);
    AtUnion(m0 + StringEntry("image_url", t.imageUrl), OrderEntry("display_order", t.displayOrder), k);
  }

  /** Column by column, the merge takes the patch's value where the patch
      has one and the row's elsewhere. */
  lemma ProjectMergeAt(p: Project, q: ProjectPatch, k: string)
    ensures ProjectColumn(ApplyProjectPatch(p, q), k) ==
      if ProjectPatchColumn(q, k).Some? then ProjectPatchColumn(q, k) else ProjectColumn(p, k)
  {
  }

  lemma TestimonialMergeAt(t: Testimonial, q: TestimonialPatch, k: string)
    ensures TestimonialColumn(ApplyTestimonialPatch(t, q), k) ==
      if TestimonialPatchColumn(q, k).Some? then TestimonialPatchColumn(q, k) else TestimonialColumn(t, k)
  {
  }

  /** `updateProject` stores `{...existing, ...patch}`: every key the patch
      carries, `null` included, takes the patch's value, and every other key
      keeps the row's. */
  lemma ProjectPatchIsSpread(p: Project, q: ProjectPatch)
    requires EncodableProject(p.tags) && EncodableProject(q.tags)
    ensures EncodableProject(ApplyProjectPatch(p, q).tags)
    ensures ProjectRowJson(ApplyProjectPatch(p, q)) == ProjectRowJson(p) + EncodeProjectPatch(q).fields
  {
    var u := ApplyProjectPatch(p, q);
    var l := ProjectRowJson(u);
    var r := ProjectRowJson(p) + EncodeProjectPatch(q).fields;
    forall k ensures At(l, k) == At(r, k) {
      ProjectRowAt(u, k);
      ProjectRowAt(p, k);
      ProjectPatchAt(q, k);
      ProjectMergeAt(p, q, k);
      AtUnion(ProjectRowJson(p), EncodeProjectPatch(q).fields, k);
    }
    AtExtensional(l, r);
  }

  /** `updateTestimonial` stores `{...existing, ...patch}` in the same way. */
  lemma TestimonialPatchIsSpread(t: Testimonial, q: TestimonialPatch)
    requires EncodableOrder(q.displayOrder)
    ensures TestimonialRowJson(ApplyTestimonialPatch(t, q)) == TestimonialRowJson(t) + EncodeTestimonialPatch(q).fields
  {
    var u := ApplyTestimonialPatch(t, q);
    var l := TestimonialRowJson(u);
    var r := TestimonialRowJson(t) + EncodeTestimonialPatch(q).fields;
    forall k ensures At(l, k) == At(r, k) {
      TestimonialRowAt(u, k);
      TestimonialRowAt(t, k);
      TestimonialPatchAt(q, k);
      TestimonialMergeAt(t, q, k);
      AtUnion(TestimonialRowJson(t), EncodeTestimonialPatch(q).fields, k);
    }
    AtExtensional(l, r);
  }
}
