/** The `projects` and `testimonials` tables: the active-only listings, and
    the create, update and delete mutations for each. */
module Projects {
  import opened Wrappers
  import opened Sequences
  import opened ConvexTable

  /** The arguments of `createProject`. */
  datatype ProjectArgs = ProjectArgs(
    displayId: int, name: string, description: string, image: string,
    category: string, technologies: seq<string>, link: Option<string>, order: int)

  /** The optional fields of `updateProject`, without the id. */
  datatype ProjectUpdates = ProjectUpdates(
    name: Option<string>, description: Option<string>, image: Option<string>,
    category: Option<string>, technologies: Option<seq<string>>, link: Option<string>,
    order: Option<int>, isActive: Option<bool>)

  /** The stored document `{...args, isActive: true}`; an absent `link` is no field. */
  function ProjectDoc(a: ProjectArgs): (d: Doc)
    ensures IsActive(d)
  {
    Put(map["displayId" := Num(a.displayId), "name" := Str(a.name), "description" := Str(a.description),
            "image" := Str(a.image), "category" := Str(a.category), "technologies" := Strings(a.technologies),
            "order" := Num(a.order), "isActive" := Bool(true)],
        "link", OptStr(a.link))
  }

  /** A project's arguments read back from its document. */
  function ProjectArgsOf(d: Doc): Option<ProjectArgs> {
    var displayId := GetNum(d, "displayId");
    var name := GetStr(d, "name");
    var description := GetStr(d, "description");
    var image := GetStr(d, "image");
    var category := GetStr(d, "category");
    var technologies := GetStrings(d, "technologies");
    var order := GetNum(d, "order");
    if displayId.None? || name.None? || description.None? || image.None? || category.None?
       || technologies.None? || order.None? || ("link" in d && !d["link"].Str?)
    then None
    else Some(ProjectArgs(displayId.value, name.value, description.value, image.value, category.value,
                          technologies.value, GetStr(d, "link"), order.value))
  }

  /** `createProject` stores exactly its arguments, and marks them active. */
  lemma ProjectDocRoundTrip(a: ProjectArgs)
    ensures ProjectArgsOf(ProjectDoc(a)) == Some(a)
    ensures GetBool(ProjectDoc(a), "isActive") == Some(true)
  {
    ProjectDocText(a);
    ProjectDocOther(a);
  }

  lemma ProjectDocText(a: ProjectArgs)
    ensures var d := ProjectDoc(a);
      GetStr(d, "name") == Some(a.name) && GetStr(d, "description") == Some(a.description)
      && GetStr(d, "image") == Some(a.image) && GetStr(d, "category") == Some(a.category)
  {
  }

  lemma ProjectDocOther(a: ProjectArgs)
    ensures var d := ProjectDoc(a);
      GetNum(d, "displayId") == Some(a.displayId) && GetNum(d, "order") == Some(a.order)
      && GetStrings(d, "technologies") == Some(a.technologies)
      && GetStr(d, "link") == a.link && ("link" in d ==> d["link"].Str?)
      && GetBool(d, "isActive") == Some(true)
  {
    StringsRoundTrip(a.technologies);
  }

  /** The value `updates` holds under `key`: the argument of that name when
      it was supplied; nothing for any other key, `displayId` among them. */
  function ProjectUpdate(u: ProjectUpdates, key: string): Option<Value> {
    if key == "name" then OptStr(u.name)
    else if key == "description" then OptStr(u.description)
    else if key == "image" then OptStr(u.image)
    else if key == "category" then OptStr(u.category)
    else if key == "technologies" then OptStrings(u.technologies)
    else if key == "link" then OptStr(u.link)
    else if key == "order" then OptNum(u.order)
    else if key == "isActive" then OptBool(u.isActive)
    else None
  }

  const ProjectUpdateKeys: set<string> :=
    {"name", "description", "image", "category", "technologies", "link", "order", "isActive"}

  /** The `updates` object `const { projectId, ...updates } = args` leaves:
      exactly the supplied fields. */
  function ProjectPatch(u: ProjectUpdates): (d: Doc)
    ensures forall k :: k in d <==> ProjectUpdate(u, k).Some?
    ensures forall k :: k in d ==> d[k] == ProjectUpdate(u, k).value
  {
    map k | k in ProjectUpdateKeys && ProjectUpdate(u, k).Some? :: ProjectUpdate(u, k).value
  }

  /** The update on the arguments themselves: a supplied field replaces the
      old one, an absent one keeps it. */
  function Updated(a: ProjectArgs, u: ProjectUpdates): ProjectArgs {
    ProjectArgs(
      a.displayId, Or(u.name, a.name), Or(u.description, a.description), Or(u.image, a.image),
      Or(u.category, a.category), Or(u.technologies, a.technologies),
      if u.link.Some? then u.link else a.link, Or(u.order, a.order))
  }

  /** `updateProject` changes exactly the supplied fields: the patched document
      reads back as the updated arguments, `displayId` included unchanged, and
      `isActive` is the supplied flag or stays `true`. */
  lemma ProjectPatchUpdates(a: ProjectArgs, u: ProjectUpdates)
    ensures ProjectArgsOf(Patch(ProjectDoc(a), ProjectPatch(u))) == Some(Updated(a, u))
    ensures GetBool(Patch(ProjectDoc(a), ProjectPatch(u)), "isActive") == Some(Or(u.isActive, true))
  {
    var d := Patch(ProjectDoc(a), ProjectPatch(u));
    PatchedName(a, u);
    PatchedImage(a, u);
    PatchedTechnologies(a, u);
    PatchedLink(a, u);
    PatchedOrder(a, u);
    var b := Updated(a, u);
    assert ProjectArgsOf(d) == Some(ProjectArgs(b.displayId, b.name, b.description, b.image, b.category,
                                                b.technologies, b.link, b.order));
  }

  lemma PatchedName(a: ProjectArgs, u: ProjectUpdates)
    ensures var d := Patch(ProjectDoc(a), ProjectPatch(u));
      GetStr(d, "name") == Some(Or(u.name, a.name)) && GetStr(d, "description") == Some(Or(u.description, a.description))
  {
    ProjectDocText(a);
    assert ProjectUpdate(u, "name") == OptStr(u.name);
    assert ProjectUpdate(u, "description") == OptStr(u.description);
  }

  lemma PatchedImage(a: ProjectArgs, u: ProjectUpdates)
    ensures var d := Patch(ProjectDoc(a), ProjectPatch(u));
      GetStr(d, "image") == Some(Or(u.image, a.image)) && GetStr(d, "category") == Some(Or(u.category, a.category))
  {
    ProjectDocText(a);
    assert ProjectUpdate(u, "image") == OptStr(u.image);
    assert ProjectUpdate(u, "category") == OptStr(u.category);
  }

  lemma PatchedTechnologies(a: ProjectArgs, u: ProjectUpdates)
    ensures var d := Patch(ProjectDoc(a), ProjectPatch(u));
      GetNum(d, "displayId") == Some(a.displayId) && GetStrings(d, "technologies") == Some(Or(u.technologies, a.technologies))
  {
    StringsRoundTrip(a.technologies);
    if u.technologies.Some? {
      StringsRoundTrip(u.technologies.value);
    }
    assert ProjectUpdate(u, "displayId") == None;
    assert ProjectUpdate(u, "technologies") == OptStrings(u.technologies);
  }

  lemma PatchedLink(a: ProjectArgs, u: ProjectUpdates)
    ensures var d := Patch(ProjectDoc(a), ProjectPatch(u));
      GetStr(d, "link") == (if u.link.Some? then u.link else a.link) && ("link" in d ==> d["link"].Str?)
  {
    assert ProjectUpdate(u, "link") == OptStr(u.link);
  }

  lemma PatchedOrder(a: ProjectArgs, u: ProjectUpdates)
    ensures var d := Patch(ProjectDoc(a), ProjectPatch(u));
      GetNum(d, "order") == Some(Or(u.order, a.order)) && GetBool(d, "isActive") == Some(Or(u.isActive, true))
  {
    assert ProjectUpdate(u, "order") == OptNum(u.order);
    assert ProjectUpdate(u, "isActive") == OptBool(u.isActive);
  }

  /** The rows of one category that are active. */
  function InCategory(c: string): Row<Doc> -> bool {
    (row: Row<Doc>) => IsActive(row.doc) && GetStr(row.doc, "category") == Some(c)
  }

  /** `getProjects`: the active projects, only those of `category` when one
      is given and not empty, in creation order, at most `limit ?? 50`. */
  function GetProjects(rows: seq<Row<Doc>>, limit: Option<nat>, category: Option<string>): (r: seq<Row<Doc>>)
    ensures |r| <= LimitOr50(limit)
    ensures forall i :: 0 <= i < |r| ==> IsActive(r[i].doc) && r[i] in rows
    ensures category.Some? && category.value != "" ==>
              forall i :: 0 <= i < |r| ==> GetStr(r[i].doc, "category") == category
    ensures var m := Matching(rows, if category.Some? && category.value != "" then InCategory(category.value) else ActiveRow);
            r == m[..if LimitOr50(limit) < |m| then LimitOr50(limit) else |m|]
  {
    if category.Some? && category.value != "" then Select(rows, InCategory(category.value), LimitOr50(limit))
    else Select(rows, ActiveRow, LimitOr50(limit))
  }

  /** A created project is listed by `getProjects`, with or without its
      category, as long as fewer than `limit` projects matched before. */
  lemma CreatedProjectListed(rows: seq<Row<Doc>>, id: nat, a: ProjectArgs, n: nat)
    requires |Matching(rows, ActiveRow)| < n
    ensures Row(id, ProjectDoc(a)) in GetProjects(rows + [Row(id, ProjectDoc(a))], Some(n), None)
    ensures |Matching(rows, InCategory(a.category))| < n && a.category != "" ==>
              Row(id, ProjectDoc(a)) in GetProjects(rows + [Row(id, ProjectDoc(a))], Some(n), Some(a.category))
  {
    var row := Row(id, ProjectDoc(a));
    InsertedIsSelected(rows, row, ActiveRow, n);
    if |Matching(rows, InCategory(a.category))| < n && a.category != "" {
      assert GetStr(row.doc, "category") == Some(a.category);
      InsertedIsSelected(rows, row, InCategory(a.category), n);
    }
  }

  /** `getProjects` keeps creation order, and holds every active project
      when no more projects are active than the limit. */
  lemma GetProjectsComplete(rows: seq<Row<Doc>>, limit: Option<nat>, i: nat)
    requires i < |rows| && IsActive(rows[i].doc)
    ensures IsSubsequence(GetProjects(rows, limit, None), rows)
    ensures |Matching(rows, ActiveRow)| <= LimitOr50(limit) ==> rows[i] in GetProjects(rows, limit, None)
  {
    SelectOrderAndCompleteness(rows, ActiveRow, LimitOr50(limit));
  }

  /** The same for one category: its active projects, in creation order. */
  lemma GetProjectsByCategoryComplete(rows: seq<Row<Doc>>, limit: Option<nat>, c: string, i: nat)
    requires c != "" && i < |rows| && IsActive(rows[i].doc) && GetStr(rows[i].doc, "category") == Some(c)
    ensures IsSubsequence(GetProjects(rows, limit, Some(c)), rows)
    ensures |Matching(rows, InCategory(c))| <= LimitOr50(limit) ==> rows[i] in GetProjects(rows, limit, Some(c))
  {
    SelectOrderAndCompleteness(rows, InCategory(c), LimitOr50(limit));
  }

  /** `createProject`: one row, the arguments plus `isActive: true`, under a fresh id. */
  method CreateProject(db: Table<Doc>, a: ProjectArgs) returns (projectId: nat)
    requires db.Valid()
    modifies db
    ensures db.Valid()
    ensures projectId == old(db.nextId)
    ensures db.rows == old(db.rows) + [Row(projectId, ProjectDoc(a))]
  {
    projectId := db.Insert(ProjectDoc(a));
  }

  /** `updateProject`: the supplied fields of that project, nothing else. */
  method UpdateProject(db: Table<Doc>, projectId: nat, u: ProjectUpdates) returns (found: bool)
    requires db.Valid()
    modifies db
    ensures db.Valid()
    ensures found <==> Lookup(old(db.rows), projectId).Some?
    ensures db.rows == Replaced(old(db.rows), projectId, Patcher(ProjectPatch(u))) && db.nextId == old(db.nextId)
  {
    found := db.Update(projectId, Patcher(ProjectPatch(u)));
  }

  /** `deleteProject`: that project, nothing else. */
  method DeleteProject(db: Table<Doc>, projectId: nat) returns (found: bool)
    requires db.Valid()
    modifies db
    ensures db.Valid()
    ensures found <==> Lookup(old(db.rows), projectId).Some?
    ensures db.rows == Removed(old(db.rows), projectId) && db.nextId == old(db.nextId)
  {
    found := db.Delete(projectId);
  }

  /** The arguments of `createTestimonial`. */
  datatype TestimonialArgs = TestimonialArgs(quote: string, name: string, designation: string, src: string, order: int)

  /** The optional fields of `updateTestimonial`, without the id. */
  datatype TestimonialUpdates = TestimonialUpdates(
    quote: Option<string>, name: Option<string>, designation: Option<string>, src: Option<string>,
    order: Option<int>, isActive: Option<bool>)

  function TestimonialDoc(a: TestimonialArgs): (d: Doc)
    ensures IsActive(d)
  {
    map["quote" := Str(a.quote), "name" := Str(a.name), "designation" := Str(a.designation),
        "src" := Str(a.src), "order" := Num(a.order), "isActive" := Bool(true)]
  }

  function TestimonialArgsOf(d: Doc): Option<TestimonialArgs> {
    var quote := GetStr(d, "quote");
    var name := GetStr(d, "name");
    var designation := GetStr(d, "designation");
    var src := GetStr(d, "src");
    var order := GetNum(d, "order");
    if quote.None? || name.None? || designation.None? || src.None? || order.None? then None
    else Some(TestimonialArgs(quote.value, name.value, designation.value, src.value, order.value))
  }

  /** `createTestimonial` stores exactly its arguments, and marks them active. */
  lemma TestimonialDocRoundTrip(a: TestimonialArgs)
    ensures TestimonialArgsOf(TestimonialDoc(a)) == Some(a)
    ensures GetBool(TestimonialDoc(a), "isActive") == Some(true)
  {
  }

  function TestimonialUpdate(u: TestimonialUpdates, key: string): Option<Value> {
    if key == "quote" then OptStr(u.quote)
    else if key == "name" then OptStr(u.name)
    else if key == "designation" then OptStr(u.designation)
    else if key == "src" then OptStr(u.src)
    else if key == "order" then OptNum(u.order)
    else if key == "isActive" then OptBool(u.isActive)
    else None
  }

  const TestimonialUpdateKeys: set<string> := {"quote", "name", "designation", "src", "order", "isActive"}

  /** The supplied fields of `updateTestimonial`. */
  function TestimonialPatch(u: TestimonialUpdates): (d: Doc)
    ensures forall k :: k in d <==> TestimonialUpdate(u, k).Some?
    ensures forall k :: k in d ==> d[k] == TestimonialUpdate(u, k).value
  {
    map k | k in TestimonialUpdateKeys && TestimonialUpdate(u, k).Some? :: TestimonialUpdate(u, k).value
  }

  function UpdatedTestimonial(a: TestimonialArgs, u: TestimonialUpdates): TestimonialArgs {
    TestimonialArgs(Or(u.quote, a.quote), Or(u.name, a.name), Or(u.designation, a.designation),
                    Or(u.src, a.src), Or(u.order, a.order))
  }

  /** `updateTestimonial` changes exactly the supplied fields. */
  lemma TestimonialPatchUpdates(a: TestimonialArgs, u: TestimonialUpdates)
    ensures TestimonialArgsOf(Patch(TestimonialDoc(a), TestimonialPatch(u))) == Some(UpdatedTestimonial(a, u))
    ensures GetBool(Patch(TestimonialDoc(a), TestimonialPatch(u)), "isActive") == Some(Or(u.isActive, true))
  {
    PatchedQuote(a, u);
    PatchedSrc(a, u);
  }

  lemma PatchedQuote(a: TestimonialArgs, u: TestimonialUpdates)
    ensures var d := Patch(TestimonialDoc(a), TestimonialPatch(u));
      GetStr(d, "quote") == Some(Or(u.quote, a.quote)) && GetStr(d, "name") == Some(Or(u.name, a.name))
      && GetStr(d, "designation") == Some(Or(u.designation, a.designation))
  {
    assert TestimonialUpdate(u, "quote") == OptStr(u.quote);
    assert TestimonialUpdate(u, "name") == OptStr(u.name);
    assert TestimonialUpdate(u, "designation") == OptStr(u.designation);
  }

  lemma PatchedSrc(a: TestimonialArgs, u: TestimonialUpdates)
    ensures var d := Patch(TestimonialDoc(a), TestimonialPatch(u));
      GetStr(d, "src") == Some(Or(u.src, a.src)) && GetNum(d, "order") == Some(Or(u.order, a.order))
      && GetBool(d, "isActive") == Some(Or(u.isActive, true))
  {
    assert TestimonialUpdate(u, "src") == OptStr(u.src);
    assert TestimonialUpdate(u, "order") == OptNum(u.order);
    assert TestimonialUpdate(u, "isActive") == OptBool(u.isActive);
  }

  /** `getTestimonials`: the active testimonials in creation order, at most `limit ?? 50`. */
  function GetTestimonials(rows: seq<Row<Doc>>, limit: Option<nat>): (r: seq<Row<Doc>>)
    ensures |r| <= LimitOr50(limit)
    ensures forall i :: 0 <= i < |r| ==> IsActive(r[i].doc) && r[i] in rows
    ensures var m := Matching(rows, ActiveRow); r == m[..if LimitOr50(limit) < |m| then LimitOr50(limit) else |m|]
  {
    Select(rows, ActiveRow, LimitOr50(limit))
  }

  method CreateTestimonial(db: Table<Doc>, a: TestimonialArgs) returns (testimonialId: nat)
    requires db.Valid()
    modifies db
    ensures db.Valid()
    ensures testimonialId == old(db.nextId)
    ensures db.rows == old(db.rows) + [Row(testimonialId, TestimonialDoc(a))]
  {
    testimonialId := db.Insert(TestimonialDoc(a));
  }

  method UpdateTestimonial(db: Table<Doc>, testimonialId: nat, u: TestimonialUpdates) returns (found: bool)
    requires db.Valid()
    modifies db
    ensures db.Valid()
    ensures found <==> Lookup(old(db.rows), testimonialId).Some?
    ensures db.rows == Replaced(old(db.rows), testimonialId, Patcher(TestimonialPatch(u))) && db.nextId == old(db.nextId)
  {
    found := db.Update(testimonialId, Patcher(TestimonialPatch(u)));
  }

  method DeleteTestimonial(db: Table<Doc>, testimonialId: nat) returns (found: bool)
    requires db.Valid()
    modifies db
    ensures db.Valid()
    ensures found <==> Lookup(old(db.rows), testimonialId).Some?
    ensures db.rows == Removed(old(db.rows), testimonialId) && db.nextId == old(db.nextId)
  {
    found := db.Delete(testimonialId);
  }
}
