/** The `experiences` table: the active-only listing, `get`, and the create,
    update and delete mutations. */
module Experiences {
  import opened Wrappers
  import opened ConvexTable

  /** One `{title, description, iconName}` entry of `highlights`. */
  datatype Highlight = Highlight(title: string, description: string, iconName: string)

  /** The arguments of `createExperience`; `id` is the business id shown on the page. */
  datatype ExperienceArgs = ExperienceArgs(
    id: int, title: string, company: string, location: string, duration: string, kind: string,
    description: string, achievements: seq<string>, technologies: seq<string>,
    highlights: seq<Highlight>, order: int)

  /** The optional fields of `updateExperience`: every field but `id`. */
  datatype ExperienceUpdates = ExperienceUpdates(
    title: Option<string>, company: Option<string>, location: Option<string>, duration: Option<string>,
    kind: Option<string>, description: Option<string>, achievements: Option<seq<string>>,
    technologies: Option<seq<string>>, highlights: Option<seq<Highlight>>, order: Option<int>,
    isActive: Option<bool>)

  function HighlightValue(h: Highlight): Value {
    Obj(map["title" := Str(h.title), "description" := Str(h.description), "iconName" := Str(h.iconName)])
  }

  function HighlightOf(v: Value): Option<Highlight> {
    if !v.Obj? then None
    else
      var title := GetStr(v.fields, "title");
      var description := GetStr(v.fields, "description");
      var iconName := GetStr(v.fields, "iconName");
      if title.None? || description.None? || iconName.None? then None
      else Some(Highlight(title.value, description.value, iconName.value))
  }

  /** The `highlights` array value. */
  function HighlightsValue(hs: seq<Highlight>): (r: Value)
    ensures r.Arr? && |r.items| == |hs| && forall i :: 0 <= i < |hs| ==> r.items[i] == HighlightValue(hs[i])
  {
    Arr(seq(|hs|, i requires 0 <= i < |hs| => HighlightValue(hs[i])))
  }

  function HighlightItems(items: seq<Value>): Option<seq<Highlight>>
    decreases |items|
  {
    if items == [] then Some([])
    else match (HighlightOf(items[0]), HighlightItems(items[1..]))
      case (Some(h), Some(rest)) => Some([h] + rest)
      case _ => None
  }

  function GetHighlights(d: Doc, key: string): Option<seq<Highlight>> {
    if key in d && d[key].Arr? then HighlightItems(d[key].items) else None
  }

  lemma {:induction false} HighlightsRoundTrip(hs: seq<Highlight>)
    ensures HighlightItems(HighlightsValue(hs).items) == Some(hs)
    decreases |hs|
  {
    if hs != [] {
      assert HighlightsValue(hs).items[1..] == HighlightsValue(hs[1..]).items;
      HighlightsRoundTrip(hs[1..]);
      assert HighlightOf(HighlightValue(hs[0])) == Some(hs[0]);
      assert [hs[0]] + hs[1..] == hs;
    }
  }

  function OptHighlights(hs: Option<seq<Highlight>>): Option<Value> {
    match hs
    case None => None
    case Some(t) => Some(HighlightsValue(t))
  }

  /** The stored document `{...args, isActive: true}`. */
  function ExperienceDoc(a: ExperienceArgs): (d: Doc)
    ensures IsActive(d)
  {
    map["id" := Num(a.id), "title" := Str(a.title), "company" := Str(a.company),
        "location" := Str(a.location), "duration" := Str(a.duration), "type" := Str(a.kind),
        "description" := Str(a.description), "achievements" := Strings(a.achievements),
        "technologies" := Strings(a.technologies), "highlights" := HighlightsValue(a.highlights),
        "order" := Num(a.order), "isActive" := Bool(true)]
  }

  /** An experience's arguments read back from its document. */
  function ExperienceArgsOf(d: Doc): Option<ExperienceArgs> {
    var id := GetNum(d, "id");
    var title := GetStr(d, "title");
    var company := GetStr(d, "company");
    var location := GetStr(d, "location");
    var duration := GetStr(d, "duration");
    var kind := GetStr(d, "type");
    var description := GetStr(d, "description");
    var achievements := GetStrings(d, "achievements");
    var technologies := GetStrings(d, "technologies");
    var highlights := GetHighlights(d, "highlights");
    var order := GetNum(d, "order");
    if id.None? || title.None? || company.None? || location.None? || duration.None? || kind.None?
       || description.None? || achievements.None? || technologies.None? || highlights.None? || order.None?
    then None
    else Some(ExperienceArgs(id.value, title.value, company.value, location.value, duration.value, kind.value,
                             description.value, achievements.value, technologies.value, highlights.value,
                             order.value))
  }

  /** `createExperience` stores exactly its arguments, and marks them active. */
  lemma ExperienceDocRoundTrip(a: ExperienceArgs)
    ensures ExperienceArgsOf(ExperienceDoc(a)) == Some(a)
    ensures GetBool(ExperienceDoc(a), "isActive") == Some(true)
  {
    ExperienceDocPlace(a);
    ExperienceDocText(a);
    ExperienceDocLists(a);
  }

  lemma ExperienceDocPlace(a: ExperienceArgs)
    ensures var d := ExperienceDoc(a);
      GetNum(d, "id") == Some(a.id) && GetStr(d, "title") == Some(a.title)
      && GetStr(d, "company") == Some(a.company) && GetStr(d, "location") == Some(a.location)
  {
  }

  lemma ExperienceDocText(a: ExperienceArgs)
    ensures var d := ExperienceDoc(a);
      GetStr(d, "duration") == Some(a.duration) && GetStr(d, "type") == Some(a.kind)
      && GetStr(d, "description") == Some(a.description) && GetNum(d, "order") == Some(a.order)
      && GetBool(d, "isActive") == Some(true)
  {
  }

  lemma ExperienceDocLists(a: ExperienceArgs)
    ensures var d := ExperienceDoc(a);
      GetStrings(d, "achievements") == Some(a.achievements) && GetStrings(d, "technologies") == Some(a.technologies)
      && GetHighlights(d, "highlights") == Some(a.highlights)
  {
    StringsRoundTrip(a.achievements);
    StringsRoundTrip(a.technologies);
    HighlightsRoundTrip(a.highlights);
  }

  /** The value `updates` holds under `key`: the argument of that name when it
      was supplied; nothing for any other key, and so never anything for `id`. */
  function ExperienceUpdate(u: ExperienceUpdates, key: string): Option<Value> {
    if key == "title" then OptStr(u.title)
    else if key == "company" then OptStr(u.company)
    else if key == "location" then OptStr(u.location)
    else if key == "duration" then OptStr(u.duration)
    else if key == "type" then OptStr(u.kind)
    else if key == "description" then OptStr(u.description)
    else if key == "achievements" then OptStrings(u.achievements)
    else if key == "technologies" then OptStrings(u.technologies)
    else if key == "highlights" then OptHighlights(u.highlights)
    else if key == "order" then OptNum(u.order)
    else if key == "isActive" then OptBool(u.isActive)
    else None
  }

  const ExperienceUpdateKeys: set<string> :=
    {"title", "company", "location", "duration", "type", "description", "achievements",
     "technologies", "highlights", "order", "isActive"}

  /** The `updates` object: exactly the supplied fields. */
  function ExperiencePatch(u: ExperienceUpdates): (d: Doc)
    ensures forall k :: k in d <==> ExperienceUpdate(u, k).Some?
    ensures forall k :: k in d ==> d[k] == ExperienceUpdate(u, k).value
  {
    map k | k in ExperienceUpdateKeys && ExperienceUpdate(u, k).Some? :: ExperienceUpdate(u, k).value
  }

  /** `updateExperience` can never change the business `id` of any document it patches. */
  lemma UpdateKeepsId(doc: Doc, u: ExperienceUpdates)
    ensures ("id" in Patch(doc, ExperiencePatch(u))) == ("id" in doc)
    ensures "id" in doc ==> Patch(doc, ExperiencePatch(u))["id"] == doc["id"]
  {
    assert ExperienceUpdate(u, "id") == None;
  }

  /** The update on the arguments themselves. */
  function UpdatedExperience(a: ExperienceArgs, u: ExperienceUpdates): ExperienceArgs {
    ExperienceArgs(
      a.id, Or(u.title, a.title), Or(u.company, a.company), Or(u.location, a.location),
      Or(u.duration, a.duration), Or(u.kind, a.kind), Or(u.description, a.description),
      Or(u.achievements, a.achievements), Or(u.technologies, a.technologies),
      Or(u.highlights, a.highlights), Or(u.order, a.order))
  }

  /** `updateExperience` changes exactly the supplied fields: the patched
      document reads back as the updated arguments, and `isActive` is the
      supplied flag or stays `true`. */
  lemma ExperiencePatchUpdates(a: ExperienceArgs, u: ExperienceUpdates)
    ensures ExperienceArgsOf(Patch(ExperienceDoc(a), ExperiencePatch(u))) == Some(UpdatedExperience(a, u))
    ensures GetBool(Patch(ExperienceDoc(a), ExperiencePatch(u)), "isActive") == Some(Or(u.isActive, true))
  {
    PatchedTitle(a, u);
    PatchedLocation(a, u);
    PatchedKind(a, u);
    PatchedAchievements(a, u);
    PatchedHighlights(a, u);
    PatchedOrder(a, u);
  }

  lemma PatchedTitle(a: ExperienceArgs, u: ExperienceUpdates)
    ensures var d := Patch(ExperienceDoc(a), ExperiencePatch(u));
      GetNum(d, "id") == Some(a.id) && GetStr(d, "title") == Some(Or(u.title, a.title))
      && GetStr(d, "company") == Some(Or(u.company, a.company))
  {
    ExperienceDocPlace(a);
    UpdateKeepsId(ExperienceDoc(a), u);
    assert ExperienceUpdate(u, "title") == OptStr(u.title);
    assert ExperienceUpdate(u, "company") == OptStr(u.company);
  }

  lemma PatchedLocation(a: ExperienceArgs, u: ExperienceUpdates)
    ensures var d := Patch(ExperienceDoc(a), ExperiencePatch(u));
      GetStr(d, "location") == Some(Or(u.location, a.location)) && GetStr(d, "duration") == Some(Or(u.duration, a.duration))
  {
    ExperienceDocPlace(a);
    ExperienceDocText(a);
    assert ExperienceUpdate(u, "location") == OptStr(u.location);
    assert ExperienceUpdate(u, "duration") == OptStr(u.duration);
  }

  lemma PatchedKind(a: ExperienceArgs, u: ExperienceUpdates)
    ensures var d := Patch(ExperienceDoc(a), ExperiencePatch(u));
      GetStr(d, "type") == Some(Or(u.kind, a.kind)) && GetStr(d, "description") == Some(Or(u.description, a.description))
  {
    ExperienceDocText(a);
    assert ExperienceUpdate(u, "type") == OptStr(u.kind);
    assert ExperienceUpdate(u, "description") == OptStr(u.description);
  }

  lemma PatchedAchievements(a: ExperienceArgs, u: ExperienceUpdates)
    ensures var d := Patch(ExperienceDoc(a), ExperiencePatch(u));
      GetStrings(d, "achievements") == Some(Or(u.achievements, a.achievements))
      && GetStrings(d, "technologies") == Some(Or(u.technologies, a.technologies))
  {
    ExperienceDocLists(a);
    if u.achievements.Some? {
      StringsRoundTrip(u.achievements.value);
    }
    if u.technologies.Some? {
      StringsRoundTrip(u.technologies.value);
    }
    assert ExperienceUpdate(u, "achievements") == OptStrings(u.achievements);
    assert ExperienceUpdate(u, "technologies") == OptStrings(u.technologies);
  }

  lemma PatchedHighlights(a: ExperienceArgs, u: ExperienceUpdates)
    ensures var d := Patch(ExperienceDoc(a), ExperiencePatch(u));
      GetHighlights(d, "highlights") == Some(Or(u.highlights, a.highlights))
  {
    ExperienceDocLists(a);
    if u.highlights.Some? {
      HighlightsRoundTrip(u.highlights.value);
    }
    assert ExperienceUpdate(u, "highlights") == OptHighlights(u.highlights);
  }

  lemma PatchedOrder(a: ExperienceArgs, u: ExperienceUpdates)
    ensures var d := Patch(ExperienceDoc(a), ExperiencePatch(u));
      GetNum(d, "order") == Some(Or(u.order, a.order)) && GetBool(d, "isActive") == Some(Or(u.isActive, true))
  {
    ExperienceDocText(a);
    assert ExperienceUpdate(u, "order") == OptNum(u.order);
    assert ExperienceUpdate(u, "isActive") == OptBool(u.isActive);
  }

  /** `getExperiences`: the active experiences in creation order, at most `limit ?? 50`. */
  function GetExperiences(rows: seq<Row<Doc>>, limit: Option<nat>): (r: seq<Row<Doc>>)
    ensures |r| <= LimitOr50(limit)
    ensures forall i :: 0 <= i < |r| ==> IsActive(r[i].doc) && r[i] in rows
    ensures var m := Matching(rows, ActiveRow); r == m[..if LimitOr50(limit) < |m| then LimitOr50(limit) else |m|]
  {
    Select(rows, ActiveRow, LimitOr50(limit))
  }

  /** A created experience is listed, as long as fewer than `n` were active before. */
  lemma CreatedExperienceListed(rows: seq<Row<Doc>>, id: nat, a: ExperienceArgs, n: nat)
    requires |Matching(rows, ActiveRow)| < n
    ensures Row(id, ExperienceDoc(a)) in GetExperiences(rows + [Row(id, ExperienceDoc(a))], Some(n))
  {
    InsertedIsSelected(rows, Row(id, ExperienceDoc(a)), ActiveRow, n);
  }

  method CreateExperience(db: Table<Doc>, a: ExperienceArgs) returns (experienceId: nat)
    requires db.Valid()
    modifies db
    ensures db.Valid()
    ensures experienceId == old(db.nextId)
    ensures db.rows == old(db.rows) + [Row(experienceId, ExperienceDoc(a))]
  {
    experienceId := db.Insert(ExperienceDoc(a));
  }

  method UpdateExperience(db: Table<Doc>, experienceId: nat, u: ExperienceUpdates) returns (found: bool)
    requires db.Valid()
    modifies db
    ensures db.Valid()
    ensures found <==> Lookup(old(db.rows), experienceId).Some?
    ensures db.rows == Replaced(old(db.rows), experienceId, Patcher(ExperiencePatch(u))) && db.nextId == old(db.nextId)
  {
    found := db.Update(experienceId, Patcher(ExperiencePatch(u)));
  }

  method DeleteExperience(db: Table<Doc>, experienceId: nat) returns (found: bool)
    requires db.Valid()
    modifies db
    ensures db.Valid()
    ensures found <==> Lookup(old(db.rows), experienceId).Some?
    ensures db.rows == Removed(old(db.rows), experienceId) && db.nextId == old(db.nextId)
  {
    found := db.Delete(experienceId);
  }
}
