/** The internal `seed` mutation: each of the `projects`, `testimonials` and
    `experiences` tables receives its initial list, in list order, only when
    it is empty, and the reply counts what each table received. */
module Seed {
  import opened ConvexTable

  /** The three initial lists; the source's hold 7 projects, 3 testimonials
      and 2 experiences. */
  datatype InitialData = InitialData(projects: seq<Doc>, testimonials: seq<Doc>, experiences: seq<Doc>)

  datatype SeedCounts = SeedCounts(projectsSeeded: nat, testimonialsSeeded: nat, experiencesSeeded: nat)

  /** `docs` inserted one after another from id `start` on. */
  function RowsFrom(start: nat, docs: seq<Doc>): (r: seq<Row<Doc>>)
    ensures |r| == |docs|
    ensures forall i :: 0 <= i < |docs| ==> r[i] == Row(start + i, docs[i])
  {
    seq(|docs|, i requires 0 <= i < |docs| => Row(start + i, docs[i]))
  }

  /** One table after the seed: the list when it was empty, unchanged otherwise. */
  function Seeded(rows: seq<Row<Doc>>, nextId: nat, docs: seq<Doc>): seq<Row<Doc>> {
    if rows == [] then RowsFrom(nextId, docs) else rows
  }

  /** The reply's count for one table. */
  function SeedCount(rows: seq<Row<Doc>>, docs: seq<Doc>): nat {
    if rows == [] then |docs| else 0
  }

  /** The `for` loop: every document inserted, in list order. */
  method InsertAll(db: Table<Doc>, docs: seq<Doc>)
    requires db.Valid()
    modifies db
    ensures db.Valid()
    ensures db.rows == old(db.rows) + RowsFrom(old(db.nextId), docs)
    ensures db.nextId == old(db.nextId) + |docs|
  {
    for i := 0 to |docs|
      invariant db.Valid()
      invariant db.rows == old(db.rows) + RowsFrom(old(db.nextId), docs[..i])
      invariant db.nextId == old(db.nextId) + i
    {
      var before := RowsFrom(old(db.nextId), docs[..i]);
      var after := RowsFrom(old(db.nextId), docs[..i + 1]);
      assert after == before + [Row(old(db.nextId) + i, docs[i])];
      var _ := db.Insert(docs[i]);
    }
    assert docs[..|docs|] == docs;
  }

  /** One table's part of `seed`: the emptiness check, the inserts, the count. */
  method SeedTable(db: Table<Doc>, docs: seq<Doc>) returns (count: nat)
    requires db.Valid()
    modifies db
    ensures db.Valid()
    ensures db.rows == Seeded(old(db.rows), old(db.nextId), docs)
    ensures count == SeedCount(old(db.rows), docs)
  {
    if |db.rows| == 0 {
      InsertAll(db, docs);
      count := |docs|;
    } else {
      count := 0;
    }
  }

  /** `seed`: the three tables decided independently, nothing modified or deleted. */
  method Seed(projects: Table<Doc>, testimonials: Table<Doc>, experiences: Table<Doc>, data: InitialData)
    returns (counts: SeedCounts)
    requires projects != testimonials && projects != experiences && testimonials != experiences
    requires projects.Valid() && testimonials.Valid() && experiences.Valid()
    modifies projects, testimonials, experiences
    ensures projects.Valid() && testimonials.Valid() && experiences.Valid()
    ensures projects.rows == Seeded(old(projects.rows), old(projects.nextId), data.projects)
    ensures testimonials.rows == Seeded(old(testimonials.rows), old(testimonials.nextId), data.testimonials)
    ensures experiences.rows == Seeded(old(experiences.rows), old(experiences.nextId), data.experiences)
    ensures counts == SeedCounts(SeedCount(old(projects.rows), data.projects),
                                 SeedCount(old(testimonials.rows), data.testimonials),
                                 SeedCount(old(experiences.rows), data.experiences))
  {
    var p := SeedTable(projects, data.projects);
    var t := SeedTable(testimonials, data.testimonials);
    var e := SeedTable(experiences, data.experiences);
    counts := SeedCounts(p, t, e);
  }

  /** A seeded table holds exactly its list, in order, under increasing ids;
      a table that held rows keeps them and nothing more. */
  lemma SeededContents(rows: seq<Row<Doc>>, nextId: nat, docs: seq<Doc>)
    ensures rows == [] ==> IdsIncreasing(Seeded(rows, nextId, docs))
    ensures rows == [] ==> |Seeded(rows, nextId, docs)| == SeedCount(rows, docs)
    ensures rows == [] ==> forall i :: 0 <= i < |docs| ==> Seeded(rows, nextId, docs)[i].doc == docs[i]
    ensures rows != [] ==> Seeded(rows, nextId, docs) == rows && SeedCount(rows, docs) == 0
  {
    if rows == [] {
      var r := RowsFrom(nextId, docs);
      forall i, j | 0 <= i < j < |r| ensures OlderThan(r[i], r[j]) {
        assert r[i].id == nextId + i && r[j].id == nextId + j;
      }
    }
  }

  /** Seeding is idempotent: with non-empty lists, a second run inserts
      nothing and counts zero for every table. */
  lemma SeedIdempotent(rows: seq<Row<Doc>>, nextId: nat, laterId: nat, docs: seq<Doc>)
    requires docs != []
    ensures Seeded(Seeded(rows, nextId, docs), laterId, docs) == Seeded(rows, nextId, docs)
    ensures SeedCount(Seeded(rows, nextId, docs), docs) == 0
  {
    assert |Seeded(rows, nextId, docs)| > 0;
  }
}
