/** The part of a Convex database the handlers rely on: a table of documents
    with ids handed out in creation order, `insert`, `patch`, `delete`,
    `get`, and queries that keep the documents matching a condition in index
    order and take the first few. Index order is creation order for every
    index the handlers query with an equality on all indexed fields. */
module ConvexTable {
  import opened Wrappers
  import opened Sequences

  /** A JSON-like field value of an untyped document. JavaScript numbers are
      modelled as integers. */
  datatype Value = Str(s: string) | Num(n: int) | Bool(b: bool) | Arr(items: seq<Value>) | Obj(fields: map<string, Value>)

  type Doc = map<string, Value>

  /** A stored document with its `_id`. */
  datatype Row<T> = Row(id: nat, doc: T)

  predicate OlderThan<T>(x: Row<T>, y: Row<T>) {
    x.id < y.id
  }

  predicate NewerThan<T>(x: Row<T>, y: Row<T>) {
    x.id > y.id
  }

  /** Rows in creation order. */
  predicate IdsIncreasing<T>(rows: seq<Row<T>>) {
    Chain(rows, OlderThan)
  }

  /** Position of the row with the given id. */
  function IndexOf<T(==)>(rows: seq<Row<T>>, id: nat): (r: Option<nat>)
    ensures r.Some? ==> r.value < |rows| && rows[r.value].id == id
    ensures r.None? ==> forall i :: 0 <= i < |rows| ==> rows[i].id != id
    ensures r.Some? ==> forall i :: 0 <= i < r.value ==> rows[i].id != id
    decreases |rows|
  {
    if rows == [] then None
    else if rows[0].id == id then Some(0)
    else match IndexOf(rows[1..], id)
      case None => None
      case Some(k) => Some(k + 1)
  }

  /** `ctx.db.get(id)`: the document, or `null`. */
  function Lookup<T(==)>(rows: seq<Row<T>>, id: nat): (r: Option<T>)
    ensures r.Some? <==> exists i :: 0 <= i < |rows| && rows[i].id == id
    ensures r.Some? ==> exists i :: 0 <= i < |rows| && rows[i] == Row(id, r.value)
  {
    match IndexOf(rows, id)
    case None => None
    case Some(k) => Some(rows[k].doc)
  }

  /** With distinct ids the row found is the only one with that id. */
  lemma LookupUnique<T>(rows: seq<Row<T>>, i: nat)
    requires IdsIncreasing(rows) && i < |rows|
    ensures Lookup(rows, rows[i].id) == Some(rows[i].doc)
  {
    var k := IndexOf(rows, rows[i].id).value;
    assert k >= i;
  }

  /** `rows` with the document of row `id` replaced by `f` of it. */
  function Replaced<T(==)>(rows: seq<Row<T>>, id: nat, f: T -> T): (r: seq<Row<T>>)
    ensures |r| == |rows|
    ensures forall i :: 0 <= i < |rows| ==> r[i].id == rows[i].id
    ensures forall i :: 0 <= i < |rows| ==> r[i].doc == if rows[i].id == id then f(rows[i].doc) else rows[i].doc
  {
    seq(|rows|, i requires 0 <= i < |rows| => if rows[i].id == id then Row(id, f(rows[i].doc)) else rows[i])
  }

  /** The rows `keep` accepts, in their order: a query with an index range
      or a filter. */
  function Matching<T(==)>(rows: seq<Row<T>>, keep: Row<T> -> bool): (r: seq<Row<T>>)
    ensures |r| <= |rows|
    ensures forall i :: 0 <= i < |r| ==> keep(r[i]) && r[i] in rows
    decreases |rows|
  {
    if rows == [] then []
    else if keep(rows[0]) then [rows[0]] + Matching(rows[1..], keep)
    else Matching(rows[1..], keep)
  }

  /** Nothing that matches is left out. */
  lemma {:induction false} MatchingComplete<T>(rows: seq<Row<T>>, keep: Row<T> -> bool, i: nat)
    requires i < |rows| && keep(rows[i])
    ensures rows[i] in Matching(rows, keep)
    decreases |rows|
  {
    if i > 0 {
      assert rows[1..][i - 1] == rows[i];
      MatchingComplete(rows[1..], keep, i - 1);
    }
  }

  lemma {:induction false} MatchingIsSubsequence<T>(rows: seq<Row<T>>, keep: Row<T> -> bool)
    ensures IsSubsequence(Matching(rows, keep), rows)
    decreases |rows|
  {
    if rows != [] {
      MatchingIsSubsequence(rows[1..], keep);
      var m := Matching(rows, keep);
      if keep(rows[0]) {
        assert m[0] == rows[0] && m[1..] == Matching(rows[1..], keep);
      }
    }
  }

  /** `.take(n)`. */
  function Take<X>(s: seq<X>, n: nat): (r: seq<X>)
    ensures |r| == if n < |s| then n else |s|
    ensures r == s[..|r|]
  {
    if n < |s| then s[..n] else s
  }

  /** `limit ?? 50`. */
  function LimitOr50(limit: Option<nat>): nat {
    match limit
    case Some(n) => n
    case None => 50
  }

  /** A query: the rows `keep` accepts, in order, at most `limit` of them. */
  function Select<T(==)>(rows: seq<Row<T>>, keep: Row<T> -> bool, limit: nat): (r: seq<Row<T>>)
    ensures |r| <= limit
    ensures forall i :: 0 <= i < |r| ==> keep(r[i]) && r[i] in rows
    ensures var m := Matching(rows, keep); r == m[..if limit < |m| then limit else |m|]
  {
    Take(Matching(rows, keep), limit)
  }

  /** The selection keeps the rows' relative order, and when fewer rows match
      than the limit admits, it holds every matching row. */
  lemma SelectOrderAndCompleteness<T>(rows: seq<Row<T>>, keep: Row<T> -> bool, limit: nat)
    ensures IsSubsequence(Select(rows, keep, limit), rows)
    ensures |Matching(rows, keep)| <= limit ==>
              forall i :: 0 <= i < |rows| && keep(rows[i]) ==> rows[i] in Select(rows, keep, limit)
  {
    MatchingIsSubsequence(rows, keep);
    var m := Matching(rows, keep);
    PrefixIsSubsequence(m, rows, |Select(rows, keep, limit)|);
    if |m| <= limit {
      forall i | 0 <= i < |rows| && keep(rows[i]) ensures rows[i] in Select(rows, keep, limit) {
        MatchingComplete(rows, keep, i);
      }
    }
  }

  /** `rows` listed from newest to oldest: `.order("desc")`. */
  function Newest<T>(rows: seq<Row<T>>): (r: seq<Row<T>>)
    ensures |r| == |rows|
    ensures forall i :: 0 <= i < |rows| ==> r[i] == rows[|rows| - 1 - i]
  {
    seq(|rows|, i requires 0 <= i < |rows| => rows[|rows| - 1 - i])
  }

  /** `ctx.db.delete`'s effect on the rows: all others, in order. */
  function Removed<T(==)>(rows: seq<Row<T>>, id: nat): (r: seq<Row<T>>)
    ensures forall i :: 0 <= i < |r| ==> r[i] in rows && r[i].id != id
  {
    Matching(rows, (row: Row<T>) => row.id != id)
  }

  /** Deleting keeps every other row, in creation order, and the id is gone. */
  lemma RemovedOthers<T>(rows: seq<Row<T>>, id: nat)
    requires IdsIncreasing(rows)
    ensures IdsIncreasing(Removed(rows, id))
    ensures Lookup(Removed(rows, id), id).None?
    ensures forall i :: 0 <= i < |rows| && rows[i].id != id ==> rows[i] in Removed(rows, id)
  {
    var keep := (row: Row<T>) => row.id != id;
    MatchingIsSubsequence(rows, keep);
    SubsequenceChain(Removed(rows, id), rows, OlderThan);
    forall i | 0 <= i < |rows| && rows[i].id != id ensures rows[i] in Removed(rows, id) {
      MatchingComplete(rows, keep, i);
    }
  }

  /** Rows newest first. */
  predicate IdsDecreasing<T>(rows: seq<Row<T>>) {
    Chain(rows, NewerThan)
  }

  /** Listing a table in descending order puts the newest row first. */
  lemma NewestDecreasing<T>(rows: seq<Row<T>>)
    requires IdsIncreasing(rows)
    ensures IdsDecreasing(Newest(rows))
  {
    var r := Newest(rows);
    forall i, j | 0 <= i < j < |r| ensures NewerThan(r[i], r[j]) {
      assert OlderThan(rows[|rows| - 1 - j], rows[|rows| - 1 - i]);
    }
  }

  /** A query over the rows newest first keeps that order. */
  lemma SelectNewestDecreasing<T>(rows: seq<Row<T>>, keep: Row<T> -> bool, limit: nat)
    requires IdsIncreasing(rows)
    ensures IdsDecreasing(Select(Newest(rows), keep, limit))
  {
    NewestDecreasing(rows);
    SelectOrderAndCompleteness(Newest(rows), keep, limit);
    SubsequenceChain(Select(Newest(rows), keep, limit), Newest(rows), NewerThan);
  }

  /** After a patch, `get` returns the patched document, and only that row changed. */
  lemma {:induction false} LookupReplaced<T>(rows: seq<Row<T>>, id: nat, f: T -> T, other: nat)
    ensures Lookup(Replaced(rows, id, f), id) == (match Lookup(rows, id) case None => None case Some(d) => Some(f(d)))
    ensures other != id ==> Lookup(Replaced(rows, id, f), other) == Lookup(rows, other)
    decreases |rows|
  {
    if rows != [] {
      var r := Replaced(rows, id, f);
      assert r[1..] == Replaced(rows[1..], id, f);
      LookupReplaced(rows[1..], id, f, other);
    }
  }

  /** Patching twice with an idempotent change is patching once. */
  lemma ReplacedIdempotent<T>(rows: seq<Row<T>>, id: nat, f: T -> T)
    requires forall d :: f(f(d)) == f(d)
    ensures Replaced(Replaced(rows, id, f), id, f) == Replaced(rows, id, f)
  {
    var once := Replaced(rows, id, f);
    var twice := Replaced(once, id, f);
    forall i | 0 <= i < |rows| ensures twice[i] == once[i] {
      if rows[i].id == id {
        assert twice[i].doc == f(f(rows[i].doc));
      }
    }
  }

  /** After a delete, `get` of that id is `null` and every other id finds what it did before. */
  lemma {:induction false} LookupRemoved<T>(rows: seq<Row<T>>, id: nat, other: nat)
    ensures Lookup(Removed(rows, id), id).None?
    ensures other != id ==> Lookup(Removed(rows, id), other) == Lookup(rows, other)
    decreases |rows|
  {
    if rows != [] {
      LookupRemoved(rows[1..], id, other);
      var keep := (row: Row<T>) => row.id != id;
      assert Removed(rows[1..], id) == Matching(rows[1..], keep);
    }
  }

  /** `ctx.db.patch(id, updates)` on one document: the supplied fields take
      their new values, every other field keeps its own. */
  function Patch(doc: Doc, updates: Doc): (r: Doc)
    ensures forall k :: k in updates ==> k in r && r[k] == updates[k]
    ensures forall k :: k !in updates ==> (k in r <==> k in doc)
    ensures forall k :: k !in updates && k in doc ==> r[k] == doc[k]
  {
    doc + updates
  }

  /** The patch as the change `Table.Update` applies. */
  function Patcher(updates: Doc): Doc -> Doc {
    (doc: Doc) => Patch(doc, updates)
  }

  /** The document's `isActive` field is `true`. */
  predicate IsActive(doc: Doc) {
    "isActive" in doc && doc["isActive"] == Bool(true)
  }

  /** The query on the `by_active` index with `isActive` equal to `true`. */
  predicate ActiveRow(row: Row<Doc>) {
    IsActive(row.doc)
  }

  /** An optional argument added to a document: no field when it is absent. */
  function Put(d: Doc, key: string, value: Option<Value>): Doc {
    match value
    case None => d
    case Some(v) => d[key := v]
  }

  function OptStr(s: Option<string>): Option<Value> {
    match s
    case None => None
    case Some(t) => Some(Str(t))
  }

  function OptNum(n: Option<int>): Option<Value> {
    match n
    case None => None
    case Some(k) => Some(Num(k))
  }

  function OptBool(b: Option<bool>): Option<Value> {
    match b
    case None => None
    case Some(x) => Some(Bool(x))
  }

  /** A `v.array(v.string())` value. */
  function Strings(ss: seq<string>): (r: Value)
    ensures r.Arr? && |r.items| == |ss| && forall i :: 0 <= i < |ss| ==> r.items[i] == Str(ss[i])
  {
    Arr(seq(|ss|, i requires 0 <= i < |ss| => Str(ss[i])))
  }

  function OptStrings(ss: Option<seq<string>>): Option<Value> {
    match ss
    case None => None
    case Some(t) => Some(Strings(t))
  }

  /** Reading a field back out of a document: the value when it is there
      with the expected type. */
  function GetStr(d: Doc, key: string): Option<string> {
    if key in d && d[key].Str? then Some(d[key].s) else None
  }

  function GetNum(d: Doc, key: string): Option<int> {
    if key in d && d[key].Num? then Some(d[key].n) else None
  }

  function GetBool(d: Doc, key: string): Option<bool> {
    if key in d && d[key].Bool? then Some(d[key].b) else None
  }

  /** The strings of an array of string values. */
  function StrItems(items: seq<Value>): Option<seq<string>>
    decreases |items|
  {
    if items == [] then Some([])
    else if !items[0].Str? then None
    else match StrItems(items[1..])
      case None => None
      case Some(rest) => Some([items[0].s] + rest)
  }

  function GetStrings(d: Doc, key: string): Option<seq<string>> {
    if key in d && d[key].Arr? then StrItems(d[key].items) else None
  }

  lemma {:induction false} StringsRoundTrip(ss: seq<string>)
    ensures StrItems(Strings(ss).items) == Some(ss)
    decreases |ss|
  {
    if ss != [] {
      assert Strings(ss).items[1..] == Strings(ss[1..]).items;
      StringsRoundTrip(ss[1..]);
      assert [ss[0]] + ss[1..] == ss;
    }
  }

  /** A query's rows keep up with an insert: appending a row `keep` accepts
      appends it to the matching rows. */
  lemma {:induction false} MatchingSnoc<T>(rows: seq<Row<T>>, row: Row<T>, keep: Row<T> -> bool)
    ensures Matching(rows + [row], keep) == Matching(rows, keep) + (if keep(row) then [row] else [])
    decreases |rows|
  {
    if rows == [] {
      assert [row][1..] == [];
    } else {
      assert (rows + [row])[1..] == rows[1..] + [row];
      MatchingSnoc(rows[1..], row, keep);
    }
  }

  /** A newly inserted row that the query accepts is listed, as long as fewer
      than `limit` rows matched before. */
  lemma InsertedIsSelected<T>(rows: seq<Row<T>>, row: Row<T>, keep: Row<T> -> bool, limit: nat)
    requires keep(row) && |Matching(rows, keep)| < limit
    ensures row in Select(rows + [row], keep, limit)
  {
    MatchingSnoc(rows, row, keep);
    var m := Matching(rows + [row], keep);
    assert m[|m| - 1] == row;
  }

  /** A table: its rows in creation order, and the next id to hand out. */
  class Table<T(==)> {
    var rows: seq<Row<T>>
    var nextId: nat

    ghost predicate Valid()
      reads this
    {
      IdsIncreasing(rows) && forall i :: 0 <= i < |rows| ==> rows[i].id < nextId
    }

    constructor ()
      ensures Valid() && rows == [] && nextId == 0
    {
      rows := [];
      nextId := 0;
    }

    /** `ctx.db.insert`: the document is stored last, under a fresh id. */
    method Insert(doc: T) returns (id: nat)
      requires Valid()
      modifies this
      ensures Valid()
      ensures id == old(nextId) && nextId == old(nextId) + 1
      ensures rows == old(rows) + [Row(id, doc)]
      ensures forall i :: 0 <= i < |old(rows)| ==> old(rows)[i].id != id
    {
      id := nextId;
      rows := rows + [Row(id, doc)];
      nextId := nextId + 1;
    }

    /** `ctx.db.patch` and `replace`: the document of row `id` becomes `f` of
        it. A missing id makes the call throw, which leaves the table as it was. */
    method Update(id: nat, f: T -> T) returns (found: bool)
      requires Valid()
      modifies this
      ensures Valid()
      ensures found <==> Lookup(old(rows), id).Some?
      ensures rows == Replaced(old(rows), id, f) && nextId == old(nextId)
    {
      found := IndexOf(rows, id).Some?;
      rows := Replaced(rows, id, f);
    }

    /** `ctx.db.delete`: a missing id makes the call throw, leaving the table as it was. */
    method Delete(id: nat) returns (found: bool)
      requires Valid()
      modifies this
      ensures Valid()
      ensures found <==> Lookup(old(rows), id).Some?
      ensures rows == Removed(old(rows), id) && nextId == old(nextId)
    {
      found := IndexOf(rows, id).Some?;
      RemovedOthers(rows, id);
      rows := Removed(rows, id);
    }
  }

  /** A patch with a missing id changes nothing. */
  lemma ReplacedMissing<T>(rows: seq<Row<T>>, id: nat, f: T -> T)
    requires Lookup(rows, id).None?
    ensures Replaced(rows, id, f) == rows
  {
  }
}
