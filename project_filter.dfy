/** The projects page's filter: the category tabs, the technology chips, the
    shown projects, and toggling and clearing the selected technologies. */
module ProjectFilter {
  import opened Wrappers
  import opened Sequences

  /** The fields of a project the filter reads; `technologies` may be undefined. */
  datatype Project = Project(id: int, name: string, category: string, technologies: Option<seq<string>>)

  /** The page state: the selected category tab and the selected technologies. */
  datatype Selection = Selection(category: string, techs: seq<string>)

  const AllCategories := "All"

  /** The state on load, and after `clearFilters`. */
  const Cleared := Selection(AllCategories, [])

  predicate Distinct<X(==)>(s: seq<X>) {
    forall i, j :: 0 <= i < j < |s| ==> s[i] != s[j]
  }

  /** `[...new Set(s)]`: the elements of `s` without repeats, each where it
      first occurs. */
  function Dedup(s: seq<string>): (r: seq<string>)
    ensures Distinct(r)
    ensures forall x :: x in r <==> x in s
    decreases |s|
  {
    if s == [] then []
    else
      var front := s[..|s| - 1];
      var x := s[|s| - 1];
      assert forall y :: y in s <==> y in front || y == x;
      if x in front then Dedup(front) else Dedup(front) + [x]
  }

  /** The position where `x` first occurs in `s`. */
  function FirstIndex(s: seq<string>, x: string): (k: nat)
    requires x in s
    ensures k < |s| && s[k] == x && x !in s[..k]
  {
    if s[0] == x then 0
    else
      var k := FirstIndex(s[1..], x);
      assert s[1..][..k] == s[1..k + 1];
      k + 1
  }

  /** Two positions where `x` first occurs are the same. */
  lemma FirstIndexUnique(s: seq<string>, x: string, k: nat)
    requires x in s && k < |s| && s[k] == x && x !in s[..k]
    ensures FirstIndex(s, x) == k
  {
    var f := FirstIndex(s, x);
  }

  /** The order of `Dedup` is the order of first occurrence. */
  lemma {:induction false} DedupFirstOccurrence(s: seq<string>, i: nat, j: nat)
    requires i < j < |Dedup(s)|
    ensures FirstIndex(s, Dedup(s)[i]) < FirstIndex(s, Dedup(s)[j])
    decreases |s|
  {
    var front := s[..|s| - 1];
    var x := s[|s| - 1];
    var d := Dedup(front);
    var a := Dedup(s)[i];
    var b := Dedup(s)[j];
    assert a in front by {
      assert a == d[i];
    }
    FirstInPrefix(s, front, a);
    if j < |d| {
      assert b == d[j];
      FirstInPrefix(s, front, b);
      DedupFirstOccurrence(front, i, j);
    } else {
      assert b == x && x !in front;
      FirstIndexUnique(s, x, |s| - 1);
    }
  }

  /** An element of a prefix first occurs where it first occurs in the prefix. */
  lemma FirstInPrefix(s: seq<string>, front: seq<string>, x: string)
    requires |front| <= |s| && front == s[..|front|] && x in front
    ensures FirstIndex(s, x) == FirstIndex(front, x)
  {
    var k := FirstIndex(front, x);
    assert s[..k] == front[..k];
    FirstIndexUnique(s, x, k);
  }

  function CategoriesOf(projects: seq<Project>): (r: seq<string>)
    ensures |r| == |projects| && forall i :: 0 <= i < |projects| ==> r[i] == projects[i].category
  {
    seq(|projects|, i requires 0 <= i < |projects| => projects[i].category)
  }

  /** `categories`: "All" first, then each project category once. */
  function Categories(projects: seq<Project>): seq<string> {
    [AllCategories] + Dedup(CategoriesOf(projects))
  }

  /** Every category is offered, and none twice as long as no project is
      itself in a category named "All". */
  lemma CategoriesOffered(projects: seq<Project>)
    ensures Categories(projects)[0] == AllCategories
    ensures forall c :: c in Categories(projects) <==> c == AllCategories || exists p :: p in projects && p.category == c
    ensures (forall p :: p in projects ==> p.category != AllCategories) ==> Distinct(Categories(projects))
  {
    var names := CategoriesOf(projects);
    var cats := Categories(projects);
    forall c ensures c in names <==> exists p :: p in projects && p.category == c {
      if c in names {
        var i :| 0 <= i < |names| && names[i] == c;
        assert projects[i] in projects;
      }
      if exists p :: p in projects && p.category == c {
        var p :| p in projects && p.category == c;
        var i :| 0 <= i < |projects| && projects[i] == p;
        assert names[i] == c;
      }
    }
    if forall p :: p in projects ==> p.category != AllCategories {
      forall i, j | 0 <= i < j < |cats| ensures cats[i] != cats[j] {
        assert cats[j] == Dedup(names)[j - 1];
        if i > 0 {
          assert cats[i] == Dedup(names)[i - 1];
        } else {
          assert cats[j] in names;
          var k :| 0 <= k < |names| && names[k] == cats[j];
          assert projects[k] in projects;
        }
      }
    }
  }

  /** `projects.flatMap(p => p.technologies || [])`. */
  function TechList(projects: seq<Project>): seq<string>
    decreases |projects|
  {
    if projects == [] then []
    else Or(projects[0].technologies, []) + TechList(projects[1..])
  }

  lemma {:induction false} TechListHolds(projects: seq<Project>, t: string)
    ensures t in TechList(projects) <==>
              exists i :: 0 <= i < |projects| && projects[i].technologies.Some? && t in projects[i].technologies.value
    decreases |projects|
  {
    if projects != [] {
      TechListHolds(projects[1..], t);
      if t in TechList(projects[1..]) {
        var i :| 0 <= i < |projects[1..]| && projects[1..][i].technologies.Some? && t in projects[1..][i].technologies.value;
        assert projects[i + 1] == projects[1..][i];
      }
      if exists i :: 0 <= i < |projects| && projects[i].technologies.Some? && t in projects[i].technologies.value {
        var i :| 0 <= i < |projects| && projects[i].technologies.Some? && t in projects[i].technologies.value;
        if i > 0 {
          assert projects[1..][i - 1] == projects[i];
        }
      }
    }
  }

  /** `allTechnologies`: each technology of some project, once, in first-occurrence order. */
  function AllTechnologies(projects: seq<Project>): seq<string> {
    Dedup(TechList(projects))
  }

  lemma AllTechnologiesOffered(projects: seq<Project>, t: string)
    ensures Distinct(AllTechnologies(projects))
    ensures t in AllTechnologies(projects) <==>
              exists i :: 0 <= i < |projects| && projects[i].technologies.Some? && t in projects[i].technologies.value
  {
    TechListHolds(projects, t);
  }

  /** A project passes the filter: the category matches, unless "All" is
      selected, and it lists every selected technology. */
  predicate Shown(sel: Selection, p: Project) {
    var categoryMatch := sel.category == AllCategories || p.category == sel.category;
    var techMatch := |sel.techs| == 0 ||
      (p.technologies.Some? && forall t :: t in sel.techs ==> t in p.technologies.value);
    categoryMatch && techMatch
  }

  /** A project without technologies is hidden as soon as one is selected. */
  lemma UndefinedTechnologiesHidden(sel: Selection, p: Project)
    requires p.technologies.None? && sel.techs != []
    ensures !Shown(sel, p)
  {
  }

  /** `filteredProjects`. */
  function Filtered(sel: Selection, projects: seq<Project>): (r: seq<Project>)
    ensures forall i :: 0 <= i < |r| ==> Shown(sel, r[i]) && r[i] in projects
    decreases |projects|
  {
    if projects == [] then []
    else if Shown(sel, projects[0]) then [projects[0]] + Filtered(sel, projects[1..])
    else Filtered(sel, projects[1..])
  }

  /** The filter keeps the page order and leaves out no project that passes. */
  lemma {:induction false} FilteredInOrder(sel: Selection, projects: seq<Project>)
    ensures IsSubsequence(Filtered(sel, projects), projects)
    ensures forall p :: p in projects && Shown(sel, p) ==> p in Filtered(sel, projects)
    decreases |projects|
  {
    if projects != [] {
      FilteredInOrder(sel, projects[1..]);
      var r := Filtered(sel, projects);
      if Shown(sel, projects[0]) {
        assert r[0] == projects[0] && r[1..] == Filtered(sel, projects[1..]);
      }
      forall p | p in projects && Shown(sel, p) ensures p in r {
        if p != projects[0] {
          assert p in projects[1..];
        }
      }
    }
  }

  /** With "All" and no technology selected every project is shown, which is
      what `clearFilters` restores. */
  lemma {:induction false} ClearedShowsAll(projects: seq<Project>)
    ensures Filtered(Cleared, projects) == projects
    decreases |projects|
  {
    if projects != [] {
      ClearedShowsAll(projects[1..]);
    }
  }

  /** A stricter selection shows a subsequence of what a looser one shows. */
  lemma {:induction false} StricterShowsFewer(loose: Selection, strict: Selection, projects: seq<Project>)
    requires forall p :: Shown(strict, p) ==> Shown(loose, p)
    ensures IsSubsequence(Filtered(strict, projects), Filtered(loose, projects))
    decreases |projects|
  {
    if projects != [] {
      StricterShowsFewer(loose, strict, projects[1..]);
      var a := Filtered(strict, projects);
      var b := Filtered(loose, projects);
      if Shown(strict, projects[0]) {
        assert a[0] == b[0] && a[1..] == Filtered(strict, projects[1..]) && b[1..] == Filtered(loose, projects[1..]);
      } else if Shown(loose, projects[0]) {
        assert b[1..] == Filtered(loose, projects[1..]);
        SkipHead(a, b);
      }
    }
  }

  lemma SkipHead<X>(a: seq<X>, b: seq<X>)
    requires b != [] && IsSubsequence(a, b[1..])
    ensures IsSubsequence(a, b)
  {
  }

  /** Selecting one more technology never shows more projects. */
  lemma MoreTechnologiesShowFewer(sel: Selection, t: string, projects: seq<Project>)
    ensures IsSubsequence(Filtered(sel.(techs := sel.techs + [t]), projects), Filtered(sel, projects))
  {
    var more := sel.(techs := sel.techs + [t]);
    forall p | Shown(more, p) ensures Shown(sel, p) {
      if |sel.techs| > 0 {
        forall u | u in sel.techs ensures u in p.technologies.value {
          assert u in more.techs;
        }
      }
    }
    StricterShowsFewer(sel, more, projects);
  }

  /** `prev.filter(t => t !== tech)`. */
  function Without(s: seq<string>, t: string): (r: seq<string>)
    ensures forall u :: u in r <==> u in s && u != t
    ensures IsSubsequence(r, s)
    decreases |s|
  {
    if s == [] then []
    else if s[0] == t then Without(s[1..], t)
    else [s[0]] + Without(s[1..], t)
  }

  /** `toggleTechnology`: every occurrence removed when present, appended at the end otherwise. */
  function Toggle(selected: seq<string>, t: string): (r: seq<string>)
    ensures t in r <==> t !in selected
    ensures forall u :: u != t ==> (u in r <==> u in selected)
  {
    if t in selected then Without(selected, t) else selected + [t]
  }

  /** Toggling an absent technology twice gives back the list it started from. */
  lemma ToggleTwice(selected: seq<string>, t: string)
    requires t !in selected
    ensures Toggle(Toggle(selected, t), t) == selected
  {
    WithoutAbsent(selected, t);
    WithoutLast(selected, t);
  }

  lemma {:induction false} WithoutAbsent(s: seq<string>, t: string)
    requires t !in s
    ensures Without(s, t) == s
    decreases |s|
  {
    if s != [] {
      WithoutAbsent(s[1..], t);
    }
  }

  lemma {:induction false} WithoutLast(s: seq<string>, t: string)
    ensures Without(s + [t], t) == Without(s, t)
    decreases |s|
  {
    if s == [] {
      assert [t][1..] == [];
    } else {
      assert (s + [t])[1..] == s[1..] + [t];
      WithoutLast(s[1..], t);
    }
  }

  /** Starting from no selection, toggling keeps the selection free of repeats. */
  lemma ToggleKeepsDistinct(selected: seq<string>, t: string)
    requires Distinct(selected)
    ensures Distinct(Toggle(selected, t))
  {
    if t in selected {
      SubsequenceDistinct(Without(selected, t), selected);
    }
  }

  lemma {:induction false} SubsequenceDistinct(a: seq<string>, b: seq<string>)
    requires IsSubsequence(a, b) && Distinct(b)
    ensures Distinct(a)
  {
    SubsequenceChain(a, b, Differ);
  }

  predicate Differ(x: string, y: string) {
    x != y
  }

  /** `clearFilters`: back to "All" with no technology selected, whatever
      was selected before, so every project is shown again. */
  function ClearFilters(sel: Selection): (r: Selection)
    ensures r.category == AllCategories && r.techs == []
    ensures forall projects :: Filtered(r, projects) == projects
  {
    forall projects: seq<Project> ensures Filtered(Cleared, projects) == projects {
      ClearedShowsAll(projects);
    }
    Cleared
  }
}
