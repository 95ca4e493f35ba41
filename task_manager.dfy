/** The task manager of the controller web server: a cache of pending
    Taskwarrior tasks, the currently active (most recently started) task, and
    two ways of cutting the task list into named pages. */
module Tasks {
  import opened Wrappers
  import opened Seqs

  /** A pending task as exported by `task export`; absent JSON fields are None. */
  datatype Task = Task(uuid: string, project: Option<string>, start: Option<string>)

  /** A named page of tasks, `{ name, tasks }`. */
  datatype Page = Page(name: string, tasks: seq<Task>)

  /** Tasks per page for a grid picker; neither pager below consults it. */
  const TasksPerPage: nat := 16
  /** Cached exports younger than this many milliseconds are reused. */
  const MaxCacheAge: int := 1000
  /** Projects are grouped by the text before their first '.'. */
  const ProjectSeparator: char := '.'
  const NoProjectPage: string := "(none)"
  const CatchAllPage: string := "(catch-all)"
  /** Above this many project pages, the surplus is merged into one page. */
  const MaxProjectPages: nat := 8

  // ---------------------------------------------------------------------------
  // Dates

  /** `iso.slice(a, b)` for 0 <= a <= b: indices beyond the end are clamped. */
  function Slice(s: string, a: nat, b: nat): (r: string)
    requires a <= b
    ensures b <= |s| ==> r == s[a..b]
    ensures |s| <= a ==> r == ""
    ensures a <= |s| ==> r <= s[a..] && |r| == (if b <= |s| then b else |s|) - a
  {
    var hi := if b <= |s| then b else |s|;
    var lo := if a <= hi then a else hi;
    s[lo..hi]
  }

  /** The rewrite in `parseTaskDate`: Taskwarrior's `YYYYMMDDTHHMMSSZ` becomes
      `YYYY-MM-DDTHH:MM:SSZ`, which `Date.parse` accepts. */
  function RewriteTaskDate(iso: string): (r: string)
    ensures |r| == (if |iso| < 16 then |iso| else 16) + 4
    ensures |iso| >= 16 ==> r[4] == '-' && r[7] == '-' && r[13] == ':' && r[16] == ':'
  {
    Slice(iso, 0, 4) + "-" + Slice(iso, 4, 6) + "-" + Slice(iso, 6, 11) + ":"
      + Slice(iso, 11, 13) + ":" + Slice(iso, 13, 16)
  }

  /** Drops the four separators the rewrite inserts. */
  function CompactTaskDate(r: string): string
    requires |r| == 20
  {
    r[..4] + r[5..7] + r[8..13] + r[14..16] + r[17..]
  }

  /** The rewrite loses nothing from a 16-character timestamp. */
  lemma RewriteTaskDateRoundTrip(iso: string)
    requires |iso| == 16
    ensures CompactTaskDate(RewriteTaskDate(iso)) == iso
  {
    var r := RewriteTaskDate(iso);
    assert r[..4] == iso[..4];
    assert r[5..7] == iso[4..6];
    assert r[8..13] == iso[6..11];
    assert r[14..16] == iso[11..13];
    assert r[17..] == iso[13..];
    assert iso == iso[..4] + iso[4..6] + iso[6..11] + iso[11..13] + iso[13..];
  }

  /** Distinct 16-character timestamps reach `Date.parse` as distinct strings. */
  lemma RewriteTaskDateInjective(a: string, b: string)
    requires |a| == 16 && |b| == 16 && RewriteTaskDate(a) == RewriteTaskDate(b)
    ensures a == b
  {
    RewriteTaskDateRoundTrip(a);
    RewriteTaskDateRoundTrip(b);
  }

  /** `parseTaskDate`, with `Date.parse` passed in as `dateParse`. */
  function ParseTaskDate(iso: string, dateParse: string -> int): (r: int)
    ensures |iso| >= 16 ==> r == dateParse(RewriteTaskDate(iso[..16]))
  {
    assert |iso| >= 16 ==> RewriteTaskDate(iso) == RewriteTaskDate(iso[..16]) by {
      if |iso| >= 16 {
        var stamp := iso[..16];
        assert Slice(iso, 0, 4) == Slice(stamp, 0, 4) && Slice(iso, 4, 6) == Slice(stamp, 4, 6);
        assert Slice(iso, 6, 11) == Slice(stamp, 6, 11) && Slice(iso, 11, 13) == Slice(stamp, 11, 13);
        assert Slice(iso, 13, 16) == Slice(stamp, 13, 16);
      }
    }
    dateParse(RewriteTaskDate(iso))
  }

  /** `task.start` is truthy: present and not empty. */
  predicate Started(t: Task) {
    t.start.Some? && t.start.value != ""
  }

  function StartTime(t: Task, dateParse: string -> int): int
    requires Started(t)
  {
    ParseTaskDate(t.start.value, dateParse)
  }

  // ---------------------------------------------------------------------------
  // The active task

  /** Index of the task `_computeActiveTask` picks from `tasks`, or -1: the
      scan keeps a started task and replaces it only by a strictly later one. */
  function ActiveIndex(tasks: seq<Task>, dateParse: string -> int): (k: int)
    ensures -1 <= k < |tasks|
    ensures 0 <= k ==> Started(tasks[k])
  {
    if tasks == [] then -1
    else
      var n := |tasks| - 1;
      var k := ActiveIndex(tasks[..n], dateParse);
      if Started(tasks[n]) && (k == -1 || StartTime(tasks[n], dateParse) > StartTime(tasks[k], dateParse))
      then n else k
  }

  /** The active task is None exactly when no task is started; otherwise it
      is a started task whose start is not before any other's, and the first
      such task in list order. */
  lemma {:induction false} ActiveIndexIsLatestStart(tasks: seq<Task>, dateParse: string -> int)
    ensures var k := ActiveIndex(tasks, dateParse);
            (k == -1 <==> forall i :: 0 <= i < |tasks| ==> !Started(tasks[i])) &&
            (0 <= k ==> forall i :: 0 <= i < |tasks| && Started(tasks[i]) ==>
                          StartTime(tasks[i], dateParse) <= StartTime(tasks[k], dateParse)) &&
            (0 <= k ==> forall i :: 0 <= i < k && Started(tasks[i]) ==>
                          StartTime(tasks[i], dateParse) < StartTime(tasks[k], dateParse))
  {
    if tasks != [] {
      var n := |tasks| - 1;
      ActiveIndexIsLatestStart(tasks[..n], dateParse);
      assert forall i :: 0 <= i < n ==> tasks[..n][i] == tasks[i];
    }
  }

  function ActiveTask(tasks: seq<Task>, dateParse: string -> int): Option<Task> {
    var k := ActiveIndex(tasks, dateParse);
    if k == -1 then None else Some(tasks[k])
  }

  // ---------------------------------------------------------------------------
  // The cache

  /** The refresh decision of `getRecentPending`. */
  function NeedsExport(force: bool, cached: Option<seq<Task>>, now: int, lastExported: int): (r: bool)
    ensures !r <==> !force && cached.Some? && now - lastExported <= MaxCacheAge
  {
    force || cached.None? || now - lastExported > MaxCacheAge
  }

  class TaskManager {
    /** `_lastExported`: when the cached list arrived, in milliseconds. */
    var lastExported: int
    /** `_recentPending`: the cached list of pending tasks, None for null. */
    var recentPending: Option<seq<Task>>
    /** `activeTask`: the most recently started task, None for null. */
    var activeTask: Option<Task>

    constructor ()
      ensures lastExported == 0 && recentPending == None && activeTask == None
    {
      lastExported, recentPending, activeTask := 0, None, None;
    }

    /** `_computeActiveTask`: sets `activeTask` from the cached list. */
    method ComputeActiveTask(dateParse: string -> int)
      requires recentPending.Some?
      modifies this`activeTask
      ensures activeTask == ActiveTask(recentPending.value, dateParse)
    {
      var tasks := recentPending.value;
      var mostRecentStartedTask: Option<Task> := None;
      ghost var k := -1;
      for i := 0 to |tasks|
        invariant k == ActiveIndex(tasks[..i], dateParse)
        invariant mostRecentStartedTask == if k == -1 then None else Some(tasks[k])
      {
        var task := tasks[i];
        assert tasks[..i + 1][..i] == tasks[..i];
        if Started(task) {
          if mostRecentStartedTask.None?
            || ParseTaskDate(task.start.value, dateParse) > ParseTaskDate(mostRecentStartedTask.value.start.value, dateParse)
          {
            mostRecentStartedTask := Some(task);
            k := i;
          }
        }
      }
      assert tasks[..|tasks|] == tasks;
      activeTask := mostRecentStartedTask;
    }

    /** `getRecentPending`: re-runs the export (whose result is `exported`,
        arriving at time `arrivedAt`) when forced, when nothing is cached, or
        when the cache is more than a second old at time `now`; otherwise
        answers from the cache and changes nothing. */
    method GetRecentPending(force: bool, now: int, exported: seq<Task>, arrivedAt: int, dateParse: string -> int)
      returns (tasks: seq<Task>)
      modifies this
      ensures NeedsExport(force, old(recentPending), now, old(lastExported)) ==>
                recentPending == Some(exported) && lastExported == arrivedAt &&
                activeTask == ActiveTask(exported, dateParse) && tasks == exported
      ensures !NeedsExport(force, old(recentPending), now, old(lastExported)) ==>
                recentPending == old(recentPending) && lastExported == old(lastExported) &&
                activeTask == old(activeTask) && Some(tasks) == recentPending
    {
      if force || recentPending.None? || now - lastExported > MaxCacheAge {
        recentPending := Some(exported);
        lastExported := arrivedAt;
        ComputeActiveTask(dateParse);
      }
      tasks := recentPending.value;
    }
  }

  // ---------------------------------------------------------------------------
  // Naive paging

  function Digit(d: nat): char
    requires d < 10
  {
    "0123456789"[d]
  }

  /** `${n}` for a natural number. */
  function DecimalString(n: nat): (r: string)
    ensures |r| > 0
  {
    if n < 10 then [Digit(n)] else DecimalString(n / 10) + [Digit(n % 10)]
  }

  /** `getNaivePagedRecentPending`: no pages for no tasks, otherwise a single
      page "1" holding every task in order. */
  method NaivePagedRecentPending(tasks: seq<Task>) returns (pages: seq<Page>)
    ensures tasks == [] ==> pages == []
    ensures tasks != [] ==> pages == [Page("1", tasks)]
  {
    pages := [];
    var hasCurPage := false;
    for i := 0 to |tasks|
      invariant hasCurPage <==> 0 < i
      invariant i == 0 ==> pages == []
      invariant 0 < i ==> pages == [Page("1", tasks[..i])]
    {
      if !hasCurPage {
        pages := pages + [Page(DecimalString(|pages| + 1), [])];
        hasCurPage := true;
      }
      assert DecimalString(1) == "1";
      var cur := |pages| - 1;
      pages := pages[cur := Page(pages[cur].name, pages[cur].tasks + [tasks[i]])];
      assert tasks[..i + 1] == tasks[..i] + [tasks[i]];
    }
    assert tasks[..|tasks|] == tasks;
  }

  // ---------------------------------------------------------------------------
  // Project paging

  /** `(task.project && task.project.split('.')[0]) || '(none)'` */
  function PageKey(t: Task): (k: string)
    ensures k != ""
    ensures t.project.None? ==> k == NoProjectPage
  {
    match t.project
    case None => NoProjectPage
    case Some(p) =>
      if p == "" then NoProjectPage
      else
        var segment := BeforeFirst(p, ProjectSeparator);
        if segment == "" then NoProjectPage else segment
  }

  /** A project's page is its first '.'-segment, or '(none)' when that
      segment is empty (which covers the empty project and ".x"). */
  lemma PageKeyIsFirstSegment(t: Task, p: string)
    requires t.project == Some(p)
    ensures BeforeFirst(p, ProjectSeparator) != "" ==> PageKey(t) == BeforeFirst(p, ProjectSeparator)
    ensures BeforeFirst(p, ProjectSeparator) == "" ==> PageKey(t) == NoProjectPage
  {
  }

  /** A non-empty project without a '.' is its own page. */
  lemma PageKeyOfUndottedProject(t: Task, p: string)
    requires p != "" && ProjectSeparator !in p && t.project == Some(p)
    ensures PageKey(t) == p
  {
    assert BeforeFirst(p, ProjectSeparator) == p;
  }

  /** A project `top.sub...` lands on page `top`. */
  lemma PageKeyOfDottedProject(t: Task, top: string, rest: string)
    requires top != "" && ProjectSeparator !in top && t.project == Some(top + [ProjectSeparator] + rest)
    ensures PageKey(t) == top
  {
    SplitJoined(top, ProjectSeparator, rest);
  }

  function Keys(tasks: seq<Task>): (r: seq<string>)
    ensures |r| == |tasks| && forall i :: 0 <= i < |tasks| ==> r[i] == PageKey(tasks[i])
  {
    seq(|tasks|, i requires 0 <= i < |tasks| => PageKey(tasks[i]))
  }

  function Names(pages: seq<Page>): (r: seq<string>)
    ensures |r| == |pages| && forall i :: 0 <= i < |pages| ==> r[i] == pages[i].name
  {
    seq(|pages|, i requires 0 <= i < |pages| => pages[i].name)
  }

  /** The tasks whose page key is `k`, in input order. */
  function WithKey(tasks: seq<Task>, k: string): seq<Task> {
    if tasks == [] then []
    else
      var n := |tasks| - 1;
      WithKey(tasks[..n], k) + (if PageKey(tasks[n]) == k then [tasks[n]] else [])
  }

  lemma {:induction false} WithAbsentKey(tasks: seq<Task>, k: string)
    requires k !in Keys(tasks)
    ensures WithKey(tasks, k) == []
  {
    if tasks != [] {
      var n := |tasks| - 1;
      assert Keys(tasks[..n]) == Keys(tasks)[..n];
      WithAbsentKey(tasks[..n], k);
    }
  }

  /** Every task of the pages, page after page. */
  function AllTasks(pages: seq<Page>): seq<Task> {
    if pages == [] then [] else pages[0].tasks + AllTasks(pages[1..])
  }

  lemma {:induction false} AllTasksAppend(a: seq<Page>, b: seq<Page>)
    ensures AllTasks(a + b) == AllTasks(a) + AllTasks(b)
  {
    if a == [] {
      assert a + b == b;
    } else {
      assert (a + b)[0] == a[0];
      assert (a + b)[1..] == a[1..] + b;
      AllTasksAppend(a[1..], b);
    }
  }

  /** `placeTaskInPage(task, PageKey(task))` on the pages built so far. */
  function Place(pages: seq<Page>, t: Task): seq<Page> {
    var k := PageKey(t);
    var i := IndexOf(Names(pages), k);
    if i == -1 then pages + [Page(k, [t])]
    else pages[i := Page(k, pages[i].tasks + [t])]
  }

  /** Placing a task never loses a page name, and afterwards its key names a page. */
  lemma PlaceNames(pages: seq<Page>, t: Task)
    ensures PageKey(t) in Names(Place(pages, t))
    ensures Names(pages) <= Names(Place(pages, t)) && |Place(pages, t)| <= |pages| + 1
  {
    var k := PageKey(t);
    var i := IndexOf(Names(pages), k);
    var r := Place(pages, t);
    if i == -1 {
      assert Names(r) == Names(pages) + [k];
    } else {
      assert Names(r) == Names(pages) && Names(r)[i] == k;
    }
  }

  /** With distinct names, a task joins the one page named by its key ... */
  lemma PlaceInExisting(pages: seq<Page>, t: Task, j: int)
    requires Distinct(Names(pages)) && 0 <= j < |pages| && pages[j].name == PageKey(t)
    ensures Place(pages, t) == pages[j := Page(PageKey(t), pages[j].tasks + [t])]
    ensures Names(Place(pages, t)) == Names(pages)
  {
    IndexOfIs(Names(pages), PageKey(t), j);
    assert Names(Place(pages, t)) == Names(pages);
  }

  /** ... or, when no page has that name, opens a new last page. */
  lemma PlaceInNew(pages: seq<Page>, t: Task)
    requires PageKey(t) !in Names(pages)
    ensures Place(pages, t) == pages + [Page(PageKey(t), [t])]
    ensures Names(Place(pages, t)) == Names(pages) + [PageKey(t)]
  {
    assert Names(Place(pages, t)) == Names(pages) + [PageKey(t)];
  }

  /** The pages the placement loop of `getProjectPagedRecentPending` builds. */
  function Group(tasks: seq<Task>): seq<Page> {
    if tasks == [] then []
    else
      var n := |tasks| - 1;
      Place(Group(tasks[..n]), tasks[n])
  }

  lemma GroupSnoc(tasks: seq<Task>, t: Task)
    ensures Group(tasks + [t]) == Place(Group(tasks), t)
    ensures Keys(tasks + [t]) == Keys(tasks) + [PageKey(t)]
  {
    assert (tasks + [t])[..|tasks|] == tasks;
    assert Keys(tasks + [t]) == Keys(tasks) + [PageKey(t)];
  }

  /** One page per distinct key: page names are distinct and are exactly the keys. */
  lemma {:induction false} GroupNames(tasks: seq<Task>)
    ensures Distinct(Names(Group(tasks)))
    ensures forall k :: k in Names(Group(tasks)) <==> k in Keys(tasks)
  {
    if tasks != [] {
      var n := |tasks| - 1;
      var prefix, t := tasks[..n], tasks[n];
      assert tasks == prefix + [t];
      GroupSnoc(prefix, t);
      GroupNames(prefix);
      var g := Group(prefix);
      var i := IndexOf(Names(g), PageKey(t));
      if i == -1 {
        PlaceInNew(g, t);
      } else {
        PlaceInExisting(g, t, i);
      }
    }
  }

  lemma WithKeySnoc(tasks: seq<Task>, t: Task, k: string)
    ensures WithKey(tasks + [t], k) == WithKey(tasks, k) + (if PageKey(t) == k then [t] else [])
  {
    assert (tasks + [t])[..|tasks|] == tasks;
  }

  /** Each page holds exactly the tasks with its key, in input order. */
  lemma {:induction false} GroupContents(tasks: seq<Task>)
    ensures forall i :: 0 <= i < |Group(tasks)| ==> Group(tasks)[i].tasks == WithKey(tasks, Group(tasks)[i].name)
  {
    if tasks != [] {
      var n := |tasks| - 1;
      var prefix, t := tasks[..n], tasks[n];
      assert tasks == prefix + [t];
      GroupSnoc(prefix, t);
      GroupNames(prefix);
      GroupContents(prefix);
      var g := Group(prefix);
      var k := PageKey(t);
      var i := IndexOf(Names(g), k);
      if i == -1 {
        PlaceInNew(g, t);
        WithAbsentKey(prefix, k);
      } else {
        PlaceInExisting(g, t, i);
      }
      forall p | 0 <= p < |Group(tasks)|
        ensures Group(tasks)[p].tasks == WithKey(tasks, Group(tasks)[p].name)
      {
        WithKeySnoc(prefix, t, Group(tasks)[p].name);
        if p < |g| && g[p].name != k {
          assert Names(g)[p] == g[p].name;
        }
      }
    }
  }

  lemma IndexOfSnoc<T>(s: seq<T>, y: T, x: T)
    requires x in s
    ensures IndexOf(s + [y], x) == IndexOf(s, x)
  {
    var r := IndexOf(s, x);
    assert (s + [y])[..r] == s[..r];
    IndexOfIs(s + [y], x, r);
  }

  /** Pages come in the order in which their keys first appear. */
  lemma {:induction false} GroupFirstAppearanceOrder(tasks: seq<Task>)
    ensures forall i, j :: 0 <= i < j < |Group(tasks)| ==>
              0 <= IndexOf(Keys(tasks), Group(tasks)[i].name) < IndexOf(Keys(tasks), Group(tasks)[j].name)
  {
    if tasks != [] {
      var n := |tasks| - 1;
      var prefix, t := tasks[..n], tasks[n];
      assert tasks == prefix + [t];
      GroupSnoc(prefix, t);
      GroupNames(prefix);
      GroupFirstAppearanceOrder(prefix);
      var g := Group(prefix);
      var k := PageKey(t);
      var i := IndexOf(Names(g), k);
      var keys := Keys(tasks);
      if i == -1 {
        PlaceInNew(g, t);
        assert k !in Keys(prefix);
        IndexOfIs(keys, k, n);
      } else {
        PlaceInExisting(g, t, i);
      }
      forall p | 0 <= p < |g|
        ensures Group(tasks)[p].name == g[p].name
        ensures 0 <= IndexOf(keys, g[p].name) == IndexOf(Keys(prefix), g[p].name) < n
      {
        assert Names(g)[p] == g[p].name;
        IndexOfSnoc(Keys(prefix), k, g[p].name);
      }
      forall p, q | 0 <= p < q < |Group(tasks)|
        ensures 0 <= IndexOf(keys, Group(tasks)[p].name) < IndexOf(keys, Group(tasks)[q].name)
      {
        if q == |g| {
          assert Group(tasks)[q].name == k;
        }
      }
      assert keys == Keys(tasks);
    } else {
      assert Group(tasks) == [];
    }
  }

  /** Replacing one page by itself plus `t` adds `t` to the tasks of all pages. */
  lemma AllTasksAddToPage(pages: seq<Page>, i: int, name: string, t: Task)
    requires 0 <= i < |pages|
    ensures multiset(AllTasks(pages[i := Page(name, pages[i].tasks + [t])]))
            == multiset(AllTasks(pages)) + multiset{t}
  {
    var updated := pages[i := Page(name, pages[i].tasks + [t])];
    assert pages == pages[..i] + [pages[i]] + pages[i + 1..];
    assert updated == pages[..i] + [updated[i]] + pages[i + 1..];
    AllTasksAppend(pages[..i] + [pages[i]], pages[i + 1..]);
    AllTasksAppend(pages[..i], [pages[i]]);
    AllTasksAppend(pages[..i] + [updated[i]], pages[i + 1..]);
    AllTasksAppend(pages[..i], [updated[i]]);
    assert AllTasks([pages[i]]) == pages[i].tasks;
    assert AllTasks([updated[i]]) == pages[i].tasks + [t];
  }

  /** Grouping loses and duplicates no task. */
  lemma {:induction false} GroupKeepsTasks(tasks: seq<Task>)
    ensures multiset(AllTasks(Group(tasks))) == multiset(tasks)
  {
    if tasks != [] {
      var n := |tasks| - 1;
      var prefix, t := tasks[..n], tasks[n];
      GroupKeepsTasks(prefix);
      assert tasks == prefix + [t];
      var g := Group(prefix);
      var i := IndexOf(Names(g), PageKey(t));
      if i == -1 {
        AllTasksAppend(g, [Page(PageKey(t), [t])]);
      } else {
        AllTasksAddToPage(g, i, PageKey(t), t);
      }
    }
  }

  /** `mergePages`: one catch-all page holding the tasks of `pages`, page after page. */
  method MergePages(pages: seq<Page>) returns (merged: Page)
    ensures merged == Page(CatchAllPage, AllTasks(pages))
  {
    var tasks: seq<Task> := [];
    for i := 0 to |pages|
      invariant tasks == AllTasks(pages[..i])
    {
      AllTasksAppend(pages[..i], [pages[i]]);
      assert pages[..i + 1] == pages[..i] + [pages[i]];
      tasks := tasks + pages[i].tasks;
    }
    assert pages[..|pages|] == pages;
    merged := Page(CatchAllPage, tasks);
  }

  /** Above eight pages, the pages from the eighth on are merged into one
      catch-all page (the preceding sort compares `b.length - a.length`, which
      is NaN for page objects, so it reorders nothing); the tasks, in order,
      are those of the input. */
  function MergeOverflow(pages: seq<Page>): (r: seq<Page>)
    ensures |pages| <= MaxProjectPages ==> r == pages
    ensures |pages| > MaxProjectPages ==>
              |r| == MaxProjectPages && r[..7] == pages[..7] && r[7].name == CatchAllPage
    ensures AllTasks(r) == AllTasks(pages)
  {
    if |pages| > MaxProjectPages then
      AllTasksAppend(pages[..7], [Page(CatchAllPage, AllTasks(pages[7..]))]);
      AllTasksAppend(pages[..7], pages[7..]);
      assert pages == pages[..7] + pages[7..];
      pages[..7] + [Page(CatchAllPage, AllTasks(pages[7..]))]
    else pages
  }

  // ---------------------------------------------------------------------------
  // Sorting pages by name

  /** `le(a, b)` stands for `a.localeCompare(b) <= 0`; a collation is total. */
  ghost predicate Total(le: (string, string) -> bool) {
    forall a, b :: le(a, b) || le(b, a)
  }

  predicate SortedByName(pages: seq<Page>, le: (string, string) -> bool) {
    forall i :: 0 < i < |pages| ==> le(pages[i - 1].name, pages[i].name)
  }

  /** Inserts `p` before the first page it does not sort after. */
  function InsertByName(p: Page, sorted: seq<Page>, le: (string, string) -> bool): (r: seq<Page>)
    ensures multiset(r) == multiset(sorted) + multiset{p}
    ensures r[0] == p || (sorted != [] && r[0] == sorted[0])
  {
    if sorted == [] || le(p.name, sorted[0].name) then [p] + sorted
    else
      assert sorted == [sorted[0]] + sorted[1..];
      [sorted[0]] + InsertByName(p, sorted[1..], le)
  }

  /** Under a total order, inserting into a sorted list keeps it sorted. */
  lemma {:induction false} InsertByNameSorted(p: Page, sorted: seq<Page>, le: (string, string) -> bool)
    requires Total(le) && SortedByName(sorted, le)
    ensures SortedByName(InsertByName(p, sorted, le), le)
  {
    if sorted != [] && !le(p.name, sorted[0].name) {
      assert le(sorted[0].name, p.name);
      var rest := InsertByName(p, sorted[1..], le);
      InsertByNameSorted(p, sorted[1..], le);
      assert ([sorted[0]] + rest)[1..] == rest;
    }
  }

  /** Inserting a page adds exactly its tasks to the tasks of all pages. */
  lemma {:induction false} InsertByNameTasks(p: Page, sorted: seq<Page>, le: (string, string) -> bool)
    ensures multiset(AllTasks(InsertByName(p, sorted, le))) == multiset(AllTasks(sorted)) + multiset(p.tasks)
  {
    var r := InsertByName(p, sorted, le);
    if sorted == [] || le(p.name, sorted[0].name) {
      AllTasksAppend([p], sorted);
      assert AllTasks([p]) == p.tasks;
    } else {
      var rest := InsertByName(p, sorted[1..], le);
      InsertByNameTasks(p, sorted[1..], le);
      AllTasksAppend([sorted[0]], rest);
      AllTasksAppend([sorted[0]], sorted[1..]);
      assert AllTasks([sorted[0]]) == sorted[0].tasks;
      assert sorted == [sorted[0]] + sorted[1..];
    }
  }

  /** `pages.sort((a, b) => a.name.localeCompare(b.name))`, a stable sort. */
  function SortByName(pages: seq<Page>, le: (string, string) -> bool): (r: seq<Page>)
    ensures multiset(r) == multiset(pages)
  {
    if pages == [] then []
    else
      assert pages == [pages[0]] + pages[1..];
      InsertByName(pages[0], SortByName(pages[1..], le), le)
  }

  /** Under a total order the sorted pages are in order of name. */
  lemma {:induction false} SortByNameSorted(pages: seq<Page>, le: (string, string) -> bool)
    requires Total(le)
    ensures SortedByName(SortByName(pages, le), le)
  {
    if pages != [] {
      SortByNameSorted(pages[1..], le);
      InsertByNameSorted(pages[0], SortByName(pages[1..], le), le);
    }
  }

  /** Sorting pages keeps the tasks they hold. */
  lemma {:induction false} SortByNameTasks(pages: seq<Page>, le: (string, string) -> bool)
    ensures multiset(AllTasks(SortByName(pages, le))) == multiset(AllTasks(pages))
  {
    if pages != [] {
      SortByNameTasks(pages[1..], le);
      InsertByNameTasks(pages[0], SortByName(pages[1..], le), le);
      AllTasksAppend([pages[0]], pages[1..]);
      assert AllTasks([pages[0]]) == pages[0].tasks;
      assert pages == [pages[0]] + pages[1..];
    }
  }

  /** The placement loop of `getProjectPagedRecentPending`: `pageMap` finds
      a key's page among `allPages`, which keeps first-appearance order. */
  method GroupByProject(tasks: seq<Task>) returns (allPages: seq<Page>)
    ensures allPages == Group(tasks)
  {
    var pageMap: map<string, nat> := map[];
    allPages := [];
    for i := 0 to |tasks|
      invariant allPages == Group(tasks[..i])
      invariant forall k :: k in pageMap <==> k in Names(allPages)
      invariant forall k :: k in pageMap ==> pageMap[k] < |allPages| && allPages[pageMap[k]].name == k
    {
      GroupNames(tasks[..i]);
      GroupSnoc(tasks[..i], tasks[i]);
      assert tasks[..i + 1] == tasks[..i] + [tasks[i]];
      var task := tasks[i];
      var project := PageKey(task);
      if project in pageMap {
        var j := pageMap[project];
        PlaceInExisting(allPages, task, j);
        allPages := allPages[j := Page(project, allPages[j].tasks + [task])];
      } else {
        PlaceInNew(allPages, task);
        pageMap := pageMap[project := |allPages|];
        allPages := allPages + [Page(project, [task])];
      }
    }
    assert tasks[..|tasks|] == tasks;
  }

  /** `getProjectPagedRecentPending` on the pending `tasks`: pages per first
      project segment, overflow merged into a catch-all page, sorted by name. */
  method ProjectPagedRecentPending(tasks: seq<Task>, le: (string, string) -> bool) returns (pages: seq<Page>)
    requires Total(le)
    ensures pages == SortByName(MergeOverflow(Group(tasks)), le)
    ensures SortedByName(pages, le)
    ensures multiset(AllTasks(pages)) == multiset(tasks)
    ensures |Group(tasks)| > MaxProjectPages ==> |pages| == MaxProjectPages
    ensures |Group(tasks)| <= MaxProjectPages ==> multiset(pages) == multiset(Group(tasks))
  {
    var allPages := GroupByProject(tasks);
    if |allPages| > MaxProjectPages {
      // allPages.sort((a, b) => b.length - a.length) compares NaN: no reordering.
      var merged := MergePages(allPages[7..]);
      allPages := allPages[..7] + [merged];
    }
    pages := SortByName(allPages, le);
    SortByNameSorted(allPages, le);
    SortByNameTasks(allPages, le);
    GroupKeepsTasks(tasks);
    assert |pages| == |allPages| by {
      assert |multiset(pages)| == |multiset(allPages)|;
    }
  }
}
