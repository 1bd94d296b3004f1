/**
  `github sync`, `push`, `link` and `unlink` as they run: tasks are mutated one
  by one, the index of linked issues is kept beside them, and the state file is
  written at the end.
*/
module GitHubCommands {
  import opened Wrappers
  import opened GitHubSync

  class Task {
    var id: int
    var title: string
    var description: string
    var priority: int
    var status: Status
    var role: string
    var issue: int

    constructor (row: Row)
      ensures Value() == row
    {
      id, title, description, priority := row.id, row.title, row.description, row.priority;
      status, role, issue := row.status, row.role, row.issue;
    }

    function Value(): Row
      reads this
    {
      Row(id, title, description, priority, status, role, issue)
    }
  }

  function RowsOf(tasks: seq<Task>): (rows: seq<Row>)
    reads tasks
    ensures |rows| == |tasks| && forall i :: 0 <= i < |tasks| ==> rows[i] == tasks[i].Value()
  {
    seq(|tasks|, i requires 0 <= i < |tasks| reads tasks => tasks[i].Value())
  }

  /** The API's answers: each command's calls are served from the repository or fail as told. */
  class GitHub {
    var remote: Remote

    constructor (remote: Remote)
      ensures this.remote == remote
    {
      this.remote := remote;
    }

    /** One page of open issues; pull requests come with it and are filtered out in place. */
    method ListIssues(labels: set<string>) returns (issues: seq<Issue>)
      ensures issues == Listing(remote, labels)
    {
      hide FirstPage, Matching;
      var page := FirstPage(Matching(remote.entries, labels));
      issues := [];
      var i := 0;
      while i < |page|
        invariant 0 <= i <= |page|
        invariant WithoutPulls(page) == issues + WithoutPulls(page[i..])
      {
        assert page[i..][1..] == page[i + 1..];
        if !page[i].pull {
          issues := issues + [page[i]];
        }
        i := i + 1;
      }
    }

    method CreateIssue(title: string, body: string, labels: seq<string>, reply: Reply) returns (number: Option<Number>)
      modifies this
      ensures remote == if reply == Refused then old(remote) else old(remote).Created(title, body, labels)
      ensures number == if reply == Acked then Some(old(remote).next) else None
    {
      if reply == Refused {
        return None;
      }
      number := if reply == Acked then Some(remote.next) else None;
      remote := remote.Created(title, body, labels);
    }

    method CloseIssue(number: Number, reply: Reply) returns (ok: bool)
      modifies this
      ensures remote == if reply == Refused then old(remote) else old(remote).Closed(number)
      ensures ok <==> reply == Acked
    {
      if reply != Refused {
        remote := remote.Closed(number);
      }
      ok := reply == Acked;
    }
  }

  datatype SyncResult = Unreachable | Synced(imported: nat, updated: nat, skipped: nat)

  datatype Kind = Import | Update | Skip

  datatype LinkResult = NoPlan | NoSuchTask | Changed(previous: int)

  class Project {
    var hasPlan: bool
    var tasks: seq<Task>
    /** What the state file holds. */
    var saved: seq<Row>

    ghost predicate Valid()
      reads this
    {
      && (forall i, j :: 0 <= i < j < |tasks| ==> tasks[i] != tasks[j])
      && (!hasPlan ==> tasks == [])
    }

    ghost function Rows(): seq<Row>
      reads this, tasks
    {
      RowsOf(tasks)
    }

    method NextTaskID() returns (id: int)
      ensures id == TopId(Rows()) + 1
    {
      var top, i := 0, 0;
      while i < |tasks|
        invariant 0 <= i <= |tasks|
        invariant top == TopId(Rows()[..i])
      {
        assert Rows()[..i + 1][..i] == Rows()[..i];
        if tasks[i].id > top {
          top := tasks[i].id;
        }
        i := i + 1;
      }
      assert Rows()[..i] == Rows();
      id := top + 1;
    }

    method NextPriority() returns (priority: int)
      ensures priority == TopPriority(Rows()) + 1
    {
      var top, i := 0, 0;
      while i < |tasks|
        invariant 0 <= i <= |tasks|
        invariant top == TopPriority(Rows()[..i])
      {
        assert Rows()[..i + 1][..i] == Rows()[..i];
        if tasks[i].priority > top {
          top := tasks[i].priority;
        }
        i := i + 1;
      }
      assert Rows()[..i] == Rows();
      priority := top + 1;
    }

    /** The issues tasks are linked to: every positive link, and nothing else. */
    method LinkIndex() returns (linked: set<int>)
      ensures linked == Index(Rows())
    {
      linked := {};
      var i := 0;
      while i < |tasks|
        invariant 0 <= i <= |tasks|
        invariant linked == Index(Rows()[..i])
      {
        assert Rows()[..i + 1][..i] == Rows()[..i];
        if tasks[i].issue > 0 {
          linked := linked + {tasks[i].issue};
        }
        i := i + 1;
      }
      assert Rows()[..i] == Rows();
    }

    /** Brings the first task linked to an issue up to it. */
    method UpdateLinked(issue: Issue) returns (found: bool)
      requires Valid()
      modifies tasks
      ensures tasks == old(tasks) && Valid()
      ensures found <==> FirstLink(old(Rows()), issue.number) < |tasks|
      ensures found ==> Rows() == Updated(old(Rows()), issue)
      ensures !found ==> Rows() == old(Rows())
    {
      var i := 0;
      while i < |tasks|
        invariant 0 <= i <= |tasks|
        invariant Rows() == old(Rows())
        invariant forall j :: 0 <= j < i ==> Rows()[j].issue != issue.number
      {
        if tasks[i].issue == issue.number {
          FirstLinkIs(Rows(), issue.number, i);
          tasks[i].title := issue.title;
          if issue.body != "" {
            tasks[i].description := issue.body;
          }
          assert Rows() == old(Rows())[i := Refresh(old(Rows())[i], issue)];
          return true;
        }
        i := i + 1;
      }
      return false;
    }

    /** Adds the task an issue is imported as. */
    method ImportIssue(issue: Issue, texts: Texts) returns (task: Task)
      requires Valid()
      modifies this`hasPlan, this`tasks
      ensures Valid() && hasPlan && fresh(task) && tasks == old(tasks) + [task]
      ensures Rows() == old(Rows()) + [Imported(old(Rows()), issue, texts)]
    {
      var priority := NextPriority();
      var id := NextTaskID();
      task := new Task(Row(id, issue.title, texts.taskText(issue), priority, Pending, texts.role(issue.labels), issue.number));
      hasPlan, tasks := true, tasks + [task];
    }

    /** What the loop does with one listed issue, keeping the index in step with the tasks. */
    method SyncIssue(issue: Issue, linked: set<int>, force: bool, dryRun: bool, texts: Texts)
        returns (kind: Kind, index: set<int>)
      requires Valid() && linked == Index(Rows())
      modifies this`hasPlan, this`tasks, tasks
      ensures Valid() && index == Index(Rows())
      ensures |old(tasks)| <= |tasks| && forall k :: 0 <= k < |old(tasks)| ==> tasks[k] == old(tasks)[k]
      ensures forall k :: |old(tasks)| <= k < |tasks| ==> fresh(tasks[k])
      ensures kind == if issue.number !in linked then Import else if force then Update else Skip
      ensures !dryRun ==> Rows() == SyncOne(old(Rows()), issue, force, texts)
      ensures dryRun ==> index == linked
      ensures kind == Skip ==> Rows() == old(Rows())
      ensures hasPlan == (old(hasPlan) || (kind == Import && !dryRun))
      ensures if kind == Import && !dryRun then |tasks| == |old(tasks)| + 1 else tasks == old(tasks)
    {
      hide Index, TopId, TopPriority;
      ghost var rows := Rows();
      IndexIsLinked(rows, issue.number);
      if issue.number in linked {
        if force && hasPlan {
          var found := UpdateLinked(issue);
          SameIndex(rows, Rows());
          return Update, linked;
        }
        return Skip, linked;
      }
      if dryRun {
        return Import, linked;
      }
      var task := ImportIssue(issue, texts);
      ImportedIndex(rows, Imported(rows, issue, texts));
      return Import, linked + {issue.number};
    }

    /** The loop over the listed issues, and its counts. */
    method SyncListed(issues: seq<Issue>, force: bool, dryRun: bool, texts: Texts)
        returns (imported: nat, updated: nat, skipped: nat)
      requires Valid()
      modifies this`hasPlan, this`tasks, tasks
      ensures Valid()
      ensures imported + updated + skipped == |issues|
      ensures if force then skipped == 0 else updated == 0
      ensures !dryRun ==> Rows() == SyncAll(old(Rows()), issues, force, texts) && |tasks| == |old(tasks)| + imported
      ensures hasPlan == (old(hasPlan) || (imported > 0 && !dryRun))
      ensures dryRun ==> tasks == old(tasks) && Index(Rows()) == Index(old(Rows()))
      ensures dryRun ==> imported == Outside(Index(old(Rows())), issues, |issues|)
    {
      hide Index, SyncOne;
      var linked := LinkIndex();
      imported, updated, skipped := 0, 0, 0;
      ghost var start := Rows();
      ghost var rows := start;
      var i := 0;
      while i < |issues|
        invariant 0 <= i <= |issues| && Valid()
        invariant |old(tasks)| <= |tasks| && forall k :: 0 <= k < |old(tasks)| ==> tasks[k] == old(tasks)[k]
        invariant forall k :: |old(tasks)| <= k < |tasks| ==> fresh(tasks[k])
        invariant hasPlan == (old(hasPlan) || (imported > 0 && !dryRun))
        invariant dryRun ==> tasks == old(tasks)
        invariant rows == Rows() && linked == Index(rows)
        invariant imported + updated + skipped == i
        invariant if force then skipped == 0 else updated == 0
        invariant !dryRun ==> rows == SyncTo(start, issues, i, force, texts)
        invariant !dryRun ==> |rows| == |start| + imported
        invariant dryRun ==> linked == Index(start) && imported == Outside(Index(start), issues, i)
      {
        var kind;
        kind, linked := SyncIssue(issues[i], linked, force, dryRun, texts);
        match kind {
          case Import => imported := imported + 1;
          case Update => updated := updated + 1;
          case Skip => skipped := skipped + 1;
        }
        rows := Rows();
        i := i + 1;
      }
      SyncToEnd(start, issues, force, texts);
    }

    /**
      The import: `answered` says whether the listing arrived.  A dry run may
      refresh tasks in memory, but neither adds one nor writes the state file.
    */
    method Sync(gh: GitHub, labels: set<string>, answered: bool, force: bool, dryRun: bool, texts: Texts)
        returns (r: SyncResult)
      requires Valid()
      modifies this, tasks
      ensures Valid()
      ensures r.Unreachable? <==> !answered
      ensures r.Unreachable? ==> Rows() == old(Rows()) && saved == old(saved) && hasPlan == old(hasPlan)
      ensures r.Synced? ==> r.imported + r.updated + r.skipped == |Listing(gh.remote, labels)|
      ensures r.Synced? && !dryRun ==>
        && Rows() == SyncAll(old(Rows()), Listing(gh.remote, labels), force, texts)
        && |Rows()| == |old(Rows())| + r.imported
        && (hasPlan <==> old(hasPlan) || r.imported > 0)
        && (if force then r.skipped == 0 else r.updated == 0)
      ensures r.Synced? && !dryRun && old(saved == Rows()) ==> saved == Rows()
      ensures r.Synced? && dryRun ==>
        && saved == old(saved) && tasks == old(tasks) && hasPlan == old(hasPlan)
        && Index(Rows()) == Index(old(Rows()))
        && r.imported == Outside(Index(old(Rows())), Listing(gh.remote, labels), |Listing(gh.remote, labels)|)
    {
      if !answered {
        return Unreachable;
      }
      hide SyncOne, SyncAll, Index, Listing, Outside, Imported, FirstLink, Updated;
      var issues := gh.ListIssues(labels);
      var imported, updated, skipped := SyncListed(issues, force, dryRun, texts);
      ghost var rows := Rows();
      if !dryRun && (imported > 0 || updated > 0) {
        saved := RowsOf(tasks);
        assert saved == rows == Rows();
      } else if !dryRun {
        UngrownIsUnchanged(old(Rows()), issues, texts);
      }
      return Synced(imported, updated, skipped);
    }

    /** What the push does with one task; `fetched` and `write` are the API's answers. */
    method PushTask(gh: GitHub, k: nat, done: bool, dryRun: bool, calls: Calls, texts: Texts, t: Tally) returns (u: Tally)
      requires Valid() && k < |tasks|
      modifies gh, tasks[k]
      ensures Valid()
      ensures !dryRun ==> Sides(Rows(), gh.remote, u) == PushOne(Sides(old(Rows()), old(gh.remote), t), k, done, calls, texts)
      ensures dryRun ==> Rows() == old(Rows()) && gh.remote == old(gh.remote)
      ensures dryRun ==> u == DryOne(t, old(Rows())[k], gh.remote, done, calls.fetched)
    {
      hide Remote.Created, Remote.Closed, Remote.Find, Closable;
      u := t;
      ghost var rows := Rows();
      var task := tasks[k];
      if task.issue == 0 {
        if dryRun {
          return t.(created := t.created + 1);
        }
        var number := gh.CreateIssue(task.title, texts.issueBody(task.Value()), texts.labels, calls.write);
        if number.Some? {
          task.issue := number.value;
          u := t.(created := t.created + 1);
          assert Rows() == rows[k := rows[k].(issue := number.value)];
        }
      } else if Closable(task.Value(), done) {
        if !calls.fetched || task.issue < 0 {
          return;
        }
        var issue := gh.remote.Find(task.issue);
        if issue.None? {
          return;
        }
        if !issue.value.open {
          u := t.(skipped := t.skipped + 1);
          return;
        }
        if dryRun {
          return t.(closed := t.closed + 1);
        }
        var ok := gh.CloseIssue(task.issue, calls.write);
        if ok {
          u := t.(closed := t.closed + 1);
        }
      } else {
        u := t.(skipped := t.skipped + 1);
      }
    }

    /**
      The export.  Without a plan it is an error; the state file is written when
      something was created or closed.
    */
    method Push(gh: GitHub, done: bool, dryRun: bool, calls: seq<Calls>, texts: Texts) returns (tally: Option<Tally>)
      requires Valid() && |calls| == |tasks|
      modifies this`saved, gh, tasks
      ensures Valid() && tasks == old(tasks)
      ensures tally.None? <==> tasks == []
      ensures tally.None? ==> gh.remote == old(gh.remote) && saved == old(saved)
      ensures tally.Some? && !dryRun ==>
        Sides(Rows(), gh.remote, tally.value) == GitHubSync.Push(old(Rows()), old(gh.remote), done, calls, texts)
      ensures tally.Some? && dryRun ==>
        && Rows() == old(Rows()) && gh.remote == old(gh.remote) && saved == old(saved)
        && tally.value == DryTo(old(Rows()), gh.remote, |tasks|, done, calls)
      ensures old(saved == Rows()) ==> saved == Rows()
    {
      if tasks == [] {
        return None;
      }
      hide PushOne, DryOne;
      ghost var start := Sides(Rows(), gh.remote, Tally(0, 0, 0));
      var t := Tally(0, 0, 0);
      var k := 0;
      while k < |tasks|
        invariant 0 <= k <= |tasks| && Valid() && tasks == old(tasks) && saved == old(saved)
        invariant !dryRun ==> Sides(Rows(), gh.remote, t) == PushTo(start, k, done, calls, texts)
        invariant dryRun ==> Rows() == start.rows && gh.remote == start.remote && t == DryTo(start.rows, start.remote, k, done, calls)
      {
        t := PushTask(gh, k, done, dryRun, calls[k], texts, t);
        k := k + 1;
      }
      if dryRun {
        return Some(t);
      }
      if t.created > 0 || t.closed > 0 {
        saved := RowsOf(tasks);
      } else {
        NothingCreated(start, k, done, calls, texts);
      }
      return Some(t);
    }

    /** The first task with this id. */
    method FindTask(id: int) returns (k: nat)
      ensures k <= |tasks|
      ensures k < |tasks| ==> tasks[k].id == id
      ensures forall j :: 0 <= j < k ==> tasks[j].id != id
    {
      k := 0;
      while k < |tasks|
        invariant 0 <= k <= |tasks|
        invariant forall j :: 0 <= j < k ==> tasks[j].id != id
      {
        if tasks[k].id == id {
          return;
        }
        k := k + 1;
      }
    }

    /** Links a task to an issue; `unlink` is the link to 0. */
    method Link(id: int, issue: int) returns (r: LinkResult)
      requires Valid()
      modifies this`saved, tasks
      ensures Valid() && tasks == old(tasks)
      ensures r == NoPlan <==> !hasPlan
      ensures r == NoSuchTask <==> hasPlan && forall j :: 0 <= j < |tasks| ==> old(Rows())[j].id != id
      ensures !r.Changed? ==> Rows() == old(Rows()) && saved == old(saved)
      ensures r.Changed? ==>
        && saved == Rows()
        && exists k :: 0 <= k < |tasks| && old(Rows())[k].id == id
             && (forall j :: 0 <= j < k ==> old(Rows())[j].id != id)
             && r.previous == old(Rows())[k].issue
             && Rows() == old(Rows())[k := old(Rows())[k].(issue := issue)]
    {
      if !hasPlan {
        return NoPlan;
      }
      var k := FindTask(id);
      if k == |tasks| {
        return NoSuchTask;
      }
      var previous := tasks[k].issue;
      ghost var rows := Rows();
      assert rows[k].id == id;
      tasks[k].issue := issue;
      assert Rows() == rows[k := rows[k].(issue := issue)];
      saved := RowsOf(tasks);
      return Changed(previous);
    }

    /** Linking a task and linking it back to what it was linked to is undone: unlink then undoes a first link. */
    method LinkAndBack(id: int, issue: int) returns (r: LinkResult)
      requires Valid()
      modifies this`saved, tasks
      ensures Rows() == old(Rows())
      ensures r.Changed? ==> saved == old(Rows())
    {
      r := Link(id, issue);
      if r.Changed? {
        ghost var linked := Rows();
        var back := Link(id, r.previous);
        assert Rows() == old(Rows());
      }
    }
  }

  // ------------------------------------------------------------- the index

  /** The positive issue numbers tasks are linked to. */
  function Index(rows: seq<Row>): set<int> {
    if rows == [] then {}
    else
      var last := rows[|rows| - 1].issue;
      Index(rows[..|rows| - 1]) + if last > 0 then {last} else {}
  }

  /** How many of the first k issues are not in an index. */
  function Outside(index: set<int>, issues: seq<Issue>, k: nat): nat
    requires k <= |issues|
  {
    if k == 0 then 0 else Outside(index, issues, k - 1) + if issues[k - 1].number in index then 0 else 1
  }

  /** The index finds exactly the linked issues, so a forced update always finds its task. */
  lemma {:induction false} IndexIsLinked(rows: seq<Row>, n: int)
    ensures n in Index(rows) <==> n > 0 && exists k :: 0 <= k < |rows| && rows[k].issue == n
    ensures n > 0 ==> (n in Index(rows) <==> FirstLink(rows, n) < |rows|)
  {
    if rows != [] {
      var m := |rows| - 1;
      IndexIsLinked(rows[..m], n);
      if k :| 0 <= k < |rows[..m]| && rows[..m][k].issue == n {
        assert rows[k].issue == n;
      }
      if k :| 0 <= k < |rows| && rows[k].issue == n {
        assert k < m ==> rows[..m][k].issue == n;
      }
    }
  }

  lemma ImportedIndex(rows: seq<Row>, row: Row)
    requires row.issue > 0
    ensures Index(rows + [row]) == Index(rows) + {row.issue}
  {
    assert (rows + [row])[..|rows|] == rows;
  }

  lemma {:induction false} SameIndex(a: seq<Row>, b: seq<Row>)
    requires |a| == |b| && forall i :: 0 <= i < |a| ==> a[i].issue == b[i].issue
    ensures Index(a) == Index(b)
  {
    if a != [] {
      SameIndex(a[..|a| - 1], b[..|b| - 1]);
    }
  }
}
