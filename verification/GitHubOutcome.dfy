/**
  What a push and a sync leave on either side, said of the tasks' statuses and
  texts: which issues are closed, what a new issue says, and what a new or
  refreshed task says.
*/
module GitHubOutcome {
  import opened Wrappers
  import opened GitHubSync
  import GitHubCommands

  // ------------------------------------------------------------------- push

  /** Some of the first k tasks is completed or skipped and linked to this issue. */
  predicate FinishedBy(rows: seq<Row>, k: nat, n: Number) {
    exists i :: 0 <= i < k && i < |rows| && rows[i].issue == n && rows[i].status in {Completed, Status.Skipped}
  }

  /** An issue stays as it was or is closed, and only for a finished task linked to it. */
  predicate AtMostClosed(before: Issue, after: Issue, rows: seq<Row>, k: nat, done: bool) {
    after == before || (after == before.(open := false) && done && FinishedBy(rows, k, before.number))
  }

  lemma FinishedMore(rows: seq<Row>, k: nat, n: Number)
    requires k < |rows|
    ensures FinishedBy(rows, k + 1, n) <==> FinishedBy(rows, k, n) || (rows[k].issue == n && rows[k].status in {Completed, Status.Skipped})
  {
    if FinishedBy(rows, k, n) {
      var i :| 0 <= i < k && i < |rows| && rows[i].issue == n && rows[i].status in {Completed, Status.Skipped};
      assert 0 <= i < k + 1;
    }
  }

  /** Pushing one task touches at most its own issue. */
  lemma PushOneCloses(u: Sides, k: nat, done: bool, calls: Calls, texts: Texts, x: nat)
    requires k < |u.rows| && u.remote.Valid() && x < |u.remote.entries|
    ensures var t := PushOne(u, k, done, calls, texts).remote;
            var e := u.remote.entries[x];
            var closes := done && u.rows[k].issue == e.number && u.rows[k].status in {Completed, Status.Skipped};
            && x < |t.entries|
            && (t.entries[x] == e || (closes && t.entries[x] == e.(open := false)))
            && (calls == SMOOTH && closes ==> !t.entries[x].open)
  {
    var row := u.rows[k];
    if row.issue > 0 {
      OnlyEntry(u.remote, row.issue);
      assert u.remote.entries[x] in u.remote.entries;
    }
  }

  /**
    Whatever the API answers, of the issues there were a push with --done closes
    only those of tasks completed or skipped, and one without closes none; with
    every call answered it leaves open exactly the open ones of no such task.
  */
  lemma {:induction false} PushClosesIff(s: Sides, k: nat, done: bool, calls: seq<Calls>, texts: Texts, x: nat)
    requires k <= |s.rows| && |calls| == |s.rows| && s.remote.Valid() && x < |s.remote.entries|
    ensures var t := PushTo(s, k, done, calls, texts).remote;
            var e := s.remote.entries[x];
            && x < |t.entries| && AtMostClosed(e, t.entries[x], s.rows, k, done)
            && (Smooth(calls) ==> (t.entries[x].open <==> e.open && !(done && FinishedBy(s.rows, k, e.number))))
  {
    hide PushOne, FinishedBy;
    if k == 0 {
      assert !FinishedBy(s.rows, 0, s.remote.entries[x].number) by { NobodyFinished(s.rows, s.remote.entries[x].number); }
    } else {
      PushClosesIff(s, k - 1, done, calls, texts, x);
      PushKeeps(s, k - 1, done, calls, texts);
      PushOneCloses(PushTo(s, k - 1, done, calls, texts), k - 1, done, calls[k - 1], texts, x);
      FinishedMore(s.rows, k - 1, s.remote.entries[x].number);
    }
  }

  lemma NobodyFinished(rows: seq<Row>, n: Number)
    ensures !FinishedBy(rows, 0, n)
  {
  }

  /** What the issue a task was given says. */
  predicate SaysTask(e: Issue, row: Row, texts: Texts) {
    e.title == row.title && e.body == texts.issueBody(row) && e.labels == texts.labels && !e.pull
  }

  /** The repository has an issue of this number that says the task. */
  predicate HasTask(entries: seq<Issue>, n: int, row: Row, texts: Texts) {
    exists x :: 0 <= x < |entries| && entries[x].number == n && SaysTask(entries[x], row, texts)
  }

  lemma HasTaskStill(a: Remote, b: Remote, n: int, row: Row, texts: Texts)
    requires Grown(a, b) && HasTask(a.entries, n, row, texts)
    ensures HasTask(b.entries, n, row, texts)
  {
    var x :| 0 <= x < |a.entries| && a.entries[x].number == n && SaysTask(a.entries[x], row, texts);
    assert b.entries[x].number == n && SaysTask(b.entries[x], row, texts);
  }

  lemma PushOneSays(u: Sides, k: nat, done: bool, calls: Calls, texts: Texts)
    requires k < |u.rows| && u.rows[k].issue == 0
    ensures var t := PushOne(u, k, done, calls, texts);
            && (t.rows[k].issue != 0 ==> HasTask(t.remote.entries, t.rows[k].issue, u.rows[k], texts))
            && (calls.write == Acked ==> t.rows[k].issue == u.remote.next)
  {
    var t := PushOne(u, k, done, calls, texts);
    if calls.write == Acked {
      assert t.remote.entries[|u.remote.entries|].number == u.remote.next && SaysTask(t.remote.entries[|u.remote.entries|], u.rows[k], texts);
    }
  }

  /** A task without an issue is given one exactly when the reply arrives, and it says that task: its title and text, under the configured labels. */
  lemma {:induction false} PushedIssueSaysTask(s: Sides, k: nat, done: bool, calls: seq<Calls>, texts: Texts, i: nat)
    requires k <= |s.rows| && |calls| == |s.rows| && s.remote.Valid() && i < k && s.rows[i].issue == 0
    ensures var t := PushTo(s, k, done, calls, texts);
            && (t.rows[i].issue != 0 <==> calls[i].write == Acked)
            && (t.rows[i].issue != 0 ==> HasTask(t.remote.entries, t.rows[i].issue, s.rows[i], texts))
  {
    hide PushOne, SaysTask, HasTask, Grown;
    var u := PushTo(s, k - 1, done, calls, texts);
    PushKeeps(s, k - 1, done, calls, texts);
    PushOneKeeps(u, k - 1, done, calls[k - 1], texts);
    var t := PushOne(u, k - 1, done, calls[k - 1], texts);
    if i == k - 1 {
      PushOneSays(u, i, done, calls[i], texts);
      if calls[i].write != Acked {
        UnansweredStays(u, i, done, calls[i], texts);
      }
    } else {
      PushedIssueSaysTask(s, k - 1, done, calls, texts, i);
      if t.rows[i].issue != 0 {
        HasTaskStill(u.remote, t.remote, t.rows[i].issue, s.rows[i], texts);
      }
    }
  }

  lemma UnansweredStays(u: Sides, k: nat, done: bool, calls: Calls, texts: Texts)
    requires k < |u.rows| && u.rows[k].issue == 0 && calls.write != Acked
    ensures PushOne(u, k, done, calls, texts).rows == u.rows
  {
  }

  /** Open entries. */
  function OpenCount(entries: seq<Issue>): nat {
    if entries == [] then 0 else OpenCount(entries[..|entries| - 1]) + if entries[|entries| - 1].open then 1 else 0
  }

  lemma {:induction false} OneClosed(a: seq<Issue>, b: seq<Issue>, x: nat)
    requires |a| == |b| && x < |a| && a[x].open && !b[x].open
    requires forall i :: 0 <= i < |a| && i != x ==> b[i].open == a[i].open
    ensures OpenCount(b) == OpenCount(a) - 1
  {
    var n := |a| - 1;
    if x == n {
      SameOpen(a[..n], b[..n]);
    } else {
      OneClosed(a[..n], b[..n], x);
    }
  }

  lemma {:induction false} SameOpen(a: seq<Issue>, b: seq<Issue>)
    requires |a| == |b| && forall i :: 0 <= i < |a| ==> b[i].open == a[i].open
    ensures OpenCount(b) == OpenCount(a)
  {
    if a != [] {
      SameOpen(a[..|a| - 1], b[..|b| - 1]);
    }
  }

  lemma PushOneTallies(u: Sides, k: nat, done: bool, texts: Texts)
    requires k < |u.rows| && u.remote.Valid()
    ensures var t := PushOne(u, k, done, SMOOTH, texts);
            && OpenCount(t.remote.entries) == OpenCount(u.remote.entries) + (t.tally.created - u.tally.created) - (t.tally.closed - u.tally.closed)
            && t.tally.created >= u.tally.created && t.tally.closed >= u.tally.closed && t.tally.skipped >= u.tally.skipped
            && var counted := t.tally.created + t.tally.closed + t.tally.skipped - (u.tally.created + u.tally.closed + u.tally.skipped);
               counted == if t.remote == u.remote && t.tally == u.tally then 0 else 1
    ensures var row := u.rows[k];
            PushOne(u, k, done, SMOOTH, texts).tally == u.tally <==>
              done && row.status in {Completed, Status.Skipped} && row.issue != 0 && (row.issue < 0 || u.remote.Find(row.issue).None?)
  {
    hide OpenCount;
    var row := u.rows[k];
    var t := PushOne(u, k, done, SMOOTH, texts);
    if row.issue == 0 {
      assert t.remote.entries[..|u.remote.entries|] == u.remote.entries;
      OpenOneMore(u.remote.entries, t.remote.entries[|u.remote.entries|]);
    } else if t.tally.closed > u.tally.closed {
      var e := u.remote.Find(row.issue).value;
      var x :| 0 <= x < |u.remote.entries| && u.remote.entries[x] == e;
      OneClosed(u.remote.entries, t.remote.entries, x);
    }
  }

  lemma OpenOneMore(entries: seq<Issue>, e: Issue)
    requires e.open
    ensures OpenCount(entries + [e]) == OpenCount(entries) + 1
  {
    assert (entries + [e])[..|entries|] == entries;
  }

  /** Tasks linked to an entry the repository has, or to nothing. */
  ghost predicate LinksFound(rows: seq<Row>, remote: Remote) {
    forall i :: 0 <= i < |rows| && rows[i].issue != 0 ==> rows[i].issue > 0 && remote.Find(rows[i].issue).Some?
  }

  lemma FoundStill(a: Remote, b: Remote, n: Number)
    requires Grown(a, b) && a.Find(n).Some?
    ensures b.Find(n).Some?
  {
    var x :| 0 <= x < |a.entries| && a.entries[x] == a.Find(n).value;
    assert b.entries[x].number == n;
  }

  /** With every call answered the open issues are those there were, and those created, less those closed; and if every link is to an entry there is, each task is counted once. */
  lemma {:induction false} PushTallies(s: Sides, k: nat, done: bool, calls: seq<Calls>, texts: Texts)
    requires k <= |s.rows| && |calls| == |s.rows| && s.remote.Valid() && Smooth(calls) && s.tally == Tally(0, 0, 0)
    ensures var t := PushTo(s, k, done, calls, texts);
            && OpenCount(t.remote.entries) == OpenCount(s.remote.entries) + t.tally.created - t.tally.closed
            && (LinksFound(s.rows, s.remote) ==> t.tally.created + t.tally.closed + t.tally.skipped == k)
  {
    hide PushOne, OpenCount, Grown, Remote.Find;
    if k > 0 {
      var u := PushTo(s, k - 1, done, calls, texts);
      PushTallies(s, k - 1, done, calls, texts);
      PushKeeps(s, k - 1, done, calls, texts);
      PushOneTallies(u, k - 1, done, texts);
      if LinksFound(s.rows, s.remote) && s.rows[k - 1].issue != 0 {
        FoundStill(s.remote, u.remote, s.rows[k - 1].issue);
      }
    }
  }

  // ------------------------------------------------------------------- sync

  /** A task as an import leaves it: pending, with the issue's title, the texts made of it and its number, above every task before it. */
  predicate NewTask(row: Row, issue: Issue, texts: Texts) {
    && row.status == Pending && row.issue == issue.number
    && row.title == issue.title && row.description == texts.taskText(issue) && row.role == texts.role(issue.labels)
  }

  /** From a place on there is a task as an import leaves it. */
  predicate HasNew(rows: seq<Row>, from: nat, issue: Issue, texts: Texts) {
    exists k :: from <= k < |rows| && NewTask(rows[k], issue, texts)
  }

  /** Title and description taken from the issue, the description only if it has a body; the rest as it was. */
  predicate BroughtUp(before: Row, after: Row, issue: Issue) {
    && after.title == issue.title
    && after.description == (if issue.body == "" then before.description else issue.body)
    && after.(title := before.title, description := before.description) == before
  }

  /** The first task linked to the issue before the sync. */
  predicate FirstOf(rows: seq<Row>, k: nat, n: Number) {
    k < |rows| && rows[k].issue == n && forall j :: 0 <= j < k ==> rows[j].issue != n
  }

  lemma {:induction false} TaskStays(rows: seq<Row>, issues: seq<Issue>, force: bool, texts: Texts, k: nat)
    requires k < |rows| && (!force || forall i :: 0 <= i < |issues| ==> !FirstOf(rows, k, issues[i].number))
    ensures var after := SyncAll(rows, issues, force, texts); k < |after| && after[k] == rows[k]
    decreases |issues|
  {
    if issues != [] {
      var one := SyncOne(rows, issues[0], force, texts);
      SyncOneLinks(rows, issues[0], force, texts, 1);
      forall i | 0 <= i < |issues[1..]| && force ensures !FirstOf(one, k, issues[1..][i].number) {
        assert !FirstOf(rows, k, issues[i + 1].number);
        assert forall j :: 0 <= j < |rows| ==> one[j].issue == rows[j].issue;
      }
      assert !force || !FirstOf(rows, k, issues[0].number);
      TaskStays(one, issues[1..], force, texts, k);
    }
  }

  lemma FirstIssueSaid(rows: seq<Row>, issues: seq<Issue>, force: bool, texts: Texts)
    requires DistinctNumbers(issues) && issues != []
    ensures var after := SyncAll(rows, issues, force, texts);
            && (!Linked(rows, issues[0].number) ==> HasNew(after, |rows|, issues[0], texts))
            && (force ==> forall k: nat :: FirstOf(rows, k, issues[0].number) ==> k < |after| && BroughtUp(rows[k], after[k], issues[0]))
  {
    hide SyncAll, TopId, TopPriority;
    var one := SyncOne(rows, issues[0], force, texts);
    var after := SyncAll(rows, issues, force, texts);
    assert after == SyncAll(one, issues[1..], force, texts) by { SyncAllTakes(rows, issues, force, texts); }
    forall k: nat | k < |one| && one[k].issue == issues[0].number ensures k < |after| && after[k] == one[k] {
      TaskStays(one, issues[1..], force, texts, k);
    }
    if !Linked(rows, issues[0].number) {
      assert FirstLink(rows, issues[0].number) == |rows|;
      assert one[|rows|].issue == issues[0].number;
      assert NewTask(after[|rows|], issues[0], texts);
    }
    forall k: nat | force && FirstOf(rows, k, issues[0].number) ensures k < |after| && BroughtUp(rows[k], after[k], issues[0]) {
      FirstLinkIs(rows, issues[0].number, k);
      assert one[k] == Refresh(rows[k], issues[0]);
    }
  }

  lemma SyncAllTakes(rows: seq<Row>, issues: seq<Issue>, force: bool, texts: Texts)
    requires issues != []
    ensures SyncAll(rows, issues, force, texts) == SyncAll(SyncOne(rows, issues[0], force, texts), issues[1..], force, texts)
  {
  }

  lemma FirstStays(rows: seq<Row>, issue: Issue, force: bool, texts: Texts, n: Number, k: nat)
    requires n != issue.number && FirstOf(rows, k, n)
    ensures var one := SyncOne(rows, issue, force, texts); k < |one| && FirstOf(one, k, n) && one[k] == rows[k]
  {
  }

  /**
    What a sync does for one listed issue: without a task it gets a new one;
    with one, a forced sync brings the first of them up to it.
  */
  lemma {:induction false} SyncSaysIssue(rows: seq<Row>, issues: seq<Issue>, force: bool, texts: Texts, i: nat)
    requires DistinctNumbers(issues) && i < |issues|
    ensures var after := SyncAll(rows, issues, force, texts);
            && (!Linked(rows, issues[i].number) ==> HasNew(after, |rows|, issues[i], texts))
            && (force ==> forall k: nat :: FirstOf(rows, k, issues[i].number) ==> k < |after| && BroughtUp(rows[k], after[k], issues[i]))
    decreases |issues|
  {
    hide SyncAll, SyncOne, NewTask;
    if i == 0 {
      FirstIssueSaid(rows, issues, force, texts);
    } else {
      var one := SyncOne(rows, issues[0], force, texts);
      SyncAllTakes(rows, issues, force, texts);
      SyncSaysIssue(one, issues[1..], force, texts, i - 1);
      LinkedSame(rows, issues[0], force, texts, issues[i].number);
      assert issues[1..][i - 1] == issues[i];
      forall k: nat | FirstOf(rows, k, issues[i].number) ensures k < |one| && FirstOf(one, k, issues[i].number) && one[k] == rows[k] {
        FirstStays(rows, issues[0], force, texts, issues[i].number, k);
      }
    }
  }

  lemma LinkedSame(rows: seq<Row>, issue: Issue, force: bool, texts: Texts, n: Number)
    requires n != issue.number
    ensures Linked(SyncOne(rows, issue, force, texts), n) <==> Linked(rows, n)
  {
    SyncOneLinks(rows, issue, force, texts, n);
  }

  /** And every task a sync adds is a new task of some listed issue that had none. */
  lemma {:induction false} AddedAreImports(rows: seq<Row>, issues: seq<Issue>, force: bool, texts: Texts, k: nat)
    requires DistinctNumbers(issues)
    requires |rows| <= k < |SyncAll(rows, issues, force, texts)|
    ensures exists i :: 0 <= i < |issues| && !Linked(rows, issues[i].number) && NewTask(SyncAll(rows, issues, force, texts)[k], issues[i], texts)
    decreases |issues|
  {
    var one := SyncOne(rows, issues[0], force, texts);
    var after := SyncAll(rows, issues, force, texts);
    if k < |one| {
      SyncSaysIssue(rows, issues, force, texts, 0);
      TaskStays(one, issues[1..], force, texts, k);
      assert NewTask(after[k], issues[0], texts);
      assert FirstLink(rows, issues[0].number) == |rows|;
    } else {
      AddedAreImports(one, issues[1..], force, texts, k);
      var i :| 0 <= i < |issues[1..]| && !Linked(one, issues[1..][i].number) && NewTask(after[k], issues[1..][i], texts);
      LinkedSame(rows, issues[0], force, texts, issues[i + 1].number);
      assert NewTask(after[k], issues[i + 1], texts);
    }
  }

  /** The listing: an open issue that carries each label asked for, and is no pull request. */
  lemma ListedAsAsked(remote: Remote, labels: set<string>, i: Issue)
    requires remote.Valid() && i in remote.entries
    ensures i in Listing(remote, labels) ==> i.open && !i.pull && forall l :: l in labels ==> l in i.labels
    ensures i.open && !i.pull && (forall l :: l in labels ==> l in i.labels) && |remote.entries| <= PAGE ==> i in Listing(remote, labels)
  {
    ListingDistinct(remote, labels);
    WithoutPullsHolds(FirstPage(Matching(remote.entries, labels)), i);
  }

  lemma {:induction false} SyncToLinks(rows: seq<Row>, issues: seq<Issue>, k: nat, force: bool, texts: Texts, n: Number)
    requires k <= |issues| && forall i :: 0 <= i < k ==> issues[i].number != n
    ensures Linked(SyncTo(rows, issues, k, force, texts), n) <==> Linked(rows, n)
  {
    if k > 0 {
      SyncToLinks(rows, issues, k - 1, force, texts, n);
      LinkedSame(SyncTo(rows, issues, k - 1, force, texts), issues[k - 1], force, texts, n);
    }
  }

  lemma SyncOneGrows(rows: seq<Row>, issue: Issue, force: bool, texts: Texts)
    ensures |SyncOne(rows, issue, force, texts)| == |rows| + if Linked(rows, issue.number) then 0 else 1
  {
    assert FirstLink(rows, issue.number) < |rows| <==> Linked(rows, issue.number);
  }

  lemma {:induction false} SyncToGrows(rows: seq<Row>, issues: seq<Issue>, k: nat, force: bool, texts: Texts)
    requires k <= |issues| && DistinctNumbers(issues)
    ensures |SyncTo(rows, issues, k, force, texts)| == |rows| + GitHubCommands.Outside(GitHubCommands.Index(rows), issues, k)
  {
    hide SyncOne, GitHubCommands.Index;
    if k > 0 {
      SyncToGrows(rows, issues, k - 1, force, texts);
      SyncToLinks(rows, issues, k - 1, force, texts, issues[k - 1].number);
      GitHubCommands.IndexIsLinked(rows, issues[k - 1].number);
      SyncOneGrows(SyncTo(rows, issues, k - 1, force, texts), issues[k - 1], force, texts);
    }
  }

  /** A dry run of a sync, which counts the listed issues the index does not have, tells how many tasks the sync adds. */
  lemma DryRunTellsImports(rows: seq<Row>, remote: Remote, labels: set<string>, force: bool, texts: Texts)
    requires remote.Valid()
    ensures var issues := Listing(remote, labels);
            |SyncAll(rows, issues, force, texts)| == |rows| + GitHubCommands.Outside(GitHubCommands.Index(rows), issues, |issues|)
  {
    var issues := Listing(remote, labels);
    ListingDistinct(remote, labels);
    SyncToGrows(rows, issues, |issues|, force, texts);
    SyncToEnd(rows, issues, force, texts);
  }

  lemma {:induction false} TopIsReached(rows: seq<Row>)
    ensures TopId(rows) == 0 || exists k :: 0 <= k < |rows| && rows[k].id == TopId(rows)
    ensures TopPriority(rows) == 0 || exists k :: 0 <= k < |rows| && rows[k].priority == TopPriority(rows)
  {
    if rows != [] {
      var n := |rows| - 1;
      TopIsReached(rows[..n]);
      if k :| 0 <= k < |rows[..n]| && rows[..n][k].id == TopId(rows[..n]) {
        assert rows[k].id == TopId(rows[..n]);
      }
      if k :| 0 <= k < |rows[..n]| && rows[..n][k].priority == TopPriority(rows[..n]) {
        assert rows[k].priority == TopPriority(rows[..n]);
      }
      assert rows[n].id == rows[n].id;
    }
  }

  lemma {:induction false} SameTop(a: seq<Row>, b: seq<Row>)
    requires |a| == |b| && forall k :: 0 <= k < |a| ==> a[k].id == b[k].id && a[k].priority == b[k].priority
    ensures TopId(a) == TopId(b) && TopPriority(a) == TopPriority(b)
  {
    if a != [] {
      SameTop(a[..|a| - 1], b[..|b| - 1]);
    }
  }

  /** The tasks a sync adds are numbered on from the largest id there was, one by one, and ranked below every priority in the same way. */
  lemma {:induction false} AddedAreNumbered(rows: seq<Row>, issues: seq<Issue>, force: bool, texts: Texts, k: nat)
    requires |rows| <= k < |SyncAll(rows, issues, force, texts)|
    ensures var after := SyncAll(rows, issues, force, texts);
            && after[k].id == TopId(rows) + 1 + (k - |rows|)
            && after[k].priority == TopPriority(rows) + 1 + (k - |rows|)
    decreases |issues|
  {
    hide TopId, TopPriority;
    var one := SyncOne(rows, issues[0], force, texts);
    SyncOneLinks(rows, issues[0], force, texts, 1);
    if |one| == |rows| {
      SameTop(rows, one);
      AddedAreNumbered(one, issues[1..], force, texts, k);
    } else {
      TopSnoc(rows, one[|rows|]);
      if k > |rows| {
        AddedAreNumbered(one, issues[1..], force, texts, k);
      } else {
        SyncLinksOnce(one, issues[1..], force, texts, 1);
      }
    }
  }

  lemma TopSnoc(rows: seq<Row>, row: Row)
    ensures TopId(rows + [row]) == Max(TopId(rows), row.id) && TopPriority(rows + [row]) == Max(TopPriority(rows), row.priority)
  {
    assert (rows + [row])[..|rows|] == rows;
  }
}
