/**
  Two-way sync between a plan's tasks and a repository's issues, as functions
  of the two sides.  GitHubCommands holds the commands that mutate tasks and
  call the API; here is what they compute and what any sequence of them does.
*/
module GitHubSync {
  import opened Wrappers

  /** GitHub numbers issues and pull requests from 1. */
  type Number = n: int | n > 0 witness 1

  datatype Status = Pending | InProgress | Completed | Failed | Skipped

  /** A task as it stands: `issue` is 0 while it is linked to nothing. */
  datatype Row = Row(id: int, title: string, description: string, priority: int, status: Status, role: string, issue: int)

  datatype Issue = Issue(number: Number, title: string, body: string, labels: seq<string>, pull: bool, open: bool)

  /** A repository's issues and pull requests, oldest first, and the number the next one gets. */
  datatype Remote = Remote(entries: seq<Issue>, next: Number) {
    ghost predicate Valid() {
      && (forall i :: 0 <= i < |entries| ==> entries[i].number < next)
      && forall i, j :: 0 <= i < j < |entries| ==> entries[i].number < entries[j].number
    }

    /** Opening an issue. */
    function Created(title: string, body: string, labels: seq<string>): Remote {
      Remote(entries + [Issue(next, title, body, labels, false, true)], next + 1)
    }

    function Closed(n: Number): Remote {
      this.(entries := seq(|entries|, i requires 0 <= i < |entries| =>
        if entries[i].number == n then entries[i].(open := false) else entries[i]))
    }

    /** The entry with this number, if there is one. */
    function Find(n: Number): (r: Option<Issue>)
      ensures r.Some? ==> r.value in entries && r.value.number == n
      ensures r.None? ==> forall i :: 0 <= i < |entries| ==> entries[i].number != n
    {
      FindIn(entries, n)
    }
  }

  function FindIn(entries: seq<Issue>, n: Number): (r: Option<Issue>)
    ensures r.Some? ==> r.value in entries && r.value.number == n
    ensures r.None? ==> forall i :: 0 <= i < |entries| ==> entries[i].number != n
  {
    if entries == [] then None
    else if entries[0].number == n then Some(entries[0])
    else FindIn(entries[1..], n)
  }

  /** The texts a sync builds out of an issue, and a push out of a task. */
  datatype Texts = Texts(taskText: Issue -> string, role: seq<string> -> string, issueBody: Row -> string, labels: seq<string>)

  // ---------------------------------------------------------------- listing

  const PAGE := 100

  predicate Wanted(i: Issue, labels: set<string>) {
    i.open && forall l :: l in labels ==> l in i.labels
  }

  /** What the issues endpoint holds for a filter, newest first; pull requests are among it. */
  function Matching(entries: seq<Issue>, labels: set<string>): (r: seq<Issue>)
    ensures |r| <= |entries|
    ensures forall i :: i in r <==> i in entries && Wanted(i, labels)
    decreases |entries|
  {
    if entries == [] then []
    else
      var last := entries[|entries| - 1];
      (if Wanted(last, labels) then [last] else []) + Matching(entries[..|entries| - 1], labels)
  }

  function WithoutPulls(page: seq<Issue>): seq<Issue> {
    if page == [] then []
    else (if page[0].pull then [] else [page[0]]) + WithoutPulls(page[1..])
  }

  lemma {:induction false} WithoutPullsHolds(page: seq<Issue>, i: Issue)
    ensures i in WithoutPulls(page) <==> i in page && !i.pull
  {
    if page != [] {
      WithoutPullsHolds(page[1..], i);
    }
  }

  function FirstPage(all: seq<Issue>): seq<Issue> {
    if |all| <= PAGE then all else all[..PAGE]
  }

  /** One page is read, and pull requests are dropped from it afterwards. */
  function Listing(remote: Remote, labels: set<string>): seq<Issue> {
    WithoutPulls(FirstPage(Matching(remote.entries, labels)))
  }

  ghost predicate DistinctNumbers(issues: seq<Issue>) {
    forall i, j :: 0 <= i < j < |issues| ==> issues[i].number != issues[j].number
  }

  ghost predicate Descending(issues: seq<Issue>) {
    forall i, j :: 0 <= i < j < |issues| ==> issues[i].number > issues[j].number
  }

  lemma {:induction false} MatchingDescends(entries: seq<Issue>, labels: set<string>)
    requires forall i, j :: 0 <= i < j < |entries| ==> entries[i].number < entries[j].number
    ensures Descending(Matching(entries, labels))
    decreases |entries|
  {
    if entries != [] {
      var k := |entries| - 1;
      MatchingDescends(entries[..k], labels);
      var rest := Matching(entries[..k], labels);
      forall j | 0 <= j < |rest| ensures rest[j].number < entries[k].number {
        assert rest[j] in entries[..k];
      }
    }
  }

  lemma {:induction false} WithoutPullsDescends(page: seq<Issue>)
    requires Descending(page)
    ensures Descending(WithoutPulls(page))
  {
    if page != [] {
      WithoutPullsDescends(page[1..]);
      var rest := WithoutPulls(page[1..]);
      forall j | 0 <= j < |rest| ensures rest[j].number < page[0].number {
        WithoutPullsHolds(page[1..], rest[j]);
      }
    }
  }

  lemma ListingDistinct(remote: Remote, labels: set<string>)
    requires remote.Valid()
    ensures DistinctNumbers(Listing(remote, labels))
    ensures forall i :: i in Listing(remote, labels) ==> i in remote.entries && Wanted(i, labels) && !i.pull
  {
    MatchingDescends(remote.entries, labels);
    var all := Matching(remote.entries, labels);
    WithoutPullsDescends(FirstPage(all));
    forall i | i in Listing(remote, labels) ensures i in remote.entries && Wanted(i, labels) && !i.pull {
      WithoutPullsHolds(FirstPage(all), i);
      assert i in all;
    }
  }

  /** Wanted entries newer than a number; pull requests count. */
  function Newer(entries: seq<Issue>, labels: set<string>, n: Number): nat
    decreases |entries|
  {
    if entries == [] then 0
    else
      var last := entries[|entries| - 1];
      Newer(entries[..|entries| - 1], labels, n) + if Wanted(last, labels) && last.number > n then 1 else 0
  }

  lemma {:induction false} NoneNewer(entries: seq<Issue>, labels: set<string>, n: Number)
    requires forall i :: 0 <= i < |entries| ==> entries[i].number <= n
    ensures Newer(entries, labels, n) == 0
    decreases |entries|
  {
    if entries != [] {
      NoneNewer(entries[..|entries| - 1], labels, n);
    }
  }

  /** The place of an entry in the listing before it is cut is the number of wanted entries newer than it. */
  lemma {:induction false} PlaceIsNewer(entries: seq<Issue>, labels: set<string>, k: nat)
    requires forall i, j :: 0 <= i < j < |entries| ==> entries[i].number < entries[j].number
    requires k < |Matching(entries, labels)|
    ensures Newer(entries, labels, Matching(entries, labels)[k].number) == k
    decreases |entries|
  {
    var last, front := entries[|entries| - 1], entries[..|entries| - 1];
    if Wanted(last, labels) {
      if k == 0 {
        NoneNewer(front, labels, last.number);
      } else {
        PlaceIsNewer(front, labels, k - 1);
        assert Matching(entries, labels)[k] == Matching(front, labels)[k - 1];
        assert Matching(front, labels)[k - 1] in front;
      }
    } else {
      PlaceIsNewer(front, labels, k);
    }
  }

  predicate Lists(issues: seq<Issue>, n: Number) {
    exists i :: 0 <= i < |issues| && issues[i].number == n
  }

  /** An open issue is listed exactly when fewer than a page of wanted entries are newer than it. */
  lemma ListedIff(remote: Remote, labels: set<string>, i: Issue)
    requires remote.Valid() && i in remote.entries && Wanted(i, labels) && !i.pull
    ensures Lists(Listing(remote, labels), i.number) <==> Newer(remote.entries, labels, i.number) < PAGE
  {
    var all := Matching(remote.entries, labels);
    var page := FirstPage(all);
    assert i in all;
    var k :| 0 <= k < |all| && all[k] == i;
    PlaceIsNewer(remote.entries, labels, k);
    MatchingDescends(remote.entries, labels);
    if k < PAGE {
      assert page[k] == i;
      WithoutPullsHolds(page, i);
    } else {
      forall x | x in Listing(remote, labels) ensures x.number != i.number {
        WithoutPullsHolds(page, x);
        var j :| 0 <= j < |page| && page[j] == x;
        assert all[j].number > all[k].number;
      }
    }
  }

  // ------------------------------------------------------------------- sync

  /** Where the first task linked to an issue stands; |rows| when there is none. */
  function FirstLink(rows: seq<Row>, n: Number): (k: nat)
    ensures k <= |rows|
    ensures k < |rows| ==> rows[k].issue == n
    ensures forall j :: 0 <= j < k ==> rows[j].issue != n
  {
    if rows == [] then 0
    else if rows[0].issue == n then 0
    else 1 + FirstLink(rows[1..], n)
  }

  lemma FirstLinkIs(rows: seq<Row>, n: Number, k: nat)
    requires k < |rows| && rows[k].issue == n
    requires forall j :: 0 <= j < k ==> rows[j].issue != n
    ensures FirstLink(rows, n) == k
  {
    assert rows[k].issue == n;
  }

  predicate Linked(rows: seq<Row>, n: Number) {
    exists k :: 0 <= k < |rows| && rows[k].issue == n
  }

  function Max(a: int, b: int): int {
    if a < b then b else a
  }

  /** The largest of 0 and every task's id. */
  function TopId(rows: seq<Row>): (m: int)
    ensures m >= 0
  {
    if rows == [] then 0 else Max(TopId(rows[..|rows| - 1]), rows[|rows| - 1].id)
  }

  /** The largest of 0 and every task's priority. */
  function TopPriority(rows: seq<Row>): (m: int)
    ensures m >= 0
  {
    if rows == [] then 0 else Max(TopPriority(rows[..|rows| - 1]), rows[|rows| - 1].priority)
  }

  lemma {:induction false} TopIsAbove(rows: seq<Row>, k: nat)
    requires k < |rows|
    ensures rows[k].id <= TopId(rows) && rows[k].priority <= TopPriority(rows)
  {
    if k < |rows| - 1 {
      TopIsAbove(rows[..|rows| - 1], k);
    }
  }

  /** A linked task brought up to its issue; an empty body keeps the description. */
  function Refresh(row: Row, issue: Issue): Row {
    row.(title := issue.title, description := if issue.body != "" then issue.body else row.description)
  }

  /** The first task linked to the issue, brought up to it. */
  function Updated(rows: seq<Row>, issue: Issue): seq<Row>
    requires FirstLink(rows, issue.number) < |rows|
  {
    var k := FirstLink(rows, issue.number);
    rows[k := Refresh(rows[k], issue)]
  }

  function Imported(rows: seq<Row>, issue: Issue, texts: Texts): Row {
    Row(TopId(rows) + 1, issue.title, texts.taskText(issue), TopPriority(rows) + 1, Pending,
        texts.role(issue.labels), issue.number)
  }

  function SyncOne(rows: seq<Row>, issue: Issue, force: bool, texts: Texts): (r: seq<Row>)
    ensures |rows| <= |r| <= |rows| + 1
  {
    var k := FirstLink(rows, issue.number);
    if k == |rows| then rows + [Imported(rows, issue, texts)]
    else if force then Updated(rows, issue)
    else rows
  }

  function SyncAll(rows: seq<Row>, issues: seq<Issue>, force: bool, texts: Texts): seq<Row>
    decreases |issues|
  {
    if issues == [] then rows else SyncAll(SyncOne(rows, issues[0], force, texts), issues[1..], force, texts)
  }

  /** The first k issues, as the loop takes them. */
  function SyncTo(rows: seq<Row>, issues: seq<Issue>, k: nat, force: bool, texts: Texts): seq<Row>
    requires k <= |issues|
  {
    if k == 0 then rows else SyncOne(SyncTo(rows, issues, k - 1, force, texts), issues[k - 1], force, texts)
  }

  lemma {:induction false} SyncToShift(rows: seq<Row>, issues: seq<Issue>, k: nat, force: bool, texts: Texts)
    requires k < |issues|
    ensures SyncTo(SyncOne(rows, issues[0], force, texts), issues[1..], k, force, texts) == SyncTo(rows, issues, k + 1, force, texts)
  {
    if k > 0 {
      SyncToShift(rows, issues, k - 1, force, texts);
    }
  }

  lemma {:induction false} SyncToEnd(rows: seq<Row>, issues: seq<Issue>, force: bool, texts: Texts)
    ensures SyncTo(rows, issues, |issues|, force, texts) == SyncAll(rows, issues, force, texts)
    decreases |issues|
  {
    if issues != [] {
      SyncToShift(rows, issues, |issues| - 1, force, texts);
      SyncToEnd(SyncOne(rows, issues[0], force, texts), issues[1..], force, texts);
    }
  }

  /** A sync without --force that adds no task changes none. */
  lemma {:induction false} UngrownIsUnchanged(rows: seq<Row>, issues: seq<Issue>, texts: Texts)
    ensures |rows| <= |SyncAll(rows, issues, false, texts)|
    ensures |SyncAll(rows, issues, false, texts)| == |rows| ==> SyncAll(rows, issues, false, texts) == rows
    decreases |issues|
  {
    if issues != [] {
      UngrownIsUnchanged(SyncOne(rows, issues[0], false, texts), issues[1..], texts);
    }
  }

  /** How many tasks are linked to an issue. */
  function Links(rows: seq<Row>, n: Number): (c: nat)
    ensures c > 0 <==> Linked(rows, n)
  {
    if rows == [] then 0 else Links(rows[..|rows| - 1], n) + if rows[|rows| - 1].issue == n then 1 else 0
  }

  /** Only titles and descriptions of the tasks already there can change. */
  ghost predicate Extends(before: seq<Row>, after: seq<Row>) {
    && |before| <= |after|
    && forall k :: 0 <= k < |before| ==> after[k] == before[k].(title := after[k].title, description := after[k].description)
  }

  lemma {:induction false} SameLinks(a: seq<Row>, b: seq<Row>, n: Number)
    requires |a| == |b| && forall k :: 0 <= k < |a| ==> a[k].issue == b[k].issue
    ensures Links(a, n) == Links(b, n)
  {
    if a != [] {
      SameLinks(a[..|a| - 1], b[..|b| - 1], n);
    }
  }

  lemma SyncOneLinks(rows: seq<Row>, issue: Issue, force: bool, texts: Texts, n: Number)
    ensures Links(SyncOne(rows, issue, force, texts), n)
         == if n == issue.number && Links(rows, n) == 0 then 1 else Links(rows, n)
    ensures Extends(rows, SyncOne(rows, issue, force, texts))
  {
    var k := FirstLink(rows, issue.number);
    var after := SyncOne(rows, issue, force, texts);
    if k < |rows| {
      SameLinks(rows, after, n);
    } else {
      assert after[..|after| - 1] == rows;
    }
  }

  /** Every listed issue ends up with a task, and none with one more than it had, unless it had none. */
  lemma {:induction false} SyncLinksOnce(rows: seq<Row>, issues: seq<Issue>, force: bool, texts: Texts, n: Number)
    ensures Links(SyncAll(rows, issues, force, texts), n)
         == if Lists(issues, n) && Links(rows, n) == 0 then 1 else Links(rows, n)
    ensures Extends(rows, SyncAll(rows, issues, force, texts))
    decreases |issues|
  {
    if issues != [] {
      var one := SyncOne(rows, issues[0], force, texts);
      SyncOneLinks(rows, issues[0], force, texts, n);
      SyncLinksOnce(one, issues[1..], force, texts, n);
      assert Lists(issues, n) <==> issues[0].number == n || Lists(issues[1..], n) by {
        if Lists(issues[1..], n) {
          var i :| 0 <= i < |issues[1..]| && issues[1..][i].number == n;
          assert issues[i + 1].number == n;
        }
      }
    }
  }

  /** New tasks take ids and priorities above every one before them. */
  ghost predicate Ascends(before: seq<Row>, after: seq<Row>) {
    forall i, j :: 0 <= i < j < |after| && |before| <= j ==> after[i].id < after[j].id && after[i].priority < after[j].priority
  }

  ghost predicate DistinctIds(rows: seq<Row>) {
    forall i, j :: 0 <= i < j < |rows| ==> rows[i].id != rows[j].id
  }

  lemma SyncOneAscends(rows: seq<Row>, issue: Issue, force: bool, texts: Texts)
    ensures Ascends(rows, SyncOne(rows, issue, force, texts))
  {
    forall k | 0 <= k < |rows| ensures rows[k].id <= TopId(rows) && rows[k].priority <= TopPriority(rows) {
      TopIsAbove(rows, k);
    }
  }

  lemma {:induction false} SyncAscends(rows: seq<Row>, issues: seq<Issue>, force: bool, texts: Texts)
    ensures Ascends(rows, SyncAll(rows, issues, force, texts))
    ensures DistinctIds(rows) ==> DistinctIds(SyncAll(rows, issues, force, texts))
    decreases |issues|
  {
    if issues != [] {
      var one := SyncOne(rows, issues[0], force, texts);
      SyncOneAscends(rows, issues[0], force, texts);
      SyncOneLinks(rows, issues[0], force, texts, 1);
      SyncAscends(one, issues[1..], force, texts);
      SyncLinksOnce(one, issues[1..], force, texts, 1);
      var all := SyncAll(rows, issues, force, texts);
      forall i, j | 0 <= i < j < |all| && |rows| <= j
        ensures all[i].id < all[j].id && all[i].priority < all[j].priority
      {
        if j < |one| {
          assert all[i].id == one[i].id && all[j].id == one[j].id;
        }
      }
    }
  }

  // --------------------------------------------------- sync: coverage, repeats

  /** Every open issue has a task. */
  ghost predicate IssuesLinked(rows: seq<Row>, remote: Remote) {
    forall i :: i in remote.entries && i.open && !i.pull ==> Linked(rows, i.number)
  }

  ghost predicate TasksLinked(rows: seq<Row>) {
    forall r :: r in rows ==> r.issue != 0
  }

  /** For each open issue without a task, fewer open issues and pull requests are newer than a page holds. */
  ghost predicate Covered(rows: seq<Row>, remote: Remote) {
    forall i :: i in remote.entries && i.open && !i.pull && !Linked(rows, i.number) ==> Newer(remote.entries, {}, i.number) < PAGE
  }

  /** Exactly when a sync links every open issue: no issue without a task is a page or more behind. */
  lemma SyncReachesAllIffCovered(rows: seq<Row>, remote: Remote, force: bool, texts: Texts)
    requires remote.Valid()
    ensures IssuesLinked(SyncAll(rows, Listing(remote, {}), force, texts), remote) <==> Covered(rows, remote)
  {
    hide Listing, Newer, Remote.Valid;
    var after := SyncAll(rows, Listing(remote, {}), force, texts);
    forall n: Number ensures Linked(after, n) <==> Linked(rows, n) || Lists(Listing(remote, {}), n) {
      SyncLinksOnce(rows, Listing(remote, {}), force, texts, n);
    }
    forall i | i in remote.entries && i.open && !i.pull
      ensures Lists(Listing(remote, {}), i.number) <==> Newer(remote.entries, {}, i.number) < PAGE
    {
      ListedIff(remote, {}, i);
    }
  }

  /** A repository with no more open issues and pull requests than a page holds is covered. */
  lemma OnePageCovers(rows: seq<Row>, remote: Remote)
    requires remote.Valid() && |Matching(remote.entries, {})| <= PAGE
    ensures Covered(rows, remote)
  {
    var all := Matching(remote.entries, {});
    forall i | i in remote.entries && i.open ensures Newer(remote.entries, {}, i.number) < PAGE {
      assert i in all;
      var k :| 0 <= k < |all| && all[k] == i;
      PlaceIsNewer(remote.entries, {}, k);
    }
  }

  /** A repository with nothing but n open issues. */
  function Crowd(n: nat): Remote {
    Remote(seq(n, i requires 0 <= i < n => Issue(i + 1, "", "", [], false, true)), n + 1)
  }

  /** Past a page of open issues the oldest is out of reach, however often the sync is repeated. */
  lemma PageHidesTheOldest(n: nat, force: bool, texts: Texts)
    requires n > PAGE
    ensures Crowd(n).Valid()
    ensures !IssuesLinked(SyncAll([], Listing(Crowd(n), {}), force, texts), Crowd(n))
  {
    var remote := Crowd(n);
    assert remote.entries[0] in remote.entries && remote.entries[0].number == 1;
    CrowdNewer(n);
    SyncReachesAllIffCovered([], remote, force, texts);
  }

  lemma {:induction false} CrowdNewer(n: nat)
    requires n > 0
    ensures Newer(Crowd(n).entries, {}, 1) == n - 1
  {
    assert Crowd(n).entries[..n - 1] == Crowd(n - 1).entries;
    if n > 1 {
      CrowdNewer(n - 1);
    } else {
      assert Newer([], {}, 1) == 0;
    }
  }

  ghost predicate AllLinked(rows: seq<Row>, issues: seq<Issue>) {
    forall i :: 0 <= i < |issues| ==> Linked(rows, issues[i].number)
  }

  /** With every listed issue linked, a sync without --force changes nothing. */
  lemma {:induction false} SyncRestsWhenLinked(rows: seq<Row>, issues: seq<Issue>, texts: Texts)
    requires AllLinked(rows, issues)
    ensures SyncAll(rows, issues, false, texts) == rows
    decreases |issues|
  {
    if issues != [] {
      assert Linked(rows, issues[0].number);
      assert FirstLink(rows, issues[0].number) < |rows|;
      forall i | 0 <= i < |issues[1..]| ensures Linked(rows, issues[1..][i].number) {
        assert Linked(rows, issues[i + 1].number);
      }
      SyncRestsWhenLinked(rows, issues[1..], texts);
    }
  }

  lemma SyncIdempotent(rows: seq<Row>, issues: seq<Issue>, force: bool, texts: Texts)
    ensures var once := SyncAll(rows, issues, force, texts);
            SyncAll(once, issues, false, texts) == once
  {
    var once := SyncAll(rows, issues, force, texts);
    forall i | 0 <= i < |issues| ensures Linked(once, issues[i].number) {
      assert Lists(issues, issues[i].number);
      SyncLinksOnce(rows, issues, force, texts, issues[i].number);
    }
    SyncRestsWhenLinked(once, issues, texts);
  }

  /** A forced sync of this issue would change nothing. */
  ghost predicate UpToDate(rows: seq<Row>, issue: Issue) {
    var k := FirstLink(rows, issue.number);
    k < |rows| && rows[k] == Refresh(rows[k], issue)
  }

  lemma OthersStay(rows: seq<Row>, issue: Issue, other: Issue, texts: Texts)
    requires issue.number != other.number
    ensures var k := FirstLink(rows, issue.number);
            var after := SyncOne(rows, other, true, texts);
            && (k < |rows| ==> FirstLink(after, issue.number) == k && after[k] == rows[k])
            && (k == |rows| ==> FirstLink(after, issue.number) == |after|)
    ensures UpToDate(SyncOne(rows, other, true, texts), issue) <==> UpToDate(rows, issue)
  {
    var k := FirstLink(rows, issue.number);
    var after := SyncOne(rows, other, true, texts);
    var o := FirstLink(rows, other.number);
    assert forall j :: 0 <= j < |rows| ==> after[j].issue == rows[j].issue;
    if k < |rows| {
      assert o != k;
      FirstLinkIs(after, issue.number, k);
    } else {
      assert forall j :: 0 <= j < |after| ==> after[j].issue != issue.number;
    }
  }

  /** A forced sync changes nothing exactly when every listed issue is up to date. */
  lemma {:induction false} ForcedRestsIff(rows: seq<Row>, issues: seq<Issue>, texts: Texts)
    requires DistinctNumbers(issues)
    ensures SyncAll(rows, issues, true, texts) == rows <==> forall i :: 0 <= i < |issues| ==> UpToDate(rows, issues[i])
    decreases |issues|
  {
    if issues != [] {
      var one := SyncOne(rows, issues[0], true, texts);
      ForcedRestsIff(one, issues[1..], texts);
      forall i | 0 <= i < |issues[1..]| ensures UpToDate(one, issues[1..][i]) <==> UpToDate(rows, issues[i + 1]) {
        OthersStay(rows, issues[i + 1], issues[0], texts);
      }
      if UpToDate(rows, issues[0]) {
        assert one == rows;
      } else {
        ForcedTouches(rows, issues, texts);
      }
    }
  }

  /** What a forced sync does to its first issue is still there at its end. */
  lemma ForcedTouches(rows: seq<Row>, issues: seq<Issue>, texts: Texts)
    requires DistinctNumbers(issues) && issues != [] && !UpToDate(rows, issues[0])
    ensures SyncAll(rows, issues, true, texts) != rows
  {
    var one := SyncOne(rows, issues[0], true, texts);
    var k := FirstLink(rows, issues[0].number);
    FirstLinkIs(one, issues[0].number, k);
    RowStays(one, issues[0].number, issues[1..], texts);
  }

  lemma {:induction false} RowStays(rows: seq<Row>, n: Number, issues: seq<Issue>, texts: Texts)
    requires FirstLink(rows, n) < |rows|
    requires forall i :: 0 <= i < |issues| ==> issues[i].number != n
    ensures var after := SyncAll(rows, issues, true, texts); var k := FirstLink(rows, n);
            k < |after| && FirstLink(after, n) == k && after[k] == rows[k]
    decreases |issues|
  {
    if issues != [] {
      var probe := Issue(n, "", "", [], false, true);
      OthersStay(rows, probe, issues[0], texts);
      RowStays(SyncOne(rows, issues[0], true, texts), n, issues[1..], texts);
    }
  }

  /**
    After a forced sync, an issue is up to date unless this sync imported it
    with a text of its own and the issue has a body to replace it by.
  */
  lemma {:induction false} AfterForced(rows: seq<Row>, issues: seq<Issue>, texts: Texts, i: nat)
    requires DistinctNumbers(issues) && i < |issues|
    ensures UpToDate(SyncAll(rows, issues, true, texts), issues[i])
       <==> Linked(rows, issues[i].number) || issues[i].body == "" || texts.taskText(issues[i]) == issues[i].body
    decreases |issues|
  {
    var one := SyncOne(rows, issues[0], true, texts);
    if i == 0 {
      var n := issues[0].number;
      var k := FirstLink(rows, n);
      FirstLinkIs(one, n, k);
      RowStays(one, n, issues[1..], texts);
      assert Linked(rows, n) <==> k < |rows|;
    } else {
      OthersStay(rows, issues[i], issues[0], texts);
      AfterForced(one, issues[1..], texts, i - 1);
      assert Linked(one, issues[i].number) <==> Linked(rows, issues[i].number) by {
        SyncOneLinks(rows, issues[0], true, texts, issues[i].number);
      }
    }
  }

  /** Repeating a forced sync changes nothing unless the first one imported an issue whose body is not its task's text. */
  lemma ForcedIdempotentIff(rows: seq<Row>, issues: seq<Issue>, texts: Texts)
    requires DistinctNumbers(issues)
    ensures SyncAll(SyncAll(rows, issues, true, texts), issues, true, texts) == SyncAll(rows, issues, true, texts)
       <==> forall i :: 0 <= i < |issues| ==>
              Linked(rows, issues[i].number) || issues[i].body == "" || texts.taskText(issues[i]) == issues[i].body
  {
    var once := SyncAll(rows, issues, true, texts);
    ForcedRestsIff(once, issues, texts);
    forall i | 0 <= i < |issues|
      ensures UpToDate(once, issues[i])
         <==> Linked(rows, issues[i].number) || issues[i].body == "" || texts.taskText(issues[i]) == issues[i].body
    {
      AfterForced(rows, issues, texts, i);
    }
  }

  // ------------------------------------------------------------------- push

  /** How the API answers a write: it happens and is acknowledged, it happens and the reply is lost, or it is refused. */
  datatype Reply = Acked | Lost | Refused

  /** The answers met while pushing one task. */
  datatype Calls = Calls(fetched: bool, write: Reply)

  const SMOOTH := Calls(true, Acked)

  datatype Tally = Tally(created: nat, closed: nat, skipped: nat)

  datatype Sides = Sides(rows: seq<Row>, remote: Remote, tally: Tally)

  predicate Closable(row: Row, done: bool) {
    done && (row.status == Completed || row.status == Status.Skipped)
  }

  /** Pushing the task at position k. */
  function PushOne(s: Sides, k: nat, done: bool, calls: Calls, texts: Texts): (t: Sides)
    requires k < |s.rows|
    ensures |t.rows| == |s.rows|
  {
    var row := s.rows[k];
    if row.issue == 0 then
      var created := s.remote.Created(row.title, texts.issueBody(row), texts.labels);
      match calls.write
      case Acked => Sides(s.rows[k := row.(issue := s.remote.next)], created, s.tally.(created := s.tally.created + 1))
      case Lost => s.(remote := created)
      case Refused => s
    else if Closable(row, done) then
      if !calls.fetched || row.issue < 0 || s.remote.Find(row.issue).None? then s
      else if !s.remote.Find(row.issue).value.open then s.(tally := s.tally.(skipped := s.tally.skipped + 1))
      else
        match calls.write
        case Acked => s.(remote := s.remote.Closed(row.issue), tally := s.tally.(closed := s.tally.closed + 1))
        case Lost => s.(remote := s.remote.Closed(row.issue))
        case Refused => s
    else s.(tally := s.tally.(skipped := s.tally.skipped + 1))
  }

  /** Pushing the first k tasks, in order. */
  function PushTo(s: Sides, k: nat, done: bool, calls: seq<Calls>, texts: Texts): (t: Sides)
    requires k <= |s.rows| && |calls| == |s.rows|
    ensures |t.rows| == |s.rows|
  {
    if k == 0 then s else PushOne(PushTo(s, k - 1, done, calls, texts), k - 1, done, calls[k - 1], texts)
  }

  function Push(rows: seq<Row>, remote: Remote, done: bool, calls: seq<Calls>, texts: Texts): Sides
    requires |calls| == |rows|
  {
    PushTo(Sides(rows, remote, Tally(0, 0, 0)), |rows|, done, calls, texts)
  }

  predicate Smooth(calls: seq<Calls>) {
    forall i :: 0 <= i < |calls| ==> calls[i] == SMOOTH
  }

  /** Numbers linked to a task stand for entries the repository has. */
  ghost predicate LinksBelow(rows: seq<Row>, next: Number) {
    forall r :: r in rows ==> r.issue < next
  }

  /** The repository moved on: entries keep everything but being open, and new ones follow. */
  ghost predicate Grown(before: Remote, after: Remote) {
    && before.next <= after.next
    && |before.entries| <= |after.entries|
    && forall i :: 0 <= i < |before.entries| ==>
        after.entries[i] == before.entries[i] || after.entries[i] == before.entries[i].(open := false)
  }

  /** Tasks keep everything but a missing link; a new link is to an issue opened in between. */
  ghost predicate Relinked(before: Sides, after: Sides) {
    && |before.rows| == |after.rows|
    && forall i :: 0 <= i < |before.rows| && after.rows[i] != before.rows[i] ==>
        && before.rows[i].issue == 0
        && after.rows[i] == before.rows[i].(issue := after.rows[i].issue)
        && before.remote.next <= after.rows[i].issue < after.remote.next
  }

  lemma PushOneKeeps(s: Sides, k: nat, done: bool, calls: Calls, texts: Texts)
    requires k < |s.rows| && s.remote.Valid()
    ensures var t := PushOne(s, k, done, calls, texts);
            && t.remote.Valid() && Grown(s.remote, t.remote) && Relinked(s, t)
            && forall i :: 0 <= i < |s.rows| && i != k ==> t.rows[i] == s.rows[i]
  {
  }

  lemma GrownOnwards(a: Remote, b: Remote, c: Remote)
    requires Grown(a, b) && Grown(b, c)
    ensures Grown(a, c)
  {
    forall i | 0 <= i < |a.entries|
      ensures c.entries[i] == a.entries[i] || c.entries[i] == a.entries[i].(open := false)
    {
      assert c.entries[i] == b.entries[i] || c.entries[i] == b.entries[i].(open := false);
    }
  }

  lemma NothingPushed(s: Sides)
    ensures Grown(s.remote, s.remote) && Relinked(s, s)
  {
  }

  lemma RelinkedOnwards(s: Sides, u: Sides, t: Sides, k: nat)
    requires Relinked(s, u) && Relinked(u, t) && k < |s.rows|
    requires Grown(s.remote, u.remote) && Grown(u.remote, t.remote)
    requires u.rows[k] == s.rows[k] && forall i :: 0 <= i < |s.rows| && i != k ==> t.rows[i] == u.rows[i]
    ensures Relinked(s, t)
  {
  }

  /**
    What pushing tasks keeps, whatever the API answers: the repository stays
    valid and only grows, tasks keep everything but a missing link, and a new
    link is to an issue this push opened.
  */
  lemma {:induction false} PushKeeps(s: Sides, k: nat, done: bool, calls: seq<Calls>, texts: Texts)
    requires k <= |s.rows| && |calls| == |s.rows| && s.remote.Valid()
    ensures var t := PushTo(s, k, done, calls, texts);
            && t.remote.Valid() && Grown(s.remote, t.remote) && Relinked(s, t)
            && forall i :: k <= i < |s.rows| ==> t.rows[i] == s.rows[i]
  {
    hide PushOne, Grown, Relinked, Remote.Valid;
    if k == 0 {
      NothingPushed(s);
    } else {
      PushKeeps(s, k - 1, done, calls, texts);
      var u := PushTo(s, k - 1, done, calls, texts);
      PushOneKeeps(u, k - 1, done, calls[k - 1], texts);
      var t := PushOne(u, k - 1, done, calls[k - 1], texts);
      GrownOnwards(s.remote, u.remote, t.remote);
      RelinkedOnwards(s, u, t, k - 1);
    }
  }

  /** No two tasks are given the same issue. */
  lemma {:induction false} PushLinksApart(s: Sides, k: nat, done: bool, calls: seq<Calls>, texts: Texts)
    requires k <= |s.rows| && |calls| == |s.rows| && s.remote.Valid()
    ensures var t := PushTo(s, k, done, calls, texts);
            forall i, j :: 0 <= i < j < k && t.rows[i] != s.rows[i] && t.rows[j] != s.rows[j] ==> t.rows[i].issue < t.rows[j].issue
  {
    hide PushOne, Grown, Remote.Valid;
    if k > 0 {
      PushLinksApart(s, k - 1, done, calls, texts);
      PushKeeps(s, k - 1, done, calls, texts);
      PushOneKeeps(PushTo(s, k - 1, done, calls, texts), k - 1, done, calls[k - 1], texts);
    }
  }

  /** Calls that create an issue, whether or not the answer arrives. */
  function Creations(rows: seq<Row>, calls: seq<Calls>, k: nat): nat
    requires k <= |rows| && |calls| == |rows|
  {
    if k == 0 then 0
    else Creations(rows, calls, k - 1) + if rows[k - 1].issue == 0 && calls[k - 1].write != Refused then 1 else 0
  }

  function Unlinked(rows: seq<Row>, k: nat): nat
    requires k <= |rows|
  {
    if k == 0 then 0 else Unlinked(rows, k - 1) + if rows[k - 1].issue == 0 then 1 else 0
  }

  lemma {:induction false} SameUnlinked(a: seq<Row>, b: seq<Row>, k: nat)
    requires k <= |a| && k <= |b| && forall i :: 0 <= i < k ==> a[i] == b[i]
    ensures Unlinked(a, k) == Unlinked(b, k)
  {
    if k > 0 {
      SameUnlinked(a, b, k - 1);
    }
  }

  lemma PushOneCounts(s: Sides, k: nat, done: bool, calls: Calls, texts: Texts)
    requires k < |s.rows|
    ensures var t := PushOne(s, k, done, calls, texts);
            && |t.remote.entries| == |s.remote.entries| + (if s.rows[k].issue == 0 && calls.write != Refused then 1 else 0)
            && t.tally.created == s.tally.created + (if s.rows[k].issue == 0 && t.rows[k].issue != 0 then 1 else 0)
            && (s.rows[k].issue != 0 ==> t.rows[k].issue != 0)
            && forall i :: 0 <= i < |s.rows| && i != k ==> t.rows[i] == s.rows[i]
  {
  }

  /**
    Counts: the repository gains one entry per creation, the tally counts the
    tasks that gained a link, and a lost reply leaves its task without one.
  */
  lemma {:induction false} PushCounts(s: Sides, k: nat, done: bool, calls: seq<Calls>, texts: Texts)
    requires k <= |s.rows| && |calls| == |s.rows|
    ensures var t := PushTo(s, k, done, calls, texts);
            && |t.remote.entries| == |s.remote.entries| + Creations(s.rows, calls, k)
            && Unlinked(s.rows, k) == Unlinked(t.rows, k) + (t.tally.created - s.tally.created)
            && forall i :: k <= i < |s.rows| ==> t.rows[i] == s.rows[i]
  {
    if k > 0 {
      PushCounts(s, k - 1, done, calls, texts);
      var u := PushTo(s, k - 1, done, calls, texts);
      PushOneCounts(u, k - 1, done, calls[k - 1], texts);
      SameUnlinked(u.rows, PushTo(s, k, done, calls, texts).rows, k - 1);
    }
  }

  lemma {:induction false} NothingCreated(s: Sides, k: nat, done: bool, calls: seq<Calls>, texts: Texts)
    requires k <= |s.rows| && |calls| == |s.rows|
    ensures var t := PushTo(s, k, done, calls, texts);
            s.tally.created <= t.tally.created && (t.tally.created == s.tally.created ==> t.rows == s.rows)
  {
    if k > 0 {
      NothingCreated(s, k - 1, done, calls, texts);
    }
  }

  /** With every call answered, a push links every task. */
  lemma {:induction false} SmoothPushLinks(s: Sides, k: nat, done: bool, calls: seq<Calls>, texts: Texts)
    requires k <= |s.rows| && |calls| == |s.rows| && Smooth(calls)
    ensures forall i :: 0 <= i < k ==> PushTo(s, k, done, calls, texts).rows[i].issue != 0
  {
    if k > 0 {
      SmoothPushLinks(s, k - 1, done, calls, texts);
    }
  }

  /** With every task linked, a push without --done changes neither side. */
  lemma {:induction false} PushRestsWhenLinked(s: Sides, k: nat, calls: seq<Calls>, texts: Texts)
    requires k <= |s.rows| && |calls| == |s.rows| && TasksLinked(s.rows)
    ensures var t := PushTo(s, k, false, calls, texts); t.rows == s.rows && t.remote == s.remote
  {
    if k > 0 {
      PushRestsWhenLinked(s, k - 1, calls, texts);
      assert s.rows[k - 1] in s.rows;
    }
  }

  lemma LinkedStays(a: seq<Row>, b: seq<Row>, n: Number)
    requires |a| == |b| && Linked(a, n)
    requires forall i :: 0 <= i < |a| ==> b[i].issue == a[i].issue || a[i].issue == 0
    ensures Linked(b, n)
  {
    var k :| 0 <= k < |a| && a[k].issue == n;
    assert b[k].issue == n;
  }

  /** A push whose calls are all answered leaves no issue behind: the ones it opens are linked. */
  lemma {:induction false} SmoothPushCovers(s: Sides, k: nat, done: bool, calls: seq<Calls>, texts: Texts)
    requires k <= |s.rows| && |calls| == |s.rows| && Smooth(calls)
    requires IssuesLinked(s.rows, s.remote)
    ensures var t := PushTo(s, k, done, calls, texts); IssuesLinked(t.rows, t.remote)
  {
    if k > 0 {
      SmoothPushCovers(s, k - 1, done, calls, texts);
      var u := PushTo(s, k - 1, done, calls, texts);
      var t := PushTo(s, k, done, calls, texts);
      forall i | i in t.remote.entries && i.open && !i.pull ensures Linked(t.rows, i.number) {
        if i in u.remote.entries {
          LinkedStays(u.rows, t.rows, i.number);
        } else {
          assert t.rows[k - 1].issue == i.number;
        }
      }
    }
  }

  /** An open issue no task is linked to is not touched by a push, nor linked by it. */
  lemma {:induction false} PushLeavesUnlinked(s: Sides, k: nat, done: bool, calls: seq<Calls>, texts: Texts, i: Issue)
    requires k <= |s.rows| && |calls| == |s.rows| && s.remote.Valid()
    requires i in s.remote.entries && i.open && !Linked(s.rows, i.number)
    ensures var t := PushTo(s, k, done, calls, texts); i in t.remote.entries && !Linked(t.rows, i.number)
  {
    if k > 0 {
      PushLeavesUnlinked(s, k - 1, done, calls, texts, i);
      var u := PushTo(s, k - 1, done, calls, texts);
      assert u.remote.Valid() by { PushKeeps(s, k - 1, done, calls, texts); }
      PushOneLeaves(u, k - 1, done, calls[k - 1], texts, i);
    }
  }

  lemma PushOneLeaves(s: Sides, k: nat, done: bool, calls: Calls, texts: Texts, i: Issue)
    requires k < |s.rows| && s.remote.Valid()
    requires i in s.remote.entries && i.open && !Linked(s.rows, i.number)
    ensures var t := PushOne(s, k, done, calls, texts); i in t.remote.entries && !Linked(t.rows, i.number)
  {
    var t := PushOne(s, k, done, calls, texts);
    var x :| 0 <= x < |s.remote.entries| && s.remote.entries[x] == i;
    assert s.rows[k].issue != i.number;
    assert t.remote.entries[x] == i;
    forall y | 0 <= y < |t.rows| ensures t.rows[y].issue != i.number {
      if y != k {
        assert t.rows[y] == s.rows[y];
      }
    }
  }

  /** Every issue of a finished task is closed, as far as the first k tasks go. */
  ghost predicate DoneClosed(rows: seq<Row>, remote: Remote, k: nat) {
    forall i, e :: 0 <= i < k && i < |rows| && Closable(rows[i], true) && e in remote.entries && e.number == rows[i].issue ==> !e.open
  }

  lemma ClosingCloses(remote: Remote, n: Number)
    ensures forall e :: e in remote.Closed(n).entries ==>
              (e.number == n ==> !e.open) && (e.open ==> e in remote.entries)
  {
  }

  lemma PushOneCloses(s: Sides, k: nat, texts: Texts)
    requires k < |s.rows| && s.remote.Valid() && TasksLinked(s.rows) && DoneClosed(s.rows, s.remote, k)
    ensures var t := PushOne(s, k, true, SMOOTH, texts); t.rows == s.rows && DoneClosed(t.rows, t.remote, k + 1)
  {
    var row := s.rows[k];
    assert row in s.rows;
    if row.issue > 0 {
      ClosingCloses(s.remote, row.issue);
      OnlyEntry(s.remote, row.issue);
    }
  }

  /** A push with --done over linked tasks closes the issue of every finished one that is still open. */
  lemma {:induction false} DonePushCloses(s: Sides, k: nat, calls: seq<Calls>, texts: Texts)
    requires k <= |s.rows| && |calls| == |s.rows| && s.remote.Valid()
    requires Smooth(calls) && TasksLinked(s.rows)
    ensures var t := PushTo(s, k, true, calls, texts); t.rows == s.rows && t.remote.Valid() && DoneClosed(s.rows, t.remote, k)
  {
    hide DoneClosed, PushOne;
    assert PushTo(s, k, true, calls, texts).remote.Valid() by { PushKeeps(s, k, true, calls, texts); }
    if k > 0 {
      DonePushCloses(s, k - 1, calls, texts);
      PushOneCloses(PushTo(s, k - 1, true, calls, texts), k - 1, texts);
    } else {
      assert DoneClosed(s.rows, s.remote, 0) by { NothingClosed(s.rows, s.remote); }
    }
  }

  lemma NothingClosed(rows: seq<Row>, remote: Remote)
    ensures DoneClosed(rows, remote, 0)
  {
  }

  lemma OnlyEntry(remote: Remote, n: Number)
    requires remote.Valid()
    ensures forall e :: e in remote.entries && e.number == n ==> remote.Find(n) == Some(e)
  {
    forall e | e in remote.entries && e.number == n ensures remote.Find(n) == Some(e) {
      var f := remote.Find(n);
      var i :| 0 <= i < |remote.entries| && remote.entries[i] == e;
      var j :| 0 <= j < |remote.entries| && remote.entries[j] == f.value;
      assert i == j;
    }
  }

  /** Once the sides agree and the finished issues are closed, a push with --done changes neither side. */
  lemma {:induction false} DonePushRests(s: Sides, k: nat, calls: seq<Calls>, texts: Texts)
    requires k <= |s.rows| && |calls| == |s.rows|
    requires TasksLinked(s.rows) && DoneClosed(s.rows, s.remote, |s.rows|)
    ensures var t := PushTo(s, k, true, calls, texts); t.rows == s.rows && t.remote == s.remote
  {
    if k > 0 {
      DonePushRests(s, k - 1, calls, texts);
      assert s.rows[k - 1] in s.rows;
    }
  }

  /** So a push with --done settles in two: the first links every task, the second closes what is finished. */
  lemma DonePushSettles(rows: seq<Row>, remote: Remote, calls: seq<Calls>, texts: Texts)
    requires |calls| == |rows| && Smooth(calls) && remote.Valid()
    ensures var one := Push(rows, remote, true, calls, texts);
            var two := Push(one.rows, one.remote, true, calls, texts);
            var three := Push(two.rows, two.remote, true, calls, texts);
            three.rows == two.rows && three.remote == two.remote
  {
    var start := Tally(0, 0, 0);
    SmoothPushLinks(Sides(rows, remote, start), |rows|, true, calls, texts);
    PushKeeps(Sides(rows, remote, start), |rows|, true, calls, texts);
    var one := Push(rows, remote, true, calls, texts);
    DonePushCloses(Sides(one.rows, one.remote, start), |rows|, calls, texts);
    var two := Push(one.rows, one.remote, true, calls, texts);
    DonePushRests(Sides(two.rows, two.remote, start), |rows|, calls, texts);
  }

  // -------------------------------------------------------- both directions

  /** Both sides agree: every open issue has a task and every task an issue. */
  ghost predicate Converged(rows: seq<Row>, remote: Remote) {
    IssuesLinked(rows, remote) && TasksLinked(rows)
  }

  lemma SyncKeepsTasksLinked(rows: seq<Row>, issues: seq<Issue>, force: bool, texts: Texts)
    requires TasksLinked(rows)
    ensures TasksLinked(SyncAll(rows, issues, force, texts))
    decreases |issues|
  {
    if issues != [] {
      var one := SyncOne(rows, issues[0], force, texts);
      forall r | r in one ensures r.issue != 0 {
        var k :| 0 <= k < |one| && one[k] == r;
        if k < |rows| {
          assert rows[k] in rows;
        }
      }
      SyncKeepsTasksLinked(one, issues[1..], force, texts);
    }
  }

  /** Sync, then push: the sides agree exactly when no issue without a task is a page or more behind. */
  lemma SyncThenPush(rows: seq<Row>, remote: Remote, force: bool, done: bool, calls: seq<Calls>, texts: Texts)
    requires remote.Valid()
    requires |calls| == |SyncAll(rows, Listing(remote, {}), force, texts)| && Smooth(calls)
    ensures var t := Push(SyncAll(rows, Listing(remote, {}), force, texts), remote, done, calls, texts);
            Converged(t.rows, t.remote) <==> Covered(rows, remote)
  {
    var synced := SyncAll(rows, Listing(remote, {}), force, texts);
    SyncReachesAllIffCovered(rows, remote, force, texts);
    var s := Sides(synced, remote, Tally(0, 0, 0));
    SmoothPushLinks(s, |synced|, done, calls, texts);
    if Covered(rows, remote) {
      SmoothPushCovers(s, |synced|, done, calls, texts);
    } else {
      var i :| i in remote.entries && i.open && !i.pull && !Linked(synced, i.number);
      PushLeavesUnlinked(s, |synced|, done, calls, texts, i);
    }
  }

  /** A finished task among the first k is linked to this number. */
  predicate Closes(rows: seq<Row>, k: nat, done: bool, n: Number)
    requires k <= |rows|
  {
    exists j :: 0 <= j < k && Closable(rows[j], done) && rows[j].issue == n
  }

  /** An entry once the issues of the first k tasks that are finished are closed. */
  function ClosedEntry(e: Issue, rows: seq<Row>, k: nat, done: bool): Issue
    requires k <= |rows|
  {
    if Closes(rows, k, done, e.number) then e.(open := false) else e
  }

  function ClosedIn(entries: seq<Issue>, rows: seq<Row>, done: bool): seq<Issue> {
    seq(|entries|, x requires 0 <= x < |entries| => ClosedEntry(entries[x], rows, |rows|, done))
  }

  /** The entries after pushing k tasks: the old ones, closed where a task is done, then one new one for each task that had none. */
  ghost predicate Pushed(s: Sides, t: Sides, k: nat, done: bool)
    requires k <= |s.rows|
  {
    && |t.rows| == |s.rows| && s.remote.next <= t.remote.next
    && |t.remote.entries| == |s.remote.entries| + Unlinked(s.rows, k)
    && (forall x :: 0 <= x < |s.remote.entries| ==> t.remote.entries[x] == ClosedEntry(s.remote.entries[x], s.rows, k, done))
    && (forall x :: |s.remote.entries| <= x < |t.remote.entries| ==>
         && t.remote.entries[x].open && s.remote.next <= t.remote.entries[x].number < t.remote.next
         && Linked(t.rows, t.remote.entries[x].number))
  }

  lemma PushOneEntries(s: Sides, u: Sides, k: nat, done: bool, texts: Texts)
    requires k < |s.rows| && s.remote.Valid() && Pushed(s, u, k, done)
    requires u.remote.Valid() && u.rows[k] == s.rows[k] && (done ==> s.rows[k].issue < s.remote.next)
    ensures Pushed(s, PushOne(u, k, done, SMOOTH, texts), k + 1, done)
  {
    hide Unlinked;
    var t := PushOne(u, k, done, SMOOTH, texts);
    var row := s.rows[k];
    assert Unlinked(s.rows, k + 1) == Unlinked(s.rows, k) + if row.issue == 0 then 1 else 0 by { UnlinkedStep(s.rows, k); }
    forall n: Number ensures Closes(s.rows, k + 1, done, n) <==> Closes(s.rows, k, done, n) || (Closable(row, done) && row.issue == n) {
      ClosesStep(s.rows, k, done, n);
    }
    if row.issue == 0 {
      forall x | |s.remote.entries| <= x < |t.remote.entries| ensures Linked(t.rows, t.remote.entries[x].number) {
        if x < |u.remote.entries| {
          LinkedStays(u.rows, t.rows, u.remote.entries[x].number);
        } else {
          assert t.rows[k].issue == t.remote.entries[x].number;
        }
      }
    } else if Closable(row, done) && row.issue > 0 {
      OnlyEntry(u.remote, row.issue);
      forall x | 0 <= x < |u.remote.entries| && u.remote.entries[x].number == row.issue
        ensures u.remote.Find(row.issue) == Some(u.remote.entries[x])
      {
        assert u.remote.entries[x] in u.remote.entries;
      }
    }
  }

  lemma UnlinkedStep(rows: seq<Row>, k: nat)
    requires k < |rows|
    ensures Unlinked(rows, k + 1) == Unlinked(rows, k) + if rows[k].issue == 0 then 1 else 0
  {
  }

  lemma ClosesStep(rows: seq<Row>, k: nat, done: bool, n: Number)
    requires k < |rows|
    ensures Closes(rows, k + 1, done, n) <==> Closes(rows, k, done, n) || (Closable(rows[k], done) && rows[k].issue == n)
  {
    if Closes(rows, k, done, n) {
      var j :| 0 <= j < k && Closable(rows[j], done) && rows[j].issue == n;
      assert 0 <= j < k + 1;
    }
  }

  lemma {:induction false} SmoothPushEntries(s: Sides, k: nat, done: bool, calls: seq<Calls>, texts: Texts)
    requires k <= |s.rows| && |calls| == |s.rows| && Smooth(calls) && s.remote.Valid()
    requires done ==> LinksBelow(s.rows, s.remote.next)
    ensures Pushed(s, PushTo(s, k, done, calls, texts), k, done)
  {
    hide PushOne, Pushed;
    if k == 0 {
      NonePushed(s, done);
    } else {
      SmoothPushEntries(s, k - 1, done, calls, texts);
      var u := PushTo(s, k - 1, done, calls, texts);
      PushKeeps(s, k - 1, done, calls, texts);
      assert s.rows[k - 1] in s.rows;
      PushOneEntries(s, u, k - 1, done, texts);
    }
  }

  lemma NonePushed(s: Sides, done: bool)
    ensures Pushed(s, s, 0, done)
  {
  }

  /** What a dry run says of the task at position k; it changes neither side. */
  function DryOne(tally: Tally, row: Row, remote: Remote, done: bool, fetched: bool): Tally {
    if row.issue == 0 then tally.(created := tally.created + 1)
    else if Closable(row, done) then
      if !fetched || row.issue < 0 || remote.Find(row.issue).None? then tally
      else if !remote.Find(row.issue).value.open then tally.(skipped := tally.skipped + 1)
      else tally.(closed := tally.closed + 1)
    else tally.(skipped := tally.skipped + 1)
  }

  function DryTo(rows: seq<Row>, remote: Remote, k: nat, done: bool, calls: seq<Calls>): Tally
    requires k <= |rows| && |calls| == |rows|
  {
    if k == 0 then Tally(0, 0, 0) else DryOne(DryTo(rows, remote, k - 1, done, calls), rows[k - 1], remote, done, calls[k - 1].fetched)
  }

  predicate OpenIn(remote: Remote, n: int) {
    n > 0 && remote.Find(n).Some? && remote.Find(n).value.open
  }

  /** A finished task whose open issue an earlier finished task is linked to as well. */
  predicate ClosedTwice(rows: seq<Row>, remote: Remote, done: bool, k: nat)
    requires k < |rows|
  {
    Closable(rows[k], done) && OpenIn(remote, rows[k].issue) && Closes(rows, k, done, rows[k].issue)
  }

  function Twice(rows: seq<Row>, remote: Remote, done: bool, k: nat): nat
    requires k <= |rows|
  {
    if k == 0 then 0 else Twice(rows, remote, done, k - 1) + if ClosedTwice(rows, remote, done, k - 1) then 1 else 0
  }

  lemma {:induction false} NoneTwiceIff(rows: seq<Row>, remote: Remote, done: bool, k: nat)
    requires k <= |rows|
    ensures Twice(rows, remote, done, k) == 0 <==> forall i :: 0 <= i < k ==> !ClosedTwice(rows, remote, done, i)
  {
    if k > 0 {
      NoneTwiceIff(rows, remote, done, k - 1);
    }
  }

  /** During a push an issue it did not open is open if it was and no earlier task closed it. */
  lemma OpenNow(s: Sides, u: Sides, k: nat, done: bool, n: Number)
    requires k <= |s.rows| && s.remote.Valid() && u.remote.Valid() && Pushed(s, u, k, done) && n < s.remote.next
    ensures s.remote.Find(n).Some? <==> u.remote.Find(n).Some?
    ensures OpenIn(u.remote, n) <==> OpenIn(s.remote, n) && !Closes(s.rows, k, done, n)
  {
    hide Closes, Unlinked;
    OnlyEntry(s.remote, n);
    OnlyEntry(u.remote, n);
    if s.remote.Find(n).Some? {
      var x :| 0 <= x < |s.remote.entries| && s.remote.entries[x] == s.remote.Find(n).value;
      assert u.remote.entries[x] in u.remote.entries && u.remote.entries[x].number == n;
    }
    if u.remote.Find(n).Some? {
      var x :| 0 <= x < |u.remote.entries| && u.remote.entries[x] == u.remote.Find(n).value;
      assert x < |s.remote.entries|;
      assert s.remote.entries[x] in s.remote.entries && s.remote.entries[x].number == n;
    }
  }

  lemma DryStep(s: Sides, u: Sides, k: nat, done: bool, texts: Texts, dry: Tally)
    requires k < |s.rows| && s.remote.Valid() && u.remote.Valid() && Pushed(s, u, k, done)
    requires u.rows[k] == s.rows[k] && (done ==> s.rows[k].issue < s.remote.next)
    ensures var pushed := PushOne(u, k, done, SMOOTH, texts).tally;
            var next := DryOne(dry, s.rows[k], s.remote, done, true);
            var more := if ClosedTwice(s.rows, s.remote, done, k) then 1 else 0;
            && next.created - dry.created == pushed.created - u.tally.created
            && next.closed - dry.closed == pushed.closed - u.tally.closed + more
            && next.skipped - dry.skipped == pushed.skipped - u.tally.skipped - more
  {
    hide Pushed, Closes, Remote.Valid;
    var n := s.rows[k].issue;
    if Closable(s.rows[k], done) && n > 0 {
      OpenNow(s, u, k, done, n);
    }
  }

  lemma {:induction false} DryCounts(s: Sides, k: nat, done: bool, calls: seq<Calls>, texts: Texts)
    requires k <= |s.rows| && |calls| == |s.rows| && Smooth(calls) && s.remote.Valid() && s.tally == Tally(0, 0, 0)
    requires done ==> LinksBelow(s.rows, s.remote.next)
    ensures var pushed := PushTo(s, k, done, calls, texts).tally;
            var dry := DryTo(s.rows, s.remote, k, done, calls);
            && dry.created == pushed.created
            && dry.closed == pushed.closed + Twice(s.rows, s.remote, done, k)
            && dry.skipped == pushed.skipped - Twice(s.rows, s.remote, done, k)
  {
    hide PushOne, Pushed, ClosedTwice, DryOne;
    if k > 0 {
      DryCounts(s, k - 1, done, calls, texts);
      var u := PushTo(s, k - 1, done, calls, texts);
      SmoothPushEntries(s, k - 1, done, calls, texts);
      PushKeeps(s, k - 1, done, calls, texts);
      assert s.rows[k - 1] in s.rows;
      DryStep(s, u, k - 1, done, texts, DryTo(s.rows, s.remote, k - 1, done, calls));
    }
  }

  /**
    Exactly when a dry run counts what the push will do, its calls answered: no
    open issue is linked to two finished tasks, of which the push closes it for
    the first alone.
  */
  lemma DryRunTellsIff(rows: seq<Row>, remote: Remote, done: bool, calls: seq<Calls>, texts: Texts)
    requires |calls| == |rows| && Smooth(calls) && remote.Valid() && (done ==> LinksBelow(rows, remote.next))
    ensures DryTo(rows, remote, |rows|, done, calls) == Push(rows, remote, done, calls, texts).tally
       <==> forall i :: 0 <= i < |rows| ==> !ClosedTwice(rows, remote, done, i)
  {
    DryCounts(Sides(rows, remote, Tally(0, 0, 0)), |rows|, done, calls, texts);
    NoneTwiceIff(rows, remote, done, |rows|);
  }

  lemma {:induction false} NewerAppended(a: seq<Issue>, b: seq<Issue>, n: Number)
    requires forall x :: 0 <= x < |b| ==> b[x].open && b[x].number > n
    ensures Newer(a + b, {}, n) == Newer(a, {}, n) + |b|
    decreases |b|
  {
    if b == [] {
      assert a + b == a;
    } else {
      assert (a + b)[..|a + b| - 1] == a + b[..|b| - 1];
      NewerAppended(a, b[..|b| - 1], n);
    }
  }

  /** Room on one page for the open entries newer than each issue without a task and for the issues a push is about to open. */
  ghost predicate RoomFor(rows: seq<Row>, remote: Remote, done: bool) {
    forall i :: i in remote.entries && i.open && !i.pull && !Linked(rows, i.number) ==>
      Newer(ClosedIn(remote.entries, rows, done), {}, i.number) + Unlinked(rows, |rows|) < PAGE
  }

  /** What a push leaves to a sync. */
  lemma PushLeavesRoom(s: Sides, t: Sides, done: bool)
    requires s.remote.Valid() && Pushed(s, t, |s.rows|, done) && Relinked(s, t)
    ensures Covered(t.rows, t.remote) <==> RoomFor(s.rows, s.remote, done)
  {
    hide Unlinked, Newer;
    var had := |s.remote.entries|;
    forall x | 0 <= x < had && s.remote.entries[x].open && !Linked(s.rows, s.remote.entries[x].number)
      ensures var n := s.remote.entries[x].number;
              && t.remote.entries[x] == s.remote.entries[x] && !Linked(t.rows, n)
              && Newer(t.remote.entries, {}, n) == Newer(ClosedIn(s.remote.entries, s.rows, done), {}, n) + Unlinked(s.rows, |s.rows|)
    {
      UnlinkedLeft(s, t, done, x);
    }
    if RoomFor(s.rows, s.remote, done) {
      forall i | i in t.remote.entries && i.open && !i.pull && !Linked(t.rows, i.number) ensures Newer(t.remote.entries, {}, i.number) < PAGE {
        var x :| 0 <= x < |t.remote.entries| && t.remote.entries[x] == i;
        assert x < had && s.remote.entries[x] == i;
        if Linked(s.rows, i.number) {
          LinkedStays(s.rows, t.rows, i.number);
        }
        assert s.remote.entries[x] in s.remote.entries;
      }
    } else {
      var i :| i in s.remote.entries && i.open && !i.pull && !Linked(s.rows, i.number)
        && Newer(ClosedIn(s.remote.entries, s.rows, done), {}, i.number) + Unlinked(s.rows, |s.rows|) >= PAGE;
      var x :| 0 <= x < had && s.remote.entries[x] == i;
      assert t.remote.entries[x] in t.remote.entries;
    }
  }

  lemma UnlinkedLeft(s: Sides, t: Sides, done: bool, x: nat)
    requires s.remote.Valid() && Pushed(s, t, |s.rows|, done) && Relinked(s, t)
    requires x < |s.remote.entries| && s.remote.entries[x].open && !Linked(s.rows, s.remote.entries[x].number)
    ensures var n := s.remote.entries[x].number;
            && t.remote.entries[x] == s.remote.entries[x] && !Linked(t.rows, n)
            && Newer(t.remote.entries, {}, n) == Newer(ClosedIn(s.remote.entries, s.rows, done), {}, n) + Unlinked(s.rows, |s.rows|)
  {
    hide Unlinked, Newer;
    var n := s.remote.entries[x].number;
    var had := |s.remote.entries|;
    assert !Closes(s.rows, |s.rows|, done, n);
    assert t.remote.entries[..had] == ClosedIn(s.remote.entries, s.rows, done);
    assert t.remote.entries == t.remote.entries[..had] + t.remote.entries[had..];
    NewerAppended(t.remote.entries[..had], t.remote.entries[had..], n);
  }

  /**
    Push, then sync: the sides agree exactly when, before the push, each open
    issue without a task has room on a page for the newer open entries the push
    does not close and one more for each task without an issue.
  */
  lemma PushThenSync(rows: seq<Row>, remote: Remote, force: bool, done: bool, calls: seq<Calls>, texts: Texts)
    requires |calls| == |rows| && Smooth(calls) && remote.Valid()
    requires done ==> LinksBelow(rows, remote.next)
    ensures var t := Push(rows, remote, done, calls, texts);
            Converged(SyncAll(t.rows, Listing(t.remote, {}), force, texts), t.remote) <==> RoomFor(rows, remote, done)
  {
    hide PushTo, Pushed, Relinked, Grown, Remote.Valid, RoomFor, Covered, Listing;
    var s := Sides(rows, remote, Tally(0, 0, 0));
    var t := Push(rows, remote, done, calls, texts);
    SmoothPushLinks(s, |rows|, done, calls, texts);
    SmoothPushEntries(s, |rows|, done, calls, texts);
    PushKeeps(s, |rows|, done, calls, texts);
    PushLeavesRoom(s, t, done);
    SyncReachesAllIffCovered(t.rows, t.remote, force, texts);
    forall r | r in t.rows ensures r.issue != 0 {
      var k :| 0 <= k < |t.rows| && t.rows[k] == r;
    }
    SyncKeepsTasksLinked(t.rows, Listing(t.remote, {}), force, texts);
  }

  /** Without --done nothing is closed: the room is for all newer open entries and the tasks without an issue. */
  lemma PlainRoom(rows: seq<Row>, remote: Remote)
    ensures RoomFor(rows, remote, false) <==>
      forall i :: i in remote.entries && i.open && !i.pull && !Linked(rows, i.number) ==>
        Newer(remote.entries, {}, i.number) + Unlinked(rows, |rows|) < PAGE
  {
    assert ClosedIn(remote.entries, rows, false) == remote.entries;
  }

  /** Once the sides agree, a sync (filtered or not) without --force and a push without --done change nothing. */
  lemma ConvergedRests(rows: seq<Row>, remote: Remote, labels: set<string>, calls: seq<Calls>, texts: Texts)
    requires Converged(rows, remote) && |calls| == |rows|
    ensures SyncAll(rows, Listing(remote, labels), false, texts) == rows
    ensures var t := Push(rows, remote, false, calls, texts); t.rows == rows && t.remote == remote
  {
    var page := Listing(remote, labels);
    forall i | 0 <= i < |page| ensures Linked(rows, page[i].number) {
      assert page[i] in page;
      var all := Matching(remote.entries, labels);
      WithoutPullsHolds(FirstPage(all), page[i]);
      assert page[i] in all;
    }
    SyncRestsWhenLinked(rows, page, texts);
    PushRestsWhenLinked(Sides(rows, remote, Tally(0, 0, 0)), |rows|, calls, texts);
  }
}
