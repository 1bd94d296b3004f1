/**
  What a receiver can prove about the rows a sink was sent: the offline check
  of a received stream, one chain of it at a time.
*/
module AuditStream {
  import opened Wrappers
  import opened AuditLog

  /** One record of the stream; a truncated one was sent without its payload. */
  datatype Record = Record(row: Row, truncated: bool)

  /** What is kept of a record. */
  datatype Got = Got(prev: Hash, hash: Hash, ok: bool, truncated: bool)

  datatype Pile = Pile(rows: map<nat, seq<Got>>, repeats: nat)

  datatype Range = Range(from: nat, to: nat)

  datatype Verdict = Verdict(rows: nat, repeats: nat, gaps: seq<Range>, forks: seq<nat>, badHashes: seq<nat>,
                             brokenLinks: seq<nat>, unverified: seq<nat>) {
    predicate OK() {
      gaps == [] && forks == [] && badHashes == [] && brokenLinks == []
    }

    /** Nothing reported, and nothing that could not be checked. */
    predicate Clean() {
      OK() && unverified == []
    }
  }

  function GotOf(rec: Record): Got {
    Got(rec.row.prev, rec.row.hash, !rec.truncated && Good(rec.row), rec.truncated)
  }

  predicate HasHash(gots: seq<Got>, hash: Hash) {
    exists i :: 0 <= i < |gots| && gots[i].hash == hash
  }

  function At(rows: map<nat, seq<Got>>, id: nat): seq<Got> {
    if id in rows then rows[id] else []
  }

  /** Filing one record: the same id and hash again is a repeat. */
  function File(p: Pile, rec: Record): Pile {
    var have := At(p.rows, rec.row.id);
    if HasHash(have, rec.row.hash) then p.(repeats := p.repeats + 1)
    else p.(rows := p.rows[rec.row.id := have + [GotOf(rec)]])
  }

  function FileAll(recs: seq<Record>): Pile {
    if recs == [] then Pile(map[], 0) else File(FileAll(recs[..|recs| - 1]), recs[|recs| - 1])
  }

  // -------------------------------------------------- judging a sorted pile

  ghost predicate Ascending(ids: seq<nat>) {
    forall i, j :: 0 <= i < j < |ids| ==> ids[i] < ids[j]
  }

  function GapAt(ids: seq<nat>, i: nat): seq<Range>
    requires i < |ids|
  {
    if i > 0 && ids[i] > 0 && ids[i - 1] != ids[i] - 1 then [Range(ids[i - 1] + 1, ids[i] - 1)] else []
  }

  function ForkAt(rows: map<nat, seq<Got>>, id: nat): seq<nat> {
    if |At(rows, id)| > 1 then [id] else []
  }

  /** A record with its payload whose hash does not come out. */
  predicate AnyBad(gots: seq<Got>) {
    exists i :: 0 <= i < |gots| && !gots[i].truncated && !gots[i].ok
  }

  predicate AnyTruncated(gots: seq<Got>) {
    exists i :: 0 <= i < |gots| && gots[i].truncated
  }

  /** A link that does not hold, where there is one row on each side to judge it by. */
  predicate BrokenAt(rows: map<nat, seq<Got>>, id: nat) {
    |At(rows, id)| == 1 &&
      if id == 1 then At(rows, 1)[0].prev != Genesis
      else id > 0 && |At(rows, id - 1)| == 1 && At(rows, id - 1)[0].hash != At(rows, id)[0].prev
  }

  function If(b: bool, id: nat): seq<nat> {
    if b then [id] else []
  }

  /** What the k-th id adds to a verdict. */
  function JudgedNext(v: Verdict, rows: map<nat, seq<Got>>, ids: seq<nat>, k: nat): Verdict
    requires k < |ids|
  {
    var id := ids[k];
    Verdict(v.rows + |At(rows, id)|, v.repeats, v.gaps + GapAt(ids, k), v.forks + ForkAt(rows, id),
            v.badHashes + If(AnyBad(At(rows, id)), id), v.brokenLinks + If(BrokenAt(rows, id), id),
            v.unverified + If(AnyTruncated(At(rows, id)), id))
  }

  /** The verdict after the first k ids. */
  function Judged(rows: map<nat, seq<Got>>, repeats: nat, ids: seq<nat>, k: nat): Verdict
    requires k <= |ids|
  {
    if k == 0 then Verdict(0, repeats, [], [], [], [], []) else JudgedNext(Judged(rows, repeats, ids, k - 1), rows, ids, k - 1)
  }

  // ---------------------------------------------------- the check as it runs

  method FileStream(recs: seq<Record>) returns (p: Pile)
    ensures p == FileAll(recs)
  {
    hide HasHash;
    p := Pile(map[], 0);
    var n := 0;
    while n < |recs|
      invariant 0 <= n <= |recs|
      invariant p == FileAll(recs[..n])
    {
      assert recs[..n + 1][..n] == recs[..n];
      var rec := recs[n];
      var have := if rec.row.id in p.rows then p.rows[rec.row.id] else [];
      var found := Scan(have, rec.row.hash);
      if found {
        p := p.(repeats := p.repeats + 1);
      } else {
        p := p.(rows := p.rows[rec.row.id := have + [GotOf(rec)]]);
      }
      n := n + 1;
    }
    assert recs[..n] == recs;
  }

  /** Whether a row of this hash is on file. */
  method Scan(have: seq<Got>, hash: Hash) returns (found: bool)
    ensures found <==> HasHash(have, hash)
  {
    var i := 0;
    while i < |have|
      invariant 0 <= i <= |have|
      invariant forall k :: 0 <= k < i ==> have[k].hash != hash
    {
      if have[i].hash == hash {
        return true;
      }
      i := i + 1;
    }
    return false;
  }

  /** The ids of a pile, in ascending order. */
  method SortedIds(rows: map<nat, seq<Got>>) returns (ids: seq<nat>)
    ensures Ascending(ids) && forall id :: id in ids <==> id in rows
  {
    ids := [];
    var rest := rows.Keys;
    while rest != {}
      invariant Ascending(ids) && rest <= rows.Keys
      invariant forall id :: id in rows <==> id in ids || id in rest
      invariant forall i, id :: 0 <= i < |ids| && id in rest ==> ids[i] < id
      decreases rest
    {
      var least :| least in rest;
      var others := rest - {least};
      while others != {}
        invariant others <= rest && least in rest
        invariant forall id :: id in rest && id !in others ==> least <= id
        decreases others
      {
        var id :| id in others;
        if id < least {
          least := id;
        }
        others := others - {id};
      }
      ids, rest := ids + [least], rest - {least};
    }
  }

  method ScanGots(gots: seq<Got>) returns (bad: bool, cut: bool)
    ensures bad == AnyBad(gots) && cut == AnyTruncated(gots)
  {
    bad, cut := false, false;
    var i := 0;
    while i < |gots|
      invariant 0 <= i <= |gots|
      invariant bad <==> exists x :: 0 <= x < i && !gots[x].truncated && !gots[x].ok
      invariant cut <==> exists x :: 0 <= x < i && gots[x].truncated
    {
      if gots[i].truncated {
        cut := true;
      } else if !gots[i].ok {
        bad := true;
      }
      i := i + 1;
    }
  }

  /** One id's part of the verdict. */
  method JudgeId(rows: map<nat, seq<Got>>, ids: seq<nat>, k: nat, v: Verdict) returns (u: Verdict)
    requires k < |ids| && ids[k] in rows && (k > 0 ==> ids[k - 1] < ids[k])
    ensures u == JudgedNext(v, rows, ids, k)
  {
    hide BrokenAt, AnyBad, AnyTruncated;
    var id := ids[k];
    var gots := rows[id];
    var bad, cut := ScanGots(gots);
    u := v.(rows := v.rows + |gots|);
    if k > 0 && ids[k - 1] != id - 1 {
      u := u.(gaps := u.gaps + [Range(ids[k - 1] + 1, id - 1)]);
    }
    if |gots| > 1 {
      u := u.(forks := u.forks + [id]);
    }
    if bad {
      u := u.(badHashes := u.badHashes + [id]);
    }
    if cut {
      u := u.(unverified := u.unverified + [id]);
    }
    // Links are judged only where there is one row on each side to judge them by.
    if BrokenAt(rows, id) {
      u := u.(brokenLinks := u.brokenLinks + [id]);
    }
  }

  method JudgeStream(recs: seq<Record>) returns (v: Verdict, ids: seq<nat>)
    ensures Ascending(ids) && forall id :: id in ids <==> id in FileAll(recs).rows
    ensures v == Judged(FileAll(recs).rows, FileAll(recs).repeats, ids, |ids|)
  {
    hide FileAll, JudgedNext;
    var p := FileStream(recs);
    ids := SortedIds(p.rows);
    v := Verdict(0, p.repeats, [], [], [], [], []);
    var k := 0;
    while k < |ids|
      invariant 0 <= k <= |ids|
      invariant v == Judged(p.rows, p.repeats, ids, k)
    {
      assert ids[k] in ids;
      v := JudgeId(p.rows, ids, k, v);
      k := k + 1;
    }
  }

  // -------------------------------------------------------- what is counted

  ghost predicate Carries(recs: seq<Record>, id: nat, hash: Hash) {
    exists i :: 0 <= i < |recs| && recs[i].row.id == id && recs[i].row.hash == hash
  }

  lemma CarriesSnoc(recs: seq<Record>, id: nat, hash: Hash)
    requires recs != []
    ensures var last := recs[|recs| - 1].row;
            Carries(recs, id, hash) <==> Carries(recs[..|recs| - 1], id, hash) || (last.id == id && last.hash == hash)
  {
    var n := |recs| - 1;
    if Carries(recs[..n], id, hash) {
      var i :| 0 <= i < |recs[..n]| && recs[..n][i].row.id == id && recs[..n][i].row.hash == hash;
      assert recs[i].row.id == id;
    }
    if Carries(recs, id, hash) {
      var i :| 0 <= i < |recs| && recs[i].row.id == id && recs[i].row.hash == hash;
      assert i < n ==> recs[..n][i] == recs[i];
    }
  }

  lemma HasHashSnoc(gots: seq<Got>, g: Got, hash: Hash)
    ensures HasHash(gots + [g], hash) <==> HasHash(gots, hash) || g.hash == hash
  {
    var all := gots + [g];
    assert all[|gots|] == g && forall x :: 0 <= x < |gots| ==> all[x] == gots[x];
  }

  /** Every record was filed or is a repeat of one filed. */
  lemma {:induction false} FiledOnce(recs: seq<Record>, id: nat, hash: Hash)
    ensures HasHash(At(FileAll(recs).rows, id), hash) <==> Carries(recs, id, hash)
  {
    hide HasHash, Carries;
    if recs != [] {
      var n := |recs| - 1;
      FiledOnce(recs[..n], id, hash);
      CarriesSnoc(recs, id, hash);
      HasHashSnoc(At(FileAll(recs[..n]).rows, id), GotOf(recs[n]), hash);
    } else {
      assert !HasHash([], hash) && !Carries(recs, id, hash) by { NothingCarried(id, hash); }
    }
  }

  lemma NothingCarried(id: nat, hash: Hash)
    ensures !HasHash([], hash) && !Carries([], id, hash)
  {
  }

  ghost predicate DistinctHashes(g: seq<Got>) {
    forall i, j :: 0 <= i < j < |g| ==> g[i].hash != g[j].hash
  }

  lemma DistinctSnoc(g: seq<Got>, x: Got)
    requires DistinctHashes(g) && !HasHash(g, x.hash)
    ensures DistinctHashes(g + [x])
  {
  }

  /** An id is in the pile exactly when a record carries it, with at least one row and no hash twice. */
  lemma {:induction false} PileShape(recs: seq<Record>, id: nat)
    ensures id in FileAll(recs).rows <==> exists i :: 0 <= i < |recs| && recs[i].row.id == id
    ensures id in FileAll(recs).rows ==> |FileAll(recs).rows[id]| > 0
    ensures DistinctHashes(At(FileAll(recs).rows, id))
  {
    if recs != [] {
      var n := |recs| - 1;
      PileShape(recs[..n], id);
      if i :| 0 <= i < |recs[..n]| && recs[..n][i].row.id == id {
        assert recs[i].row.id == id;
      }
      if i :| 0 <= i < |recs| && recs[i].row.id == id {
        assert i < n ==> recs[..n][i].row.id == id;
      }
      var have := At(FileAll(recs[..n]).rows, id);
      if recs[n].row.id == id && !HasHash(have, recs[n].row.hash) {
        DistinctSnoc(have, GotOf(recs[n]));
      }
    }
  }

  /** No earlier record of its id carries the hash: the record was filed, not counted as a repeat. */
  ghost predicate FirstOf(recs: seq<Record>, x: int) {
    0 <= x < |recs| && forall y :: 0 <= y < x && recs[y].row.id == recs[x].row.id ==> recs[y].row.hash != recs[x].row.hash
  }

  /** What is kept of an id came from a record of the stream, the first of its id and hash. */
  lemma {:induction false} KeptCame(recs: seq<Record>, id: nat, x: nat) returns (i: nat)
    requires x < |At(FileAll(recs).rows, id)|
    ensures FirstOf(recs, i) && recs[i].row.id == id && At(FileAll(recs).rows, id)[x] == GotOf(recs[i])
  {
    var n := |recs| - 1;
    var before := At(FileAll(recs[..n]).rows, id);
    if x < |before| {
      i := KeptCame(recs[..n], id, x);
    } else {
      i := n;
      FirstIfNew(recs, id);
    }
  }

  lemma FirstIfNew(recs: seq<Record>, id: nat)
    requires recs != [] && recs[|recs| - 1].row.id == id
    requires !HasHash(At(FileAll(recs[..|recs| - 1]).rows, id), recs[|recs| - 1].row.hash)
    ensures FirstOf(recs, |recs| - 1)
  {
    hide HasHash, FileAll;
    var n := |recs| - 1;
    FiledOnce(recs[..n], id, recs[n].row.hash);
    forall y | 0 <= y < n && recs[y].row.id == id ensures recs[y].row.hash != recs[n].row.hash {
      assert recs[..n][y] == recs[y];
    }
  }

  /** And each such record is kept. */
  lemma {:induction false} FirstIsKept(recs: seq<Record>, x: int) returns (k: nat)
    requires FirstOf(recs, x)
    ensures k < |At(FileAll(recs).rows, recs[x].row.id)| && At(FileAll(recs).rows, recs[x].row.id)[k] == GotOf(recs[x])
  {
    var n := |recs| - 1;
    var id := recs[x].row.id;
    var before := At(FileAll(recs[..n]).rows, id);
    if x < n {
      assert recs[..n][x] == recs[x] && FirstOf(recs[..n], x);
      k := FirstIsKept(recs[..n], x);
    } else {
      k := |before|;
      assert !HasHash(before, recs[x].row.hash) by { NotYetFiled(recs, id); }
    }
  }

  lemma NotYetFiled(recs: seq<Record>, id: nat)
    requires recs != [] && recs[|recs| - 1].row.id == id && FirstOf(recs, |recs| - 1)
    ensures !HasHash(At(FileAll(recs[..|recs| - 1]).rows, id), recs[|recs| - 1].row.hash)
  {
    hide HasHash, FileAll;
    var n := |recs| - 1;
    FiledOnce(recs[..n], id, recs[n].row.hash);
    assert forall y :: 0 <= y < n ==> recs[..n][y] == recs[y];
  }

  // ------------------------------------------------------ what is concluded

  /** Everything about an id and its neighbour is as in an intact chain. */
  predicate Sound(rows: map<nat, seq<Got>>, ids: seq<nat>, i: nat)
    requires i < |ids|
  {
    && |At(rows, ids[i])| <= 1 && !AnyBad(At(rows, ids[i])) && !AnyTruncated(At(rows, ids[i]))
    && !BrokenAt(rows, ids[i]) && GapAt(ids, i) == []
  }

  lemma {:induction false} CleanIffSound(rows: map<nat, seq<Got>>, repeats: nat, ids: seq<nat>, k: nat)
    requires k <= |ids|
    ensures Judged(rows, repeats, ids, k).Clean() <==> forall i :: 0 <= i < k ==> Sound(rows, ids, i)
  {
    hide Judged, Sound, Verdict.Clean;
    if k == 0 {
      assert Judged(rows, repeats, ids, 0).Clean() by { NothingIsClean(rows, repeats, ids); }
    } else {
      CleanIffSound(rows, repeats, ids, k - 1);
      CleanStep(rows, repeats, ids, k);
    }
  }

  lemma NothingIsClean(rows: map<nat, seq<Got>>, repeats: nat, ids: seq<nat>)
    ensures Judged(rows, repeats, ids, 0).Clean()
  {
  }

  lemma CleanStep(rows: map<nat, seq<Got>>, repeats: nat, ids: seq<nat>, k: nat)
    requires 0 < k <= |ids|
    ensures Judged(rows, repeats, ids, k).Clean() <==> Judged(rows, repeats, ids, k - 1).Clean() && Sound(rows, ids, k - 1)
  {
    hide AnyBad, AnyTruncated, BrokenAt;
    var u, v := Judged(rows, repeats, ids, k - 1), Judged(rows, repeats, ids, k);
    var id := ids[k - 1];
    assert |v.gaps| == |u.gaps| + |GapAt(ids, k - 1)| && |v.forks| == |u.forks| + |ForkAt(rows, id)|;
    assert |v.badHashes| == |u.badHashes| + |If(AnyBad(At(rows, id)), id)|;
    assert |v.brokenLinks| == |u.brokenLinks| + |If(BrokenAt(rows, id), id)|;
    assert |v.unverified| == |u.unverified| + |If(AnyTruncated(At(rows, id)), id)|;
  }

  /** Sorted ids, all of a pile's and no others. */
  ghost predicate IdsOf(recs: seq<Record>, ids: seq<nat>) {
    Ascending(ids) && forall id :: id in ids <==> id in FileAll(recs).rows
  }

  /** The verdict on a stream whose ids are given sorted. */
  function VerdictOf(recs: seq<Record>, ids: seq<nat>): Verdict {
    Judged(FileAll(recs).rows, FileAll(recs).repeats, ids, |ids|)
  }

  /** Each list of a verdict holds the ids that meet its own condition. */
  lemma {:induction false} JudgedHolds(rows: map<nat, seq<Got>>, repeats: nat, ids: seq<nat>, k: nat, id: nat)
    requires k <= |ids|
    ensures var v := Judged(rows, repeats, ids, k);
            && (id in v.forks <==> id in ids[..k] && |At(rows, id)| > 1)
            && (id in v.badHashes <==> id in ids[..k] && AnyBad(At(rows, id)))
            && (id in v.brokenLinks <==> id in ids[..k] && BrokenAt(rows, id))
            && (id in v.unverified <==> id in ids[..k] && AnyTruncated(At(rows, id)))
    decreases k
  {
    hide AnyBad, AnyTruncated, BrokenAt;
    if k > 0 {
      JudgedHolds(rows, repeats, ids, k - 1, id);
      assert ids[..k] == ids[..k - 1] + [ids[k - 1]];
    }
  }

  lemma VerdictHolds(recs: seq<Record>, ids: seq<nat>, id: nat)
    requires IdsOf(recs, ids)
    ensures var v := VerdictOf(recs, ids); var rows := FileAll(recs).rows;
            && (id in v.forks <==> |At(rows, id)| > 1)
            && (id in v.badHashes <==> AnyBad(At(rows, id)))
            && (id in v.brokenLinks <==> BrokenAt(rows, id))
            && (id in v.unverified <==> AnyTruncated(At(rows, id)))
  {
    hide FileAll, Judged;
    assert ids[..|ids|] == ids;
    JudgedHolds(FileAll(recs).rows, FileAll(recs).repeats, ids, |ids|, id);
  }

  /** Two records of the id carry different hashes. */
  ghost predicate Forked(recs: seq<Record>, id: nat) {
    exists x, y :: 0 <= x < |recs| && 0 <= y < |recs| && recs[x].row.id == id && recs[y].row.id == id
      && recs[x].row.hash != recs[y].row.hash
  }

  lemma ManyKeptIff(recs: seq<Record>, id: nat)
    ensures |At(FileAll(recs).rows, id)| > 1 <==> Forked(recs, id)
  {
    var g := At(FileAll(recs).rows, id);
    PileShape(recs, id);
    if |g| > 1 {
      var x := KeptCame(recs, id, 0);
      var y := KeptCame(recs, id, 1);
      assert recs[x].row.hash != recs[y].row.hash;
    }
    if x, y :| 0 <= x < |recs| && 0 <= y < |recs| && recs[x].row.id == id && recs[y].row.id == id && recs[x].row.hash != recs[y].row.hash {
      FiledOnce(recs, id, recs[x].row.hash);
      FiledOnce(recs, id, recs[y].row.hash);
      assert Carries(recs, id, recs[x].row.hash) && Carries(recs, id, recs[y].row.hash);
    }
  }

  /** The verdict reports an id as forked exactly when two records of it carry different hashes. */
  lemma ForksIff(recs: seq<Record>, ids: seq<nat>, id: nat)
    requires IdsOf(recs, ids)
    ensures id in VerdictOf(recs, ids).forks <==> Forked(recs, id)
  {
    hide FileAll, Judged, Forked;
    VerdictHolds(recs, ids, id);
    ManyKeptIff(recs, id);
  }

  /**
    It reports a bad hash exactly when some record of the id, the first with its
    hash, has its payload and does not come out; unverified, exactly when such a
    record came without its payload.
  */
  lemma BadHashesIff(recs: seq<Record>, ids: seq<nat>, id: nat)
    requires IdsOf(recs, ids)
    ensures id in VerdictOf(recs, ids).badHashes <==>
              exists x :: FirstOf(recs, x) && recs[x].row.id == id && !recs[x].truncated && !Good(recs[x].row)
    ensures id in VerdictOf(recs, ids).unverified <==>
              exists x :: FirstOf(recs, x) && recs[x].row.id == id && recs[x].truncated
  {
    hide FileAll, Judged, Good;
    VerdictHolds(recs, ids, id);
    var g := At(FileAll(recs).rows, id);
    if k :| 0 <= k < |g| && !g[k].truncated && !g[k].ok {
      var x := KeptCame(recs, id, k);
    }
    if k :| 0 <= k < |g| && g[k].truncated {
      var x := KeptCame(recs, id, k);
    }
    forall x | FirstOf(recs, x) && recs[x].row.id == id ensures exists k :: 0 <= k < |g| && g[k] == GotOf(recs[x]) {
      var k := FirstIsKept(recs, x);
    }
  }

  /** A record of an id all of whose records carry one hash. */
  ghost predicate Alone(recs: seq<Record>, x: int) {
    FirstOf(recs, x) && !Forked(recs, recs[x].row.id)
  }

  lemma AloneIs(recs: seq<Record>, x: int)
    requires Alone(recs, x)
    ensures At(FileAll(recs).rows, recs[x].row.id) == [GotOf(recs[x])]
  {
    hide FileAll, Forked;
    ManyKeptIff(recs, recs[x].row.id);
    var k := FirstIsKept(recs, x);
  }

  lemma OneKept(recs: seq<Record>, id: nat) returns (x: nat)
    requires |At(FileAll(recs).rows, id)| == 1
    ensures Alone(recs, x) && recs[x].row.id == id && At(FileAll(recs).rows, id) == [GotOf(recs[x])]
  {
    hide FileAll, Forked, FirstOf;
    ManyKeptIff(recs, id);
    x := KeptCame(recs, id, 0);
  }

  /** The link of the record at x does not hold: to the start of the chain, or to the one row received before it. */
  ghost predicate Unlinked(recs: seq<Record>, x: int) {
    && Alone(recs, x)
    && if recs[x].row.id == 1 then recs[x].row.prev != Genesis
       else exists y :: Alone(recs, y) && recs[y].row.id + 1 == recs[x].row.id && recs[y].row.hash != recs[x].row.prev
  }

  /** It reports a broken link exactly where an id and the one before it came with one hash each, and the hash is not the link. */
  lemma BrokenLinksIff(recs: seq<Record>, ids: seq<nat>, id: nat)
    requires IdsOf(recs, ids)
    ensures id in VerdictOf(recs, ids).brokenLinks <==> exists x :: Unlinked(recs, x) && recs[x].row.id == id
  {
    hide FileAll, Judged, Forked;
    VerdictHolds(recs, ids, id);
    var rows := FileAll(recs).rows;
    if BrokenAt(rows, id) {
      var x := OneKept(recs, id);
      if id != 1 {
        var y := OneKept(recs, id - 1);
        assert recs[y].row.id + 1 == recs[x].row.id;
      }
      assert Unlinked(recs, x);
    }
    if x :| Unlinked(recs, x) && recs[x].row.id == id {
      AloneIs(recs, x);
      if id != 1 {
        var y :| Alone(recs, y) && recs[y].row.id + 1 == recs[x].row.id && recs[y].row.hash != recs[x].row.prev;
        AloneIs(recs, y);
      }
    }
  }

  lemma {:induction false} GapsHold(rows: map<nat, seq<Got>>, repeats: nat, ids: seq<nat>, k: nat, id: nat)
    requires Ascending(ids) && 0 < k <= |ids| && ids[0] <= id <= ids[k - 1]
    ensures id !in ids[..k] <==> exists g :: g in Judged(rows, repeats, ids, k).gaps && g.from <= id <= g.to
  {
    var v := Judged(rows, repeats, ids, k);
    if k > 1 {
      var u := Judged(rows, repeats, ids, k - 1);
      if id <= ids[k - 2] {
        GapsHold(rows, repeats, ids, k - 1, id);
        assert forall g :: g in GapAt(ids, k - 1) ==> id < g.from;
        assert forall x :: x in ids[..k] <==> x in ids[..k - 1] || x == ids[k - 1];
      } else {
        GapsBelow(rows, repeats, ids, k - 1);
        if id < ids[k - 1] {
          assert Range(ids[k - 2] + 1, ids[k - 1] - 1) in v.gaps;
          assert forall x :: 0 <= x < k ==> ids[x] <= ids[k - 2] || ids[x] == ids[k - 1];
        } else {
          assert ids[..k][k - 1] == id;
        }
      }
    } else {
      assert ids[..k][0] == id;
      NoGapYet(rows, repeats, ids);
    }
  }

  lemma NoGapYet(rows: map<nat, seq<Got>>, repeats: nat, ids: seq<nat>)
    requires ids != []
    ensures Judged(rows, repeats, ids, 1).gaps == []
  {
    assert Judged(rows, repeats, ids, 0).gaps == [] && GapAt(ids, 0) == [];
    assert Judged(rows, repeats, ids, 1) == JudgedNext(Judged(rows, repeats, ids, 0), rows, ids, 0);
  }

  lemma {:induction false} GapsBelow(rows: map<nat, seq<Got>>, repeats: nat, ids: seq<nat>, k: nat)
    requires Ascending(ids) && 0 < k <= |ids|
    ensures forall g :: g in Judged(rows, repeats, ids, k).gaps ==> ids[0] < g.from && g.to < ids[k - 1]
  {
    if k > 1 {
      GapsBelow(rows, repeats, ids, k - 1);
    } else {
      assert Judged(rows, repeats, ids, 0).gaps == [];
    }
  }

  ghost predicate Received(recs: seq<Record>, id: nat) {
    exists i :: 0 <= i < |recs| && recs[i].row.id == id
  }

  /** The gaps reported hold exactly the ids that no record carries and that lie between two that one does. */
  lemma GapsIff(recs: seq<Record>, ids: seq<nat>, id: nat)
    requires IdsOf(recs, ids)
    ensures (exists g :: g in VerdictOf(recs, ids).gaps && g.from <= id <= g.to) <==>
      !Received(recs, id) && exists a: nat, b: nat :: a < id < b && Received(recs, a) && Received(recs, b)
  {
    hide FileAll, Judged, Received;
    forall n: nat ensures n in ids <==> Received(recs, n) {
      PileIds(recs, n);
    }
    var rows, repeats := FileAll(recs).rows, FileAll(recs).repeats;
    if ids == [] {
      NoGaps(rows, repeats, ids);
    } else {
      var last := |ids| - 1;
      assert ids[..|ids|] == ids && ids[0] in ids && ids[last] in ids;
      GapsBelow(rows, repeats, ids, |ids|);
      if ids[0] <= id <= ids[last] {
        GapsHold(rows, repeats, ids, |ids|, id);
      }
      forall n | n in ids ensures ids[0] <= n <= ids[last] {
        var i :| 0 <= i < |ids| && ids[i] == n;
      }
    }
  }

  lemma NoGaps(rows: map<nat, seq<Got>>, repeats: nat, ids: seq<nat>)
    requires ids == []
    ensures Judged(rows, repeats, ids, |ids|).gaps == []
  {
  }

  lemma PileIds(recs: seq<Record>, id: nat)
    ensures id in FileAll(recs).rows <==> Received(recs, id)
  {
    hide FileAll;
    PileShape(recs, id);
  }

  // ----------------------------------------------------- payloads left out

  /** The same rows in the same order, whichever of them came without their payload. */
  ghost predicate SameRows(a: seq<Record>, b: seq<Record>) {
    |a| == |b| && forall i :: 0 <= i < |a| ==> a[i].row == b[i].row
  }

  lemma {:induction false} GapsAreProper(rows: map<nat, seq<Got>>, repeats: nat, ids: seq<nat>, k: nat)
    requires Ascending(ids) && k <= |ids|
    ensures forall g :: g in Judged(rows, repeats, ids, k).gaps ==> g.from <= g.to
  {
    if k > 0 {
      GapsAreProper(rows, repeats, ids, k - 1);
    }
  }

  lemma SameIds(a: seq<Record>, b: seq<Record>, ids: seq<nat>)
    requires SameRows(a, b) && IdsOf(a, ids)
    ensures IdsOf(b, ids)
  {
    hide FileAll;
    forall id: nat ensures id in FileAll(a).rows <==> id in FileAll(b).rows {
      PileShape(a, id);
      PileShape(b, id);
    }
  }

  lemma SameJudgedOf(a: seq<Record>, b: seq<Record>)
    requires SameRows(a, b)
    ensures forall id :: Forked(a, id) <==> Forked(b, id)
    ensures forall id :: Received(a, id) <==> Received(b, id)
    ensures forall x :: FirstOf(a, x) <==> FirstOf(b, x)
    ensures forall x :: Unlinked(a, x) <==> Unlinked(b, x)
  {
    assert forall id :: Forked(a, id) <==> Forked(b, id);
    assert forall x :: FirstOf(a, x) <==> FirstOf(b, x);
    assert forall x :: Alone(a, x) <==> Alone(b, x);
  }

  /** Leaving payloads out of a stream that checks out reports nothing: it only leaves rows unverified. */
  lemma PayloadsOnlyVerify(a: seq<Record>, b: seq<Record>, ids: seq<nat>)
    requires SameRows(a, b) && IdsOf(a, ids) && VerdictOf(a, ids).OK()
    requires forall i :: 0 <= i < |a| ==> !a[i].truncated
    ensures VerdictOf(b, ids).OK()
  {
    hide VerdictOf, FirstOf, Forked, Received, Good;
    SameIds(a, b, ids);
    SameJudgedOf(a, b);
    var v := VerdictOf(b, ids);
    forall id: nat ensures id !in v.forks && id !in v.badHashes && id !in v.brokenLinks {
      ForksIff(a, ids, id);
      ForksIff(b, ids, id);
      BrokenStaysBroken(a, b, ids, id);
      BadStaysBad(a, b, ids, id);
    }
    NoGapsLeft(a, b, ids);
    EmptyIff(v.forks);
    EmptyIff(v.badHashes);
    EmptyIff(v.brokenLinks);
  }

  lemma EmptyIff(ids: seq<nat>)
    ensures ids == [] <==> forall id :: id !in ids
  {
    if ids != [] {
      assert ids[0] in ids;
    }
  }

  lemma BadStaysBad(a: seq<Record>, b: seq<Record>, ids: seq<nat>, id: nat)
    requires SameRows(a, b) && IdsOf(a, ids) && IdsOf(b, ids) && forall i :: 0 <= i < |a| ==> !a[i].truncated
    ensures id in VerdictOf(b, ids).badHashes ==> id in VerdictOf(a, ids).badHashes
  {
    hide Good, VerdictOf, IdsOf;
    BadHashesIff(a, ids, id);
    BadHashesIff(b, ids, id);
    if x :| FirstOf(b, x) && b[x].row.id == id && !b[x].truncated && !Good(b[x].row) {
      assert FirstOf(a, x) && a[x].row.id == id && !a[x].truncated && a[x].row == b[x].row;
    }
  }

  lemma BrokenStaysBroken(a: seq<Record>, b: seq<Record>, ids: seq<nat>, id: nat)
    requires SameRows(a, b) && IdsOf(a, ids) && IdsOf(b, ids)
    ensures id in VerdictOf(b, ids).brokenLinks ==> id in VerdictOf(a, ids).brokenLinks
  {
    hide VerdictOf, IdsOf;
    BrokenLinksIff(a, ids, id);
    BrokenLinksIff(b, ids, id);
    SameJudgedOf(a, b);
    if x :| Unlinked(b, x) && b[x].row.id == id {
      assert Unlinked(a, x) && a[x].row.id == id;
    }
  }

  lemma NoGapsLeft(a: seq<Record>, b: seq<Record>, ids: seq<nat>)
    requires SameRows(a, b) && IdsOf(a, ids) && IdsOf(b, ids) && VerdictOf(a, ids).gaps == []
    ensures VerdictOf(b, ids).gaps == []
  {
    hide Received, FileAll;
    var gaps := VerdictOf(b, ids).gaps;
    if gaps != [] {
      var g := gaps[0];
      assert g in gaps;
      GapsAreProper(FileAll(b).rows, FileAll(b).repeats, ids, |ids|);
      GapsIff(a, ids, g.from);
      GapsIff(b, ids, g.from);
      SameJudgedOf(a, b);
    }
  }

  // -------------------------------------------------- repeats are what is left

  lemma {:induction false} CountUpdated(rows: map<nat, seq<Got>>, repeats: nat, ids: seq<nat>, k: nat, id: nat, g: Got)
    requires Ascending(ids) && k <= |ids|
    ensures var after := rows[id := At(rows, id) + [g]];
            Judged(after, repeats, ids, k).rows == Judged(rows, repeats, ids, k).rows + if id in ids[..k] then 1 else 0
  {
    if k > 0 {
      CountUpdated(rows, repeats, ids, k - 1, id, g);
      assert forall x :: x in ids[..k] <==> x in ids[..k - 1] || x == ids[k - 1];
      assert ids[k - 1] !in ids[..k - 1];
    }
  }

  lemma {:induction false} CountAnyRepeats(rows: map<nat, seq<Got>>, a: nat, b: nat, ids: seq<nat>, k: nat)
    requires k <= |ids|
    ensures Judged(rows, a, ids, k).rows == Judged(rows, b, ids, k).rows
    ensures rows == map[] ==> Judged(rows, a, ids, k).rows == 0
  {
    if k > 0 {
      CountAnyRepeats(rows, a, b, ids, k - 1);
    }
  }

  /** Distinct rows and repeats add up to the records received. */
  lemma {:induction false} RowsAndRepeats(recs: seq<Record>, ids: seq<nat>)
    requires Ascending(ids) && forall id :: id in FileAll(recs).rows ==> id in ids
    ensures var p := FileAll(recs); Judged(p.rows, p.repeats, ids, |ids|).rows + p.repeats == |recs|
  {
    var p := FileAll(recs);
    if recs == [] {
      CountAnyRepeats(p.rows, 0, 0, ids, |ids|);
    } else {
      var q := FileAll(recs[..|recs| - 1]);
      var rec := recs[|recs| - 1];
      RowsAndRepeats(recs[..|recs| - 1], ids);
      CountAnyRepeats(p.rows, p.repeats, q.repeats, ids, |ids|);
      if !HasHash(At(q.rows, rec.row.id), rec.row.hash) {
        CountUpdated(q.rows, q.repeats, ids, |ids|, rec.row.id, GotOf(rec));
        assert ids[..|ids|] == ids;
      }
    }
  }

  // ------------------------------------------ a clean verdict is an intact chain

  /** The first record received with an id: the one that is checked. */
  function FirstIn(recs: seq<Record>, id: nat): (r: Option<Record>)
    ensures r.Some? ==> r.value.row.id == id
  {
    if recs == [] then None
    else
      match FirstIn(recs[..|recs| - 1], id)
      case Some(r) => Some(r)
      case None => if recs[|recs| - 1].row.id == id then Some(recs[|recs| - 1]) else None
  }

  lemma {:induction false} KeptFirst(recs: seq<Record>, id: nat)
    ensures id in FileAll(recs).rows <==> FirstIn(recs, id).Some?
    ensures FirstIn(recs, id).Some? ==> |At(FileAll(recs).rows, id)| > 0 && At(FileAll(recs).rows, id)[0] == GotOf(FirstIn(recs, id).value)
  {
    if recs != [] {
      KeptFirst(recs[..|recs| - 1], id);
    }
  }

  /**
    What a clean verdict stands for: the first record of each id, in id order,
    is an intact chain, and every later record carries the hash of the chain's
    row of its id.
  */
  ghost predicate Delivers(recs: seq<Record>, chain: seq<Row>, first: nat, prev: Hash) {
    && first > 0 && Linked(chain, first, prev) && (first == 1 ==> prev == Genesis)
    && (forall i :: 0 <= i < |recs| ==> OfChain(recs[i].row, chain, first))
    && forall k :: 0 <= k < |chain| ==> FirstIn(recs, first + k) == Some(Record(chain[k], false))
  }

  predicate OfChain(r: Row, chain: seq<Row>, first: nat) {
    first <= r.id < first + |chain| && r.hash == chain[r.id - first].hash
  }

  /** Of a delivered chain exactly one row is kept for each id: the chain's own. */
  lemma {:induction false} DeliveredKept(recs: seq<Record>, chain: seq<Row>, first: nat, prev: Hash, id: nat)
    requires Delivers(recs, chain, first, prev)
    ensures id in FileAll(recs).rows <==> first <= id < first + |chain|
    ensures id in FileAll(recs).rows ==>
              At(FileAll(recs).rows, id) == [Got(chain[id - first].prev, chain[id - first].hash, true, false)]
  {
    KeptFirst(recs, id);
    PileShape(recs, id);
    forall i | 0 <= i < |recs| && recs[i].row.id == id ensures first <= id < first + |chain| {
      assert OfChain(recs[i].row, chain, first);
    }
    if first <= id < first + |chain| {
      assert FirstIn(recs, first + (id - first)) == Some(Record(chain[id - first], false));
      assert RowAt(chain, id - first, first, prev);
      var g := At(FileAll(recs).rows, id);
      forall x | 0 <= x < |g| ensures g[x].hash == chain[id - first].hash {
        var i := KeptCame(recs, id, x);
        assert OfChain(recs[i].row, chain, first);
      }
      var one, last := g[0], g[|g| - 1];
      assert one.hash == last.hash;
    }
  }

  /** Ascending ids are at least as far apart as their places. */
  lemma {:induction false} Spread(ids: seq<nat>, i: nat)
    requires Ascending(ids) && i < |ids|
    ensures ids[i] >= ids[0] + i
  {
    if i > 0 {
      Spread(ids, i - 1);
    }
  }

  /** A list of ids that holds exactly a range is that range in order. */
  lemma {:induction false} RangeInOrder(ids: seq<nat>, first: nat, n: nat)
    requires Ascending(ids) && forall id: nat :: id in ids <==> first <= id < first + n
    ensures |ids| == n && forall i :: 0 <= i < n ==> ids[i] == first + i
  {
    Covers(ids, first, n, n);
    if ids != [] {
      assert ids[0] in ids && ids[|ids| - 1] in ids;
      Spread(ids, |ids| - 1);
    }
  }

  lemma {:induction false} Covers(ids: seq<nat>, first: nat, n: nat, k: nat)
    requires Ascending(ids) && k <= n && forall id: nat :: id in ids <==> first <= id < first + n
    ensures k <= |ids| && forall i :: 0 <= i < k ==> ids[i] == first + i
  {
    if k > 0 {
      Covers(ids, first, n, k - 1);
      assert first + k - 1 in ids;
      var x :| 0 <= x < |ids| && ids[x] == first + k - 1;
      assert x >= k - 1;
      var mine := ids[k - 1];
      assert mine in ids;
      assert k > 1 ==> ids[k - 2] < mine;
    }
  }

  /** Every in-order or repeated delivery of an intact chain gets a clean verdict, one row per id. */
  lemma DeliveredIsClean(recs: seq<Record>, chain: seq<Row>, first: nat, prev: Hash, ids: seq<nat>)
    requires Delivers(recs, chain, first, prev) && IdsOf(recs, ids)
    ensures |ids| == |chain|
    ensures Judged(FileAll(recs).rows, FileAll(recs).repeats, ids, |ids|).Clean()
  {
    var rows := FileAll(recs).rows;
    forall id: nat ensures id in ids <==> first <= id < first + |chain| {
      DeliveredKept(recs, chain, first, prev, id);
    }
    RangeInOrder(ids, first, |chain|);
    forall i | 0 <= i < |ids| ensures Sound(rows, ids, i) {
      DeliveredSound(recs, chain, first, prev, ids, i);
    }
    CleanIffSound(rows, FileAll(recs).repeats, ids, |ids|);
  }

  lemma DeliveredSound(recs: seq<Record>, chain: seq<Row>, first: nat, prev: Hash, ids: seq<nat>, i: nat)
    requires Delivers(recs, chain, first, prev)
    requires |ids| == |chain| && i < |ids| && forall x :: 0 <= x < |ids| ==> ids[x] == first + x
    ensures Sound(FileAll(recs).rows, ids, i)
  {
    hide FileAll, FirstIn, OfChain;
    DeliveredKept(recs, chain, first, prev, ids[i]);
    assert RowAt(chain, i, first, prev);
    if ids[i] > 0 {
      DeliveredKept(recs, chain, first, prev, ids[i] - 1);
    }
  }

  lemma {:induction false} CleanIds(rows: map<nat, seq<Got>>, ids: seq<nat>, k: nat)
    requires Ascending(ids) && k < |ids| && forall i :: 0 <= i < |ids| ==> Sound(rows, ids, i)
    ensures ids[k] == ids[0] + k
  {
    if k > 0 {
      CleanIds(rows, ids, k - 1);
      assert Sound(rows, ids, k);
    }
  }

  ghost function FirstRows(recs: seq<Record>, ids: seq<nat>): (chain: seq<Row>)
    requires forall id :: id in ids ==> FirstIn(recs, id).Some?
    ensures |chain| == |ids| && forall k :: 0 <= k < |ids| ==> chain[k] == FirstIn(recs, ids[k]).value.row
  {
    seq(|ids|, k requires 0 <= k < |ids| => FirstIn(recs, ids[k]).value.row)
  }

  /** A clean verdict over a non-empty stream shows an intact chain was delivered. */
  lemma CleanIsDelivered(recs: seq<Record>, ids: seq<nat>) returns (chain: seq<Row>, prev: Hash)
    requires IdsOf(recs, ids) && recs != [] && forall i :: 0 <= i < |recs| ==> recs[i].row.id > 0
    requires Judged(FileAll(recs).rows, FileAll(recs).repeats, ids, |ids|).Clean()
    ensures |chain| == |ids| > 0 && Delivers(recs, chain, ids[0], prev)
  {
    var rows := FileAll(recs).rows;
    CleanIffSound(rows, FileAll(recs).repeats, ids, |ids|);
    PileShape(recs, recs[0].row.id);
    assert recs[0].row.id in ids;
    forall id | id in ids ensures FirstIn(recs, id).Some? {
      KeptFirst(recs, id);
    }
    PileShape(recs, ids[0]);
    assert ids[0] in ids;
    chain := FirstRows(recs, ids);
    prev := chain[0].prev;
    CleanChain(recs, ids);
    FirstIsGenesis(recs, ids);
    CleanRecords(recs, ids);
  }

  lemma CleanChain(recs: seq<Record>, ids: seq<nat>)
    requires IdsOf(recs, ids) && ids != [] && forall i :: 0 <= i < |ids| ==> Sound(FileAll(recs).rows, ids, i)
    requires ids[0] > 0 && forall id :: id in ids ==> FirstIn(recs, id).Some?
    ensures var chain := FirstRows(recs, ids);
            && Linked(chain, ids[0], chain[0].prev)
            && forall k :: 0 <= k < |chain| ==> FirstIn(recs, ids[0] + k) == Some(Record(chain[k], false))
  {
    hide Sound, FirstRows, FirstIn, FileAll, RowAt, IdsOf, Ascending;
    var chain := FirstRows(recs, ids);
    var first, prev := ids[0], chain[0].prev;
    forall k | 0 <= k < |chain| ensures RowAt(chain, k, first, prev) && FirstIn(recs, first + k) == Some(Record(chain[k], false)) {
      CleanChainRow(recs, ids, k);
    }
  }

  lemma CleanRecords(recs: seq<Record>, ids: seq<nat>)
    requires IdsOf(recs, ids) && ids != [] && forall i :: 0 <= i < |ids| ==> Sound(FileAll(recs).rows, ids, i)
    requires forall id :: id in ids ==> FirstIn(recs, id).Some?
    ensures forall i :: 0 <= i < |recs| ==> OfChain(recs[i].row, FirstRows(recs, ids), ids[0])
  {
    var chain, first := FirstRows(recs, ids), ids[0];
    forall i | 0 <= i < |recs| ensures OfChain(recs[i].row, chain, first) {
      CleanRecord(recs, ids, i);
    }
  }

  lemma {:induction false} CleanChainRow(recs: seq<Record>, ids: seq<nat>, k: nat)
    requires IdsOf(recs, ids) && k < |ids| && forall i :: 0 <= i < |ids| ==> Sound(FileAll(recs).rows, ids, i)
    requires ids[0] > 0 && forall id :: id in ids ==> FirstIn(recs, id).Some?
    ensures var chain := FirstRows(recs, ids);
            RowAt(chain, k, ids[0], chain[0].prev) && FirstIn(recs, ids[0] + k) == Some(Record(chain[k], false))
  {
    CleanRow(recs, ids, k);
    if k > 0 {
      CleanRow(recs, ids, k - 1);
    }
  }

  lemma FirstIsGenesis(recs: seq<Record>, ids: seq<nat>)
    requires IdsOf(recs, ids) && ids != [] && forall i :: 0 <= i < |ids| ==> Sound(FileAll(recs).rows, ids, i)
    requires forall id :: id in ids ==> FirstIn(recs, id).Some?
    ensures ids[0] == 1 ==> FirstRows(recs, ids)[0].prev == Genesis
  {
    CleanRow(recs, ids, 0);
    assert Sound(FileAll(recs).rows, ids, 0);
  }

  /** Under a clean verdict the k-th id is the k-th of the range, kept once, and hashes and links. */
  lemma {:induction false} CleanRow(recs: seq<Record>, ids: seq<nat>, k: nat)
    requires IdsOf(recs, ids) && k < |ids| && forall i :: 0 <= i < |ids| ==> Sound(FileAll(recs).rows, ids, i)
    ensures ids[k] == ids[0] + k
    ensures FirstIn(recs, ids[k]).Some? && !FirstIn(recs, ids[k]).value.truncated && Good(FirstIn(recs, ids[k]).value.row)
    ensures At(FileAll(recs).rows, ids[k]) == [GotOf(FirstIn(recs, ids[k]).value)]
    ensures k > 0 && ids[k] != 1 ==>
      && FirstIn(recs, ids[k - 1]).Some?
      && FirstIn(recs, ids[k - 1]).value.row.hash == FirstIn(recs, ids[k]).value.row.prev
  {
    var rows := FileAll(recs).rows;
    CleanIds(rows, ids, k);
    assert ids[k] in ids && Sound(rows, ids, k);
    KeptFirst(recs, ids[k]);
    var g := At(rows, ids[k]);
    assert g == [g[0]];
    assert !AnyBad(g) && !AnyTruncated(g);
    if k > 0 {
      CleanIds(rows, ids, k - 1);
      assert ids[k - 1] in ids && Sound(rows, ids, k - 1);
      KeptFirst(recs, ids[k - 1]);
    }
  }

  lemma {:induction false} CleanRecord(recs: seq<Record>, ids: seq<nat>, i: nat)
    requires IdsOf(recs, ids) && i < |recs| && forall k :: 0 <= k < |ids| ==> Sound(FileAll(recs).rows, ids, k)
    requires forall id :: id in ids ==> FirstIn(recs, id).Some?
    ensures |ids| > 0 && OfChain(recs[i].row, FirstRows(recs, ids), ids[0])
  {
    var id := recs[i].row.id;
    PileShape(recs, id);
    assert id in ids;
    var k :| 0 <= k < |ids| && ids[k] == id;
    CleanRow(recs, ids, k);
    FiledOnce(recs, id, recs[i].row.hash);
    var chain := FirstRows(recs, ids);
    assert chain[k] == FirstIn(recs, id).value.row;
    assert Carries(recs, id, recs[i].row.hash);
    assert recs[i].row.hash == chain[k].hash;
  }

  /** The verdict is clean exactly when some intact chain was delivered; a chain's ids start at 1. */
  lemma CleanIff(recs: seq<Record>, ids: seq<nat>)
    requires IdsOf(recs, ids) && recs != [] && forall i :: 0 <= i < |recs| ==> recs[i].row.id > 0
    ensures Judged(FileAll(recs).rows, FileAll(recs).repeats, ids, |ids|).Clean()
       <==> exists chain, first, prev :: Delivers(recs, chain, first, prev)
  {
    if Judged(FileAll(recs).rows, FileAll(recs).repeats, ids, |ids|).Clean() {
      var chain, prev := CleanIsDelivered(recs, ids);
    }
    if chain, first, prev :| Delivers(recs, chain, first, prev) {
      DeliveredIsClean(recs, chain, first, prev, ids);
    }
  }

  /**
    A repeat is told by its hash alone: a record whose content was altered, but
    not its hash, is not reported once the genuine one has been received.
  */
  lemma AlteredRepeatIsNotReported(recs: seq<Record>, chain: seq<Row>, first: nat, prev: Hash, k: nat, e: Event)
    requires Delivers(recs, chain, first, prev) && k < |chain|
    ensures Delivers(recs + [Record(chain[k].(event := e), false)], chain, first, prev)
  {
    var more := recs + [Record(chain[k].(event := e), false)];
    assert more[..|recs|] == recs;
    assert RowAt(chain, k, first, prev);
    forall i | 0 <= i < |more| ensures OfChain(more[i].row, chain, first) {
      assert i < |recs| ==> OfChain(recs[i].row, chain, first);
    }
  }
}
