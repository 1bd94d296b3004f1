/**
  Whether two `config set`s can be made in either order: what the check of the
  whole configuration and the environment make of one set after another.
*/
module ConfigOrder {
  import opened Wrappers
  import opened Text
  import opened ConfigSet

  /** A file as an accepted set leaves it. */
  ghost predicate Settled(file: Config, lib: Library) {
    Validates(file, lib) && Clean(file, lib) && lib.repair(file.rest) == file.rest
  }

  /** What is written for a new project, the defaults and nothing else, is one. */
  lemma DefaultsAreSettled(rest: string, lib: Library)
    requires lib.sound(rest) && lib.repair(rest) == rest
    ensures Settled(Filled(Config(map[], rest)), lib)
  {
    hide Sound, ClampedKey, AsStored, Default, Clean, Filled;
    var file := Filled(Config(map[], rest));
    assert file.rest == rest && forall k :: k in DEFAULTED ==> k in file.keys by { FilledStates(rest); }
    forall k | k in CHECKED ensures At(file, k) == Unset && Sound(k, At(file, k), lib) {
      FilledAt(Config(map[], rest), k);
      ResetIsSound(k, lib);
    }
    assert CONNS in CHECKED && PER_IP in CHECKED && PER_EXECUTOR in CHECKED && TOTAL in CHECKED && GATE in CHECKED;
    assert AsStored(At(file, GATE)) by { RepairedIsSound(GATE, Unset, lib); RepairedUnset(GATE, lib); }
    CleanIff(file, lib);
  }

  lemma FilledStates(rest: string)
    ensures var file := Filled(Config(map[], rest)); file.rest == rest && forall k :: k in DEFAULTED ==> k in file.keys
  {
    hide Default;
  }

  /** Configurations that hold the same. */
  ghost predicate Same(c: Config, d: Config) {
    c.rest == d.rest && forall k :: At(c, k) == At(d, k)
  }

  predicate Takes(file: Config, key: string, v: Value, lib: Library) {
    Validates(With(file, key, v), lib)
  }

  predicate TakesBoth(file: Config, p: string, x: Value, q: string, y: Value, lib: Library) {
    Validates(With(With(file, p, x), q, y), lib)
  }

  /** The next load does not put the environment's value in its place. */
  predicate Stays(env: Env, key: string, v: Value) {
    Plain(env, key).Some? ==> v == Txt(Plain(env, key).value)
  }

  lemma TakesIff(file: Config, env: Env, key: string, v: Value, lib: Library)
    requires Clean(file, lib) && lib.repair(file.rest) == file.rest
    ensures Validates(Changed(file, env, key, v, lib), lib) <==> Takes(file, key, v, lib)
  {
    hide Changed, Validates, LoadedKey;
    SavedRest(file, env, key, v, lib);
    forall k | k in CHECKED ensures At(Changed(file, env, key, v, lib), k) == At(With(file, key, v), k) {
      ChangedAt(file, env, key, v, k, lib);
      assert LeftAlone(file, k, lib);
    }
    Congruent(Changed(file, env, key, v, lib), With(file, key, v), lib);
  }

  /** What is on file after an accepted set of a settled file. */
  function Kept(file: Config, env: Env, key: string, v: Value, k: string): Value {
    if k == key then (if Secret(env, k).Some? && v == Txt(Secret(env, k).value) then At(file, k) else v)
    else if Plain(env, k).Some? then Txt(Plain(env, k).value)
    else At(file, k)
  }

  lemma AppliedAt(file: Config, env: Env, key: string, v: Value, k: string, lib: Library)
    requires Settled(file, lib)
    ensures var next := Applied(file, env, key, v, lib);
            next.rest == file.rest && At(next, k) == if Takes(file, key, v, lib) then Kept(file, env, key, v, k) else At(file, k)
  {
    hide Changed, Saved, Validates, Takes, LoadedKey, Plain, Secret;
    TakesIff(file, env, key, v, lib);
    SavedRest(file, env, key, v, lib);
    SavedAt(file, env, key, v, k, lib);
    assert LeftAlone(file, k, lib);
  }

  lemma AppliedIsSettled(file: Config, env: Env, key: string, v: Value, lib: Library)
    requires Settled(file, lib) && (key == GATE ==> AsStored(v))
    ensures Settled(Applied(file, env, key, v, lib), lib)
  {
    hide Changed, Saved, Validates, Clean, AsStored;
    if Validates(Changed(file, env, key, v, lib), lib) {
      SavedIsClean(file, env, key, v, lib);
      SavedRest(file, env, key, v, lib);
    }
  }

  /** The second set is checked as if both were made at once. */
  lemma SecondTakesIff(file: Config, env: Env, p: string, x: Value, q: string, y: Value, lib: Library)
    requires Settled(file, lib) && p != q && Takes(file, p, x, lib)
    ensures Takes(Applied(file, env, p, x, lib), q, y, lib) <==> TakesBoth(file, p, x, q, y, lib)
  {
    hide Applied, Validates, Plain, Secret;
    var next := Applied(file, env, p, x, lib);
    assert next.rest == file.rest by { AppliedAt(file, env, p, x, p, lib); }
    forall k | k in CHECKED ensures At(With(next, q, y), k) == At(With(With(file, p, x), q, y), k) {
      AppliedAt(file, env, p, x, k, lib);
      Apart(env, k);
    }
    Congruent(With(next, q, y), With(With(file, p, x), q, y), lib);
  }

  /** What two sets made one after the other leave on file. */
  function Twice(file: Config, env: Env, p: string, x: Value, q: string, y: Value, k: string, lib: Library): Value {
    if Takes(file, p, x, lib) && TakesBoth(file, p, x, q, y, lib) then
      if k == p && Plain(env, k).None? then Kept(file, env, p, x, p) else Kept(file, env, q, y, k)
    else if Takes(file, p, x, lib) then Kept(file, env, p, x, k)
    else if Takes(file, q, y, lib) then Kept(file, env, q, y, k)
    else At(file, k)
  }

  lemma TwiceAt(file: Config, env: Env, p: string, x: Value, q: string, y: Value, k: string, lib: Library)
    requires Settled(file, lib) && p != q && (p == GATE ==> AsStored(x))
    ensures var both := Applied(Applied(file, env, p, x, lib), env, q, y, lib);
            both.rest == file.rest && At(both, k) == Twice(file, env, p, x, q, y, k, lib)
  {
    hide Applied, Settled, Takes, TakesBoth, Kept, AsStored, At;
    var first := Applied(file, env, p, x, lib);
    AppliedIsSettled(file, env, p, x, lib);
    AppliedAt(file, env, p, x, k, lib);
    AppliedAt(first, env, q, y, k, lib);
    if Takes(file, p, x, lib) {
      SecondTakesIff(file, env, p, x, q, y, lib);
      KeptTwice(file, first, env, p, x, q, y, k);
    } else {
      RefusedApplied(file, env, p, x, lib);
    }
  }

  lemma KeptTwice(file: Config, first: Config, env: Env, p: string, x: Value, q: string, y: Value, k: string)
    requires p != q && At(first, k) == Kept(file, env, p, x, k)
    ensures Kept(first, env, q, y, k)
         == if k == p && Plain(env, k).None? then Kept(file, env, p, x, p) else Kept(file, env, q, y, k)
  {
    hide At, Plain, Secret;
    Apart(env, k);
  }

  lemma RefusedApplied(file: Config, env: Env, key: string, v: Value, lib: Library)
    requires Settled(file, lib) && !Takes(file, key, v, lib)
    ensures Applied(file, env, key, v, lib) == file
  {
    hide Validates, Changed, Saved, Takes;
    TakesIff(file, env, key, v, lib);
  }

  /** A set that is refused alone, or on top of one that is not, changes a checked key. */
  lemma RefusalIsOfACheckedKey(file: Config, p: string, x: Value, q: string, y: Value, lib: Library)
    requires Settled(file, lib) && p != q
    requires !Takes(file, q, y, lib) || (Takes(file, p, x, lib) && !TakesBoth(file, p, x, q, y, lib))
    ensures q in CHECKED && At(file, q) != y
  {
    hide Validates, Clean;
    if q !in CHECKED || At(file, q) == y {
      Congruent(With(file, q, y), file, lib);
      Congruent(With(With(file, p, x), q, y), With(file, p, x), lib);
    }
  }

  lemma BothEitherWay(file: Config, p: string, x: Value, q: string, y: Value, lib: Library)
    requires p != q
    ensures TakesBoth(file, p, x, q, y, lib) == TakesBoth(file, q, y, p, x, lib)
  {
    hide Validates;
    assert file.keys[p := x][q := y] == file.keys[q := y][p := x];
  }

  /** The condition under which two sets can be made in either order: what the check says of both is what it says of each. */
  predicate EitherOrder(file: Config, env: Env, p: string, x: Value, q: string, y: Value, lib: Library) {
    && (Takes(file, p, x, lib) || Takes(file, q, y, lib) ==>
         (TakesBoth(file, p, x, q, y, lib) <==> Takes(file, p, x, lib) && Takes(file, q, y, lib)))
    && (Takes(file, p, x, lib) && Takes(file, q, y, lib) ==> Stays(env, p, x) && Stays(env, q, y))
  }

  lemma TwiceDiffers(file: Config, env: Env, p: string, x: Value, q: string, y: Value, lib: Library)
    requires Settled(file, lib) && p != q && Takes(file, p, x, lib)
    requires (TakesBoth(file, p, x, q, y, lib) <==> !Takes(file, q, y, lib)) || (Takes(file, q, y, lib) && !Stays(env, q, y))
    ensures Twice(file, env, p, x, q, y, q, lib) != Twice(file, env, q, y, p, x, q, lib)
  {
    hide Settled, Takes, TakesBoth, Plain, Secret;
    BothEitherWay(file, p, x, q, y, lib);
    Apart(env, q);
    if TakesBoth(file, p, x, q, y, lib) <==> !Takes(file, q, y, lib) {
      RefusalIsOfACheckedKey(file, p, x, q, y, lib);
    }
  }

  lemma ValuesCommuteIff(file: Config, env: Env, p: string, x: Value, q: string, y: Value, lib: Library)
    requires Settled(file, lib) && p != q && (p == GATE ==> AsStored(x)) && (q == GATE ==> AsStored(y))
    ensures Same(Applied(Applied(file, env, p, x, lib), env, q, y, lib), Applied(Applied(file, env, q, y, lib), env, p, x, lib))
       <==> EitherOrder(file, env, p, x, q, y, lib)
  {
    hide Applied, Settled, Takes, TakesBoth, Plain, Secret, AsStored, At;
    var one := Applied(Applied(file, env, p, x, lib), env, q, y, lib);
    var two := Applied(Applied(file, env, q, y, lib), env, p, x, lib);
    BothEitherWay(file, p, x, q, y, lib);
    TwiceAt(file, env, p, x, q, y, p, lib);
    TwiceAt(file, env, q, y, p, x, p, lib);
    TwiceAt(file, env, p, x, q, y, q, lib);
    TwiceAt(file, env, q, y, p, x, q, lib);
    if EitherOrder(file, env, p, x, q, y, lib) {
      forall k ensures At(one, k) == At(two, k) {
        TwiceAt(file, env, p, x, q, y, k, lib);
        TwiceAt(file, env, q, y, p, x, k, lib);
        TwiceAgrees(file, env, p, x, q, y, k, lib);
      }
    } else if Takes(file, p, x, lib) && !(Takes(file, q, y, lib) && TakesBoth(file, p, x, q, y, lib) && Stays(env, q, y)) {
      TwiceDiffers(file, env, p, x, q, y, lib);
    } else {
      TwiceDiffers(file, env, q, y, p, x, lib);
    }
  }

  lemma TwiceAgrees(file: Config, env: Env, p: string, x: Value, q: string, y: Value, k: string, lib: Library)
    requires p != q && EitherOrder(file, env, p, x, q, y, lib)
    ensures Twice(file, env, p, x, q, y, k, lib) == Twice(file, env, q, y, p, x, k, lib)
  {
    hide Takes, TakesBoth, Plain, Secret;
    BothEitherWay(file, p, x, q, y, lib);
    Apart(env, p);
    Apart(env, q);
  }

  lemma ReadIsStored(key: string, text: string, lib: Library)
    requires ReadKey(key, text, lib).Some?
    ensures key == GATE ==> AsStored(ReadKey(key, text, lib).value)
  {
    hide ReadKey, AsStored;
    if key == GATE {
      ReadGateIsStored(text, lib);
    }
  }

  /** Exactly when sets of two keys can be made in either order, refusals included. */
  lemma SetsCommuteIff(file: Config, env: Env, p: string, s: string, q: string, t: string, lib: Library)
    requires Settled(file, lib) && p != q
    ensures Same(After(After(file, env, p, s, lib), env, q, t, lib), After(After(file, env, q, t, lib), env, p, s, lib)) <==>
      var x, y := ReadKey(p, s, lib), ReadKey(q, t, lib);
      (x.Some? && y.Some? ==> EitherOrder(file, env, p, x.value, q, y.value, lib))
  {
    hide After, ReadKey, Applied, Settled, AsStored, EitherOrder;
    SetIsApplied(file, env, p, s, lib);
    SetIsApplied(file, env, q, t, lib);
    SetIsApplied(After(file, env, p, s, lib), env, q, t, lib);
    SetIsApplied(After(file, env, q, t, lib), env, p, s, lib);
    if ReadKey(p, s, lib).Some? && ReadKey(q, t, lib).Some? {
      ReadIsStored(p, s, lib);
      ReadIsStored(q, t, lib);
      ValuesCommuteIff(file, env, p, ReadKey(p, s, lib).value, q, ReadKey(q, t, lib).value, lib);
    }
  }

  predicate Coupled(p: string, q: string) {
    {p, q} == {CONNS, PER_IP} || {p, q} == {PER_EXECUTOR, TOTAL}
  }

  /** Outside the two pairs a key takes a value whatever the other holds. */
  lemma AcceptanceIsOwn(file: Config, p: string, x: Value, q: string, y: Value, lib: Library)
    requires Validates(file, lib) && p != q && !Coupled(p, q)
    ensures TakesBoth(file, p, x, q, y, lib) <==> Takes(file, p, x, lib) && Takes(file, q, y, lib)
  {
    hide Validates, Sound, PairsAgree;
    SplitCheck(file, lib);
    SplitCheck(With(file, p, x), lib);
    SplitCheck(With(file, q, y), lib);
    SplitCheck(With(With(file, p, x), q, y), lib);
    PairsAreOwn(file, p, x, q, y);
    forall k | k in CHECKED && Sound(k, At(file, k), lib)
      ensures Sound(k, At(With(With(file, p, x), q, y), k), lib)
         <==> Sound(k, At(With(file, p, x), k), lib) && Sound(k, At(With(file, q, y), k), lib)
    {
    }
  }

  lemma SplitCheck(c: Config, lib: Library)
    ensures Validates(c, lib) <==> (forall k :: k in CHECKED ==> Sound(k, At(c, k), lib)) && PairsAgree(c) && lib.sound(c.rest)
  {
  }

  lemma WithAt(c: Config, key: string, v: Value, k: string)
    ensures At(With(c, key, v), k) == if k == key then v else At(c, k)
  {
  }

  lemma WithRest(c: Config, key: string, v: Value)
    ensures With(c, key, v).rest == c.rest
  {
  }

  lemma WithBothAt(c: Config, p: string, x: Value, q: string, y: Value, k: string)
    requires p != q
    ensures At(With(c, p, x), k) == if k == p then x else At(c, k)
    ensures At(With(c, q, y), k) == if k == q then y else At(c, k)
    ensures At(With(With(c, p, x), q, y), k) == if k == p then x else if k == q then y else At(c, k)
  {
    hide At, With;
    WithAt(c, p, x, k);
    WithAt(c, q, y, k);
    WithAt(With(c, p, x), q, y, k);
  }

  lemma PairsAreOwn(file: Config, p: string, x: Value, q: string, y: Value)
    requires PairsAgree(file) && p != q && !Coupled(p, q)
    ensures PairsAgree(With(With(file, p, x), q, y)) <==> PairsAgree(With(file, p, x)) && PairsAgree(With(file, q, y))
  {
    hide LimitsAgree, BudgetsAgree, Coupled, At, With, Amount;
    CoupledAre(p, q);
    WithBothAt(file, p, x, q, y, CONNS);
    WithBothAt(file, p, x, q, y, PER_IP);
    WithBothAt(file, p, x, q, y, PER_EXECUTOR);
    WithBothAt(file, p, x, q, y, TOTAL);
  }

  lemma CoupledAre(p: string, q: string)
    requires !Coupled(p, q)
    ensures !(p == CONNS && q == PER_IP) && !(p == PER_IP && q == CONNS)
    ensures !(p == PER_EXECUTOR && q == TOTAL) && !(p == TOTAL && q == PER_EXECUTOR)
  {
  }

  predicate StaysRead(env: Env, key: string, text: string, lib: Library) {
    var v := ReadKey(key, text, lib);
    v.Some? ==> Stays(env, key, v.value)
  }

  /** So outside the two pairs only the environment stands in the way: two accepted sets commute exactly when it agrees with both. */
  lemma UncoupledCommuteIff(file: Config, env: Env, p: string, s: string, q: string, t: string, lib: Library)
    requires Settled(file, lib) && p != q && !Coupled(p, q)
    ensures Same(After(After(file, env, p, s, lib), env, q, t, lib), After(After(file, env, q, t, lib), env, p, s, lib)) <==>
      (Set(file, env, p, s, lib).Accepted? && Set(file, env, q, t, lib).Accepted? ==>
        StaysRead(env, p, s, lib) && StaysRead(env, q, t, lib))
  {
    hide After, Set, ReadKey, Takes, TakesBoth, Stays, Validates, Changed, Same, Coupled;
    SetsCommuteIff(file, env, p, s, q, t, lib);
    SetIsApplied(file, env, p, s, lib);
    SetIsApplied(file, env, q, t, lib);
    if ReadKey(p, s, lib).Some? && ReadKey(q, t, lib).Some? {
      var x, y := ReadKey(p, s, lib).value, ReadKey(q, t, lib).value;
      AcceptanceIsOwn(file, p, x, q, y, lib);
      TakesIff(file, env, p, x, lib);
      TakesIff(file, env, q, y, lib);
    }
  }

  lemma TakesNumber(file: Config, key: string, v: Value, lib: Library)
    requires Validates(file, lib) && key in {CONNS, PER_IP, PER_EXECUTOR, TOTAL} && InBand(key, v)
    ensures (forall k :: k in CHECKED ==> Sound(k, At(With(file, key, v), k), lib)) && lib.sound(With(file, key, v).rest)
  {
    hide InBand;
  }

  lemma TakesPair(file: Config, p: string, x: Value, q: string, y: Value, lib: Library)
    requires Validates(file, lib) && {p, q} <= {CONNS, PER_IP, PER_EXECUTOR, TOTAL} && InBand(p, x) && InBand(q, y)
    ensures Takes(file, p, x, lib) <==> PairsAgree(With(file, p, x))
    ensures Takes(file, q, y, lib) <==> PairsAgree(With(file, q, y))
    ensures TakesBoth(file, p, x, q, y, lib) <==> PairsAgree(With(With(file, p, x), q, y))
  {
    hide InBand, PairsAgree, Sound, At, With, Validates;
    assert p in {CONNS, PER_IP, PER_EXECUTOR, TOTAL} && q in {CONNS, PER_IP, PER_EXECUTOR, TOTAL};
    TakesNumber(file, p, x, lib);
    TakesNumber(file, q, y, lib);
    forall k | k in CHECKED ensures Sound(k, At(With(With(file, p, x), q, y), k), lib) {
      WithAt(With(file, p, x), q, y, k);
      WithAt(file, q, y, k);
    }
    WithRest(file, p, x);
    WithRest(With(file, p, x), q, y);
    SplitCheck(With(file, p, x), lib);
    SplitCheck(With(file, q, y), lib);
    SplitCheck(With(With(file, p, x), q, y), lib);
  }

  lemma PairTakes(file: Config, p: string, x: Value, q: string, y: Value, lib: Library)
    requires Settled(file, lib) && p != q && {p, q} <= {CONNS, PER_IP, PER_EXECUTOR, TOTAL} && InBand(p, x) && InBand(q, y)
    ensures Takes(file, p, x, lib) <==> PairsAgree(With(file, p, x))
    ensures Takes(file, q, y, lib) <==> PairsAgree(With(file, q, y))
    ensures TakesBoth(file, p, x, q, y, lib) <==> PairsAgree(With(With(file, p, x), q, y))
    ensures PairsAgree(file)
    ensures forall k :: k in {CONNS, PER_IP, PER_EXECUTOR, TOTAL} ==>
      && At(With(file, p, x), k) == (if k == p then x else At(file, k))
      && At(With(file, q, y), k) == (if k == q then y else At(file, k))
      && At(With(With(file, p, x), q, y), k) == if k == p then x else if k == q then y else At(file, k)
  {
    hide InBand, Clean, Sound, LimitsAgree, BudgetsAgree, Takes, TakesBoth, At, With;
    TakesPair(file, p, x, q, y, lib);
    forall k ensures
      && At(With(file, p, x), k) == (if k == p then x else At(file, k))
      && At(With(file, q, y), k) == (if k == q then y else At(file, k))
      && At(With(With(file, p, x), q, y), k) == if k == p then x else if k == q then y else At(file, k)
    {
      WithBothAt(file, p, x, q, y, k);
    }
  }

  /** The limits on connections: what the two new values must be to each other and to the old ones. */
  lemma LimitsCommuteIff(file: Config, env: Env, x: Value, y: Value, lib: Library)
    requires Settled(file, lib) && InBand(CONNS, x) && InBand(PER_IP, y)
    ensures EitherOrder(file, env, CONNS, x, PER_IP, y, lib) <==>
      var conns, perIp := Amount(At(file, CONNS)), Amount(At(file, PER_IP));
      (LimitsAgree(Amount(x), perIp) || LimitsAgree(conns, Amount(y)) ==>
        (LimitsAgree(Amount(x), Amount(y)) <==> LimitsAgree(Amount(x), perIp) && LimitsAgree(conns, Amount(y))))
  {
    hide LimitsAgree, BudgetsAgree, InBand, Clean, Validates, Takes, TakesBoth, Plain, At, With, Amount;
    PairTakes(file, CONNS, x, PER_IP, y, lib);
    Apart(env, CONNS);
    Apart(env, PER_IP);
  }

  /** The write-back budgets, each as what is in effect: its value, or its default. */
  lemma BudgetsCommuteIff(file: Config, env: Env, x: Value, y: Value, lib: Library)
    requires Settled(file, lib) && InBand(PER_EXECUTOR, x) && InBand(TOTAL, y)
    ensures EitherOrder(file, env, PER_EXECUTOR, x, TOTAL, y, lib) <==>
      var per, total := Amount(At(file, PER_EXECUTOR)), Amount(At(file, TOTAL));
      (BudgetsAgree(Amount(x), total) || BudgetsAgree(per, Amount(y)) ==>
        (BudgetsAgree(Amount(x), Amount(y)) <==> BudgetsAgree(Amount(x), total) && BudgetsAgree(per, Amount(y))))
  {
    hide LimitsAgree, BudgetsAgree, InBand, Clean, Validates, Takes, TakesBoth, Plain, At, With, Amount;
    PairTakes(file, PER_EXECUTOR, x, TOTAL, y, lib);
    Apart(env, PER_EXECUTOR);
    Apart(env, TOTAL);
  }

  // ------------------------------------------------------------ failing runs

  /** Raising both limits on connections past the old ones works in one order only. */
  lemma LimitsDoNotCommute(file: Config, env: Env, conns: string, perIp: string, lib: Library)
    requires Settled(file, lib) && lib.whole(conns) == Some(900) && lib.whole(perIp) == Some(800)
    requires 1.0 <= Amount(At(file, PER_IP)) && 1.0 <= Amount(At(file, CONNS)) < 800.0
    ensures var up := After(file, env, CONNS, conns, lib);
            && Set(file, env, CONNS, conns, lib).Accepted? && Set(up, env, PER_IP, perIp, lib).Accepted?
            && !Set(file, env, PER_IP, perIp, lib).Accepted?
            && !Same(After(up, env, PER_IP, perIp, lib), After(After(file, env, PER_IP, perIp, lib), env, CONNS, conns, lib))
  {
    hide Settled, NumberRule, ReadKey, InBand;
    assert ReadKey(CONNS, conns, lib) == Some(Num(900.0)) && InBand(CONNS, Num(900.0)) by { LimitReads(lib); ReadWhole(CONNS, conns, 900, lib); }
    assert ReadKey(PER_IP, perIp, lib) == Some(Num(800.0)) && InBand(PER_IP, Num(800.0)) by { LimitReads(lib); ReadWhole(PER_IP, perIp, 800, lib); }
    OneOrderOnly(file, env, CONNS, conns, PER_IP, perIp, lib) by {
      PairTakes(file, CONNS, Num(900.0), PER_IP, Num(800.0), lib);
    }
  }

  /** One value refused alone and taken after the other: the order matters. */
  lemma OneOrderOnly(file: Config, env: Env, p: string, s: string, q: string, t: string, lib: Library)
    requires Settled(file, lib) && p != q && ReadKey(p, s, lib).Some? && ReadKey(q, t, lib).Some?
    requires Takes(file, p, ReadKey(p, s, lib).value, lib) && !Takes(file, q, ReadKey(q, t, lib).value, lib)
    requires TakesBoth(file, p, ReadKey(p, s, lib).value, q, ReadKey(q, t, lib).value, lib)
    ensures var up := After(file, env, p, s, lib);
            && Set(file, env, p, s, lib).Accepted? && Set(up, env, q, t, lib).Accepted?
            && !Set(file, env, q, t, lib).Accepted?
            && !Same(After(up, env, q, t, lib), After(After(file, env, q, t, lib), env, p, s, lib))
  {
    hide Settled, After, Set, ReadKey, Takes, TakesBoth, Validates, Changed, Same, Stays, AsStored, Applied;
    var x, y := ReadKey(p, s, lib).value, ReadKey(q, t, lib).value;
    var up := After(file, env, p, s, lib);
    SetIsApplied(file, env, p, s, lib);
    SetIsApplied(file, env, q, t, lib);
    SetIsApplied(up, env, q, t, lib);
    ReadIsStored(p, s, lib);
    AppliedIsSettled(file, env, p, x, lib);
    SecondTakesIff(file, env, p, x, q, y, lib);
    TakesOf(file, env, p, x, lib);
    TakesOf(file, env, q, y, lib);
    TakesOf(up, env, q, y, lib);
    SetsCommuteIff(file, env, p, s, q, t, lib);
  }

  lemma TakesOf(file: Config, env: Env, key: string, v: Value, lib: Library)
    requires Settled(file, lib)
    ensures Validates(Changed(file, env, key, v, lib), lib) <==> Takes(file, key, v, lib)
  {
    hide Changed, Validates, Takes, Clean;
    TakesIff(file, env, key, v, lib);
  }

  /** From the defaults, raising a device's budget past the default total and the total past both works in one order only. */
  lemma BudgetsDoNotCommute(file: Config, env: Env, per: string, total: string, lib: Library)
    requires Settled(file, lib) && Amount(At(file, PER_EXECUTOR)) == 0.0 && Amount(At(file, TOTAL)) == 0.0
    requires Trim(per) != "" && lib.whole(Trim(per)) == Some(2147483648)
    requires Trim(total) != "" && lib.whole(Trim(total)) == Some(4294967296)
    ensures var up := After(file, env, TOTAL, total, lib);
            && Set(file, env, TOTAL, total, lib).Accepted? && Set(up, env, PER_EXECUTOR, per, lib).Accepted?
            && !Set(file, env, PER_EXECUTOR, per, lib).Accepted?
            && !Same(After(up, env, PER_EXECUTOR, per, lib), After(After(file, env, PER_EXECUTOR, per, lib), env, TOTAL, total, lib))
  {
    hide Settled, NumberRule, ReadKey, InBand, Trim;
    assert ReadKey(TOTAL, total, lib) == Some(Num(4294967296.0)) && InBand(TOTAL, Num(4294967296.0)) by {
      BudgetReads();
      ReadWhole(TOTAL, total, 4294967296, lib);
    }
    assert ReadKey(PER_EXECUTOR, per, lib) == Some(Num(2147483648.0)) && InBand(PER_EXECUTOR, Num(2147483648.0)) by {
      BudgetReads();
      ReadWhole(PER_EXECUTOR, per, 2147483648, lib);
    }
    OneOrderOnly(file, env, TOTAL, total, PER_EXECUTOR, per, lib) by {
      PairTakes(file, TOTAL, Num(4294967296.0), PER_EXECUTOR, Num(2147483648.0), lib);
    }
  }

  lemma BudgetReads()
    ensures NumberRule(TOTAL) == NumberRule(PER_EXECUTOR)
         == Some(Number(Band(1048576.0, Some(68719476736.0), {0.0}), false, Some(Num(0.0))))
  {
  }
}
