/** Exactly when a bulk create inserts at most once, and exactly when it inserts only what passes check. */
module BulkConditions {
  import opened Options
  import opened AccountFields
  import opened BulkCreate
  import opened BulkTheorems

  // ---- how often the insert runs ----

  /** How often the hook calls next on its builder's own mutation. */
  function Calls(j: Job, ms: seq<Mutation>, i: nat, h: nat): nat
    requires i < |j.hooks| <= |ms| && h < |j.hooks[i]|
  {
    j.hooks[i][h].calls(ms[i].fields)
  }

  /** The product of the calls of all hooks from hook h of builder i inwards. */
  function Product(j: Job, ms: seq<Mutation>, i: nat, h: nat): int
    requires i < |j.hooks| <= |ms| && h <= |j.hooks[i]|
    decreases |j.hooks| - i, |j.hooks[i]| - h
  {
    if h < |j.hooks[i]| then Calls(j, ms, i, h) * Product(j, ms, i, h + 1)
    else if i + 1 < |j.hooks| then Product(j, ms, i + 1, 0)
    else 1
  }

  ghost predicate CheckedFrom(j: Job, ms: seq<Mutation>, i: nat)
    requires |j.hooks| <= |ms|
  {
    forall k :: i <= k < |j.hooks| ==> Check(j.rt, ms[k].fields).None?
  }

  /** The inserts that a call from hook h of builder i inwards adds. */
  ghost function Inserts(j: Job, ms: seq<Mutation>, i: nat, h: nat): int
    requires i < |j.hooks| <= |ms| && h <= |j.hooks[i]|
  {
    if CheckedFrom(j, ms, i) then Product(j, ms, i, h) else 0
  }

  ghost predicate Added(j: Job, w: World, w': World, inserts: int) {
    Ready(j, w') && w'.mutations == w.mutations && |w'.batches| == |w.batches| + inserts
  }

  lemma {:induction false} MutateInserts(j: Job, w: World, i: nat, h: nat)
    requires PassThrough(j) && OwnOnly(j) && Ready(j, w) && i < |j.hooks| && h <= |j.hooks[i]|
    ensures Added(j, w, Mutate(j, w, i, h, Ref(i)).0, Inserts(j, w.mutations, i, h))
    decreases |j.hooks| - i, |j.hooks[i]| - h, 2, 0
  {
    if h == |j.hooks[i]| {
      BaseInserts(j, w, i);
    } else {
      var w1 := Entered(j, w, i, h, Ref(i));
      EnteredKeeps(j, w, i, h, Ref(i));
      assert Passed(j.hooks[i][h], Ref(i)) == Ref(i);
      RepeatInserts(j, w1, i, h + 1, Calls(j, w.mutations, i, h), None);
    }
  }

  lemma {:induction false} RepeatInserts(j: Job, w: World, i: nat, h: nat, c: nat, o: Option<Outcome>)
    requires PassThrough(j) && OwnOnly(j) && Ready(j, w) && i < |j.hooks| && h <= |j.hooks[i]|
    ensures Added(j, w, Repeat(j, w, i, h, Ref(i), c, o).0, c * Inserts(j, w.mutations, i, h))
    decreases |j.hooks| - i, |j.hooks[i]| - h, 3, c
  {
    if c > 0 {
      MutateInserts(j, w, i, h);
      var (w1, o1) := Mutate(j, w, i, h, Ref(i));
      RepeatInserts(j, w1, i, h, c - 1, Some(o1));
    }
  }

  lemma {:induction false} BaseInserts(j: Job, w: World, i: nat)
    requires PassThrough(j) && OwnOnly(j) && Ready(j, w) && i < |j.hooks|
    ensures Added(j, w, Base(j, w, i, Ref(i)).0, Inserts(j, w.mutations, i, |j.hooks[i]|))
    decreases |j.hooks| - i, 0, 1, 0
  {
    if Check(j.rt, w.mutations[i].fields).None? {
      var w1 := Prepare(w, i, i);
      if i + 1 < |j.hooks| {
        MutateInserts(j, w1, i + 1, 0);
      }
      assert Added(j, w1, Inner(j, w1, i).0, Inserts(j, w.mutations, i, |j.hooks[i]|));
    }
  }

  /** Hooks that edit nothing and pass their own mutation on: the insert runs as often as the product of
      all their calls, if every mutation passes check after defaults, and not at all otherwise. */
  lemma RetriesMultiply(j: Job, ms: seq<Mutation>)
    requires PassThrough(j) && OwnOnly(j) && Sound(j) && 0 < |j.hooks| <= |ms| == j.store
    ensures var defaulted := Start(j, ms).mutations;
      |Saved(j, ms).0.batches| == if CheckedFrom(j, defaulted, 0) then Product(j, defaulted, 0, 0) else 0
  {
    MutateInserts(j, Start(j, ms), 0, 0);
  }

  /** Hook g of builder k comes at or after hook h of builder i. */
  predicate Inwards(i: nat, h: nat, k: int, g: int) {
    k > i || (k == i && g >= h)
  }

  ghost predicate SomeSkips(j: Job, ms: seq<Mutation>, i: nat, h: nat)
    requires |j.hooks| <= |ms|
  {
    exists k, g :: 0 <= k < |j.hooks| && 0 <= g < |j.hooks[k]| && Inwards(i, h, k, g) && Calls(j, ms, k, g) == 0
  }

  ghost predicate NoneTwice(j: Job, ms: seq<Mutation>, i: nat, h: nat)
    requires |j.hooks| <= |ms|
  {
    forall k, g :: 0 <= k < |j.hooks| && 0 <= g < |j.hooks[k]| && Inwards(i, h, k, g) ==> Calls(j, ms, k, g) <= 1
  }

  lemma {:induction false} ProductExact(j: Job, ms: seq<Mutation>, i: nat, h: nat)
    requires i < |j.hooks| <= |ms| && h <= |j.hooks[i]|
    ensures Product(j, ms, i, h) >= 0
    ensures Product(j, ms, i, h) == 0 <==> SomeSkips(j, ms, i, h)
    ensures Product(j, ms, i, h) <= 1 <==> SomeSkips(j, ms, i, h) || NoneTwice(j, ms, i, h)
    decreases |j.hooks| - i, |j.hooks[i]| - h
  {
    if h < |j.hooks[i]| {
      ProductExact(j, ms, i, h + 1);
      FactorExact(j, ms, i, h);
      Factor(Calls(j, ms, i, h), Product(j, ms, i, h + 1));
    } else if i + 1 < |j.hooks| {
      ProductExact(j, ms, i + 1, 0);
      assert forall k, g :: 0 <= k < |j.hooks| && 0 <= g < |j.hooks[k]| ==> (Inwards(i, h, k, g) <==> Inwards(i + 1, 0, k, g));
    }
  }

  lemma Factor(c: int, p: int)
    requires c >= 0 && p >= 0
    ensures c * p >= 0 && (c * p == 0 <==> c == 0 || p == 0) && (c * p <= 1 <==> c == 0 || p == 0 || (c == 1 && p == 1))
  {
    if c >= 1 && p >= 1 {
      assert c * p >= c && c * p >= p;
    }
  }

  lemma FactorExact(j: Job, ms: seq<Mutation>, i: nat, h: nat)
    requires i < |j.hooks| <= |ms| && h < |j.hooks[i]|
    ensures SomeSkips(j, ms, i, h) <==> Calls(j, ms, i, h) == 0 || SomeSkips(j, ms, i, h + 1)
    ensures NoneTwice(j, ms, i, h) <==> Calls(j, ms, i, h) <= 1 && NoneTwice(j, ms, i, h + 1)
  {
    assert Inwards(i, h, i, h);
    assert forall k, g :: Inwards(i, h, k, g) <==> (k == i && g == h) || Inwards(i, h + 1, k, g);
  }

  /** The insert runs at most once if and only if some builder fails check, some hook skips next, or no
      hook calls it twice. */
  lemma InsertsAtMostOnceIff(j: Job, ms: seq<Mutation>)
    requires PassThrough(j) && OwnOnly(j) && Sound(j) && 0 < |j.hooks| <= |ms| == j.store
    ensures var defaulted := Start(j, ms).mutations;
      |Saved(j, ms).0.batches| <= 1 <==>
        !CheckedFrom(j, defaulted, 0) || SomeSkips(j, defaulted, 0, 0) || NoneTwice(j, defaulted, 0, 0)
  {
    RetriesMultiply(j, ms);
    ProductExact(j, Start(j, ms).mutations, 0, 0);
  }

  // ---- what the insert holds ----

  /** Every hook edits nothing and calls next once; it may pass on any mutation. */
  ghost predicate Straight(j: Job) {
    PassThrough(j) && forall i, h :: 0 <= i < |j.hooks| && 0 <= h < |j.hooks[i]| ==> forall f :: j.hooks[i][h].calls(f) == 1
  }

  /** The target that arrives behind the hooks of builder i, given the one at hook h. */
  function Reach(j: Job, i: nat, h: nat, t: Target): Target
    requires i < |j.hooks| && h <= |j.hooks[i]|
    decreases |j.hooks[i]| - h
  {
    if h == |j.hooks[i]| then t else Reach(j, i, h + 1, Passed(j.hooks[i][h], t))
  }

  /** The target builder i ends up with: the last one its hooks pass on, or else its own mutation. */
  function Final(j: Job, i: nat): Target
    requires i < |j.hooks|
  {
    Reach(j, i, 0, Ref(i))
  }

  lemma {:induction false} ReachInStore(j: Job, i: nat, h: nat, t: Target)
    requires Sound(j) && i < |j.hooks| && h <= |j.hooks[i]| && InStore(j, t)
    ensures InStore(j, Reach(j, i, h, t))
    decreases |j.hooks[i]| - h
  {
    if h < |j.hooks[i]| {
      ReachInStore(j, i, h + 1, Passed(j.hooks[i][h], t));
    }
  }

  /** Nothing stops a run from builder i on, when t is what arrives behind its hooks. */
  predicate Clear(j: Job, ms: seq<Mutation>, i: nat, t: Target)
    requires i < |j.hooks| <= |ms|
    decreases |j.hooks| - i
  {
    t.Ref? && Check(j.rt, ms[i].fields).None? && (i + 1 < |j.hooks| ==> Clear(j, ms, i + 1, Final(j, i + 1)))
  }

  lemma {:induction false} ClearExact(j: Job, ms: seq<Mutation>, i: nat, t: Target)
    requires i < |j.hooks| <= |ms|
    ensures Clear(j, ms, i, t) <==>
      t.Ref? && CheckedFrom(j, ms, i) && forall k :: i < k < |j.hooks| ==> Final(j, k).Ref?
    decreases |j.hooks| - i
  {
    if i + 1 < |j.hooks| {
      ClearExact(j, ms, i + 1, Final(j, i + 1));
    }
  }

  /** One more batch, of which slot k is the spec of the mutation that builder k ends up with. */
  ghost predicate Holds(j: Job, w: World, w': World, i: nat, t: Target)
    requires Fits(j, w) && i < |j.hooks|
  {
    && |w'.batches| == |w.batches| + 1 && w'.batches[..|w.batches|] == w.batches
    && var b := w'.batches[|w.batches|];
       && |b| == |j.hooks| && (forall k :: 0 <= k < i ==> b[k] == w.specs[k])
       && SpecOf(w, t, b[i]) && (forall k :: i < k < |b| ==> SpecOf(w, Final(j, k), b[k]))
  }

  ghost predicate SpecOf(w: World, t: Target, spec: Option<Spec>) {
    t.Ref? && t.m < |w.mutations| && spec == Some(CreateSpec(w.mutations[t.m]).1)
  }

  ghost predicate FromIsReady(j: Job, w: World, i: nat) {
    Sound(j) && Fits(j, w) && |j.hooks| <= j.store && forall k :: i <= k < |j.hooks| ==> w.current[k] == k
  }

  ghost predicate RanStraight(j: Job, w: World, w': World, i: nat, t: Target)
    requires FromIsReady(j, w, i) && i < |j.hooks|
  {
    if Clear(j, w.mutations, i, t) then Holds(j, w, w', i, t) else w'.batches == w.batches
  }

  lemma {:induction false} MutateStraight(j: Job, w: World, i: nat, h: nat, t: Target)
    requires Straight(j) && i < |j.hooks| && h <= |j.hooks[i]| && FromIsReady(j, w, i) && InStore(j, t)
    ensures RanStraight(j, w, Mutate(j, w, i, h, t).0, i, Reach(j, i, h, t))
    decreases |j.hooks| - i, |j.hooks[i]| - h, 1
  {
    if h == |j.hooks[i]| {
      BaseStraight(j, w, i, t);
    } else {
      var hook, w1 := j.hooks[i][h], Entered(j, w, i, h, t);
      var next := Passed(hook, t);
      EnteredKeeps(j, w, i, h, t);
      assert hook.calls(FieldsOf(w1, t)) == 1;
      var (w2, o) := Mutate(j, w1, i, h + 1, next);
      assert Repeat(j, w1, i, h + 1, next, 1, None) == Repeat(j, w2, i, h + 1, next, 0, Some(o));
      MutateStraight(j, w1, i, h + 1, next);
    }
  }

  lemma {:induction false} BaseStraight(j: Job, w: World, i: nat, t: Target)
    requires Straight(j) && i < |j.hooks| && FromIsReady(j, w, i) && InStore(j, t)
    ensures RanStraight(j, w, Base(j, w, i, t).0, i, t)
    decreases |j.hooks| - i, 0, 0
  {
    if t.Ref? && Check(j.rt, w.mutations[i].fields).None? {
      var w1 := Prepare(w, i, t.m);
      if i + 1 < |j.hooks| {
        MutateStraight(j, w1, i + 1, 0, Ref(i + 1));
        PreparedStraight(j, w, w1, Inner(j, w1, i).0, i, t);
      }
    }
  }

  lemma PreparedStraight(j: Job, w: World, w1: World, w2: World, i: nat, t: Target)
    requires i + 1 < |j.hooks| && FromIsReady(j, w, i) && t.Ref? && Prepared(j, w, w1, i, t.m)
    requires FromIsReady(j, w1, i + 1) && RanStraight(j, w1, w2, i + 1, Final(j, i + 1))
    ensures RanStraight(j, w, w2, i, t)
  {
  }

  /** The fields of the spec pass check: every required field is there and every validator agrees. */
  predicate SpecPasses(j: Job, spec: Option<Spec>) {
    spec.Some? && Check(j.rt, spec.value.fields).None?
  }

  /** Whatever the mutations, every spec that is inserted passes check. */
  ghost predicate InsertsOnlyChecked(j: Job)
    requires Sound(j) && 0 < |j.hooks| <= j.store
  {
    forall ms | |ms| == j.store :: forall b, k ::
      b in Saved(j, ms).0.batches && 0 <= k < |b| ==> SpecPasses(j, b[k])
  }

  /** No run inserts anything: a builder ends up with a mutation of another type, or nothing passes check. */
  ghost predicate NeverInserts(j: Job) {
    (exists k :: 0 <= k < |j.hooks| && Final(j, k).Foreign?) || forall f :: Check(j.rt, f).Some?
  }

  /** Every builder ends up with the mutation of a builder. */
  ghost predicate FinalsAreBuilders(j: Job) {
    forall k :: 0 <= k < |j.hooks| ==> Final(j, k).Ref? && Final(j, k).m < |j.hooks|
  }

  /** check looks at the builder's own mutation and not at the one it adopts. With hooks that edit nothing
      and call next once, only specs that pass check are inserted if and only if nothing is ever inserted
      or every builder ends up with the mutation of some builder. */
  lemma InsertsOnlyCheckedIff(j: Job)
    requires Straight(j) && Sound(j) && 0 < |j.hooks| <= j.store
    ensures InsertsOnlyChecked(j) <==> NeverInserts(j) || FinalsAreBuilders(j)
  {
    if NeverInserts(j) || FinalsAreBuilders(j) {
      forall ms, b, k | |ms| == j.store && b in Saved(j, ms).0.batches && 0 <= k < |b| ensures SpecPasses(j, b[k]) {
        InsertedPasses(j, ms, b, k);
      }
    } else {
      var k :| 0 <= k < |j.hooks| && Final(j, k).Ref? && Final(j, k).m >= |j.hooks|;
      var f :| Check(j.rt, f).None?;
      var b := UncheckedIsInserted(j, f, k);
    }
  }

  lemma SavedStraight(j: Job, ms: seq<Mutation>)
    requires Straight(j) && Sound(j) && 0 < |j.hooks| <= j.store == |ms|
    ensures var w0 := Start(j, ms); FromIsReady(j, w0, 0) && RanStraight(j, w0, Saved(j, ms).0, 0, Final(j, 0))
  {
    MutateStraight(j, Start(j, ms), 0, 0, Ref(0));
  }

  lemma InsertedPasses(j: Job, ms: seq<Mutation>, b: seq<Option<Spec>>, k: int)
    requires Straight(j) && Sound(j) && 0 < |j.hooks| <= j.store == |ms|
    requires b in Saved(j, ms).0.batches && 0 <= k < |b|
    requires NeverInserts(j) || FinalsAreBuilders(j)
    ensures SpecPasses(j, b[k])
  {
    SavedStraight(j, ms);
    HeldPasses(j, Start(j, ms), Saved(j, ms).0, b, k);
  }

  lemma HeldPasses(j: Job, w: World, w': World, b: seq<Option<Spec>>, k: int)
    requires 0 < |j.hooks| && FromIsReady(j, w, 0) && w.batches == [] && RanStraight(j, w, w', 0, Final(j, 0))
    requires b in w'.batches && 0 <= k < |b| && (NeverInserts(j) || FinalsAreBuilders(j))
    ensures SpecPasses(j, b[k])
  {
    ClearExact(j, w.mutations, 0, Final(j, 0));
    assert FinalsAreBuilders(j);
    assert SpecOf(w, Final(j, k), b[k]);
    PlainFieldsCheck(j.rt, w.mutations[Final(j, k).m].fields);
  }

  /** The edge fields that createSpec moves out of the fields are none that check looks at. */
  lemma PlainFieldsCheck(rt: Runtime, m: Fields)
    ensures Check(rt, PlainFields(m)).None? <==> Check(rt, m).None?
  {
    FirstFailureExact(rt, m, CHECKS);
    FirstFailureExact(rt, PlainFields(m), CHECKS);
    forall s | s in CHECKS ensures Passes(rt, PlainFields(m), s) <==> Passes(rt, m, s) {
      ChecksArePlain(s);
    }
  }

  lemma ChecksArePlain(s: Step)
    requires s in CHECKS
    ensures !IsEdgeField(s.field)
  {
  }

  /** The builders' mutations have the fields f; the others have none, not even a name. */
  function NamelessBeyond(j: Job, f: Fields): (ms: seq<Mutation>)
    ensures |ms| == j.store
    ensures forall m :: 0 <= m < j.store ==> ms[m].fields == if m < |j.hooks| then f else map[]
  {
    seq(j.store, m => Mutation(if m < |j.hooks| then f else map[], None, None, [], [], []))
  }

  /** The store on which a target beyond the builders is inserted unchecked. */
  lemma UncheckedIsInserted(j: Job, f: Fields, k: nat) returns (b: seq<Option<Spec>>)
    requires Straight(j) && Sound(j) && 0 < |j.hooks| <= j.store
    requires k < |j.hooks| && Final(j, k).Ref? && Final(j, k).m >= |j.hooks|
    requires Check(j.rt, f).None? && forall i :: 0 <= i < |j.hooks| ==> Final(j, i).Ref?
    ensures b in Saved(j, NamelessBeyond(j, f)).0.batches && k < |b| && !SpecPasses(j, b[k])
  {
    var ms := NamelessBeyond(j, f);
    var w0 := Start(j, ms);
    CompleteIsDefaulted(j.rt, f);
    SavedStraight(j, ms);
    ClearExact(j, w0.mutations, 0, Final(j, 0));
    b := Saved(j, ms).0.batches[0];
    assert SpecOf(w0, Final(j, k), b[k]);
    ReachInStore(j, k, 0, Ref(k));
    assert w0.mutations[Final(j, k).m].fields == map[];
  }

  lemma CompleteIsDefaulted(rt: Runtime, f: Fields)
    requires Check(rt, f).None?
    ensures Defaults(rt, f) == (f, None)
  {
    FirstFailureExact(rt, f, CHECKS);
    forall x | x in DEFAULTED ensures x in f {
      DefaultedAreRequired(x);
      assert Passes(rt, f, Require(x));
    }
    NothingToFill(rt, f, DEFAULTED);
  }

  lemma {:induction false} NothingToFill(rt: Runtime, f: Fields, fs: seq<Field>)
    requires forall x :: x in fs ==> x in f
    ensures Fill(rt, f, fs) == (f, None)
    decreases |fs|
  {
    if fs != [] {
      NothingToFill(rt, f, fs[1..]);
    }
  }
}
