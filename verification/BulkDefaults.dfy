/** What a bulk save inserts, in terms of the mutations as they were built and of the defaults. */
module BulkDefaults {
  import opened Options
  import opened AccountFields
  import opened BulkCreate
  import opened BulkTheorems
  import opened BulkConditions

  /** Every hook edits nothing, passes its own mutation on, calls next once and returns what that returned. */
  ghost predicate Transparent(j: Job) {
    && Straight(j) && OwnOnly(j)
    && forall i, h :: 0 <= i < |j.hooks| && 0 <= h < |j.hooks[i]| ==>
         forall f, o :: j.hooks[i][h].returns_(f, Some(o)) == o
  }

  /** The spec of the row that a mutation creates: the set fields as they are, the defaults of the others,
      and the edges. */
  ghost predicate SpecStores(rt: Runtime, spec: Spec, m: Mutation) {
    && (forall f :: f in spec.fields <==> f != ProxyId && f != ParentAccountId && Stored(rt, m.fields, f).Some?)
    && (forall f :: f in spec.fields ==> Some(spec.fields[f]) == Stored(rt, m.fields, f))
    && spec.proxy == m.proxy && spec.parent == m.parent
    && spec.groups == m.groups && spec.children == m.children && spec.logs == m.logs
  }

  /** One insert if every row can be created, and none otherwise; slot k is the row of mutation k; the save
      succeeds exactly when that insert does. */
  ghost predicate CreatesRows(j: Job, ms: seq<Mutation>, w: World, saved: bool)
    requires |j.hooks| <= |ms|
  {
    && |w.batches| == (if forall k :: 0 <= k < |j.hooks| ==> Acceptable(j.rt, ms[k].fields) then 1 else 0)
    && (|w.batches| == 1 ==>
          && |w.batches[0]| == |j.hooks|
          && forall k :: 0 <= k < |j.hooks| ==> w.batches[0][k].Some? && SpecStores(j.rt, w.batches[0][k].value, ms[k]))
    && (saved <==> |w.batches| == 1 && j.insert(w.batches[0]).Filled?)
  }

  // ---- the outcome ----

  /** The call succeeded exactly when it inserted and the insert succeeded. */
  ghost predicate Tells(j: Job, w: World, r: (World, Outcome)) {
    && |r.0.batches| >= |w.batches|
    && (r.1.Done? <==> |r.0.batches| > |w.batches| && j.insert(r.0.batches[|w.batches|]).Filled?)
  }

  lemma {:induction false} MutateTells(j: Job, w: World, i: nat, h: nat, t: Target)
    requires Transparent(j) && Sound(j) && Fits(j, w) && i < |j.hooks| && h <= |j.hooks[i]| && InStore(j, t)
    ensures Tells(j, w, Mutate(j, w, i, h, t))
    decreases |j.hooks| - i, |j.hooks[i]| - h, 1
  {
    if h == |j.hooks[i]| {
      BaseTells(j, w, i, t);
    } else {
      var hook, w1 := j.hooks[i][h], Entered(j, w, i, h, t);
      var next := Passed(hook, t);
      EnteredKeeps(j, w, i, h, t);
      assert hook.calls(FieldsOf(w1, t)) == 1;
      var (w2, o) := Mutate(j, w1, i, h + 1, next);
      assert Repeat(j, w1, i, h + 1, next, 1, None) == Repeat(j, w2, i, h + 1, next, 0, Some(o));
      MutateTells(j, w1, i, h + 1, next);
    }
  }

  lemma {:induction false} BaseTells(j: Job, w: World, i: nat, t: Target)
    requires Transparent(j) && Sound(j) && Fits(j, w) && i < |j.hooks| && InStore(j, t)
    ensures Tells(j, w, Base(j, w, i, t))
    decreases |j.hooks| - i, 0, 0
  {
    if t.Ref? && Check(j.rt, w.mutations[w.current[i]].fields).None? {
      var w1 := Prepare(w, i, t.m);
      if i + 1 < |j.hooks| {
        MutateTells(j, w1, i + 1, 0, Ref(w1.current[i + 1]));
      }
      assert Tells(j, w1, Inner(j, w1, i));
    }
  }

  // ---- the rows ----

  lemma {:induction false} OwnReach(j: Job, i: nat, h: nat, t: Target)
    requires OwnOnly(j) && i < |j.hooks| && h <= |j.hooks[i]|
    ensures Reach(j, i, h, t) == t
    decreases |j.hooks[i]| - h
  {
    if h < |j.hooks[i]| {
      OwnReach(j, i, h + 1, t);
    }
  }

  lemma DefaultedRow(j: Job, ms: seq<Mutation>, k: nat)
    requires k < |j.hooks| <= |ms|
    ensures Check(j.rt, Start(j, ms).mutations[k].fields).None? <==> Acceptable(j.rt, ms[k].fields)
    ensures Acceptable(j.rt, ms[k].fields) ==> SpecStores(j.rt, CreateSpec(Start(j, ms).mutations[k]).1, ms[k])
  {
    DefaultsThenCheck(j.rt, ms[k].fields);
    CreateSpecExact(Start(j, ms).mutations[k]);
  }

  /** A bulk save with transparent hooks creates the rows that its mutations and the defaults describe. */
  lemma SaveCreatesRows(j: Job, ms: seq<Mutation>)
    requires Transparent(j) && Sound(j) && 0 < |j.hooks| <= |ms| == j.store
    ensures var (w, o) := Saved(j, ms); CreatesRows(j, ms, w, o.Done?)
  {
    var w0 := Start(j, ms);
    SavedStraight(j, ms);
    MutateTells(j, w0, 0, 0, Ref(0));
    forall k | 0 <= k < |j.hooks|
      ensures Final(j, k) == Ref(k)
      ensures Check(j.rt, w0.mutations[k].fields).None? <==> Acceptable(j.rt, ms[k].fields)
      ensures Acceptable(j.rt, ms[k].fields) ==> SpecStores(j.rt, CreateSpec(w0.mutations[k]).1, ms[k])
    {
      OwnReach(j, k, 0, Ref(k));
      DefaultedRow(j, ms, k);
    }
    ClearExact(j, w0.mutations, 0, Final(j, 0));
    StraightCreatesRows(j, ms, w0, Saved(j, ms));
  }

  lemma StraightCreatesRows(j: Job, ms: seq<Mutation>, w0: World, r: (World, Outcome))
    requires 0 < |j.hooks| <= |ms| && FromIsReady(j, w0, 0) && w0.batches == []
    requires RanStraight(j, w0, r.0, 0, Final(j, 0)) && Tells(j, w0, r)
    requires Clear(j, w0.mutations, 0, Final(j, 0)) <==> forall k :: 0 <= k < |j.hooks| ==> Acceptable(j.rt, ms[k].fields)
    requires forall k :: 0 <= k < |j.hooks| ==> Final(j, k) == Ref(k)
    requires forall k :: 0 <= k < |j.hooks| && Acceptable(j.rt, ms[k].fields) ==>
      SpecStores(j.rt, CreateSpec(w0.mutations[k]).1, ms[k])
    ensures CreatesRows(j, ms, r.0, r.1.Done?)
  {
    if Clear(j, w0.mutations, 0, Final(j, 0)) {
      var b := r.0.batches[0];
      forall k | 0 <= k < |j.hooks| ensures b[k].Some? && SpecStores(j.rt, b[k].value, ms[k]) {
        assert SpecOf(w0, Final(j, k), b[k]);
      }
    }
  }

  /** In particular, with the four default functions in place, mutations that set name, platform and type and
      whose values are valid are saved when the insert succeeds. */
  lemma CompleteMutationsAreSaved(j: Job, ms: seq<Mutation>)
    requires Transparent(j) && Sound(j) && 0 < |j.hooks| <= |ms| == j.store
    requires {CreatedAt, UpdatedAt, Credentials, Extra} <= j.rt.functions.Keys
    requires forall k :: 0 <= k < |j.hooks| ==> {Name, Platform, Type} <= ms[k].fields.Keys
    requires forall k, f :: 0 <= k < |j.hooks| && IsValidated(f) && Stored(j.rt, ms[k].fields, f).Some? ==>
      j.rt.valid(f, Stored(j.rt, ms[k].fields, f).value)
    requires forall b :: j.insert(b).Filled?
    ensures Saved(j, ms).1.Done?
  {
    SaveCreatesRows(j, ms);
    forall k | 0 <= k < |j.hooks| ensures Acceptable(j.rt, ms[k].fields) {
    }
  }

  // ---- hooks that edit ----

  /** Every hook calls next once, with its own mutation, and never turns an error into success; it may edit. */
  ghost predicate Editing(j: Job) {
    && AllDisciplined(j) && OwnOnly(j)
    && forall i, h :: 0 <= i < |j.hooks| && 0 <= h < |j.hooks[i]| ==> forall f :: j.hooks[i][h].calls(f) == 1
  }

  /** The fields after the edits of hook h and all later ones, in order. */
  function EditAll(hooks: seq<Hook>, h: nat, f: Fields): Fields
    requires h <= |hooks|
    decreases |hooks| - h
  {
    if h == |hooks| then f else EditAll(hooks, h + 1, hooks[h].edit(f))
  }

  /** Mutation k after the edits of its builder's hooks; builder i has h of them behind it. */
  function Edited(j: Job, ms: seq<Mutation>, i: nat, h: nat, k: nat): Mutation
    requires k < |j.hooks| <= |ms| && i < |j.hooks| && h <= |j.hooks[i]|
  {
    ms[k].(fields := EditAll(j.hooks[k], if k == i then h else 0, ms[k].fields))
  }

  ghost predicate EditedPass(j: Job, ms: seq<Mutation>, i: nat, h: nat)
    requires i < |j.hooks| <= |ms| && h <= |j.hooks[i]|
  {
    forall k :: i <= k < |j.hooks| ==> Check(j.rt, Edited(j, ms, i, h, k).fields).None?
  }

  /** A call from hook h of builder i inwards inserts exactly when the edited mutations pass check, and
      leaves them edited. */
  ghost predicate RanEditing(j: Job, w: World, w': World, i: nat, h: nat)
    requires Ready(j, w) && i < |j.hooks| && h <= |j.hooks[i]|
  {
    && Ready(j, w') && |w'.batches| == |w.batches| + (if EditedPass(j, w.mutations, i, h) then 1 else 0)
    && (forall k :: 0 <= k < i ==> w'.mutations[k] == w.mutations[k])
    && (EditedPass(j, w.mutations, i, h) ==>
          forall k :: i <= k < |j.hooks| ==> w'.mutations[k] == Edited(j, w.mutations, i, h, k))
  }

  lemma {:induction false} MutateEdits(j: Job, w: World, i: nat, h: nat)
    requires Editing(j) && Ready(j, w) && i < |j.hooks| && h <= |j.hooks[i]|
    ensures RanEditing(j, w, Mutate(j, w, i, h, Ref(i)).0, i, h)
    decreases |j.hooks| - i, |j.hooks[i]| - h, 1
  {
    if h == |j.hooks[i]| {
      BaseEdits(j, w, i);
    } else {
      var w1 := Entered(j, w, i, h, Ref(i));
      HookStep(j, w, i, h, Ref(i));
      assert Passed(j.hooks[i][h], Ref(i)) == Ref(i) && j.hooks[i][h].calls(FieldsOf(w1, Ref(i))) == 1;
      MutateEdits(j, w1, i, h + 1);
      HookEdits(j, w, w1, Mutate(j, w1, i, h + 1, Ref(i)).0, i, h);
    }
  }

  /** What passes from builder a on, when the edited mutations are the same. */
  lemma SamePass(j: Job, ms: seq<Mutation>, a: nat, g: nat, ns: seq<Mutation>, b: nat, h: nat)
    requires b <= a < |j.hooks| <= |ms| && |j.hooks| <= |ns| && g <= |j.hooks[a]| && h <= |j.hooks[b]|
    requires forall k :: a <= k < |j.hooks| ==> Edited(j, ms, a, g, k) == Edited(j, ns, b, h, k)
    ensures EditedPass(j, ms, a, g) <==>
      forall k :: a <= k < |j.hooks| ==> Check(j.rt, Edited(j, ns, b, h, k).fields).None?
  {
    if EditedPass(j, ms, a, g) {
      forall k | a <= k < |j.hooks| ensures Check(j.rt, Edited(j, ns, b, h, k).fields).None? {
        assert Check(j.rt, Edited(j, ms, a, g, k).fields).None?;
      }
    }
    if forall k :: a <= k < |j.hooks| ==> Check(j.rt, Edited(j, ns, b, h, k).fields).None? {
      forall k | a <= k < |j.hooks| ensures Check(j.rt, Edited(j, ms, a, g, k).fields).None? {
        assert Check(j.rt, Edited(j, ns, b, h, k).fields).None?;
      }
    }
  }

  lemma HookEdits(j: Job, w: World, w1: World, w2: World, i: nat, h: nat)
    requires Ready(j, w) && i < |j.hooks| && h < |j.hooks[i]| && w1 == Entered(j, w, i, h, Ref(i)) && Ready(j, w1)
    requires RanEditing(j, w1, w2, i, h + 1)
    ensures RanEditing(j, w, Log(w2, Exit(i, h)), i, h)
  {
    assert forall k :: 0 <= k < |j.hooks| ==> Edited(j, w1.mutations, i, h + 1, k) == Edited(j, w.mutations, i, h, k);
    SamePass(j, w1.mutations, i, h + 1, w.mutations, i, h);
    assert forall k :: 0 <= k < i ==> w1.mutations[k] == w.mutations[k];
  }

  lemma {:induction false} BaseEdits(j: Job, w: World, i: nat)
    requires Editing(j) && Ready(j, w) && i < |j.hooks|
    ensures RanEditing(j, w, Base(j, w, i, Ref(i)).0, i, |j.hooks[i]|)
    decreases |j.hooks| - i, 0, 0
  {
    assert Edited(j, w.mutations, i, |j.hooks[i]|, i) == w.mutations[i];
    if Check(j.rt, w.mutations[i].fields).None? {
      var w1 := Prepare(w, i, i);
      if i + 1 < |j.hooks| {
        MutateEdits(j, w1, i + 1, 0);
      }
      PreparedEdits(j, w, w1, Inner(j, w1, i).0, i);
    }
  }

  lemma PreparedEdits(j: Job, w: World, w1: World, w2: World, i: nat)
    requires Ready(j, w) && i < |j.hooks| && Prepared(j, w, w1, i, i) && Ready(j, w1)
    requires if i + 1 < |j.hooks| then RanEditing(j, w1, w2, i + 1, 0)
             else Ready(j, w2) && |w2.batches| == |w1.batches| + 1 && w2.mutations == w1.mutations
    ensures RanEditing(j, w, w2, i, |j.hooks[i]|) && RanEditing(j, w, Finish(w2, i, i), i, |j.hooks[i]|)
  {
    forall k | i < k < |j.hooks| ensures Edited(j, w.mutations, i, |j.hooks[i]|, k) == Edited(j, w1.mutations, i + 1, 0, k) {
    }
    assert Edited(j, w.mutations, i, |j.hooks[i]|, i) == w.mutations[i];
    if i + 1 < |j.hooks| {
      SamePass(j, w1.mutations, i + 1, 0, w.mutations, i, |j.hooks[i]|);
    }
  }

  /** With all default functions in place: the insert runs exactly when every mutation, after its defaults and
      the edits of its hooks in order, passes check; slot k is the spec of that mutation. */
  lemma SaveInsertsEdited(j: Job, ms: seq<Mutation>, stored: seq<Fields>)
    requires Editing(j) && Sound(j) && 0 < |j.hooks| <= |ms| == j.store && |stored| == |j.hooks|
    requires {CreatedAt, UpdatedAt, Credentials, Extra} <= j.rt.functions.Keys
    requires forall k :: 0 <= k < |j.hooks| ==> HoldsStored(j.rt, ms[k].fields, stored[k])
    ensures var w := Saved(j, ms).0;
      && (w.batches != [] <==> forall k :: 0 <= k < |j.hooks| ==> Complete(j.rt, EditAll(j.hooks[k], 0, stored[k])))
      && (w.batches != [] ==>
            && |w.batches[0]| == |j.hooks|
            && forall k :: 0 <= k < |j.hooks| ==>
                 w.batches[0][k] == Some(CreateSpec(ms[k].(fields := EditAll(j.hooks[k], 0, stored[k]))).1))
  {
    var w0 := Start(j, ms);
    MutateEdits(j, w0, 0, 0);
    SaveInsertsOwnMutations(j, ms);
    forall k | 0 <= k < |j.hooks|
      ensures w0.mutations[k] == ms[k].(fields := stored[k])
      ensures Check(j.rt, Edited(j, w0.mutations, 0, 0, k).fields).None? <==> Complete(j.rt, EditAll(j.hooks[k], 0, stored[k]))
    {
      StoredIsDefaulted(j.rt, ms[k].fields, stored[k]);
      CheckExact(j.rt, EditAll(j.hooks[k], 0, stored[k]));
    }
  }

  lemma StoredIsDefaulted(rt: Runtime, m: Fields, stored: Fields)
    requires {CreatedAt, UpdatedAt, Credentials, Extra} <= rt.functions.Keys && HoldsStored(rt, m, stored)
    ensures Defaults(rt, m).0 == stored
  {
    DefaultsSucceed(rt, m);
    SameStored(rt, m, Defaults(rt, m).0, stored);
  }

  lemma SameStored(rt: Runtime, m: Fields, a: Fields, b: Fields)
    requires HoldsStored(rt, m, a) && HoldsStored(rt, m, b)
    ensures a == b
  {
    forall f ensures (f in a <==> f in b) && (f in a ==> a[f] == b[f]) {
      assert (f in a <==> Stored(rt, m, f).Some?) && (f in b <==> Stored(rt, m, f).Some?);
    }
  }
}
