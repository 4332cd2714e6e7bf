/** AccountCreateBulk.Save: one mutator per builder, wrapped in that builder's hooks; each mutator
    calls the next one, the last runs the batch insert, and the ids are assigned on the way back. */
module BulkCreate {
  import opened Options
  import opened AccountFields

  datatype Error = CheckFailed(step: Step) | WrongMutation | InsertFailed | HookError(code: int)

  datatype Outcome = Done | Failed(error: Error)

  /** What a mutator is handed: one of the account mutations, or a mutation of another type. */
  datatype Target = Ref(m: nat) | Foreign

  /** A hook, as data: how it edits the mutation, how often it calls next, which mutation it passes
      on, and what it returns given the outcome of its last call (None if it made none). */
  datatype Hook = Hook(edit: Fields -> Fields, calls: Fields -> nat, passes: Option<Target>,
                       returns_: (Fields, Option<Outcome>) -> Outcome)

  datatype Event = Enter(builder: nat, hook: nat) | Exit(builder: nat, hook: nat) | Insert

  /** The batch insert fills an id per spec (none for a row left alone by ON CONFLICT), or fails. */
  datatype Batch = Rejected | Filled(ids: nat -> Option<int>)

  /** `store` is the number of mutation objects in play: one per builder, and any others that hooks
      may pass on in their place. */
  datatype Job = Job(rt: Runtime, hooks: seq<seq<Hook>>, insert: seq<Option<Spec>> -> Batch, store: nat)

  /** What happened when a builder adopted a mutation: the builder's own mutation and its fields as they
      passed check, and the mutation the builder was handed, as createSpec read it. */
  datatype Adoption = Adoption(own: nat, checked: Fields, mutation: Mutation)

  /** Mutations are shared objects: `current` holds the builders' pointers to them. mutation.id is a
      pointer into the node of the given builder. `adoptions`, `batches` and `trace` are a record of the
      run. */
  datatype World = World(mutations: seq<Mutation>, current: seq<nat>, specs: seq<Option<Spec>>,
                         nodes: seq<Option<Entity>>, idOf: map<nat, nat>, done: set<nat>,
                         adoptions: seq<Option<Adoption>>, batches: seq<seq<Option<Spec>>>, trace: seq<Event>)

  predicate Fits(j: Job, w: World) {
    && |w.current| == |w.specs| == |w.nodes| == |w.adoptions| == |j.hooks|
    && |w.mutations| == j.store
    && (forall k :: 0 <= k < |w.current| ==> w.current[k] < j.store)
  }

  predicate InStore(j: Job, t: Target) {
    t.Ref? ==> t.m < j.store
  }

  predicate Sound(j: Job) {
    forall i, h :: 0 <= i < |j.hooks| && 0 <= h < |j.hooks[i]| && j.hooks[i][h].passes.Some? ==>
      InStore(j, j.hooks[i][h].passes.value)
  }

  function Log(w: World, e: Event): World {
    w.(trace := w.trace + [e])
  }

  function FieldsOf(w: World, t: Target): Fields
    requires t.Ref? ==> t.m < |w.mutations|
  {
    if t.Ref? then w.mutations[t.m].fields else map[]
  }

  function Edit(w: World, t: Target, hook: Hook): World
    requires t.Ref? ==> t.m < |w.mutations|
  {
    if t.Foreign? then w
    else w.(mutations := w.mutations[t.m := w.mutations[t.m].(fields := hook.edit(w.mutations[t.m].fields))])
  }

  function Passed(hook: Hook, t: Target): Target {
    if hook.passes.Some? then hook.passes.value else t
  }

  /** mutators[i] from its h-th hook inwards. */
  function Mutate(j: Job, w: World, i: nat, h: nat, t: Target): (r: (World, Outcome))
    requires Sound(j) && Fits(j, w) && i < |j.hooks| && h <= |j.hooks[i]| && InStore(j, t)
    ensures Fits(j, r.0)
    decreases |j.hooks| - i, |j.hooks[i]| - h, 2, 0
  {
    if h == |j.hooks[i]| then Base(j, w, i, t) else
      var hook := j.hooks[i][h];
      var w1 := Edit(Log(w, Enter(i, h)), t, hook);
      var seen := FieldsOf(w1, t);
      var next := Passed(hook, t);
      var (w2, o) := Repeat(j, w1, i, h + 1, next, hook.calls(seen), None);
      (Log(w2, Exit(i, h)), hook.returns_(seen, o))
  }

  /** A hook calling next k times. */
  function Repeat(j: Job, w: World, i: nat, h: nat, t: Target, k: nat, o: Option<Outcome>): (r: (World, Option<Outcome>))
    requires Sound(j) && Fits(j, w) && i < |j.hooks| && h <= |j.hooks[i]| && InStore(j, t)
    ensures Fits(j, r.0)
    decreases |j.hooks| - i, |j.hooks[i]| - h, 3, k
  {
    if k == 0 then (w, o) else
      var (w1, o1) := Mutate(j, w, i, h, t);
      Repeat(j, w1, i, h, t, k - 1, Some(o1))
  }

  /** The innermost function of mutators[i]. */
  function Base(j: Job, w: World, i: nat, t: Target): (r: (World, Outcome))
    requires Sound(j) && Fits(j, w) && i < |j.hooks| && InStore(j, t)
    ensures Fits(j, r.0)
    decreases |j.hooks| - i, 0, 1, 0
  {
    if t.Foreign? then (w, Failed(WrongMutation)) else
      var failure := Check(j.rt, w.mutations[w.current[i]].fields);
      if failure.Some? then (w, Failed(CheckFailed(failure.value))) else
        var w1 := Prepare(w, i, t.m);
        var (w2, o) := Inner(j, w1, i);
        if o.Failed? then (w2, o) else (Finish(w2, i, t.m), Done)
  }

  /** What it calls in turn: the next mutator, or the batch insert. */
  function Inner(j: Job, w: World, i: nat): (r: (World, Outcome))
    requires Sound(j) && Fits(j, w) && i < |j.hooks|
    ensures Fits(j, r.0)
    decreases |j.hooks| - i, 0, 0, 0
  {
    if i + 1 < |j.hooks| then Mutate(j, w, i + 1, 0, Ref(w.current[i + 1])) else RunBatch(j, w)
  }

  /** The builder adopts the mutation; its node and spec are created. */
  function Prepare(w: World, i: nat, m: nat): World
    requires i < |w.current| == |w.specs| == |w.nodes| == |w.adoptions|
    requires m < |w.mutations| && w.current[i] < |w.mutations|
  {
    var (node, spec) := CreateSpec(w.mutations[m]);
    var adoption := Adoption(w.current[i], w.mutations[w.current[i]].fields, w.mutations[m]);
    w.(current := w.current[i := m], nodes := w.nodes[i := Some(node)], specs := w.specs[i := Some(spec)],
       adoptions := w.adoptions[i := Some(adoption)])
  }

  function FillIds(specs: seq<Option<Spec>>, ids: nat -> Option<int>): (r: seq<Option<Spec>>)
    ensures |r| == |specs|
    ensures forall k :: 0 <= k < |specs| ==> r[k] == if specs[k].Some? then Some(specs[k].value.(id := ids(k))) else None
  {
    seq(|specs|, k requires 0 <= k < |specs| => if specs[k].Some? then Some(specs[k].value.(id := ids(k))) else None)
  }

  function RunBatch(j: Job, w: World): (World, Outcome) {
    var w1 := Log(w, Insert).(batches := w.batches + [w.specs]);
    match j.insert(w.specs)
    case Rejected => (w1, Failed(InsertFailed))
    case Filled(ids) => (w1.(specs := FillIds(w.specs, ids)), Done)
  }

  function Finish(w: World, i: nat, m: nat): World
    requires i < |w.specs| == |w.nodes|
  {
    var nodes :=
      if w.specs[i].Some? && w.specs[i].value.id.Some? && w.nodes[i].Some?
      then w.nodes[i := Some(w.nodes[i].value.(id := w.specs[i].value.id.value))]
      else w.nodes;
    w.(idOf := w.idOf[m := i], nodes := nodes, done := w.done + {m})
  }

  // ---- disciplined hooks ----

  /** The hook calls next at most once, and never turns an error or a skipped call into success. It may
      edit the mutation and pass on any other. */
  ghost predicate Disciplined(hook: Hook) {
    && (forall f :: hook.calls(f) <= 1)
    && (forall f :: hook.returns_(f, None).Failed?)
    && (forall f, e :: hook.returns_(f, Some(Failed(e))).Failed?)
  }

  ghost predicate AllDisciplined(j: Job) {
    forall i, h :: 0 <= i < |j.hooks| && 0 <= h < |j.hooks[i]| ==> Disciplined(j.hooks[i][h])
  }

  /** The builders before i are untouched. */
  ghost predicate Kept(j: Job, w: World, w': World, i: nat)
    requires Fits(j, w) && i <= |j.hooks|
  {
    && Fits(j, w')
    && (forall k :: 0 <= k < i ==>
          w'.nodes[k] == w.nodes[k] && w'.current[k] == w.current[k] && w'.adoptions[k] == w.adoptions[k])
  }

  ghost predicate SpecsAfter(j: Job, b: seq<Option<Spec>>, specs: seq<Option<Spec>>) {
    match j.insert(b)
    case Rejected => specs == b
    case Filled(ids) => specs == FillIds(b, ids)
  }

  /** Builder k's own mutation passed check, and the spec is that of the mutation the builder adopted then. */
  ghost predicate Adopted(j: Job, w: World, k: int, own: int, spec: Option<Spec>)
    requires Fits(j, w) && 0 <= k < |j.hooks|
  {
    && w.adoptions[k].Some?
    && var a := w.adoptions[k].value;
       a.own == own && Check(j.rt, a.checked).None? && spec == Some(CreateSpec(a.mutation).1)
  }

  /** One more batch ran: below i it holds the old specs, from i on those of the adopted mutations. */
  ghost predicate Inserted(j: Job, w: World, w': World, i: nat)
    requires Fits(j, w) && Fits(j, w') && i <= |j.hooks|
  {
    && |w'.batches| == |w.batches| + 1 && w'.batches[..|w.batches|] == w.batches
    && var b := w'.batches[|w.batches|];
       && |b| == |j.hooks| && SpecsAfter(j, b, w'.specs)
       && (forall k :: 0 <= k < i ==> b[k] == w.specs[k])
       && (forall k :: i <= k < |b| ==> Adopted(j, w', k, w.current[k], b[k]))
  }

  /** The mutations that the builders from d on point to. */
  ghost function PointedTo(current: seq<nat>, d: int): set<nat> {
    set k: int | 0 <= d <= k < |current| :: current[k]
  }

  lemma PointedToNext(current: seq<nat>, d: int)
    requires 0 <= d < |current|
    ensures PointedTo(current, d) == PointedTo(current, d + 1) + {current[d]}
  {
    forall m ensures m in PointedTo(current, d) <==> m in PointedTo(current, d + 1) + {current[d]} {
    }
  }

  /** Exactly the mutations of the builders d .. n - 1 became done, and each one's id points into a node
      of one of those builders that has it. */
  ghost predicate DoneFrom(j: Job, w: World, w': World, d: nat)
    requires Fits(j, w')
  {
    && w'.done == w.done + PointedTo(w'.current, d)
    && (forall k :: d <= k < |j.hooks| ==>
          && w'.current[k] in w'.idOf
          && var o := w'.idOf[w'.current[k]]; d <= o <= k && w'.current[o] == w'.current[k])
  }

  /** From d on, node k is that of the adopted mutation with the id the insert chose for spec k. */
  ghost predicate Numbered(j: Job, w: World, w': World, d: nat)
    requires Fits(j, w) && Fits(j, w') && |w'.batches| > |w.batches|
  {
    && j.insert(w'.batches[|w.batches|]).Filled?
    && var ids := j.insert(w'.batches[|w.batches|]).ids;
       forall k :: d <= k < |j.hooks| ==>
         && w'.adoptions[k].Some?
         && w'.nodes[k] == Some(WithId(CreateSpec(w'.adoptions[k].value.mutation).0, ids(k)))
  }

  function WithId(node: Entity, id: Option<int>): Entity {
    if id.Some? then node.(id := id.value) else node
  }

  /** What a call that starts at builder i may have done. */
  ghost predicate Result(j: Job, w: World, w': World, i: nat, d: nat, o: Outcome)
    requires Fits(j, w) && i <= |j.hooks|
  {
    && Kept(j, w, w', i) && i <= d <= |j.hooks| && DoneFrom(j, w, w', d)
    && (w'.batches == w.batches || Inserted(j, w, w', i))
    && (w'.batches == w.batches ==> d == |j.hooks| && o.Failed?)
    && (o.Done? || d < |j.hooks| ==> Inserted(j, w, w', i) && Numbered(j, w, w', d))
    && (o.Done? ==> d == i)
  }

  ghost predicate Ran(j: Job, w: World, r: (World, Outcome), i: nat, d: nat)
    requires Fits(j, w) && i <= |j.hooks|
  {
    Result(j, w, r.0, i, d, r.1)
  }

  lemma {:induction false} MutateResult(j: Job, w: World, i: nat, h: nat, t: Target) returns (d: nat)
    requires AllDisciplined(j) && Sound(j) && Fits(j, w) && i < |j.hooks| && h <= |j.hooks[i]| && InStore(j, t)
    ensures Ran(j, w, Mutate(j, w, i, h, t), i, d)
    decreases |j.hooks| - i, |j.hooks[i]| - h, 2
  {
    if h == |j.hooks[i]| {
      d := BaseResult(j, w, i, t);
    } else {
      var w1 := Entered(j, w, i, h, t);
      HookStep(j, w, i, h, t);
      if j.hooks[i][h].calls(FieldsOf(w1, t)) == 0 {
        d := |j.hooks|;
        SkippedResult(j, w, i, h, t);
      } else {
        var next := Passed(j.hooks[i][h], t);
        d := MutateResult(j, w1, i, h + 1, next);
        var (w2, o) := Mutate(j, w1, i, h + 1, next);
        HookResult(j, w, i, h, t, w2, d, o, Mutate(j, w, i, h, t).1);
      }
    }
  }

  function Entered(j: Job, w: World, i: nat, h: nat, t: Target): World
    requires Fits(j, w) && i < |j.hooks| && h < |j.hooks[i]| && InStore(j, t)
  {
    Edit(Log(w, Enter(i, h)), t, j.hooks[i][h])
  }

  /** A disciplined hook: it logs, edits its mutation, calls next at most once with the mutation it passes
      on, and logs again. */
  lemma HookStep(j: Job, w: World, i: nat, h: nat, t: Target)
    requires AllDisciplined(j) && Sound(j) && Fits(j, w) && i < |j.hooks| && h < |j.hooks[i]| && InStore(j, t)
    ensures var w1 := Entered(j, w, i, h, t);
      var (w', o') := Mutate(j, w, i, h, t);
      && Fits(j, w1) && InStore(j, Passed(j.hooks[i][h], t))
      && if j.hooks[i][h].calls(FieldsOf(w1, t)) == 0 then w' == Log(w1, Exit(i, h)) && o'.Failed?
         else var (w2, o) := Mutate(j, w1, i, h + 1, Passed(j.hooks[i][h], t));
              w' == Log(w2, Exit(i, h)) && (o'.Done? ==> o.Done?)
  {
    var hook := j.hooks[i][h];
    assert Disciplined(hook);
    var w1 := Entered(j, w, i, h, t);
    var seen, next := FieldsOf(w1, t), Passed(hook, t);
    assert hook.calls(seen) <= 1;
    if hook.calls(seen) == 1 {
      var (w2, o) := Mutate(j, w1, i, h + 1, next);
      assert Repeat(j, w1, i, h + 1, next, 1, None) == Repeat(j, w2, i, h + 1, next, 0, Some(o));
    }
  }

  lemma SkippedResult(j: Job, w: World, i: nat, h: nat, t: Target)
    requires Fits(j, w) && i < |j.hooks| && h < |j.hooks[i]| && InStore(j, t)
    ensures forall o: Outcome :: o.Failed? ==> Result(j, w, Log(Entered(j, w, i, h, t), Exit(i, h)), i, |j.hooks|, o)
  {
  }

  lemma HookResult(j: Job, w: World, i: nat, h: nat, t: Target, w2: World, d: nat, o: Outcome, o': Outcome)
    requires Fits(j, w) && i < |j.hooks| && h < |j.hooks[i]| && InStore(j, t) && Fits(j, Entered(j, w, i, h, t))
    requires Result(j, Entered(j, w, i, h, t), w2, i, d, o) && (o'.Done? ==> o.Done?)
    ensures Result(j, w, Log(w2, Exit(i, h)), i, d, o')
  {
  }

  lemma {:induction false} BaseResult(j: Job, w: World, i: nat, t: Target) returns (d: nat)
    requires AllDisciplined(j) && Sound(j) && Fits(j, w) && i < |j.hooks| && InStore(j, t)
    ensures Ran(j, w, Base(j, w, i, t), i, d)
    decreases |j.hooks| - i, 0, 1
  {
    d := |j.hooks|;
    if t.Ref? && Check(j.rt, w.mutations[w.current[i]].fields).None? {
      var w1 := Prepare(w, i, t.m);
      if i + 1 < |j.hooks| {
        d := MutateResult(j, w1, i + 1, 0, Ref(w1.current[i + 1]));
      } else {
        BatchResult(j, w1);
      }
      d := PreparedResult(j, w, w1, i, t.m, Inner(j, w1, i), d);
    } else {
      IdleResult(j, w, i);
    }
  }

  lemma PreparedResult(j: Job, w: World, w1: World, i: nat, m: nat, r: (World, Outcome), d: nat) returns (d': nat)
    requires Prepared(j, w, w1, i, m) && Ran(j, w1, r, i + 1, d)
    ensures Ran(j, w, if r.1.Failed? then r else (Finish(r.0, i, m), Done), i, d')
  {
    d' := d;
    if r.1.Failed? {
      FailedResult(j, w, w1, r.0, i, m, d, r.1);
    } else {
      FinishResult(j, w, w1, r.0, i, m);
      d' := i;
    }
  }

  lemma IdleResult(j: Job, w: World, i: nat)
    requires Fits(j, w) && i < |j.hooks|
    ensures forall o: Outcome :: o.Failed? ==> Result(j, w, w, i, |j.hooks|, o)
  {
  }

  lemma BatchResult(j: Job, w: World)
    requires Fits(j, w)
    ensures Ran(j, w, RunBatch(j, w), |j.hooks|, |j.hooks|)
  {
  }

  /** Builder i prepared its spec for a mutation m, after its own mutation passed check. */
  ghost predicate Prepared(j: Job, w: World, w1: World, i: nat, m: nat) {
    && Fits(j, w) && i < |j.hooks| && m < j.store && Check(j.rt, w.mutations[w.current[i]].fields).None?
    && w1 == Prepare(w, i, m) && Fits(j, w1)
  }

  lemma FailedResult(j: Job, w: World, w1: World, w2: World, i: nat, m: nat, d: nat, o: Outcome)
    requires Prepared(j, w, w1, i, m) && Result(j, w1, w2, i + 1, d, o) && o.Failed?
    ensures Result(j, w, w2, i, d, o)
  {
  }

  lemma FinishResult(j: Job, w: World, w1: World, w2: World, i: nat, m: nat)
    requires Prepared(j, w, w1, i, m) && Result(j, w1, w2, i + 1, i + 1, Done)
    ensures Result(j, w, Finish(w2, i, m), i, i, Done)
  {
    FinishKeeps(j, w, w1, w2, i, m);
    FinishNumbers(j, w, w1, w2, i, m);
  }

  lemma FinishKeeps(j: Job, w: World, w1: World, w2: World, i: nat, m: nat)
    requires Prepared(j, w, w1, i, m) && Kept(j, w1, w2, i + 1) && DoneFrom(j, w1, w2, i + 1)
    ensures Kept(j, w, Finish(w2, i, m), i) && DoneFrom(j, w, Finish(w2, i, m), i)
  {
    assert w2.current[i] == m;
    PointedToNext(w2.current, i);
  }

  lemma FinishNumbers(j: Job, w: World, w1: World, w2: World, i: nat, m: nat)
    requires Prepared(j, w, w1, i, m) && Kept(j, w1, w2, i + 1)
    requires Inserted(j, w1, w2, i + 1) && Numbered(j, w1, w2, i + 1)
    ensures Fits(j, Finish(w2, i, m))
    ensures Inserted(j, w, Finish(w2, i, m), i) && Numbered(j, w, Finish(w2, i, m), i)
  {
    var b := w2.batches[|w.batches|];
    assert Adopted(j, w2, i, w.current[i], b[i]);
  }
}
