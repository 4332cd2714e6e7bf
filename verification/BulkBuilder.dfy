/** The AccountCreateBulk builder: the state that Save updates in place, proved against the
    functions of BulkCreate. */
module BulkBuilder {
  import opened Options
  import opened AccountFields
  import opened BulkCreate
  import BulkTheorems
  import BulkDefaults

  datatype SaveResult = BuilderError | SaveFailed(error: Error) | Saved(nodes: seq<Option<Entity>>)

  class AccountCreateBulk {
    const job: Job
    const err: bool
    var mutations: seq<Mutation>
    var current: seq<nat>
    var specs: seq<Option<Spec>>
    var nodes: seq<Option<Entity>>
    var idOf: map<nat, nat>
    var done: set<nat>
    ghost var adoptions: seq<Option<Adoption>>
    ghost var batches: seq<seq<Option<Spec>>>
    ghost var trace: seq<Event>

    ghost function Snapshot(): World
      reads this
    {
      World(mutations, current, specs, nodes, idOf, done, adoptions, batches, trace)
    }

    constructor (job: Job, err: bool, mutations: seq<Mutation>)
      requires |job.hooks| <= |mutations| == job.store
      ensures this.job == job && this.err == err && this.mutations == mutations
      ensures Snapshot() == BulkTheorems.Initial(job, mutations)
    {
      this.job, this.err, this.mutations := job, err, mutations;
      current := seq(|job.hooks|, k => k);
      specs, nodes := seq(|job.hooks|, _ => None), seq(|job.hooks|, _ => None);
      idOf, done := map[], {};
      adoptions, batches, trace := seq(|job.hooks|, _ => None), [], [];
    }

    method MutateWith(i: nat, h: nat, t: Target) returns (o: Outcome)
      requires Sound(job) && Fits(job, Snapshot()) && i < |job.hooks| && h <= |job.hooks[i]| && InStore(job, t)
      modifies this
      ensures (Snapshot(), o) == Mutate(job, old(Snapshot()), i, h, t)
      decreases |job.hooks| - i, |job.hooks[i]| - h, 1
    {
      if h == |job.hooks[i]| {
        o := Innermost(i, t);
        return;
      }
      var hook := job.hooks[i][h];
      trace := trace + [Enter(i, h)];
      if t.Ref? {
        mutations := mutations[t.m := mutations[t.m].(fields := hook.edit(mutations[t.m].fields))];
      }
      var seen := if t.Ref? then mutations[t.m].fields else map[];
      var next := Passed(hook, t);
      var calls := hook.calls(seen);
      var left, last := calls, None;
      ghost var w1 := Snapshot();
      while left > 0
        invariant Fits(job, Snapshot())
        invariant Repeat(job, w1, i, h + 1, next, calls, None) == Repeat(job, Snapshot(), i, h + 1, next, left, last)
      {
        var result := MutateWith(i, h + 1, next);
        left, last := left - 1, Some(result);
      }
      trace := trace + [Exit(i, h)];
      o := hook.returns_(seen, last);
    }

    method Innermost(i: nat, t: Target) returns (o: Outcome)
      requires Sound(job) && Fits(job, Snapshot()) && i < |job.hooks| && InStore(job, t)
      modifies this
      ensures (Snapshot(), o) == Base(job, old(Snapshot()), i, t)
      decreases |job.hooks| - i, 0, 0
    {
      if t.Foreign? { return Failed(WrongMutation); }
      var failure := Check(job.rt, mutations[current[i]].fields);
      if failure.Some? { return Failed(CheckFailed(failure.value)); }
      Adopt(i, t.m);
      if i < |job.hooks| - 1 {
        o := MutateWith(i + 1, 0, Ref(current[i + 1]));
      } else {
        o := BatchCreate();
      }
      if o.Failed? { return; }
      Complete(i, t.m);
    }

    /** builder.mutation = mutation; nodes[i], specs[i] = builder.createSpec() */
    method Adopt(i: nat, m: nat)
      requires Fits(job, Snapshot()) && i < |job.hooks| && m < |mutations|
      modifies this
      ensures Snapshot() == Prepare(old(Snapshot()), i, m)
    {
      adoptions := adoptions[i := Some(Adoption(current[i], mutations[current[i]].fields, mutations[m]))];
      current := current[i := m];
      var (node, spec) := CreateSpec(mutations[current[i]]);
      nodes, specs := nodes[i := Some(node)], specs[i := Some(spec)];
    }

    /** The id of the mutation and of the node, and the done flag. */
    method Complete(i: nat, m: nat)
      requires Fits(job, Snapshot()) && i < |job.hooks|
      modifies this
      ensures Snapshot() == Finish(old(Snapshot()), i, m)
    {
      idOf := idOf[m := i];
      if specs[i].Some? && specs[i].value.id.Some? && nodes[i].Some? {
        nodes := nodes[i := Some(nodes[i].value.(id := specs[i].value.id.value))];
      }
      done := done + {m};
    }

    method BatchCreate() returns (o: Outcome)
      requires Sound(job) && Fits(job, Snapshot())
      modifies this
      ensures (Snapshot(), o) == RunBatch(job, old(Snapshot()))
    {
      batches, trace := batches + [specs], trace + [Insert];
      match job.insert(specs)
      case Rejected => o := Failed(InsertFailed);
      case Filled(ids) =>
        specs := FillIds(specs, ids);
        o := Done;
    }

    /** The defaults of every builder, then the chain of mutators. */
    method Save() returns (r: SaveResult)
      requires Sound(job) && |job.hooks| <= job.store == |mutations|
      requires Snapshot() == BulkTheorems.Initial(job, mutations)
      modifies this
      ensures err <==> r.BuilderError?
      ensures err ==> Snapshot() == old(Snapshot())
      ensures !err && |job.hooks| > 0 ==>
        var (w, o) := BulkTheorems.Saved(job, old(mutations));
        Snapshot() == w && r == if o.Done? then Saved(w.nodes) else SaveFailed(o.error)
      ensures !err && |job.hooks| == 0 ==> r == Saved([]) && batches == []
      ensures !err && AllDisciplined(job) && |job.hooks| > 0 ==>
        Fits(job, Snapshot()) && BulkTheorems.AllOrNothing(job, Snapshot(), r.Saved?)
      ensures !err && BulkDefaults.Transparent(job) && |job.hooks| > 0 ==>
        BulkDefaults.CreatesRows(job, old(mutations), Snapshot(), r.Saved?)
    {
      if err { return BuilderError; }
      for i := 0 to |job.hooks|
        invariant mutations == BulkTheorems.WithDefaults(job, old(mutations), i)
        invariant Snapshot() == old(Snapshot()).(mutations := mutations)
      {
        mutations := mutations[i := mutations[i].(fields := Defaults(job.rt, mutations[i].fields).0)];
      }
      if |job.hooks| > 0 {
        assert Snapshot() == BulkTheorems.Start(job, old(mutations));
        var o := MutateWith(0, 0, Ref(current[0]));
        if AllDisciplined(job) {
          BulkTheorems.SaveIsAllOrNothing(job, old(mutations));
        }
        if BulkDefaults.Transparent(job) {
          BulkDefaults.SaveCreatesRows(job, old(mutations));
        }
        if o.Failed? { return SaveFailed(o.error); }
      }
      return Saved(nodes);
    }
  }
}
