/** What a bulk create does over a whole run. */
module BulkTheorems {
  import opened Options
  import opened AccountFields
  import opened BulkCreate

  // ---- the trace ----

  /** The trace of a successful run, from hook h of builder i inwards. */
  function Nest(j: Job, i: nat, h: nat): seq<Event>
    requires i < |j.hooks| && h <= |j.hooks[i]|
    decreases |j.hooks| - i, |j.hooks[i]| - h
  {
    if h < |j.hooks[i]| then [Enter(i, h)] + Nest(j, i, h + 1) + [Exit(i, h)]
    else if i + 1 < |j.hooks| then Nest(j, i + 1, 0)
    else [Insert]
  }

  lemma {:induction false} MutateTrace(j: Job, w: World, i: nat, h: nat, t: Target)
    requires AllDisciplined(j) && Sound(j) && Fits(j, w) && i < |j.hooks| && h <= |j.hooks[i]| && InStore(j, t)
    requires Mutate(j, w, i, h, t).1.Done?
    ensures Mutate(j, w, i, h, t).0.trace == w.trace + Nest(j, i, h)
    decreases |j.hooks| - i, |j.hooks[i]| - h, 1
  {
    if h < |j.hooks[i]| {
      HookStep(j, w, i, h, t);
      MutateTrace(j, Entered(j, w, i, h, t), i, h + 1, Passed(j.hooks[i][h], t));
    } else {
      BaseTrace(j, w, i, t);
    }
  }

  lemma {:induction false} BaseTrace(j: Job, w: World, i: nat, t: Target)
    requires AllDisciplined(j) && Sound(j) && Fits(j, w) && i < |j.hooks| && InStore(j, t)
    requires Base(j, w, i, t).1.Done?
    ensures Base(j, w, i, t).0.trace == w.trace + Nest(j, i, |j.hooks[i]|)
    decreases |j.hooks| - i, 0, 0
  {
    var w1 := Prepare(w, i, t.m);
    if i + 1 < |j.hooks| {
      MutateTrace(j, w1, i + 1, 0, Ref(w1.current[i + 1]));
    }
  }

  /** The hooks in the order they are entered: by builder, then by hook. */
  function Hooks(j: Job, i: nat, h: nat): seq<(nat, nat)>
    requires i < |j.hooks| && h <= |j.hooks[i]|
    decreases |j.hooks| - i, |j.hooks[i]| - h
  {
    if h < |j.hooks[i]| then [(i, h)] + Hooks(j, i, h + 1)
    else if i + 1 < |j.hooks| then Hooks(j, i + 1, 0)
    else []
  }

  function Enters(hs: seq<(nat, nat)>): seq<Event> {
    if hs == [] then [] else [Enter(hs[0].0, hs[0].1)] + Enters(hs[1..])
  }

  function ExitsReversed(hs: seq<(nat, nat)>): seq<Event> {
    if hs == [] then [] else ExitsReversed(hs[1..]) + [Exit(hs[0].0, hs[0].1)]
  }

  /** Hooks are entered in builder order then hook order, the insert is the one innermost event,
      and the exits come in exact reverse. */
  lemma {:induction false} NestShape(j: Job, i: nat, h: nat)
    requires i < |j.hooks| && h <= |j.hooks[i]|
    ensures Nest(j, i, h) == Enters(Hooks(j, i, h)) + [Insert] + ExitsReversed(Hooks(j, i, h))
    decreases |j.hooks| - i, |j.hooks[i]| - h
  {
    if h < |j.hooks[i]| {
      NestShape(j, i, h + 1);
      assert Hooks(j, i, h)[1..] == Hooks(j, i, h + 1);
    } else if i + 1 < |j.hooks| {
      NestShape(j, i + 1, 0);
    }
  }

  // ---- balance, for any hooks ----

  /** Replays events against a stack of open hooks. */
  function Replay(open: seq<(nat, nat)>, events: seq<Event>): Option<seq<(nat, nat)>>
    decreases |events|
  {
    if events == [] then Some(open) else
      match events[0]
      case Enter(i, h) => Replay(open + [(i, h)], events[1..])
      case Insert => Replay(open, events[1..])
      case Exit(i, h) =>
        if open != [] && open[|open| - 1] == (i, h) then Replay(open[..|open| - 1], events[1..]) else None
  }

  ghost predicate Balanced(events: seq<Event>) {
    forall open :: Replay(open, events) == Some(open)
  }

  lemma {:induction false} ReplayConcat(open: seq<(nat, nat)>, a: seq<Event>, b: seq<Event>)
    requires Replay(open, a).Some?
    ensures Replay(open, a + b) == Replay(Replay(open, a).value, b)
    decreases |a|
  {
    if a == [] {
      assert a + b == b;
    } else {
      assert (a + b)[1..] == a[1..] + b;
      match a[0]
      case Enter(i, h) => ReplayConcat(open + [(i, h)], a[1..], b);
      case Insert => ReplayConcat(open, a[1..], b);
      case Exit(_, _) => ReplayConcat(open[..|open| - 1], a[1..], b);
    }
  }

  lemma BalancedConcat(a: seq<Event>, b: seq<Event>)
    requires Balanced(a) && Balanced(b)
    ensures Balanced(a + b)
  {
    forall open ensures Replay(open, a + b) == Some(open) {
      ReplayConcat(open, a, b);
    }
  }

  lemma BalancedNest(i: nat, h: nat, a: seq<Event>)
    requires Balanced(a)
    ensures Balanced([Enter(i, h)] + a + [Exit(i, h)])
  {
    forall open ensures Replay(open, [Enter(i, h)] + a + [Exit(i, h)]) == Some(open) {
      var inner := open + [(i, h)];
      assert ([Enter(i, h)] + a + [Exit(i, h)])[1..] == a + [Exit(i, h)];
      ReplayConcat(inner, a, [Exit(i, h)]);
      assert inner[..|inner| - 1] == open;
    }
  }

  /** Whatever the hooks do - retry, skip, swallow errors, substitute mutations - the events of a
      call are well parenthesised. */
  lemma {:induction false} MutateBalanced(j: Job, w: World, i: nat, h: nat, t: Target) returns (events: seq<Event>)
    requires Sound(j) && Fits(j, w) && i < |j.hooks| && h <= |j.hooks[i]| && InStore(j, t)
    ensures Mutate(j, w, i, h, t).0.trace == w.trace + events && Balanced(events)
    decreases |j.hooks| - i, |j.hooks[i]| - h, 2, 0
  {
    if h == |j.hooks[i]| {
      events := BaseBalanced(j, w, i, t);
    } else {
      var hook := j.hooks[i][h];
      var w1 := Edit(Log(w, Enter(i, h)), t, hook);
      var next := Passed(hook, t);
      var calls := hook.calls(FieldsOf(w1, t));
      var inner := RepeatBalanced(j, w1, i, h + 1, next, calls, None);
      BalancedNest(i, h, inner);
      events := [Enter(i, h)] + inner + [Exit(i, h)];
    }
  }

  lemma {:induction false} RepeatBalanced(j: Job, w: World, i: nat, h: nat, t: Target, k: nat, o: Option<Outcome>)
    returns (events: seq<Event>)
    requires Sound(j) && Fits(j, w) && i < |j.hooks| && h <= |j.hooks[i]| && InStore(j, t)
    ensures Repeat(j, w, i, h, t, k, o).0.trace == w.trace + events && Balanced(events)
    decreases |j.hooks| - i, |j.hooks[i]| - h, 3, k
  {
    events := [];
    if k > 0 {
      var first := MutateBalanced(j, w, i, h, t);
      var (w1, o1) := Mutate(j, w, i, h, t);
      var rest := RepeatBalanced(j, w1, i, h, t, k - 1, Some(o1));
      BalancedConcat(first, rest);
      events := first + rest;
    }
  }

  lemma {:induction false} BaseBalanced(j: Job, w: World, i: nat, t: Target) returns (events: seq<Event>)
    requires Sound(j) && Fits(j, w) && i < |j.hooks| && InStore(j, t)
    ensures Base(j, w, i, t).0.trace == w.trace + events && Balanced(events)
    decreases |j.hooks| - i, 0, 1, 0
  {
    events := [];
    if t.Ref? && Check(j.rt, w.mutations[w.current[i]].fields).None? {
      var w1 := Prepare(w, i, t.m);
      if i + 1 < |j.hooks| {
        events := MutateBalanced(j, w1, i + 1, 0, Ref(w1.current[i + 1]));
      } else {
        events := [Insert];
      }
    }
  }

  // ---- hooks that edit nothing ----

  /** No hook edits a mutation; they may call next any number of times and pass on any mutation. */
  ghost predicate PassThrough(j: Job) {
    forall i, h :: 0 <= i < |j.hooks| && 0 <= h < |j.hooks[i]| ==>
      forall f :: j.hooks[i][h].edit(f) == f
  }

  lemma EnteredKeeps(j: Job, w: World, i: nat, h: nat, t: Target)
    requires PassThrough(j) && Fits(j, w) && i < |j.hooks| && h < |j.hooks[i]| && InStore(j, t)
    ensures Entered(j, w, i, h, t) == Log(w, Enter(i, h))
  {
    if t.Ref? {
      assert w.mutations[t.m := w.mutations[t.m]] == w.mutations;
    }
  }

  /** Builder k's own mutation does not pass check. */
  ghost predicate Rejected(j: Job, w: World, k: nat) {
    Fits(j, w) && k < |j.hooks| && Check(j.rt, w.mutations[w.current[k]].fields).Some?
  }

  /** A builder whose own mutation fails check stops every run that has to pass through it. */
  ghost predicate Stopped(j: Job, w: World, w': World, k: nat) {
    Rejected(j, w', k) && w'.batches == w.batches && w'.mutations == w.mutations
  }

  lemma {:induction false} MutateStops(j: Job, w: World, i: nat, h: nat, t: Target, k: nat)
    requires PassThrough(j) && Sound(j) && Rejected(j, w, k) && i <= k && h <= |j.hooks[i]| && InStore(j, t)
    ensures Stopped(j, w, Mutate(j, w, i, h, t).0, k)
    decreases |j.hooks| - i, |j.hooks[i]| - h, 2, 0
  {
    if h == |j.hooks[i]| {
      BaseStops(j, w, i, t, k);
    } else {
      var hook, w1 := j.hooks[i][h], Entered(j, w, i, h, t);
      EnteredKeeps(j, w, i, h, t);
      RepeatStops(j, w1, i, h + 1, Passed(hook, t), hook.calls(FieldsOf(w1, t)), None, k);
    }
  }

  lemma {:induction false} RepeatStops(j: Job, w: World, i: nat, h: nat, t: Target, c: nat, o: Option<Outcome>, k: nat)
    requires PassThrough(j) && Sound(j) && Rejected(j, w, k) && i <= k && h <= |j.hooks[i]| && InStore(j, t)
    ensures Stopped(j, w, Repeat(j, w, i, h, t, c, o).0, k)
    decreases |j.hooks| - i, |j.hooks[i]| - h, 3, c
  {
    if c > 0 {
      MutateStops(j, w, i, h, t, k);
      var (w1, o1) := Mutate(j, w, i, h, t);
      RepeatStops(j, w1, i, h, t, c - 1, Some(o1), k);
    }
  }

  lemma {:induction false} BaseStops(j: Job, w: World, i: nat, t: Target, k: nat)
    requires PassThrough(j) && Sound(j) && Rejected(j, w, k) && i <= k && InStore(j, t)
    ensures Stopped(j, w, Base(j, w, i, t).0, k)
    decreases |j.hooks| - i, 0, 1, 0
  {
    if t.Ref? && Check(j.rt, w.mutations[w.current[i]].fields).None? {
      var w1 := Prepare(w, i, t.m);
      MutateStops(j, w1, i + 1, 0, Ref(w1.current[i + 1]), k);
    }
  }

  // ---- Save ----

  /** The mutations after builder.defaults() of the first k builders, whose errors are discarded. */
  function WithDefaults(j: Job, ms: seq<Mutation>, k: nat): (r: seq<Mutation>)
    requires k <= |ms|
    ensures |r| == |ms|
    ensures forall m :: 0 <= m < |ms| ==>
      r[m] == if m < k then ms[m].(fields := Defaults(j.rt, ms[m].fields).0) else ms[m]
  {
    seq(|ms|, m requires 0 <= m < |ms| => if m < k then ms[m].(fields := Defaults(j.rt, ms[m].fields).0) else ms[m])
  }

  function Initial(j: Job, ms: seq<Mutation>): World {
    var n := |j.hooks|;
    World(ms, seq(n, k => k), seq(n, _ => None), seq(n, _ => None), map[], {}, seq(n, _ => None), [], [])
  }

  /** The world in which the first mutator is called. */
  function Start(j: Job, ms: seq<Mutation>): World
    requires |j.hooks| <= |ms|
  {
    Initial(j, WithDefaults(j, ms, |j.hooks|))
  }

  /** Save on these mutations, after its guard. */
  function Saved(j: Job, ms: seq<Mutation>): (World, Outcome)
    requires Sound(j) && 0 < |j.hooks| <= |ms| == j.store
  {
    Mutate(j, Start(j, ms), 0, 0, Ref(0))
  }

  /** Every builder still points to its own mutation. */
  ghost predicate Ready(j: Job, w: World) {
    Sound(j) && Fits(j, w) && |j.hooks| <= j.store && forall k :: 0 <= k < |w.current| ==> w.current[k] == k
  }

  /** The one insert, if it ran: every builder's own mutation had passed check, and every slot held the
      spec of the mutation that builder adopted. */
  ghost predicate InsertedOnce(j: Job, w: World)
    requires Fits(j, w)
  {
    && |w.batches| == 1 && |w.batches[0]| == |j.hooks|
    && forall k :: 0 <= k < |j.hooks| ==> Adopted(j, w, k, k, w.batches[0][k])
  }

  /** Every builder's mutation is done, its node is that of the adopted mutation with the id of its spec,
      and the mutation's id points into the node of a builder that has this mutation. */
  ghost predicate Completed(j: Job, w: World)
    requires Fits(j, w)
  {
    && InsertedOnce(j, w) && j.insert(w.batches[0]).Filled? && w.done == PointedTo(w.current, 0)
    && forall k :: 0 <= k < |j.hooks| ==>
         && w.adoptions[k].Some? && w.nodes[k] == Some(WithId(CreateSpec(w.adoptions[k].value.mutation).0, j.insert(w.batches[0]).ids(k)))
         && w.current[k] in w.idOf
         && var o := w.idOf[w.current[k]]; o <= k && w.current[o] == w.current[k]
  }

  /** At most one insert; the done mutations are those of a suffix of the builders; success means that the
      insert ran and that all are completed. */
  ghost predicate AllOrNothing(j: Job, w: World, saved: bool)
    requires Fits(j, w)
  {
    && (w.batches == [] || InsertedOnce(j, w))
    && (exists d :: 0 <= d <= |j.hooks| && w.done == PointedTo(w.current, d))
    && (w.batches == [] ==> w.done == {})
    && (saved ==> Completed(j, w))
  }

  lemma ResultIsAllOrNothing(j: Job, w0: World, w: World, d: nat, o: Outcome)
    requires Ready(j, w0) && w0.batches == [] && w0.done == {} && Result(j, w0, w, 0, d, o)
    ensures AllOrNothing(j, w, o.Done?)
  {
    assert w.done == PointedTo(w.current, d);
    assert PointedTo(w.current, |j.hooks|) == {};
    if w.batches != [] {
      assert Inserted(j, w0, w, 0);
      assert forall k :: 0 <= k < |j.hooks| ==> Adopted(j, w, k, w0.current[k], w.batches[0][k]);
    }
  }

  /** Bulk create is all-or-nothing, whatever mutations the hooks edit or pass on, and a successful run has
      the fully nested trace. */
  lemma SaveIsAllOrNothing(j: Job, ms: seq<Mutation>)
    requires AllDisciplined(j) && Sound(j) && 0 < |j.hooks| <= |ms| == j.store
    ensures var (w, o) := Saved(j, ms);
      && AllOrNothing(j, w, o.Done?)
      && (o.Done? ==> w.trace == Enters(Hooks(j, 0, 0)) + [Insert] + ExitsReversed(Hooks(j, 0, 0)))
  {
    var w0 := Start(j, ms);
    var d := MutateResult(j, w0, 0, 0, Ref(0));
    var (w, o) := Saved(j, ms);
    ResultIsAllOrNothing(j, w0, w, d, o);
    if o.Done? {
      MutateTrace(j, w0, 0, 0, Ref(0));
      NestShape(j, 0, 0);
      assert w0.trace + Nest(j, 0, 0) == Nest(j, 0, 0);
    }
  }

  // ---- hooks that pass their own mutation on ----

  ghost predicate OwnOnly(j: Job) {
    forall i, h :: 0 <= i < |j.hooks| && 0 <= h < |j.hooks[i]| ==> j.hooks[i][h].passes.None?
  }

  /** Builders before i keep their mutation; the others adopted, if at all, their own as it now is. */
  ghost predicate OwnKept(j: Job, w: World, w': World, i: nat)
    requires Ready(j, w) && i <= |j.hooks|
  {
    && Ready(j, w')
    && (forall k :: 0 <= k < i ==> w'.mutations[k] == w.mutations[k] && w'.adoptions[k] == w.adoptions[k])
    && (forall k :: i <= k < |j.hooks| && w'.adoptions[k].Some? ==>
          w'.adoptions[k].value == Adoption(k, w'.mutations[k].fields, w'.mutations[k]))
  }

  ghost predicate NotAdopted(j: Job, w: World, i: nat)
    requires Ready(j, w)
  {
    forall k :: i <= k < |j.hooks| ==> w.adoptions[k].None?
  }

  lemma {:induction false} MutateKeepsOwn(j: Job, w: World, i: nat, h: nat)
    requires AllDisciplined(j) && OwnOnly(j) && Ready(j, w) && i < |j.hooks| && h <= |j.hooks[i]| && NotAdopted(j, w, i)
    ensures OwnKept(j, w, Mutate(j, w, i, h, Ref(i)).0, i)
    decreases |j.hooks| - i, |j.hooks[i]| - h, 1
  {
    if h < |j.hooks[i]| {
      HookStep(j, w, i, h, Ref(i));
      var w1 := Entered(j, w, i, h, Ref(i));
      assert Passed(j.hooks[i][h], Ref(i)) == Ref(i);
      if j.hooks[i][h].calls(FieldsOf(w1, Ref(i))) != 0 {
        MutateKeepsOwn(j, w1, i, h + 1);
      }
    } else {
      BaseKeepsOwn(j, w, i);
    }
  }

  lemma {:induction false} BaseKeepsOwn(j: Job, w: World, i: nat)
    requires AllDisciplined(j) && OwnOnly(j) && Ready(j, w) && i < |j.hooks| && NotAdopted(j, w, i)
    ensures OwnKept(j, w, Base(j, w, i, Ref(i)).0, i)
    decreases |j.hooks| - i, 0, 0
  {
    if Check(j.rt, w.mutations[i].fields).None? {
      var w1 := Prepare(w, i, i);
      if i + 1 < |j.hooks| {
        MutateKeepsOwn(j, w1, i + 1, 0);
      }
      OwnAdopted(j, w, w1, Inner(j, w1, i).0, i);
    }
  }

  lemma OwnAdopted(j: Job, w: World, w1: World, w2: World, i: nat)
    requires Ready(j, w) && i < |j.hooks| && w1 == Prepare(w, i, i) && Ready(j, w1) && OwnKept(j, w1, w2, i + 1)
    ensures OwnKept(j, w, w2, i) && OwnKept(j, w, Finish(w2, i, i), i)
  {
  }

  ghost predicate IsSuffix(done: set<nat>, d: nat, n: nat) {
    d <= n && forall m :: m in done <==> d <= m < n
  }

  lemma SuffixDone(j: Job, w: World, d: nat)
    requires Ready(j, w) && d <= |j.hooks| && w.done == PointedTo(w.current, d)
    ensures IsSuffix(w.done, d, |j.hooks|)
  {
    forall m | d <= m < |j.hooks| ensures m in w.done {
      assert w.current[m] == m;
    }
  }

  /** The insert holds exactly the builders' own mutations, all of which pass check; the done mutations are
      a suffix of the indices, and on success all of them, each pointing to its own node. */
  ghost predicate OwnAllOrNothing(j: Job, w: World, saved: bool)
    requires Ready(j, w)
  {
    && (forall k :: w.batches != [] && 0 <= k < |j.hooks| ==>
          && Check(j.rt, w.mutations[k].fields).None?
          && |w.batches[0]| == |j.hooks| && w.batches[0][k] == Some(CreateSpec(w.mutations[k]).1))
    && (exists d :: IsSuffix(w.done, d, |j.hooks|))
    && (forall k :: saved && 0 <= k < |j.hooks| ==> k in w.done && k in w.idOf && w.idOf[k] == k)
  }

  lemma OwnAdoptionsAreAllOrNothing(j: Job, w0: World, w: World, saved: bool)
    requires Ready(j, w0) && OwnKept(j, w0, w, 0) && AllOrNothing(j, w, saved)
    ensures OwnAllOrNothing(j, w, saved)
  {
    var d: nat :| d <= |j.hooks| && w.done == PointedTo(w.current, d);
    SuffixDone(j, w, d);
    forall k | w.batches != [] && 0 <= k < |j.hooks|
      ensures Check(j.rt, w.mutations[k].fields).None?
      ensures |w.batches[0]| == |j.hooks| && w.batches[0][k] == Some(CreateSpec(w.mutations[k]).1)
    {
      assert Adopted(j, w, k, k, w.batches[0][k]);
    }
    if saved {
      SuffixDone(j, w, 0);
      forall k | 0 <= k < |j.hooks| ensures k in w.done && k in w.idOf && w.idOf[k] == k {
        assert w.current[k] == k;
      }
    }
  }

  lemma SaveInsertsOwnMutations(j: Job, ms: seq<Mutation>)
    requires AllDisciplined(j) && OwnOnly(j) && Sound(j) && 0 < |j.hooks| <= |ms| == j.store
    ensures var (w, o) := Saved(j, ms); Ready(j, w) && OwnAllOrNothing(j, w, o.Done?)
  {
    var w0 := Start(j, ms);
    SaveIsAllOrNothing(j, ms);
    MutateKeepsOwn(j, w0, 0, 0);
    OwnAdoptionsAreAllOrNothing(j, w0, Saved(j, ms).0, Saved(j, ms).1.Done?);
  }

  // ---- the discarded error of defaults ----

  /** Discarding the error of defaults is safe: when hooks edit nothing, a builder whose defaults failed
      prevents the insert, however often they call next and whatever they pass on; and if they are
      disciplined the save fails. */
  lemma DiscardedDefaultsErrorIsSafe(j: Job, ms: seq<Mutation>, k: nat)
    requires PassThrough(j) && Sound(j) && 0 < |j.hooks| <= |ms| == j.store
    requires k < |j.hooks| && Defaults(j.rt, ms[k].fields).1.Some?
    ensures var (w, o) := Saved(j, ms);
      w.batches == [] && (AllDisciplined(j) ==> o.Failed? && w.done == {})
  {
    FailedDefaultsFailCheck(j.rt, ms[k].fields);
    MutateStops(j, Start(j, ms), 0, 0, Ref(0), k);
    if AllDisciplined(j) {
      SaveIsAllOrNothing(j, ms);
    }
  }
}
