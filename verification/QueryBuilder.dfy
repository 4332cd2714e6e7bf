/** AccountQuery as a mutable builder: the chaining methods, eager-load configuration and Clone.
    The settings and the edge queries are separate objects behind pointers, so that a copy which
    shared one of them, or one of their arrays, would see the other's changes. */
module QueryBuilder {
  import opened Options
  import opened QuerySettings

  /** What a caller sees of a query: its settings and, per edge of its entity, the eager load. */
  datatype View = View(own: Settings, edges: seq<Load>)

  datatype Load = Off | On(query: View)

  /** Calls on a query. With creates an edge query, over an entity with `width` edges, and configures it
      by further calls; Inside is a call made on an edge query, as the load functions do when they add
      their IN predicate to it. */
  datatype Call =
    | Change(setting: Setting)
    | With(e: int, width: nat, inters: seq<int>, opts: seq<Call>)
    | Inside(e: int, inner: Call)

  function Fresh(inters: seq<int>): Settings {
    Settings(None, None, None, [], [], inters, [], [], None)
  }

  function Blank(width: nat, s: Settings): View {
    View(s, seq(width, _ => Off))
  }

  /** The effect of a call on what the caller sees. */
  function Called(v: View, c: Call): View
    decreases c, 0
  {
    match c
    case With(e, width, inters, opts) =>
      if 0 <= e < |v.edges| then View(v.own, v.edges[e := On(Built(Blank(width, Fresh(inters)), opts))]) else v
    case Inside(e, inner) =>
      if 0 <= e < |v.edges| && v.edges[e].On? then View(v.own, v.edges[e := On(Called(v.edges[e].query, inner))]) else v
    case Change(setting) => View(Configured(v.own, setting), v.edges)
  }

  function Built(v: View, cs: seq<Call>): View
    decreases cs, 1
  {
    if cs == [] then v else Called(Built(v, cs[..|cs| - 1]), cs[|cs| - 1])
  }

  /** What Clone keeps: everything but the lock modifiers, at every level. */
  function Unlocked(v: View): (r: View)
    ensures |r.edges| == |v.edges|
    ensures forall i :: 0 <= i < |v.edges| ==> r.edges[i] == UnlockedLoad(v.edges[i])
  {
    View(v.own.(modifiers := []), seq(|v.edges|, i requires 0 <= i < |v.edges| => UnlockedLoad(v.edges[i])))
  }

  function UnlockedLoad(l: Load): Load {
    match l
    case Off => Off
    case On(query) => On(Unlocked(query))
  }

  class Query {
    const base: Config
    var edges: seq<Query?>
    ghost var view: View
    ghost var repr: set<object>

    /** The query's objects are its own, its settings and each edge query own separate parts of them, and
        `view` is the configuration they hold. */
    ghost predicate Valid()
      reads this, repr
      decreases repr
    {
      && this in repr && base in repr && base.repr <= repr && this !in base.repr
      && base.Valid() && view.own == base.values && |view.edges| == |edges|
      && (forall i :: 0 <= i < |edges| ==> if edges[i] == null then view.edges[i].Off? else
            && edges[i] in repr && edges[i].repr < repr
            && this !in edges[i].repr && edges[i].repr !! base.repr
            && edges[i].Valid() && view.edges[i] == On(edges[i].view))
      && (forall i, j :: 0 <= i < j < |edges| && edges[i] != null && edges[j] != null ==> edges[i].repr !! edges[j].repr)
    }

    /** A query over these settings, which become its own, with no edge configured. */
    constructor (width: nat, base: Config)
      requires base.Valid()
      ensures Valid() && fresh(repr - base.repr) && view == Blank(width, base.values)
    {
      this.base := base;
      edges := seq(width, _ => null);
      view := Blank(width, base.values);
      new;
      repr := {this} + base.repr;
    }

    method Configure(c: Setting)
      requires Valid()
      modifies base.repr, this`view, this`repr
      ensures Valid() && fresh(repr - old(repr)) && view == Called(old(view), Change(c))
    {
      base.Set(c);
      view := View(base.values, view.edges);
      repr := repr + base.repr;
    }

    method Attach(e: int, query: Query)
      requires Valid() && query.Valid() && query.repr !! repr && 0 <= e < |edges|
      modifies this`edges, this`view, this`repr
      ensures Valid() && repr == old(repr) + query.repr
      ensures view == View(old(view).own, old(view).edges[e := On(query.view)])
    {
      edges := edges[e := query];
      view := View(view.own, view.edges[e := On(query.view)]);
      repr := repr + query.repr;
    }

    /** One call. With builds a new query, applies its options and replaces the edge. */
    method Apply(c: Call)
      requires Valid()
      modifies repr
      ensures Valid() && fresh(repr - old(repr)) && view == Called(old(view), c)
      decreases c, 0
    {
      match c
      case With(e, width, inters, opts) =>
        if 0 <= e < |edges| {
          var settings := NewConfig(Fresh(inters));
          var query := new Query(width, settings);
          query.ApplyAll(opts);
          Attach(e, query);
        }
      case Inside(e, inner) =>
        if 0 <= e < |edges| && edges[e] != null {
          InsideEdge(e, inner);
        }
      case Change(setting) => Configure(setting);
    }

    method InsideEdge(e: int, inner: Call)
      requires Valid() && 0 <= e < |edges| && edges[e] != null
      modifies repr
      ensures Valid() && fresh(repr - old(repr))
      ensures view == View(old(view).own, old(view).edges[e := On(Called(old(view).edges[e].query, inner))])
      decreases inner, 1
    {
      edges[e].Apply(inner);
      assert base.Valid() && base.repr !! edges[e].repr;
      forall i | 0 <= i < |edges| && i != e && edges[i] != null
        ensures edges[i].Valid() && edges[i].repr == old(edges[i].repr) && edges[i].view == old(edges[i].view)
        ensures edges[i].repr !! edges[e].repr
      {
      }
      repr := repr + edges[e].repr;
      view := View(view.own, view.edges[e := On(edges[e].view)]);
    }

    method ApplyAll(cs: seq<Call>)
      requires Valid()
      modifies repr
      ensures Valid() && fresh(repr - old(repr)) && view == Built(old(view), cs)
      decreases cs, 1
    {
      for i := 0 to |cs|
        invariant Valid() && fresh(repr - old(repr))
        invariant view == Built(old(view), cs[..i])
      {
        assert cs[..i + 1][..i] == cs[..i];
        Apply(cs[i]);
      }
      assert cs[..|cs|] == cs;
    }
  
    /** Clone: a deep copy that shares no object with the original. */
    method Clone() returns (c: Query)
      requires Valid()
      ensures c.Valid() && fresh(c.repr) && c.view == Unlocked(view)
      decreases repr, 2
    {
      var settings := base.Clone();
      c := new Query(|edges|, settings);
      PartialFull(view);
      CloneEdges(c);
    }

    method CloneEdges(c: Query)
      requires Valid() && c.Valid() && c.repr !! repr && |c.edges| == |edges| && c.view == Partial(view, 0)
      modifies c`edges, c`view, c`repr
      ensures c.Valid() && fresh(c.repr - old(c.repr)) && c.view == Partial(view, |edges|)
      decreases repr, 1
    {
      for i := 0 to |edges|
        invariant c.Valid() && fresh(c.repr - old(c.repr)) && |c.edges| == |edges| && c.view == Partial(view, i)
      {
        CloneEdge(i, c);
        PartialGrows(view, i);
      }
    }

    /** Replaces the unset edge i of c by a clone of edge i. */
    method CloneEdge(i: nat, c: Query)
      requires Valid() && c.Valid() && c.repr !! repr && i < |edges| == |c.edges| && c.view.edges[i].Off?
      modifies c`edges, c`view, c`repr
      ensures c.Valid() && fresh(c.repr - old(c.repr))
      ensures c.view == View(old(c.view).own, old(c.view).edges[i := UnlockedLoad(view.edges[i])])
      decreases repr, 0
    {
      if edges[i] != null {
        var copy := edges[i].Clone();
        c.Attach(i, copy);
      } else {
        assert c.view.edges[i := Off] == c.view.edges;
      }
    }
  }

  /** The clone of v when its first k edges have been copied. */
  ghost function Partial(v: View, k: nat): (r: View)
    requires k <= |v.edges|
    ensures |r.edges| == |v.edges|
    ensures forall i :: 0 <= i < |v.edges| ==> r.edges[i] == if i < k then UnlockedLoad(v.edges[i]) else Off
  {
    View(v.own.(modifiers := []),
         seq(|v.edges|, i requires 0 <= i < |v.edges| => if i < k then UnlockedLoad(v.edges[i]) else Off))
  }

  lemma PartialGrows(v: View, k: nat)
    requires k < |v.edges|
    ensures Partial(v, k + 1) == View(Partial(v, k).own, Partial(v, k).edges[k := UnlockedLoad(v.edges[k])])
    ensures v.edges[k].Off? ==> Partial(v, k + 1) == Partial(v, k)
  {
    assert Partial(v, k + 1).edges == Partial(v, k).edges[k := UnlockedLoad(v.edges[k])];
    assert v.edges[k].Off? ==> Partial(v, k + 1).edges == Partial(v, k).edges;
  }

  lemma PartialFull(v: View)
    ensures Partial(v, |v.edges|) == Unlocked(v)
    ensures Partial(v, 0) == Blank(|v.edges|, v.own.(modifiers := []))
  {
    assert Partial(v, |v.edges|).edges == Unlocked(v).edges;
  }

  /** The calls made on one of the two: the copy if `onCopy`, else the original. */
  function Mine(calls: seq<(bool, Call)>, onCopy: bool): seq<Call> {
    if calls == [] then [] else
      var init := Mine(calls[..|calls| - 1], onCopy);
      if calls[|calls| - 1].0 == onCopy then init + [calls[|calls| - 1].1] else init
  }

  /** Isolation: after Clone, any interleaving of calls on the original and on the copy leaves each of
      them exactly as if the other did not exist. */
  method CloneAndUse(q: Query, calls: seq<(bool, Call)>) returns (c: Query)
    requires q.Valid()
    modifies q.repr
    ensures q.Valid() && c.Valid() && q.repr !! c.repr
    ensures q.view == Built(old(q.view), Mine(calls, false))
    ensures c.view == Built(Unlocked(old(q.view)), Mine(calls, true))
  {
    c := q.Clone();
    for i := 0 to |calls|
      invariant q.Valid() && c.Valid() && q.repr !! c.repr
      invariant fresh(q.repr - old(q.repr)) && fresh(c.repr)
      invariant q.view == Built(old(q.view), Mine(calls[..i], false))
      invariant c.view == Built(Unlocked(old(q.view)), Mine(calls[..i], true))
    {
      MineGrows(calls, i);
      if calls[i].0 {
        c.Apply(calls[i].1);
      } else {
        q.Apply(calls[i].1);
      }
    }
    assert calls[..|calls|] == calls;
  }

  lemma MineGrows(calls: seq<(bool, Call)>, i: nat)
    requires i < |calls|
    ensures forall v, b :: calls[i].0 == b ==>
      Built(v, Mine(calls[..i + 1], b)) == Called(Built(v, Mine(calls[..i], b)), calls[i].1)
    ensures forall v, b :: calls[i].0 != b ==> Built(v, Mine(calls[..i + 1], b)) == Built(v, Mine(calls[..i], b))
  {
    assert calls[..i + 1][..i] == calls[..i];
    forall b | calls[i].0 == b ensures Mine(calls[..i + 1], b)[..|Mine(calls[..i], b)|] == Mine(calls[..i], b) {
    }
  }

  // ---- cloning and building commute ----

  lemma {:induction false} UnlockedIdempotent(v: View)
    ensures Unlocked(Unlocked(v)) == Unlocked(v)
  {
    forall i | 0 <= i < |v.edges| ensures UnlockedLoad(UnlockedLoad(v.edges[i])) == UnlockedLoad(v.edges[i]) {
      if v.edges[i].On? {
        UnlockedIdempotent(v.edges[i].query);
      }
    }
    assert Unlocked(Unlocked(v)).edges == Unlocked(v).edges;
  }

  lemma {:induction false} CloneCommutesWithCall(v: View, c: Call)
    ensures Unlocked(Called(Unlocked(v), c)) == Unlocked(Called(v, c))
    decreases c
  {
    UnlockedIdempotent(v);
    match c {
      case With(e, width, inters, opts) =>
        if 0 <= e < |v.edges| {
          UnlockedSetEdge(v, e, Built(Blank(width, Fresh(inters)), opts));
          UnlockedSetEdge(Unlocked(v), e, Built(Blank(width, Fresh(inters)), opts));
        }
      case Inside(e, inner) =>
        if 0 <= e < |v.edges| && v.edges[e].On? {
          CloneCommutesWithCall(v.edges[e].query, inner);
          UnlockedSetEdge(v, e, Called(v.edges[e].query, inner));
          UnlockedSetEdge(Unlocked(v), e, Called(Unlocked(v.edges[e].query), inner));
        }
      case _ =>
    }
  }

  lemma UnlockedSetEdge(v: View, e: nat, x: View)
    requires e < |v.edges|
    ensures Unlocked(View(v.own, v.edges[e := On(x)])) ==
      View(v.own.(modifiers := []), Unlocked(v).edges[e := On(Unlocked(x))])
  {
    assert Unlocked(View(v.own, v.edges[e := On(x)])).edges == Unlocked(v).edges[e := On(Unlocked(x))];
  }

  /** Building and then cloning gives what cloning, building and cloning again gives: no call
      depends on the lock modifiers that Clone drops. */
  lemma {:induction false} CloneCommutesWithBuild(v: View, cs: seq<Call>)
    ensures Unlocked(Built(Unlocked(v), cs)) == Unlocked(Built(v, cs))
  {
    if cs == [] {
      UnlockedIdempotent(v);
    } else {
      var init := cs[..|cs| - 1];
      CloneCommutesWithBuild(v, init);
      CloneCommutesWithCall(Built(v, init), cs[|cs| - 1]);
      CloneCommutesWithCall(Built(Unlocked(v), init), cs[|cs| - 1]);
    }
  }

  // ---- what a chain of calls amounts to ----

  function Added(cs: seq<Call>, pick: Setting -> Option<int>): seq<int> {
    if cs == [] then [] else
      var init, c := Added(cs[..|cs| - 1], pick), cs[|cs| - 1];
      if c.Change? && pick(c.setting).Some? then init + [pick(c.setting).value] else init
  }

  /** The last value the calls set, or the one there was before. */
  function Last<T>(cs: seq<Call>, pick: Setting -> Option<T>, before: Option<T>): Option<T> {
    if cs == [] then before else
      var c := cs[|cs| - 1];
      if c.Change? && pick(c.setting).Some? then pick(c.setting) else Last(cs[..|cs| - 1], pick, before)
  }

  function PredicateIn(s: Setting): Option<int> { if s.Where? then Some(s.p) else None }

  function OrderIn(s: Setting): Option<int> { if s.OrderBy? then Some(s.o) else None }

  function FieldIn(s: Setting): Option<int> { if s.Select? then Some(s.f) else None }

  function LockIn(s: Setting): Option<int> { if s.Lock? then Some(s.l) else None }

  function LimitIn(s: Setting): Option<int> { if s.Limit? then Some(s.n) else None }

  function OffsetIn(s: Setting): Option<int> { if s.Offset? then Some(s.n) else None }

  /** A row lock on Postgres turns uniqueness off. */
  function UniqueIn(s: Setting): Option<bool> {
    if s.Unique? then Some(s.b) else if s.Lock? && s.postgres then Some(false) else None
  }

  /** Predicates, order terms, fields and locks accumulate in the order of the calls. */
  ghost predicate Accumulates(b: Settings, cs: seq<Call>, s: Settings) {
    && s.predicates == b.predicates + Added(cs, PredicateIn) && s.order == b.order + Added(cs, OrderIn)
    && s.fields == b.fields + Added(cs, FieldIn) && s.modifiers == b.modifiers + Added(cs, LockIn)
    && s.inters == b.inters && s.path == b.path
  }

  /** The last limit, offset and uniqueness win. */
  ghost predicate LastWins(b: Settings, cs: seq<Call>, s: Settings) {
    && s.limit == Last(cs, LimitIn, b.limit) && s.offset == Last(cs, OffsetIn, b.offset)
    && s.unique == Last(cs, UniqueIn, b.unique)
  }

  function Appended(list: seq<int>, x: Option<int>): seq<int> {
    if x.Some? then list + [x.value] else list
  }

  function Replaced<T>(old_: Option<T>, x: Option<T>): Option<T> {
    if x.Some? then x else old_
  }

  lemma ConfiguredExact(s: Settings, c: Setting)
    ensures var s' := Configured(s, c);
      && s'.predicates == Appended(s.predicates, PredicateIn(c)) && s'.order == Appended(s.order, OrderIn(c))
      && s'.fields == Appended(s.fields, FieldIn(c)) && s'.modifiers == Appended(s.modifiers, LockIn(c))
      && s'.limit == Replaced(s.limit, LimitIn(c)) && s'.offset == Replaced(s.offset, OffsetIn(c))
      && s'.unique == Replaced(s.unique, UniqueIn(c)) && s'.inters == s.inters && s'.path == s.path
  {
  }

  lemma AddedNext(before: seq<int>, cs: seq<Call>, pick: Setting -> Option<int>)
    requires cs != []
    ensures var list, c := before + Added(cs[..|cs| - 1], pick), cs[|cs| - 1];
      before + Added(cs, pick) == if c.Change? then Appended(list, pick(c.setting)) else list
  {
  }

  lemma {:induction false} BuiltAccumulates(v: View, cs: seq<Call>)
    ensures Accumulates(v.own, cs, Built(v, cs).own)
    decreases |cs|
  {
    if cs != [] {
      BuiltAccumulates(v, cs[..|cs| - 1]);
      AccumulatesNext(v.own, cs, Built(v, cs[..|cs| - 1]));
    }
  }

  lemma AccumulatesNext(b: Settings, cs: seq<Call>, v: View)
    requires cs != [] && Accumulates(b, cs[..|cs| - 1], v.own)
    ensures Accumulates(b, cs, Called(v, cs[|cs| - 1]).own)
  {
    var c := cs[|cs| - 1];
    AddedNext(b.predicates, cs, PredicateIn);
    AddedNext(b.order, cs, OrderIn);
    AddedNext(b.fields, cs, FieldIn);
    AddedNext(b.modifiers, cs, LockIn);
    if c.Change? {
      ConfiguredExact(v.own, c.setting);
    }
  }

  lemma {:induction false} BuiltLastWins(v: View, cs: seq<Call>)
    ensures LastWins(v.own, cs, Built(v, cs).own)
    decreases |cs|
  {
    if cs != [] {
      var init, c := cs[..|cs| - 1], cs[|cs| - 1];
      BuiltLastWins(v, init);
      if c.Change? {
        ConfiguredExact(Built(v, init).own, c.setting);
      }
    }
  }

  /** So a query's settings are determined by the calls made on it, whatever is done inside its edges. */
  lemma BuiltSettings(v: View, cs: seq<Call>)
    ensures Accumulates(v.own, cs, Built(v, cs).own) && LastWins(v.own, cs, Built(v, cs).own)
  {
    BuiltAccumulates(v, cs);
    BuiltLastWins(v, cs);
  }

  /** An eager-load call configures its own edge, from a blank query over `width` edges, by its options, and
      changes nothing else. */
  lemma WithConfigures(v: View, e: int, width: nat, inters: seq<int>, opts: seq<Call>)
    requires 0 <= e < |v.edges|
    ensures var r := Called(v, With(e, width, inters, opts));
      && r.own == v.own && |r.edges| == |v.edges|
      && (forall i :: 0 <= i < |v.edges| && i != e ==> r.edges[i] == v.edges[i])
      && r.edges[e].On? && |r.edges[e].query.edges| == width
      && var blank := Settings(None, None, None, [], [], inters, [], [], None);
         Accumulates(blank, opts, r.edges[e].query.own) && LastWins(blank, opts, r.edges[e].query.own)
  {
    BuiltSettings(Blank(width, Fresh(inters)), opts);
    BuiltKeepsWidth(Blank(width, Fresh(inters)), opts);
  }

  lemma {:induction false} BuiltKeepsWidth(v: View, cs: seq<Call>)
    ensures |Built(v, cs).edges| == |v.edges|
    decreases |cs|
  {
    if cs != [] {
      BuiltKeepsWidth(v, cs[..|cs| - 1]);
    }
  }

  /** A call made inside an edge has its effect there and nowhere else. */
  lemma InsideConfigures(v: View, e: int, c: Setting)
    requires 0 <= e < |v.edges| && v.edges[e].On?
    ensures var r := Called(v, Inside(e, Change(c)));
      && r.own == v.own && |r.edges| == |v.edges|
      && (forall i :: 0 <= i < |v.edges| && i != e ==> r.edges[i] == v.edges[i])
      && r.edges[e] == On(View(Configured(v.edges[e].query.own, c), v.edges[e].query.edges))
  {
  }
}
