/** The settings of one query, without its edges: a context behind a pointer, and slices that share no
    backing array. */
module QuerySettings {
  import opened Options

  /** The settings as values. Predicates, order terms, interceptors, columns and lock modifiers are opaque
      tokens. */
  datatype Settings = Settings(limit: Option<int>, offset: Option<int>, unique: Option<bool>, fields: seq<int>,
                               order: seq<int>, inters: seq<int>, predicates: seq<int>, modifiers: seq<int>,
                               path: Option<int>)

  /** A call that changes the settings of the query it is made on. */
  datatype Setting =
    | Where(p: int) | OrderBy(o: int) | Select(f: int) | Limit(n: int) | Offset(n: int) | Unique(b: bool)
    | Lock(l: int, postgres: bool)

  function Configured(s: Settings, c: Setting): Settings {
    match c
    case Where(p) => s.(predicates := s.predicates + [p])
    case OrderBy(o) => s.(order := s.order + [o])
    case Select(f) => s.(fields := s.fields + [f])
    case Limit(n) => s.(limit := Some(n))
    case Offset(n) => s.(offset := Some(n))
    case Unique(b) => s.(unique := Some(b))
    case Lock(l, postgres) =>
      s.(modifiers := s.modifiers + [l], unique := if postgres then Some(false) else s.unique)
  }

  /** A Go slice: the first `len` elements of a backing array that may have room for more. Appending writes
      into that room, and so into every other slice over the same array. */
  class Slice {
    var arr: array<int>
    var len: int

    predicate Valid()
      reads this
    {
      0 <= len <= arr.Length
    }

    function Items(): seq<int>
      requires Valid()
      reads this, arr
    {
      arr[..len]
    }

    /** append([]T{}, items...): an array of its own. */
    constructor (items: seq<int>)
      ensures Valid() && fresh(arr) && Items() == items
    {
      arr := new int[|items|](i requires 0 <= i < |items| => items[i]);
      len := |items|;
    }

    /** A plain copy of the header, over the same array. */
    constructor Share(s: Slice)
      ensures arr == s.arr && len == s.len
    {
      arr, len := s.arr, s.len;
    }

    method Append(x: int)
      requires Valid()
      modifies this, arr
      ensures Valid() && Items() == old(Items()) + [x]
      ensures arr == old(arr) || fresh(arr)
      ensures old(len) < old(arr).Length ==> arr == old(arr)
    {
      if len == arr.Length { Grow(); }
      arr[len] := x;
      len := len + 1;
    }

    method Grow()
      requires Valid()
      modifies this
      ensures Valid() && fresh(arr) && len == old(len) < arr.Length && Items() == old(Items())
    {
      var bigger := new int[2 * len + 1];
      forall i | 0 <= i < len { bigger[i] := arr[i]; }
      arr := bigger;
    }
  }

  /** Why Clone must copy: of two slices over one array with room, appending to the second overwrites what
      was appended to the first. */
  method SharingInterferes(a: Slice, x: int, y: int) returns (b: Slice)
    requires a.Valid() && a.len < a.arr.Length
    modifies a, a.arr
    ensures a.Valid() && b.Valid() && a.Items() == b.Items() == old(a.Items()) + [y]
  {
    b := new Slice.Share(a);
    a.Append(x);
    b.Append(y);
  }

  /** Two slices with separate headers and separate backing arrays. */
  predicate Separate(a: Slice, b: Slice)
    reads a, b
  {
    a != b && a.arr != b.arr
  }

  class Context {
    var limit: Option<int>
    var offset: Option<int>
    var unique: Option<bool>
    const fields: Slice

    constructor (limit: Option<int>, offset: Option<int>, unique: Option<bool>, fields: Slice)
      ensures this.limit == limit && this.offset == offset && this.unique == unique && this.fields == fields
    {
      this.limit, this.offset, this.unique, this.fields := limit, offset, unique, fields;
    }
  }

  /** The five lists of the settings, in the order of Config.Slices. */
  function List(s: Settings, i: int): seq<int> {
    if i == 0 then s.fields else if i == 1 then s.order else if i == 2 then s.inters
    else if i == 3 then s.predicates else s.modifiers
  }

  ghost function Headers(ss: seq<Slice>): set<object> {
    set i | 0 <= i < |ss| :: ss[i]
  }

  ghost function Arrays(ss: seq<Slice>): set<object>
    reads ss
  {
    set i | 0 <= i < |ss| :: ss[i].arr
  }

  ghost predicate AllSeparate(ss: seq<Slice>)
    reads ss
  {
    forall i, j :: 0 <= i < j < |ss| ==> Separate(ss[i], ss[j])
  }

  /** Slices with these elements, each with an array of its own. */
  method Copies(lists: seq<seq<int>>) returns (ss: seq<Slice>)
    ensures |ss| == |lists| && AllSeparate(ss)
    ensures forall i :: 0 <= i < |ss| ==>
      fresh(ss[i]) && fresh(ss[i].arr) && ss[i].Valid() && ss[i].Items() == lists[i]
  {
    ss := [];
    for k := 0 to |lists|
      invariant |ss| == k && AllSeparate(ss)
      invariant forall i :: 0 <= i < k ==>
        fresh(ss[i]) && fresh(ss[i].arr) && ss[i].Valid() && ss[i].Items() == lists[i]
    {
      var s := new Slice(lists[k]);
      ss := ss + [s];
    }
  }

  method NewConfig(s: Settings) returns (c: Config)
    ensures c.Valid() && fresh(c.repr) && c.values == s
  {
    var ss := Copies([s.fields, s.order, s.inters, s.predicates, s.modifiers]);
    var ctx := new Context(s.limit, s.offset, s.unique, ss[0]);
    c := new Config(s, ctx, ss);
  }

  class Config {
    const ctx: Context
    const order: Slice
    const inters: Slice
    const predicates: Slice
    const modifiers: Slice
    const path: Option<int>
    ghost var values: Settings
    ghost var repr: set<object>

    function Slices(): (ss: seq<Slice>)
      ensures |ss| == 5
    {
      [ctx.fields, order, inters, predicates, modifiers]
    }

    /** Slice i is the configuration's own, holds list i, and shares neither header nor array with a later one. */
    ghost predicate Owns(i: int)
      reads this, repr
    {
      && 0 <= i < 5 && Slices()[i] in repr && Slices()[i].arr in repr
      && Slices()[i].Valid() && Slices()[i].Items() == List(values, i)
      && (forall j :: i < j < 5 && Slices()[j] in repr ==> Separate(Slices()[i], Slices()[j]))
    }

    /** The objects are the configuration's own, and `values` is what they hold. */
    ghost predicate Valid()
      reads this, repr
    {
      && this in repr && ctx in repr
      && values.limit == ctx.limit && values.offset == ctx.offset && values.unique == ctx.unique && values.path == path
      && (forall i :: 0 <= i < 5 ==> Owns(i))
    }

    constructor (s: Settings, ctx: Context, ss: seq<Slice>)
      requires |ss| == 5 && ctx.fields == ss[0] && AllSeparate(ss)
      requires forall i :: 0 <= i < 5 ==> ss[i].Valid() && ss[i].Items() == List(s, i)
      requires s.limit == ctx.limit && s.offset == ctx.offset && s.unique == ctx.unique
      ensures Valid() && values == s
      ensures repr == {this, ctx} + Headers(ss) + Arrays(ss)
    {
      this.ctx := ctx;
      order, inters, predicates, modifiers := ss[1], ss[2], ss[3], ss[4];
      path := s.path;
      values := s;
      new;
      repr := {this, ctx} + Headers(ss) + Arrays(ss);
      assert Slices() == ss;
      forall i | 0 <= i < 5 ensures Owns(i) {
        assert ss[i] in Headers(ss) && ss[i].arr in Arrays(ss);
      }
    }

    /** Where, Order, Select, Limit, Offset, Unique, ForUpdate and ForShare. */
    method Set(c: Setting)
      requires Valid()
      modifies repr
      ensures Valid() && fresh(repr - old(repr)) && values == Configured(old(values), c)
    {
      match c
      case Where(p) => Append(3, p, c);
      case OrderBy(o) => Append(1, o, c);
      case Select(f) => Append(0, f, c);
      case Limit(n) => SetLimit(n);
      case Offset(n) => SetOffset(n);
      case Unique(b) => SetUnique(b);
      case Lock(l, postgres) =>
        if postgres { SetUnique(false); }
        Append(4, l, Lock(l, false));
    }

    method SetLimit(n: int)
      requires Valid()
      modifies ctx`limit, this`values
      ensures Valid() && values == old(values).(limit := Some(n))
    {
      ctx.limit := Some(n);
      values := values.(limit := Some(n));
      forall k | 0 <= k < 5 ensures Owns(k) {
        assert old(Owns(k));
      }
    }

    method SetOffset(n: int)
      requires Valid()
      modifies ctx`offset, this`values
      ensures Valid() && values == old(values).(offset := Some(n))
    {
      ctx.offset := Some(n);
      values := values.(offset := Some(n));
      forall k | 0 <= k < 5 ensures Owns(k) {
        assert old(Owns(k));
      }
    }

    method SetUnique(b: bool)
      requires Valid()
      modifies ctx`unique, this`values
      ensures Valid() && values == old(values).(unique := Some(b))
    {
      ctx.unique := Some(b);
      values := values.(unique := Some(b));
      forall k | 0 <= k < 5 ensures Owns(k) {
        assert old(Owns(k));
      }
    }

    /** _q.order = append(_q.order, x), and the like; c is the call that does it. */
    method Append(i: int, x: int, ghost c: Setting)
      requires Valid() && 0 <= i < 5
      requires forall k :: 0 <= k < 5 ==> List(Configured(values, c), k) == List(values, k) + if k == i then [x] else []
      requires Configured(values, c).(fields := values.fields, order := values.order, inters := values.inters,
                                      predicates := values.predicates, modifiers := values.modifiers) == values
      modifies repr
      ensures Valid() && fresh(repr - old(repr)) && values == Configured(old(values), c)
    {
      assert forall k :: 0 <= k < 5 ==> Owns(k);
      assert Owns(i);
      var slice := Slices()[i];
      slice.Append(x);
      values := Configured(values, c);
      repr := repr + {slice.arr};
      forall k | 0 <= k < 5 ensures Owns(k) {
        assert old(Owns(k));
      }
    }

    /** The part of Clone that copies the context and the slices; the copy has no lock modifiers. */
    method Clone() returns (c: Config)
      requires Valid()
      ensures c.Valid() && fresh(c.repr) && c.values == values.(modifiers := [])
    {
      assert Owns(0) && Owns(1) && Owns(2) && Owns(3);
      assert ctx.fields == Slices()[0] && order == Slices()[1] && inters == Slices()[2] && predicates == Slices()[3];
      c := NewConfig(Settings(ctx.limit, ctx.offset, ctx.unique, ctx.fields.Items(),
                              order.Items(), inters.Items(), predicates.Items(), [], path));
    }
  }
}
