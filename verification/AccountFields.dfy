/** The field table of Account: defaults, check, createSpec, scanValues and assignValues. */
module AccountFields {
  import opened Options

  datatype Field =
    | CreatedAt | UpdatedAt | DeletedAt | Name | Notes | Platform | Type | Credentials | Extra
    | ProxyId | ProxyFallbackOriginId | Concurrency | LoadFactor | Priority | RateMultiplier | Status
    | ErrorMessage | LastUsedAt | ExpiresAt | AutoPauseOnExpired | Schedulable | RateLimitedAt
    | RateLimitResetAt | OverloadUntil | TempUnschedulableUntil | TempUnschedulableReason
    | SessionWindowStart | SessionWindowEnd | SessionWindowStatus | ParentAccountId | QuotaDimension

  datatype Column = Id | Of(field: Field) | Unknown(name: string)

  /** Go values of the fields; a JSON document is kept as an opaque token. */
  datatype Value = Int(int) | Text(string) | Time(int) | Bool(bool) | Float(real) | Json(doc: string)

  datatype ValueType = TInt | TText | TTime | TBool | TFloat | TJson

  function TypeOf(v: Value): ValueType {
    match v
    case Int(_) => TInt
    case Text(_) => TText
    case Time(_) => TTime
    case Bool(_) => TBool
    case Float(_) => TFloat
    case Json(_) => TJson
  }

  /** The declared type of each entity field. */
  function TypeOfField(f: Field): ValueType {
    match f
    case Credentials | Extra => TJson
    case AutoPauseOnExpired | Schedulable => TBool
    case RateMultiplier => TFloat
    case ProxyId | ProxyFallbackOriginId | Concurrency | LoadFactor | Priority | ParentAccountId => TInt
    case Name | Notes | Platform | Type | Status | ErrorMessage | TempUnschedulableReason
       | SessionWindowStatus | QuotaDimension => TText
    case _ => TTime
  }

  type Fields = map<Field, Value>

  /** What Go's static types guarantee of a mutation. */
  ghost predicate WellTyped(m: Fields) {
    forall f :: f in m ==> TypeOf(m[f]) == TypeOfField(f)
  }

  // ---- defaults and check ----

  /** What the ent/runtime package provides: four default functions, absent (nil) when that package
      was not imported, the constant defaults, and the validators. */
  datatype Runtime = Runtime(functions: Fields, constants: Field -> Value, valid: (Field, Value) -> bool)

  const DEFAULTED: seq<Field> :=
    [CreatedAt, UpdatedAt, Credentials, Extra, Concurrency, Priority, RateMultiplier, Status,
     AutoPauseOnExpired, Schedulable, QuotaDimension]

  function DefaultOf(rt: Runtime, f: Field): Option<Value> {
    if f == CreatedAt || f == UpdatedAt || f == Credentials || f == Extra then
      if f in rt.functions then Some(rt.functions[f]) else None
    else Some(rt.constants(f))
  }

  /** Fill the listed fields in order; stop at the first one whose default is nil. */
  function Fill(rt: Runtime, m: Fields, fs: seq<Field>): (Fields, Option<Field>)
    decreases |fs|
  {
    if fs == [] then (m, None)
    else if fs[0] in m then Fill(rt, m, fs[1..])
    else if DefaultOf(rt, fs[0]).None? then (m, Some(fs[0]))
    else Fill(rt, m[fs[0] := DefaultOf(rt, fs[0]).value], fs[1..])
  }

  function Defaults(rt: Runtime, m: Fields): (Fields, Option<Field>) {
    Fill(rt, m, DEFAULTED)
  }

  datatype Step = Require(field: Field) | Validate(field: Field)

  const CHECKS: seq<Step> :=
    [Require(CreatedAt), Require(UpdatedAt), Require(Name), Validate(Name), Require(Platform), Validate(Platform),
     Require(Type), Validate(Type), Require(Credentials), Require(Extra), Require(Concurrency), Require(Priority),
     Require(RateMultiplier), Require(Status), Validate(Status), Require(AutoPauseOnExpired), Require(Schedulable),
     Validate(SessionWindowStatus), Require(QuotaDimension), Validate(QuotaDimension)]

  predicate Passes(rt: Runtime, m: Fields, s: Step) {
    match s
    case Require(f) => f in m
    case Validate(f) => f in m ==> rt.valid(f, m[f])
  }

  function FirstFailure(rt: Runtime, m: Fields, steps: seq<Step>): Option<Step> {
    if steps == [] then None
    else if Passes(rt, m, steps[0]) then FirstFailure(rt, m, steps[1..])
    else Some(steps[0])
  }

  function Check(rt: Runtime, m: Fields): Option<Step> {
    FirstFailure(rt, m, CHECKS)
  }

  lemma {:induction false} FirstFailureExact(rt: Runtime, m: Fields, steps: seq<Step>)
    ensures FirstFailure(rt, m, steps).None? <==> forall s :: s in steps ==> Passes(rt, m, s)
    ensures FirstFailure(rt, m, steps).Some? ==>
      FirstFailure(rt, m, steps).value in steps && !Passes(rt, m, FirstFailure(rt, m, steps).value)
  {
    if steps != [] {
      FirstFailureExact(rt, m, steps[1..]);
      assert steps == [steps[0]] + steps[1..];
    }
  }

  /** The fields a row cannot do without. */
  predicate IsRequired(f: Field) {
    || f == CreatedAt || f == UpdatedAt || f == Name || f == Platform || f == Type || f == Credentials || f == Extra
    || f == Concurrency || f == Priority || f == RateMultiplier || f == Status || f == AutoPauseOnExpired
    || f == Schedulable || f == QuotaDimension
  }

  /** The fields with a validator. */
  predicate IsValidated(f: Field) {
    || f == Name || f == Platform || f == Type || f == Status || f == SessionWindowStatus || f == QuotaDimension
  }

  lemma StepsExact(s: Step)
    ensures s in CHECKS <==> if s.Require? then IsRequired(s.field) else IsValidated(s.field)
  {
  }

  /** The fourteen required fields are set and the six validated fields, where set, are valid. */
  ghost predicate Complete(rt: Runtime, m: Fields) {
    && (forall f :: IsRequired(f) ==> f in m)
    && (forall f :: IsValidated(f) && f in m ==> rt.valid(f, m[f]))
  }

  /** That is exactly when check passes. */
  lemma CheckExact(rt: Runtime, m: Fields)
    ensures Check(rt, m).None? <==> Complete(rt, m)
  {
    forall s ensures s in CHECKS <==> if s.Require? then IsRequired(s.field) else IsValidated(s.field) {
      StepsExact(s);
    }
    StepsDecide(rt, m, CHECKS);
  }

  lemma StepsDecide(rt: Runtime, m: Fields, steps: seq<Step>)
    requires forall s :: s in steps <==> if s.Require? then IsRequired(s.field) else IsValidated(s.field)
    ensures FirstFailure(rt, m, steps).None? <==> Complete(rt, m)
  {
    FirstFailureExact(rt, m, steps);
    if FirstFailure(rt, m, steps).None? {
      forall f | IsRequired(f) ensures f in m {
        assert Passes(rt, m, Require(f));
      }
      forall f | IsValidated(f) && f in m ensures rt.valid(f, m[f]) {
        assert Passes(rt, m, Validate(f));
      }
    }
  }

  /** m' is m with some of the fields fs set to their defaults. */
  ghost predicate Defaulted(rt: Runtime, m: Fields, m': Fields, fs: seq<Field>) {
    && (forall f :: f in m ==> f in m' && m'[f] == m[f])
    && (forall f :: f in m' && f !in m ==> f in fs && DefaultOf(rt, f) == Some(m'[f]))
  }

  lemma {:induction false} FillExact(rt: Runtime, m: Fields, fs: seq<Field>)
    ensures Defaulted(rt, m, Fill(rt, m, fs).0, fs)
    ensures Fill(rt, m, fs).1.None? ==> forall f :: f in fs ==> f in Fill(rt, m, fs).0
    ensures Fill(rt, m, fs).1.Some? ==>
      var f := Fill(rt, m, fs).1.value; f in fs && f !in Fill(rt, m, fs).0 && DefaultOf(rt, f).None?
    decreases |fs|
  {
    if fs != [] {
      var f, rest := fs[0], fs[1..];
      assert fs == [f] + rest;
      if f in m {
        FillExact(rt, m, rest);
      } else if DefaultOf(rt, f).Some? {
        FillExact(rt, m[f := DefaultOf(rt, f).value], rest);
      }
    }
  }

  lemma {:induction false} FillIdempotent(rt: Runtime, m: Fields, fs: seq<Field>)
    ensures Fill(rt, Fill(rt, m, fs).0, fs) == Fill(rt, m, fs)
    decreases |fs|
  {
    if fs != [] {
      var d := DefaultOf(rt, fs[0]);
      var m1 := if fs[0] !in m && d.Some? then m[fs[0] := d.value] else m;
      FillExact(rt, m1, fs[1..]);
      FillIdempotent(rt, m1, fs[1..]);
    }
  }

  /** defaults never overwrites a field that was set, adds only defaulted fields, is idempotent, and
      on success leaves every defaulted field present. */
  lemma DefaultsExact(rt: Runtime, m: Fields)
    ensures var (m', err) := Defaults(rt, m);
      && Defaulted(rt, m, m', DEFAULTED)
      && Defaults(rt, m') == (m', err)
      && (err.None? ==> forall f :: f in DEFAULTED ==> f in m')
      && (err.Some? ==> err.value in DEFAULTED && err.value !in m' && DefaultOf(rt, err.value).None?)
  {
    FillExact(rt, m, DEFAULTED);
    FillIdempotent(rt, m, DEFAULTED);
  }

  /** The value a row is created with: the one that was set, or else the default of the field, if it has one. */
  function Stored(rt: Runtime, m: Fields, f: Field): Option<Value> {
    if f in m then Some(m[f])
    else if f == CreatedAt || f == UpdatedAt || f == Credentials || f == Extra then
      if f in rt.functions then Some(rt.functions[f]) else None
    else if f == Concurrency || f == Priority || f == RateMultiplier || f == Status || f == AutoPauseOnExpired
         || f == Schedulable || f == QuotaDimension then Some(rt.constants(f))
    else None
  }

  /** A row can be created: every required value is there, and the validators accept. */
  ghost predicate Acceptable(rt: Runtime, m: Fields) {
    && (forall f :: IsRequired(f) ==> Stored(rt, m, f).Some?)
    && (forall f :: IsValidated(f) && Stored(rt, m, f).Some? ==> rt.valid(f, Stored(rt, m, f).value))
  }

  ghost predicate HoldsStored(rt: Runtime, m: Fields, m': Fields) {
    forall f :: (f in m' <==> Stored(rt, m, f).Some?) && (f in m' ==> Some(m'[f]) == Stored(rt, m, f))
  }

  predicate HasDefault(f: Field) {
    || f == CreatedAt || f == UpdatedAt || f == Credentials || f == Extra || f == Concurrency || f == Priority
    || f == RateMultiplier || f == Status || f == AutoPauseOnExpired || f == Schedulable || f == QuotaDimension
  }

  lemma DefaultsAreRequired(f: Field)
    requires HasDefault(f)
    ensures IsRequired(f)
  {
  }

  lemma DefaultedExact(f: Field)
    ensures f in DEFAULTED <==> HasDefault(f)
  {
  }

  lemma FillStores(rt: Runtime, m: Fields, fs: seq<Field>)
    requires forall f :: f in fs <==> HasDefault(f)
    ensures var (m', err) := Fill(rt, m, fs);
      if err.None? then HoldsStored(rt, m, m')
      else HasDefault(err.value) && err.value !in m' && Stored(rt, m, err.value).None?
  {
    FillExact(rt, m, fs);
    var (m', err) := Fill(rt, m, fs);
    if err.None? {
      forall f ensures (f in m' <==> Stored(rt, m, f).Some?) && (f in m' ==> Some(m'[f]) == Stored(rt, m, f)) {
        assert HasDefault(f) ==> f in fs && f in m';
      }
    }
  }

  lemma DefaultsStore(rt: Runtime, m: Fields)
    ensures var (m', err) := Defaults(rt, m);
      if err.None? then HoldsStored(rt, m, m')
      else HasDefault(err.value) && err.value !in m' && Stored(rt, m, err.value).None?
  {
    forall f ensures f in DEFAULTED <==> HasDefault(f) {
      DefaultedExact(f);
    }
    FillStores(rt, m, DEFAULTED);
  }

  /** After defaults, whether or not they failed, check passes exactly when a row can be created, and then
      the mutation holds the values it is created with. */
  lemma DefaultsThenCheck(rt: Runtime, m: Fields)
    ensures Check(rt, Defaults(rt, m).0).None? <==> Acceptable(rt, m)
    ensures Acceptable(rt, m) ==> HoldsStored(rt, m, Defaults(rt, m).0)
  {
    DefaultsStore(rt, m);
    CheckExact(rt, Defaults(rt, m).0);
  }

  /** With the four default functions in place defaults succeed, and hold exactly the values to be stored. */
  lemma DefaultsSucceed(rt: Runtime, m: Fields)
    requires {CreatedAt, UpdatedAt, Credentials, Extra} <= rt.functions.Keys
    ensures Defaults(rt, m).1.None? && HoldsStored(rt, m, Defaults(rt, m).0)
  {
    DefaultsStore(rt, m);
    forall f | HasDefault(f) ensures Stored(rt, m, f).Some? {
      assert f in {CreatedAt, UpdatedAt, Credentials, Extra} ==> f in rt.functions;
    }
  }

  lemma RequiredFields(s: Step)
    requires s in CHECKS && s.Require?
    ensures s.field in DEFAULTED || s.field == Name || s.field == Platform || s.field == Type
  {
  }

  lemma DefaultedAreRequired(f: Field)
    requires f in DEFAULTED
    ensures Require(f) in CHECKS
  {
  }

  /** After successful defaults only name, platform and type can be reported missing. */
  lemma OnlyThreeCanBeMissing(rt: Runtime, m: Fields)
    requires Defaults(rt, m).1.None?
    ensures var failure := Check(rt, Defaults(rt, m).0);
      failure.Some? && failure.value.Require? ==> failure.value.field in {Name, Platform, Type}
  {
    DefaultsExact(rt, m);
    var m' := Defaults(rt, m).0;
    FirstFailureExact(rt, m', CHECKS);
    if Check(rt, m').Some? && Check(rt, m').value.Require? {
      RequiredFields(Check(rt, m').value);
    }
  }

  /** Every error exit of defaults leaves unset a field that check rejects, so ignoring the error
      is safe: the mutation cannot pass check. */
  lemma FailedDefaultsFailCheck(rt: Runtime, m: Fields)
    requires Defaults(rt, m).1.Some?
    ensures Check(rt, Defaults(rt, m).0).Some?
  {
    DefaultsExact(rt, m);
    var (m', err) := Defaults(rt, m);
    FirstFailureExact(rt, m', CHECKS);
    DefaultedAreRequired(err.value);
    assert !Passes(rt, m', Require(err.value));
  }

  // ---- create ----

  /** A create mutation. proxy_id and parent_account_id are edges of the mutation, not plain fields. */
  datatype Mutation = Mutation(fields: Fields, proxy: Option<int>, parent: Option<int>,
                               groups: seq<int>, children: seq<int>, logs: seq<int>)

  datatype Entity = Entity(id: int, fields: Fields)

  datatype Spec = Spec(fields: Fields, proxy: Option<int>, parent: Option<int>,
                       groups: seq<int>, children: seq<int>, logs: seq<int>, id: Option<int>)

  predicate IsEdgeField(f: Field) {
    f == ProxyId || f == ParentAccountId
  }

  function SetKey(m: Fields, f: Field, id: Option<int>): Fields {
    if id.Some? then m[f := Int(id.value)] else m
  }

  function PlainFields(m: Fields): Fields {
    map f | f in m && !IsEdgeField(f) :: m[f]
  }

  /** createSpec: every set field goes both to the spec and to the returned node. */
  function CreateSpec(m: Mutation): (Entity, Spec) {
    (Entity(0, SetKey(SetKey(PlainFields(m.fields), ProxyId, m.proxy), ParentAccountId, m.parent)),
     Spec(PlainFields(m.fields), m.proxy, m.parent, m.groups, m.children, m.logs, None))
  }

  /** What the mutation gives for a field: proxy_id and parent_account_id through its edges. */
  function Given(m: Mutation, f: Field): Option<Value> {
    if f == ProxyId then if m.proxy.Some? then Some(Int(m.proxy.value)) else None
    else if f == ParentAccountId then if m.parent.Some? then Some(Int(m.parent.value)) else None
    else if f in m.fields then Some(m.fields[f]) else None
  }

  /** createSpec loses and mixes up nothing: every given field, and no other, is on the node with its value;
      the spec has the same fields, except that the two foreign keys go with its edges. */
  lemma CreateSpecExact(m: Mutation)
    ensures var (node, spec) := CreateSpec(m);
      && node.id == 0 && spec.id.None?
      && (forall f :: f in node.fields <==> Given(m, f).Some?)
      && (forall f :: f in node.fields ==> Some(node.fields[f]) == Given(m, f))
      && (forall f :: f in spec.fields <==> f != ProxyId && f != ParentAccountId && f in m.fields)
      && (forall f :: f in spec.fields ==> spec.fields[f] == m.fields[f])
      && spec.proxy == m.proxy && spec.parent == m.parent
      && spec.groups == m.groups && spec.children == m.children && spec.logs == m.logs
  {
  }

  // ---- the stored row ----

  /** Bytes of a JSON column: empty, the encoding of a document, or something that does not parse. */
  datatype Blob = Blank | Encoded(doc: string) | Garbled

  datatype Cell =
    | Null | IntCell(i: int) | TextCell(s: string) | TimeCell(t: int) | BoolCell(b: bool)
    | FloatCell(r: real) | JsonCell(blob: Blob)

  function Encode(v: Value): Cell {
    match v
    case Int(i) => IntCell(i)
    case Text(s) => TextCell(s)
    case Time(t) => TimeCell(t)
    case Bool(b) => BoolCell(b)
    case Float(r) => FloatCell(r)
    case Json(doc) => JsonCell(Encoded(doc))
  }

  /** The row the INSERT of a spec stores, under the id the database chose. */
  function StoredCell(spec: Spec, id: int, c: Column): Cell {
    match c
    case Id => IntCell(id)
    case Unknown(_) => Null
    case Of(ProxyId) => if spec.proxy.Some? then IntCell(spec.proxy.value) else Null
    case Of(ParentAccountId) => if spec.parent.Some? then IntCell(spec.parent.value) else Null
    case Of(f) => if f in spec.fields then Encode(spec.fields[f]) else Null
  }

  // ---- scanning ----

  /** Scan destinations allocated by scanValues. */
  datatype Kind = NullInt64 | NullString | NullTime | NullBool | NullFloat64 | Bytes | UnknownType

  datatype Holder = Holder(kind: Kind, cell: Cell)

  /** The switch of scanValues. */
  function ScanKind(c: Column): Kind {
    match c
    case Id => NullInt64
    case Unknown(_) => UnknownType
    case Of(f) =>
      match f
      case Credentials | Extra => Bytes
      case AutoPauseOnExpired | Schedulable => NullBool
      case RateMultiplier => NullFloat64
      case ProxyId | ProxyFallbackOriginId | Concurrency | LoadFactor | Priority | ParentAccountId => NullInt64
      case Name | Notes | Platform | Type | Status | ErrorMessage | TempUnschedulableReason
         | SessionWindowStatus | QuotaDimension => NullString
      case CreatedAt | UpdatedAt | DeletedAt | LastUsedAt | ExpiresAt | RateLimitedAt | RateLimitResetAt
         | OverloadUntil | TempUnschedulableUntil | SessionWindowStart | SessionWindowEnd => NullTime
  }

  method ScanValues(columns: seq<Column>) returns (kinds: seq<Kind>)
    ensures |kinds| == |columns|
    ensures forall i :: 0 <= i < |columns| ==> kinds[i] == ScanKind(columns[i])
  {
    kinds := [];
    for i := 0 to |columns|
      invariant |kinds| == i
      invariant forall j :: 0 <= j < i ==> kinds[j] == ScanKind(columns[j])
    {
      kinds := kinds + [ScanKind(columns[i])];
    }
  }

  /** Which cells the driver can store in a destination; Scan fails on any other. */
  predicate Accepts(kind: Kind, cell: Cell) {
    match kind
    case NullInt64 => cell.Null? || cell.IntCell?
    case NullString => cell.Null? || cell.TextCell?
    case NullTime => cell.Null? || cell.TimeCell?
    case NullBool => cell.Null? || cell.BoolCell?
    case NullFloat64 => cell.Null? || cell.FloatCell?
    case Bytes => cell.Null? || cell.JsonCell?
    case UnknownType => true
  }

  // ---- assigning ----

  datatype Assignment = Assigned(entity: Entity) | TooFewValues | TypeMismatch(column: Column) | Unmarshal(column: Column)

  /** The destination type each case of assignValues asserts. */
  function AssertedKind(f: Field): Kind {
    match f
    case CreatedAt => NullTime case UpdatedAt => NullTime case DeletedAt => NullTime
    case Name => NullString case Notes => NullString case Platform => NullString case Type => NullString
    case Credentials => Bytes case Extra => Bytes
    case ProxyId => NullInt64 case ProxyFallbackOriginId => NullInt64 case Concurrency => NullInt64
    case LoadFactor => NullInt64 case Priority => NullInt64
    case RateMultiplier => NullFloat64
    case Status => NullString case ErrorMessage => NullString
    case LastUsedAt => NullTime case ExpiresAt => NullTime
    case AutoPauseOnExpired => NullBool case Schedulable => NullBool
    case RateLimitedAt => NullTime case RateLimitResetAt => NullTime case OverloadUntil => NullTime
    case TempUnschedulableUntil => NullTime case TempUnschedulableReason => NullString
    case SessionWindowStart => NullTime case SessionWindowEnd => NullTime case SessionWindowStatus => NullString
    case ParentAccountId => NullInt64 case QuotaDimension => NullString
  }

  /** The Go value read from a valid destination; None when the column was NULL or empty. */
  function Decoded(cell: Cell): Option<Value> {
    match cell
    case IntCell(i) => Some(Int(i))
    case TextCell(s) => Some(Text(s))
    case TimeCell(t) => Some(Time(t))
    case BoolCell(b) => Some(Bool(b))
    case FloatCell(r) => Some(Float(r))
    case JsonCell(Encoded(doc)) => Some(Json(doc))
    case _ => None
  }

  /** One iteration of the loop of assignValues. Unknown columns go to selectValues, which is not
      part of the entity's fields. */
  function AssignOne(e: Entity, c: Column, h: Holder): Assignment {
    match c
    case Id =>
      if h.kind != NullInt64 then TypeMismatch(c)
      else Assigned(e.(id := if h.cell.IntCell? then h.cell.i else 0))
    case Unknown(_) => Assigned(e)
    case Of(f) =>
      if h.kind != AssertedKind(f) then TypeMismatch(c)
      else if h.cell == JsonCell(Garbled) then Unmarshal(c)
      else if Decoded(h.cell).Some? then Assigned(e.(fields := e.fields[f := Decoded(h.cell).value]))
      else Assigned(e)
  }

  function AssignAll(columns: seq<Column>, values: seq<Holder>): Assignment
    requires |columns| <= |values|
  {
    if columns == [] then Assigned(Entity(0, map[])) else
      var k := |columns| - 1;
      match AssignAll(columns[..k], values)
      case Assigned(e) => AssignOne(e, columns[k], values[k])
      case failure => failure
  }

  method AssignValues(columns: seq<Column>, values: seq<Holder>) returns (r: Assignment)
    ensures |values| < |columns| ==> r == TooFewValues
    ensures |columns| <= |values| ==> r == AssignAll(columns, values)
  {
    if |values| < |columns| { return TooFewValues; }
    var e := Entity(0, map[]);
    for i := 0 to |columns|
      invariant AssignAll(columns[..i], values) == Assigned(e)
    {
      assert columns[..i + 1][..i] == columns[..i];
      r := AssignOne(e, columns[i], values[i]);
      if !r.Assigned? {
        StopsAt(columns, values, i + 1);
        return;
      }
      e := r.entity;
    }
    assert columns[..|columns|] == columns;
    return Assigned(e);
  }

  lemma {:induction false} StopsAt(columns: seq<Column>, values: seq<Holder>, i: nat)
    requires i <= |columns| <= |values| && !AssignAll(columns[..i], values).Assigned?
    ensures AssignAll(columns, values) == AssignAll(columns[..i], values)
  {
    if i == |columns| {
      assert columns[..i] == columns;
    } else {
      assert columns[..|columns| - 1][..i] == columns[..i];
      StopsAt(columns[..|columns| - 1], values, i);
    }
  }

  /** scanValues and assignValues agree on every column: no column list hits a type mismatch. */
  lemma {:induction false} NeverTypeMismatch(columns: seq<Column>, values: seq<Holder>)
    requires |columns| <= |values|
    requires forall i :: 0 <= i < |columns| ==> values[i].kind == ScanKind(columns[i])
    ensures !AssignAll(columns, values).TypeMismatch? && !AssignAll(columns, values).TooFewValues?
  {
    if columns != [] {
      var k := |columns| - 1;
      NeverTypeMismatch(columns[..k], values);
      assert values[k].kind == ScanKind(columns[k]);
    }
  }

  // ---- the round trip ----

  /** Destinations allocated for the columns, filled from the stored row. */
  ghost predicate Scanned(spec: Spec, id: int, columns: seq<Column>, values: seq<Holder>) {
    && |values| == |columns|
    && forall i :: 0 <= i < |columns| ==> values[i] == Holder(ScanKind(columns[i]), StoredCell(spec, id, columns[i]))
  }

  /** The driver can store every cell of the row in the destination allocated for it. */
  lemma StoredRowsScan(m: Mutation, id: int, c: Column)
    requires WellTyped(m.fields)
    ensures Accepts(ScanKind(c), StoredCell(CreateSpec(m).1, id, c))
  {
  }

  /** The fields of the node, restricted to the columns read back. */
  function Selected(node: Entity, columns: seq<Column>): Fields {
    map f | f in node.fields && Of(f) in columns :: node.fields[f]
  }

  /** Whatever columns are read, in whatever order and however often, the entity holds exactly the
      fields that createSpec put on the returned node. */
  lemma {:induction false} ReadsBackPrefix(m: Mutation, id: int, columns: seq<Column>, values: seq<Holder>, k: nat)
    requires Scanned(CreateSpec(m).1, id, columns, values) && k <= |columns|
    ensures AssignAll(columns[..k], values) ==
      Assigned(Entity(if Id in columns[..k] then id else 0, Selected(CreateSpec(m).0, columns[..k])))
  {
    if k > 0 {
      ReadsBackPrefix(m, id, columns, values, k - 1);
      assert columns[..k][..k - 1] == columns[..k - 1];
      assert columns[..k] == columns[..k - 1] + [columns[k - 1]];
      ReadsBackOne(m, id, columns[..k - 1], columns[k - 1]);
    }
  }

  lemma ReadsBackOne(m: Mutation, id: int, before: seq<Column>, c: Column)
    ensures var (node, spec) := CreateSpec(m);
      AssignOne(Entity(if Id in before then id else 0, Selected(node, before)), c,
                Holder(ScanKind(c), StoredCell(spec, id, c))) ==
      Assigned(Entity(if Id in before + [c] then id else 0, Selected(node, before + [c])))
  {
    SelectedGrows(CreateSpec(m).0, before, c);
    if c.Of? {
      StoredCellDecodes(m, id, c.field);
    }
  }

  lemma StoredCellDecodes(m: Mutation, id: int, f: Field)
    ensures var (node, spec) := CreateSpec(m);
      var cell := StoredCell(spec, id, Of(f));
      && cell != JsonCell(Garbled)
      && Decoded(cell) == (if f in node.fields then Some(node.fields[f]) else None)
    ensures ScanKind(Of(f)) == AssertedKind(f)
  {
    if f in m.fields && !IsEdgeField(f) {
      assert Decoded(Encode(m.fields[f])) == Some(m.fields[f]);
    }
  }

  lemma SelectedGrows(node: Entity, before: seq<Column>, c: Column)
    ensures Selected(node, before + [c]) ==
      if c.Of? && c.field in node.fields then Selected(node, before)[c.field := node.fields[c.field]]
      else Selected(node, before)
  {
  }

  /** The entity has the id and exactly the fields the mutation gives, with their values. */
  ghost predicate Reproduces(e: Entity, m: Mutation, id: int) {
    && e.id == id
    && (forall f :: f in e.fields <==> Given(m, f).Some?)
    && (forall f :: f in e.fields ==> Some(e.fields[f]) == Given(m, f))
  }

  /** Create then read: a query over columns that cover the table reproduces the mutation, and so the
      returned node. */
  lemma CreateThenRead(m: Mutation, id: int, columns: seq<Column>, values: seq<Holder>)
    requires Scanned(CreateSpec(m).1, id, columns, values)
    requires Id in columns && forall f :: Of(f) in columns
    ensures var r := AssignAll(columns, values);
      r.Assigned? && Reproduces(r.entity, m, id) && r.entity == CreateSpec(m).0.(id := id)
  {
    ReadsBackPrefix(m, id, columns, values, |columns|);
    assert columns[..|columns|] == columns;
    assert Selected(CreateSpec(m).0, columns) == CreateSpec(m).0.fields;
    CreateSpecExact(m);
  }

  /** Scanning the stored row of a mutation: allocate the destinations, let the driver fill them, assign. */
  method ReadBack(m: Mutation, id: int, columns: seq<Column>) returns (r: Assignment)
    ensures r.Assigned? && r.entity.id == if Id in columns then id else 0
    ensures forall f :: f in r.entity.fields <==> Of(f) in columns && Given(m, f).Some?
    ensures forall f :: f in r.entity.fields ==> Some(r.entity.fields[f]) == Given(m, f)
  {
    var spec := CreateSpec(m).1;
    var kinds := ScanValues(columns);
    var values := [];
    for i := 0 to |columns|
      invariant |values| == i
      invariant forall k :: 0 <= k < i ==> values[k] == Holder(ScanKind(columns[k]), StoredCell(spec, id, columns[k]))
    {
      values := values + [Holder(kinds[i], StoredCell(spec, id, columns[i]))];
    }
    r := AssignValues(columns, values);
    ReadsBackPrefix(m, id, columns, values, |columns|);
    assert columns[..|columns|] == columns;
    CreateSpecExact(m);
  }
}
