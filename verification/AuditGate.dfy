/** The audit gate: the index, dedup and decision loops of main, and the declarative rule they
    implement. */
module AuditGate {
  import opened Options
  import opened PyText
  import ExceptionParser

  type Entry = ExceptionParser.Entry

  /** JSON values as json.load builds them; objects keep their insertion order. */
  datatype Json = Null | Bool(b: bool) | Num(n: int) | Str(s: string) | Arr(items: seq<Json>) | Obj(pairs: seq<(string, Json)>)

  predicate Truthy(j: Json) {
    match j
    case Null => false
    case Bool(b) => b
    case Num(n) => n != 0
    case Str(s) => s != ""
    case Arr(items) => items != []
    case Obj(pairs) => pairs != []
  }

  /** Python's lower(), str() and date.fromisoformat(), which the model takes as given. Days are
      numbered. */
  datatype Python = Python(lower: string -> string, str: Json -> string, date: string -> Option<int>)

  /** What iter_vulns yields, without the title, which only feeds messages. */
  datatype Finding = Finding(name: Json, severity: Json, advisory: Json)

  // ---- normalisation ----

  /** (severity or "").strip().lower(); a truthy value that is not a string has no strip() and raises. */
  predicate Raises(f: Finding) {
    Truthy(f.severity) && !f.severity.Str?
  }

  function Severity(py: Python, f: Finding): string {
    py.lower(Strip(if f.severity.Str? then f.severity.s else ""))
  }

  function Package(py: Python, j: Json): string {
    if j.Null? then "" else Strip(if j.Str? then j.s else py.str(j))
  }

  function Advisory(py: Python, j: Json): string {
    if j.Null? then "" else py.lower(Strip(if j.Str? then j.s else py.str(j)))
  }

  datatype Key = Key(package: string, advisory: string)

  function KeyOf(py: Python, f: Finding): Key {
    Key(Package(py, f.name), Advisory(py, f.advisory))
  }

  /** A named finding of high or critical severity. */
  predicate Relevant(py: Python, f: Finding) {
    (Severity(py, f) == "high" || Severity(py, f) == "critical") && Truthy(f.name)
  }

  // ---- exceptions ----

  const REQUIRED: seq<string> := ["package", "advisory", "severity", "mitigation", "expires_on"]

  function Get(e: Entry, k: string): string {
    if k in e then e[k] else ""
  }

  predicate Complete(e: Entry) {
    forall k :: k in REQUIRED ==> Get(e, k) != ""
  }

  function EntryKey(py: Python, e: Entry): Key {
    Key(Strip(Get(e, "package")), py.lower(Strip(Get(e, "advisory"))))
  }

  datatype Exception = Exception(severity: string, expires: int)

  /** What main makes of an entry: an exception under its normalised key, or a complaint. */
  datatype Item = Malformed | Item(key: Key, exception: Exception)

  function ItemOf(py: Python, e: Entry): Item {
    var key := EntryKey(py, e);
    var date := py.date(Get(e, "expires_on"));
    if Complete(e) && date.Some? && key.package != "" && key.advisory != ""
    then Item(key, Exception(py.lower(Strip(Get(e, "severity"))), date.value))
    else Malformed
  }

  function ItemsOf(py: Python, es: seq<Entry>): (items: seq<Item>)
    ensures |items| == |es|
    ensures forall i :: 0 <= i < |es| ==> items[i] == ItemOf(py, es[i])
  {
    seq(|es|, i requires 0 <= i < |es| => ItemOf(py, es[i]))
  }

  type Index = map<Key, Exception>

  /** Every entry is well formed and no two share a key. */
  predicate Sound(items: seq<Item>) {
    && (forall i :: 0 <= i < |items| ==> items[i].Item?)
    && (forall i, j :: 0 <= i < j < |items| ==> items[i].key != items[j].key)
  }

  /** The index has exactly the keys of the well-formed entries, and each value from one of them. */
  ghost predicate Indexes(items: seq<Item>, index: Index) {
    && (forall i :: 0 <= i < |items| && items[i].Item? ==> items[i].key in index)
    && (forall k :: k in index ==> Item(k, index[k]) in items)
  }

  datatype Problem =
    | MissingFields(i: int) | BadDate(i: int) | EmptyKey(i: int) | Duplicate(i: int)
    | MissingId(i: int) | SeverityMismatch(i: int)

  /** The first loop of main. */
  method IndexExceptions(py: Python, es: seq<Entry>) returns (index: Index, errors: seq<Problem>)
    ensures errors == [] <==> Sound(ItemsOf(py, es))
    ensures Indexes(ItemsOf(py, es), index)
  {
    index, errors := map[], [];
    ghost var items := ItemsOf(py, es);
    for i := 0 to |es|
      invariant errors == [] <==> Sound(items[..i])
      invariant Indexes(items[..i], index)
    {
      var e := es[i];
      IndexStep(items[..i], items[i], index);
      assert items[..i + 1] == items[..i] + [items[i]];
      var key := EntryKey(py, e);
      var date := py.date(Get(e, "expires_on"));
      if !Complete(e) {
        errors := errors + [MissingFields(i)];
      } else if date.None? {
        errors := errors + [BadDate(i)];
      } else if key.package == "" || key.advisory == "" {
        errors := errors + [EmptyKey(i)];
      } else if key in index {
        errors := errors + [Duplicate(i)];
      } else {
        index := index[key := Exception(py.lower(Strip(Get(e, "severity"))), date.value)];
      }
    }
    assert items[..|es|] == items;
  }

  lemma IndexStep(items: seq<Item>, item: Item, index: Index)
    requires Indexes(items, index)
    ensures var added := item.Item? && item.key !in index;
      && (Sound(items + [item]) <==> Sound(items) && added)
      && Indexes(items + [item], if added then index[item.key := item.exception] else index)
  {
    var all := items + [item];
    assert all[|items|] == item && all[..|items|] == items;
    var added := item.Item? && item.key !in index;
    if Sound(all) {
      assert forall i :: 0 <= i < |items| ==> all[i] == items[i] && items[i].key != all[|items|].key;
    }
    assert forall it :: it in items ==> it in all;
    assert item in all;
  }

  // ---- findings ----

  /** What main makes of a finding: an uncaught error, nothing, or a key and severity to be excused. */
  datatype Probe = Raised | Ignored | Probe(key: Key, severity: string)

  function ProbeOf(py: Python, f: Finding): Probe {
    if Raises(f) then Raised
    else if Relevant(py, f) then Probe(KeyOf(py, f), Severity(py, f))
    else Ignored
  }

  function ProbesOf(py: Python, fs: seq<Finding>): (probes: seq<Probe>)
    ensures |probes| == |fs|
    ensures forall i :: 0 <= i < |fs| ==> probes[i] == ProbeOf(py, fs[i])
  {
    seq(|fs|, i requires 0 <= i < |fs| => ProbeOf(py, fs[i]))
  }

  predicate IsFirst(probes: seq<Probe>, i: nat)
    requires i < |probes|
  {
    probes[i].Probe? && forall j :: 0 <= j < i && probes[j].Probe? ==> probes[j].key != probes[i].key
  }

  predicate Covers(x: Exception, p: Probe, today: int)
    requires p.Probe?
  {
    (x.severity == "" || x.severity == p.severity) && today <= x.expires
  }

  /** Finding i causes no complaint. */
  predicate Excused(index: Index, probes: seq<Probe>, today: int, i: nat)
    requires i < |probes|
  {
    probes[i].Probe? ==>
      && probes[i].key.advisory != ""
      && (IsFirst(probes, i) ==> probes[i].key in index && Covers(index[probes[i].key], probes[i], today))
  }

  predicate AllExcused(index: Index, probes: seq<Probe>, today: int, n: nat)
    requires n <= |probes|
  {
    n == 0 || (AllExcused(index, probes, today, n - 1) && Excused(index, probes, today, n - 1))
  }

  lemma {:induction false} AllExcusedExact(index: Index, probes: seq<Probe>, today: int, n: nat)
    requires n <= |probes|
    ensures AllExcused(index, probes, today, n) <==> forall i :: 0 <= i < n ==> Excused(index, probes, today, i)
  {
    if n > 0 {
      AllExcusedExact(index, probes, today, n - 1);
    }
  }

  /** The set `seen` before finding n. */
  function Seen(probes: seq<Probe>, n: nat): set<Key>
    requires n <= |probes|
  {
    if n == 0 then {}
    else if probes[n - 1].Probe? && probes[n - 1].key.advisory != "" then Seen(probes, n - 1) + {probes[n - 1].key}
    else Seen(probes, n - 1)
  }

  lemma {:induction false} SeenExact(probes: seq<Probe>, n: nat, k: Key)
    requires n <= |probes| && k.advisory != ""
    ensures k in Seen(probes, n) <==> exists j :: 0 <= j < n && probes[j].Probe? && probes[j].key == k
  {
    if n > 0 {
      SeenExact(probes, n - 1, k);
    }
  }

  datatype Verdict = Crashed | Verdict(errors: seq<Problem>, missing: seq<int>, expired: seq<int>)

  /** One named finding of high or critical severity: complain about it unless its key was seen. */
  method Consider(index: Index, probe: Probe, today: int, seen: set<Key>, i: int)
    returns (errors: seq<Problem>, missing: seq<int>, expired: seq<int>, seen': set<Key>)
    ensures seen' == if probe.Probe? && probe.key.advisory != "" then seen + {probe.key} else seen
    ensures errors == [] && missing == [] && expired == [] <==> Quiet(index, probe, today, seen)
  {
    errors, missing, expired, seen' := [], [], [], seen;
    if !probe.Probe? { return; }
    var key := probe.key;
    if key.advisory == "" {
      errors := [MissingId(i)];
      return;
    }
    if key in seen { return; }
    seen' := seen + {key};
    if key !in index {
      missing := [i];
      return;
    }
    if index[key].severity != "" && index[key].severity != probe.severity {
      errors := [SeverityMismatch(i)];
    }
    if index[key].expires < today {
      expired := [i];
    }
  }

  predicate Quiet(index: Index, p: Probe, today: int, seen: set<Key>) {
    p.Probe? ==> p.key.advisory != "" && (p.key !in seen ==> p.key in index && Covers(index[p.key], p, today))
  }

  lemma ExcusedIffQuiet(index: Index, probes: seq<Probe>, today: int, i: nat)
    requires i < |probes|
    ensures Excused(index, probes, today, i) <==> Quiet(index, probes[i], today, Seen(probes, i))
  {
    if probes[i].Probe? && probes[i].key.advisory != "" {
      SeenExact(probes, i, probes[i].key);
    }
  }

  /** The second loop of main. */
  method Decide(index: Index, probes: seq<Probe>, today: int) returns (v: Verdict)
    ensures v.Crashed? <==> Raised in probes
    ensures v.Verdict? ==> (v == Verdict([], [], []) <==> AllExcused(index, probes, today, |probes|))
  {
    var errors: seq<Problem>, missing: seq<int>, expired: seq<int> := [], [], [];
    var seen: set<Key> := {};
    for i := 0 to |probes|
      invariant Raised !in probes[..i] && seen == Seen(probes, i)
      invariant errors == [] && missing == [] && expired == [] <==> AllExcused(index, probes, today, i)
    {
      if probes[i].Raised? { return Crashed; }
      ExcusedIffQuiet(index, probes, today, i);
      var errs, miss, exp;
      errs, miss, exp, seen := Consider(index, probes[i], today, seen, i);
      errors, missing, expired := errors + errs, missing + miss, expired + exp;
    }
    return Verdict(errors, missing, expired);
  }

  // ---- the rule ----

  /** Some well-formed, unexpired exception names the key of p, whatever its severity. */
  ghost predicate Covered(items: seq<Item>, p: Probe, today: int)
    requires p.Probe?
  {
    exists x :: Item(p.key, x) in items && today <= x.expires
  }

  ghost predicate SeverityAgrees(items: seq<Item>, p: Probe)
    requires p.Probe?
  {
    forall x :: Item(p.key, x) in items ==> x.severity == "" || x.severity == p.severity
  }

  /** The declarative rule of the gate. */
  ghost predicate Rule(items: seq<Item>, probes: seq<Probe>, today: int) {
    && Sound(items) && Raised !in probes
    && (forall p :: p in probes && p.Probe? ==> p.key.advisory != "" && Covered(items, p, today))
    && (forall i :: 0 <= i < |probes| && IsFirst(probes, i) ==> SeverityAgrees(items, probes[i]))
  }

  lemma {:induction false} FirstWithKey(probes: seq<Probe>, i: nat) returns (j: nat)
    requires i < |probes| && probes[i].Probe?
    ensures j <= i && IsFirst(probes, j) && probes[j].key == probes[i].key
  {
    if IsFirst(probes, i) {
      j := i;
    } else {
      var k: nat :| k < i && probes[k].Probe? && probes[k].key == probes[i].key;
      j := FirstWithKey(probes, k);
    }
  }

  lemma SoundIndex(items: seq<Item>, index: Index, k: Key, x: Exception)
    requires Sound(items) && Indexes(items, index)
    ensures Item(k, x) in items <==> k in index && index[k] == x
  {
    if Item(k, x) in items {
      var i :| 0 <= i < |items| && items[i] == Item(k, x);
      var j :| 0 <= j < |items| && items[j] == Item(k, index[k]);
    }
  }

  lemma DecisionIsRule(items: seq<Item>, index: Index, probes: seq<Probe>, today: int)
    requires Sound(items) && Indexes(items, index) && Raised !in probes
    ensures AllExcused(index, probes, today, |probes|) <==> Rule(items, probes, today)
  {
    AllExcusedExact(index, probes, today, |probes|);
    if AllExcused(index, probes, today, |probes|) {
      ExcusedMeetsRule(items, index, probes, today);
    }
    if Rule(items, probes, today) {
      RuleExcuses(items, index, probes, today);
    }
  }

  lemma ExcusedMeetsRule(items: seq<Item>, index: Index, probes: seq<Probe>, today: int)
    requires Sound(items) && Indexes(items, index) && Raised !in probes
    requires forall i :: 0 <= i < |probes| ==> Excused(index, probes, today, i)
    ensures Rule(items, probes, today)
  {
    forall p | p in probes && p.Probe? ensures p.key.advisory != "" && Covered(items, p, today) {
      var i :| 0 <= i < |probes| && probes[i] == p;
      assert Excused(index, probes, today, i);
      var j := FirstWithKey(probes, i);
      assert Excused(index, probes, today, j);
      SoundIndex(items, index, p.key, index[p.key]);
    }
    forall i | 0 <= i < |probes| && IsFirst(probes, i) ensures SeverityAgrees(items, probes[i]) {
      assert Excused(index, probes, today, i);
      forall x | Item(probes[i].key, x) in items ensures x.severity == "" || x.severity == probes[i].severity {
        SoundIndex(items, index, probes[i].key, x);
      }
    }
  }

  lemma RuleExcuses(items: seq<Item>, index: Index, probes: seq<Probe>, today: int)
    requires Indexes(items, index) && Rule(items, probes, today)
    ensures forall i :: 0 <= i < |probes| ==> Excused(index, probes, today, i)
  {
    forall i | 0 <= i < |probes| ensures Excused(index, probes, today, i) {
      var p := probes[i];
      if p.Probe? {
        assert p in probes;
        var x :| Item(p.key, x) in items && today <= x.expires;
        SoundIndex(items, index, p.key, x);
        SoundIndex(items, index, p.key, index[p.key]);
      }
    }
  }

  /** The audits that meet the rule. */
  ghost predicate Accepts(py: Python, es: seq<Entry>, fs: seq<Finding>, today: int) {
    Rule(ItemsOf(py, es), ProbesOf(py, fs), today)
  }

  /** The exit status of main. */
  method Gate(py: Python, es: seq<Entry>, fs: seq<Finding>, today: int) returns (status: int)
    ensures status == 0 || status == 1
    ensures status == 0 <==> Accepts(py, es, fs, today)
  {
    var index, errors := IndexExceptions(py, es);
    var probes := ProbesOf(py, fs);
    var v := Decide(index, probes, today);
    if Sound(ItemsOf(py, es)) && Raised !in probes {
      DecisionIsRule(ItemsOf(py, es), index, probes, today);
    }
    if v.Crashed? { return 1; }
    status := if errors + v.errors == [] && v.missing == [] && v.expired == [] then 0 else 1;
  }

  /** An audit accepted on a day is accepted on every earlier day. */
  lemma EarlierDaysAccept(py: Python, es: seq<Entry>, fs: seq<Finding>, today: int, earlier: int)
    requires Accepts(py, es, fs, today) && earlier <= today
    ensures Accepts(py, es, fs, earlier)
  {
    var items, probes := ItemsOf(py, es), ProbesOf(py, fs);
    forall p | p in probes && p.Probe? ensures Covered(items, p, earlier) {
      var x :| Item(p.key, x) in items && today <= x.expires;
    }
  }

  /** Findings that share a key share a severity. */
  ghost predicate Consistent(probes: seq<Probe>) {
    forall p, q :: p in probes && q in probes && p.Probe? && q.Probe? && p.key == q.key ==> p.severity == q.severity
  }

  lemma ProbesOfSame(py: Python, fs: seq<Finding>, gs: seq<Finding>)
    requires forall g :: g in gs ==> g in fs
    ensures forall q :: q in ProbesOf(py, gs) ==> q in ProbesOf(py, fs)
  {
    forall q | q in ProbesOf(py, gs) ensures q in ProbesOf(py, fs) {
      var j :| 0 <= j < |gs| && ProbesOf(py, gs)[j] == q;
      assert gs[j] in gs;
      var i :| 0 <= i < |fs| && fs[i] == gs[j];
      assert ProbesOf(py, fs)[i] == q;
    }
  }

  /** Findings among consistent ones that meet the rule meet it. */
  lemma SubsetMeetsRule(items: seq<Item>, ps: seq<Probe>, qs: seq<Probe>, today: int)
    requires Consistent(ps) && (forall q :: q in qs ==> q in ps) && Rule(items, ps, today)
    ensures Rule(items, qs, today)
  {
    forall j | 0 <= j < |qs| && IsFirst(qs, j) ensures SeverityAgrees(items, qs[j]) {
      assert qs[j] in qs;
      var i :| 0 <= i < |ps| && ps[i] == qs[j];
      var first := FirstWithKey(ps, i);
      assert SeverityAgrees(items, ps[first]) && ps[first] in ps && ps[i] in ps;
    }
  }

  /** Then the order of the findings, and repetitions among them, do not matter. */
  lemma OrderDoesNotMatter(py: Python, es: seq<Entry>, fs: seq<Finding>, gs: seq<Finding>, today: int)
    requires Consistent(ProbesOf(py, fs)) && forall f :: f in fs <==> f in gs
    ensures Accepts(py, es, fs, today) <==> Accepts(py, es, gs, today)
  {
    ProbesOfSame(py, fs, gs);
    ProbesOfSame(py, gs, fs);
    if Accepts(py, es, fs, today) { SubsetMeetsRule(ItemsOf(py, es), ProbesOf(py, fs), ProbesOf(py, gs), today); }
    if Accepts(py, es, gs, today) { SubsetMeetsRule(ItemsOf(py, es), ProbesOf(py, gs), ProbesOf(py, fs), today); }
  }
}
