/** What an audit report says, item by item, and that the gate hears all of it. */
module AuditReport {
  import opened Options
  import opened PyText
  import ExceptionParser
  import opened AuditGate
  import opened AuditFindings

  // ---- reading members ----

  /** The falsy values are null, false, zero, and the empty string, list and object. */
  lemma TruthyExact(j: Json)
    ensures !Truthy(j) <==>
      j == Null || j == Bool(false) || j == Num(0) || j == Str("") || j == Arr([]) || j == Obj([])
  {
  }

  /** Pair i is the last one with the name k. */
  ghost predicate IsLast(pairs: seq<(string, Json)>, k: string, i: int) {
    0 <= i < |pairs| && pairs[i].0 == k && forall j :: i < j < |pairs| ==> pairs[j].0 != k
  }

  /** The value of a member is that of the last pair with its name, and null if there is none. */
  lemma {:induction false} LookupExact(pairs: seq<(string, Json)>, k: string)
    ensures (forall i :: 0 <= i < |pairs| ==> pairs[i].0 != k) ==> Lookup(pairs, k) == Null
    ensures forall i :: IsLast(pairs, k, i) ==> Lookup(pairs, k) == pairs[i].1
  {
    if pairs != [] {
      var n := |pairs| - 1;
      var init := pairs[..n];
      LookupExact(init, k);
      forall i | IsLast(pairs, k, i) ensures Lookup(pairs, k) == pairs[i].1 {
        if i < n {
          assert pairs[n].0 != k && IsLast(init, k, i);
        }
      }
    }
  }

  /** Python's `a or b or ...`: the first truthy value, or else the last one. */
  ghost predicate FirstTruthy(js: seq<Json>, x: Json) {
    || (exists k :: 0 <= k < |js| && js[k] == x && Truthy(x) && forall i :: 0 <= i < k ==> !Truthy(js[i]))
    || (|js| > 0 && js[|js| - 1] == x && forall i :: 0 <= i < |js| ==> !Truthy(js[i]))
  }

  lemma OrExtends(js: seq<Json>, x: Json, y: Json, all: seq<Json>)
    requires FirstTruthy(js, x) && all == js + [y]
    ensures FirstTruthy(all, Or(x, y))
  {
    assert all[|js|] == y && forall i :: 0 <= i < |js| ==> all[i] == js[i];
    if Truthy(x) {
      var k :| 0 <= k < |js| && js[k] == x && forall i :: 0 <= i < k ==> !Truthy(js[i]);
      assert all[k] == x;
    }
  }

  lemma FirstOfTwo(a: Json, b: Json)
    ensures FirstTruthy([a, b], Or(a, b))
  {
    assert [a][0] == a;
    OrExtends([a], a, b, [a, b]);
  }

  lemma FirstOfFive(a: Json, b: Json, c: Json, d: Json, e: Json)
    ensures FirstTruthy([a, b, c, d, e], Or(Or(Or(Or(a, b), c), d), e))
  {
    FirstOfTwo(a, b);
    OrExtends([a, b], Or(a, b), c, [a, b, c]);
    OrExtends([a, b, c], Or(Or(a, b), c), d, [a, b, c, d]);
    OrExtends([a, b, c, d], Or(Or(Or(a, b), c), d), e, [a, b, c, d, e]);
  }

  lemma FirstOfSeven(a: Json, b: Json, c: Json, d: Json, e: Json, f: Json, g: Json)
    ensures FirstTruthy([a, b, c, d, e, f, g], Or(Or(Or(Or(Or(Or(a, b), c), d), e), f), g))
  {
    FirstOfFive(a, b, c, d, e);
    var five := Or(Or(Or(Or(a, b), c), d), e);
    OrExtends([a, b, c, d, e], five, f, [a, b, c, d, e, f]);
    OrExtends([a, b, c, d, e, f], Or(five, f), g, [a, b, c, d, e, f, g]);
  }

  // ---- identifiers ----

  /** The names under which an item of `via` may be identified, best first. */
  function ViaCandidates(p: seq<(string, Json)>): seq<Json> {
    [Lookup(p, "github_advisory_id"), Lookup(p, "url"), Lookup(p, "source"), Lookup(p, "title"), Lookup(p, "name")]
  }

  /** The item is identified: a string by itself, an object by its first truthy candidate. */
  ghost predicate Identifies(item: Json, id: Json) {
    && Truthy(id)
    && match item
       case Str(_) => id == item
       case Obj(p) => FirstTruthy(ViaCandidates(p), id)
       case _ => false
  }

  lemma ViaIdExact(item: Json, id: Json)
    ensures Identifies(item, id) <==> Truthy(id) && id == ViaId(item)
  {
    if item.Obj? {
      var p := item.pairs;
      var a, b, c, d, e := Lookup(p, "github_advisory_id"), Lookup(p, "url"), Lookup(p, "source"), Lookup(p, "title"), Lookup(p, "name");
      FirstOfFive(a, b, c, d, e);
      if Truthy(id) && FirstTruthy(ViaCandidates(p), id) {
        OneFirstTruthy(ViaCandidates(p), id, ViaId(item));
      }
    }
  }

  lemma OneFirstTruthy(js: seq<Json>, x: Json, y: Json)
    requires FirstTruthy(js, x) && FirstTruthy(js, y)
    ensures x == y
  {
    if Truthy(x) && Truthy(y) {
      var k :| 0 <= k < |js| && js[k] == x && forall i :: 0 <= i < k ==> !Truthy(js[i]);
      var l :| 0 <= l < |js| && js[l] == y && forall i :: 0 <= i < l ==> !Truthy(js[i]);
      assert k == l;
    }
  }

  /** The first of a list of CVEs, or the first character where the list is a string. */
  function CveIn(cves: Json): Json {
    match cves
    case Arr(items) => if items == [] then Null else items[0]
    case Str(s) => if s == "" then Null else Str([s[0]])
    case _ => Null
  }

  /** The identifiers of an advisory, best first. */
  function AdvisoryCandidates(py: Python, a: seq<(string, Json)>): seq<Json> {
    var id := Lookup(a, "id");
    [Lookup(a, "github_advisory_id"), Lookup(a, "url"), CveIn(Lookup(a, "cves")),
     if id.Null? || id.Str? then id else Str(py.str(id)),
     Lookup(a, "title"), Lookup(a, "advisory"), Lookup(a, "overview")]
  }

  /** pick_advisory_id takes the first truthy candidate. */
  lemma PickExact(py: Python, a: seq<(string, Json)>)
    requires PickAdvisoryId(py, a).Some?
    ensures FirstTruthy(AdvisoryCandidates(py, a), PickAdvisoryId(py, a).value)
  {
    var js := AdvisoryCandidates(py, a);
    var cves := Lookup(a, "cves");
    if cves.Str? && cves.s != "" {
      assert cves.s[..1] == [cves.s[0]];
    }
    assert FirstCve(cves).Some? ==> FirstCve(cves).value == CveIn(cves);
    FirstOfSeven(js[0], js[1], js[2], js[3], js[4], js[5], js[6]);
    assert js == [js[0], js[1], js[2], js[3], js[4], js[5], js[6]];
  }

  // ---- findings ----

  function PairsAt(data: Json, k: string): seq<(string, Json)> {
    if data.Obj? && Lookup(data.pairs, k).Obj? then Lookup(data.pairs, k).pairs else []
  }

  /** Item j of a `via`: an element of a list, or the string itself. */
  function ItemAt(via: Json, j: int): Option<Json> {
    match via
    case Arr(items) => if 0 <= j < |items| then Some(items[j]) else None
    case Str(_) => if j == 0 then Some(via) else None
    case _ => None
  }

  /** Where a finding comes from: an advisory, or an item of the `via` of a vulnerability. */
  datatype Origin = OfAdvisory(i: int) | OfItem(i: int, j: int)

  predicate Before(a: Origin, b: Origin) {
    match (a, b)
    case (OfAdvisory(i), OfAdvisory(k)) => i < k
    case (OfAdvisory(_), OfItem(_, _)) => true
    case (OfItem(i, j), OfItem(k, l)) => i < k || (i == k && j < l)
    case (OfItem(_, _), OfAdvisory(_)) => false
  }

  ghost predicate Ordered(at: seq<Origin>) {
    forall k, l :: 0 <= k < l < |at| ==> Before(at[k], at[l])
  }

  lemma OrderedConcat(a: seq<Origin>, b: seq<Origin>)
    requires Ordered(a) && Ordered(b) && forall x, y :: x in a && y in b ==> Before(x, y)
    ensures Ordered(a + b)
  {
    var all := a + b;
    forall k, l | 0 <= k < l < |all| ensures Before(all[k], all[l]) {
      if k < |a| <= l {
        assert all[k] in a && all[l] in b;
      }
    }
  }

  /** The finding of an advisory: its module name or name, its severity and its first truthy identifier. */
  ghost predicate AdvisorySays(py: Python, a: Json, f: Finding) {
    && a.Obj?
    && FirstTruthy([Lookup(a.pairs, "module_name"), Lookup(a.pairs, "name")], f.name)
    && f.severity == Lookup(a.pairs, "severity")
    && FirstTruthy(AdvisoryCandidates(py, a.pairs), f.advisory)
  }

  /** The finding of an item: the name and severity of the vulnerability, and the item's identifier. */
  ghost predicate ItemSays(v: (string, Json), j: int, f: Finding) {
    && v.1.Obj? && ItemAt(Lookup(v.1.pairs, "via"), j).Some?
    && f.name == Str(v.0) && f.severity == Lookup(v.1.pairs, "severity")
    && Identifies(ItemAt(Lookup(v.1.pairs, "via"), j).value, f.advisory)
  }

  /** The report says f at this place. */
  ghost predicate Says(py: Python, data: Json, o: Origin, f: Finding) {
    match o
    case OfAdvisory(i) =>
      0 <= i < |PairsAt(data, "advisories")| && AdvisorySays(py, PairsAt(data, "advisories")[i].1, f)
    case OfItem(i, j) =>
      0 <= i < |PairsAt(data, "vulnerabilities")| && ItemSays(PairsAt(data, "vulnerabilities")[i], j, f)
  }

  lemma {:induction false} AdvisoriesExact(py: Python, entries: seq<(string, Json)>)
    requires FromAdvisories(py, entries).Some?
    ensures var fs := FromAdvisories(py, entries).value;
      |fs| == |entries| && forall i :: 0 <= i < |fs| ==> AdvisorySays(py, entries[i].1, fs[i])
  {
    if entries != [] {
      AdvisoriesExact(py, entries[..|entries| - 1]);
      var a := entries[|entries| - 1].1;
      PickExact(py, a.pairs);
      FirstOfTwo(Lookup(a.pairs, "module_name"), Lookup(a.pairs, "name"));
    }
  }

  /** The positions of the identified items, in order. */
  ghost predicate Positions(items: seq<Json>, ids: seq<Json>, at: seq<int>) {
    && |at| == |ids| && (forall k, l :: 0 <= k < l < |at| ==> at[k] < at[l])
    && (forall k :: 0 <= k < |at| ==>
          0 <= at[k] < |items| && Truthy(ViaId(items[at[k]])) && ids[k] == ViaId(items[at[k]]))
    && (forall j :: 0 <= j < |items| && Truthy(ViaId(items[j])) ==> j in at)
  }

  lemma PositionsGrow(items: seq<Json>, item: Json, ids: seq<Json>, at: seq<int>)
    requires Positions(items, ids, at)
    ensures Truthy(ViaId(item)) ==> Positions(items + [item], ids + [ViaId(item)], at + [|items|])
    ensures !Truthy(ViaId(item)) ==> Positions(items + [item], ids, at)
  {
    var all := items + [item];
    assert all[|items|] == item && forall j :: 0 <= j < |items| ==> all[j] == items[j];
    var grown := at + [|items|];
    assert grown[|at|] == |items| && forall j :: j in at ==> j in grown;
  }

  lemma {:induction false} ViaPositions(items: seq<Json>) returns (at: seq<int>)
    ensures Positions(items, Identified(items), at)
  {
    at := [];
    if items != [] {
      var init, item := items[..|items| - 1], items[|items| - 1];
      at := ViaPositions(init);
      PositionsGrow(init, item, Identified(init), at);
      assert items == init + [item];
      if Truthy(ViaId(item)) {
        at := at + [|init|];
      }
    }
  }

  lemma ItemAtExact(via: Json, j: int, x: Json)
    ensures ItemAt(via, j) == Some(x) <==> 0 <= j < |ViaItems(via)| && ViaItems(via)[j] == x
  {
  }

  lemma ItemSaysExact(v: (string, Json), j: int, f: Finding)
    ensures ItemSays(v, j, f) <==>
      && v.1.Obj?
      && var items := ViaItems(Lookup(v.1.pairs, "via"));
         0 <= j < |items| && Truthy(f.advisory) && f == Finding(Str(v.0), Lookup(v.1.pairs, "severity"), ViaId(items[j]))
  {
    if v.1.Obj? {
      var via := Lookup(v.1.pairs, "via");
      var items := ViaItems(via);
      if 0 <= j < |items| {
        ItemAtExact(via, j, items[j]);
        ViaIdExact(items[j], f.advisory);
      } else if ItemAt(via, j).Some? {
        ItemAtExact(via, j, ItemAt(via, j).value);
      }
    }
  }

  /** One finding per identified item, in the order of the vulnerabilities and of their items. */
  ghost predicate Traces(vs: seq<(string, Json)>, fs: seq<Finding>, at: seq<Origin>) {
    && |at| == |fs|
    && (forall k :: 0 <= k < |at| ==> at[k].OfItem? && 0 <= at[k].i < |vs| && ItemSays(vs[at[k].i], at[k].j, fs[k]))
    && Ordered(at)
    && (forall i, j, f :: 0 <= i < |vs| && ItemSays(vs[i], j, f) ==> OfItem(i, j) in at)
  }

  lemma VulnerabilityTraces(v: (string, Json), n: int) returns (at: seq<Origin>)
    requires FromVulnerability(v).Some?
    ensures var fs := FromVulnerability(v).value;
      && |at| == |fs|
      && (forall k :: 0 <= k < |at| ==> at[k].OfItem? && at[k].i == n && ItemSays(v, at[k].j, fs[k]))
      && Ordered(at)
      && (forall j, f :: ItemSays(v, j, f) ==> OfItem(n, j) in at)
  {
    var items := ViaItems(Lookup(v.1.pairs, "via"));
    var positions := ViaPositions(items);
    at := seq(|positions|, k requires 0 <= k < |positions| => OfItem(n, positions[k]));
    var fs := FromVulnerability(v).value;
    forall k | 0 <= k < |at| ensures ItemSays(v, at[k].j, fs[k]) {
      ItemSaysExact(v, at[k].j, fs[k]);
    }
    forall j, f | ItemSays(v, j, f) ensures OfItem(n, j) in at {
      ItemSaysExact(v, j, f);
      var k :| 0 <= k < |positions| && positions[k] == j;
      assert at[k] == OfItem(n, j);
    }
  }

  lemma TracesGrow(vs: seq<(string, Json)>, v: (string, Json), fs: seq<Finding>, gs: seq<Finding>,
                   at: seq<Origin>, more: seq<Origin>)
    requires Traces(vs, fs, at) && |more| == |gs|
    requires forall k :: 0 <= k < |more| ==> more[k].OfItem? && more[k].i == |vs| && ItemSays(v, more[k].j, gs[k])
    requires Ordered(more)
    requires forall j, f :: ItemSays(v, j, f) ==> OfItem(|vs|, j) in more
    ensures Traces(vs + [v], fs + gs, at + more)
  {
    var all, places, findings := vs + [v], at + more, fs + gs;
    OrderedConcat(at, more);
    forall k | 0 <= k < |places|
      ensures places[k].OfItem? && 0 <= places[k].i < |all| && ItemSays(all[places[k].i], places[k].j, findings[k])
    {
      if k < |at| {
        assert places[k] == at[k] && findings[k] == fs[k] && all[at[k].i] == vs[at[k].i];
      } else {
        assert places[k] == more[k - |at|] && findings[k] == gs[k - |at|] && all[|vs|] == v;
      }
    }
    forall i, j, f | 0 <= i < |all| && ItemSays(all[i], j, f) ensures OfItem(i, j) in places {
      if i < |vs| {
        assert all[i] == vs[i] && ItemSays(vs[i], j, f);
      } else {
        assert all[i] == v && ItemSays(v, j, f);
      }
    }
  }

  lemma {:induction false} VulnerabilitiesExact(vs: seq<(string, Json)>) returns (at: seq<Origin>)
    requires FromVulnerabilities(vs).Some?
    ensures Traces(vs, FromVulnerabilities(vs).value, at)
  {
    at := [];
    if vs != [] {
      var init, v := vs[..|vs| - 1], vs[|vs| - 1];
      at := VulnerabilitiesExact(init);
      var more := VulnerabilityTraces(v, |init|);
      TracesGrow(init, v, FromVulnerabilities(init).value, FromVulnerability(v).value, at, more);
      assert vs == init + [v];
      at := at + more;
    }
  }

  /** The findings of a report are exactly what it says: one per advisory and per identified item of a
      vulnerability, in the order of the report, and nothing else. */
  lemma FindingsExact(py: Python, data: Json) returns (at: seq<Origin>)
    requires IterVulns(py, data).Some?
    ensures var fs := IterVulns(py, data).value;
      && |at| == |fs|
      && (forall k :: 0 <= k < |at| ==> Says(py, data, at[k], fs[k]))
      && Ordered(at)
      && (forall o, f :: Says(py, data, o, f) ==> o in at)
  {
    var advisories, vs := PairsAt(data, "advisories"), PairsAt(data, "vulnerabilities");
    AdvisoriesExact(py, advisories);
    var first := AdvisoryOrigins(|advisories|);
    var second := VulnerabilitiesExact(vs);
    at := first + second;
    OrderedConcat(first, second);
    var fs, gs := FromAdvisories(py, advisories).value, FromVulnerabilities(vs).value;
    assert IterVulns(py, data).value == fs + gs;
    forall k | 0 <= k < |at| ensures Says(py, data, at[k], (fs + gs)[k]) {
      if k < |first| {
        assert at[k] == OfAdvisory(k) && (fs + gs)[k] == fs[k];
      } else {
        assert at[k] == second[k - |first|] && (fs + gs)[k] == gs[k - |first|];
      }
    }
    forall o, f | Says(py, data, o, f) ensures o in at {
      if o.OfAdvisory? {
        assert first[o.i] == o;
      } else {
        assert OfItem(o.i, o.j) in second;
      }
    }
  }

  lemma AdvisoryOrigins(n: nat) returns (at: seq<Origin>)
    ensures |at| == n && Ordered(at) && forall i :: 0 <= i < n ==> at[i] == OfAdvisory(i)
  {
    at := seq(n, i => OfAdvisory(i));
  }

  // ---- reports that can be read ----

  /** An advisory can be read: it is an object, and unless a better identifier comes first, its CVEs are
      missing or falsy, a list, or a string. */
  predicate AdvisoryReads(a: Json) {
    && a.Obj?
    && var cves := Lookup(a.pairs, "cves");
       || Truthy(Lookup(a.pairs, "github_advisory_id")) || Truthy(Lookup(a.pairs, "url"))
       || !Truthy(cves) || cves.Arr? || cves.Str?
  }

  /** The names under which an item of `via` may have a title, best first. */
  function TitleCandidates(p: seq<(string, Json)>): seq<Json> {
    [Lookup(p, "title"), Lookup(p, "url"), Lookup(p, "advisory"), Lookup(p, "source")]
  }

  /** The title of an item, if it has one, is a string. */
  ghost predicate TitleReads(item: Json) {
    item.Obj? ==> forall t :: FirstTruthy(TitleCandidates(item.pairs), t) && Truthy(t) ==> t.Str?
  }

  ghost predicate VulnerabilityReads(v: Json) {
    v.Obj? && forall j :: ItemAt(Lookup(v.pairs, "via"), j).Some? ==> TitleReads(ItemAt(Lookup(v.pairs, "via"), j).value)
  }

  /** Everything in the report has the shape that iter_vulns needs. */
  ghost predicate Reads(data: Json) {
    && data.Obj?
    && (forall e :: e in PairsAt(data, "advisories") ==> AdvisoryReads(e.1))
    && (forall v :: v in PairsAt(data, "vulnerabilities") ==> VulnerabilityReads(v.1))
  }

  lemma {:induction false} AdvisoriesRead(py: Python, entries: seq<(string, Json)>)
    ensures FromAdvisories(py, entries).Some? <==> forall e :: e in entries ==> AdvisoryReads(e.1)
  {
    if entries != [] {
      AdvisoriesRead(py, entries[..|entries| - 1]);
      var last := entries[|entries| - 1];
      assert FromAdvisory(py, last.1).Some? <==> AdvisoryReads(last.1);
      assert entries == entries[..|entries| - 1] + [last];
    }
  }

  lemma TitleExact(item: Json)
    ensures TitleReads(item) <==> (Truthy(ViaTitle(item)) ==> ViaTitle(item).Str?)
  {
    if item.Obj? {
      var p := item.pairs;
      var a, b, c, d := Lookup(p, "title"), Lookup(p, "url"), Lookup(p, "advisory"), Lookup(p, "source");
      FirstOfTwo(a, b);
      OrExtends([a, b], Or(a, b), c, [a, b, c]);
      OrExtends([a, b, c], Or(Or(a, b), c), d, [a, b, c, d]);
      forall t | FirstTruthy(TitleCandidates(p), t) ensures t == ViaTitle(item) {
        OneFirstTruthy(TitleCandidates(p), t, ViaTitle(item));
      }
    }
  }

  lemma VulnerabilityReadsExact(v: (string, Json))
    ensures FromVulnerability(v).Some? <==> VulnerabilityReads(v.1)
  {
    if v.1.Obj? {
      var via := Lookup(v.1.pairs, "via");
      var items := ViaItems(via);
      forall j | 0 <= j < |items| ensures ItemAt(via, j) == Some(items[j]) {
        ItemAtExact(via, j, items[j]);
      }
      forall j | ItemAt(via, j).Some? ensures 0 <= j < |items| {
        ItemAtExact(via, j, ItemAt(via, j).value);
      }
      forall j | 0 <= j < |items|
        ensures TitleReads(items[j]) <==> (Truthy(ViaTitle(items[j])) ==> ViaTitle(items[j]).Str?)
      {
        TitleExact(items[j]);
      }
    }
  }

  lemma {:induction false} VulnerabilitiesRead(vs: seq<(string, Json)>)
    ensures FromVulnerabilities(vs).Some? <==> forall v :: v in vs ==> VulnerabilityReads(v.1)
  {
    if vs != [] {
      VulnerabilitiesRead(vs[..|vs| - 1]);
      VulnerabilityReadsExact(vs[|vs| - 1]);
      assert vs == vs[..|vs| - 1] + [vs[|vs| - 1]];
    }
  }

  /** iter_vulns raises exactly when the report does not have that shape. */
  lemma ReadableIff(py: Python, data: Json)
    ensures IterVulns(py, data).Some? <==> Reads(data)
  {
    AdvisoriesRead(py, PairsAt(data, "advisories"));
    VulnerabilitiesRead(PairsAt(data, "vulnerabilities"));
  }
}
