/** iter_vulns: the findings in either of the two shapes of a pnpm audit report. */
module AuditFindings {
  import opened Options
  import PyText
  import ExceptionParser
  import opened AuditGate

  /** dict.get(k), with None for a missing key. */
  function Lookup(pairs: seq<(string, Json)>, k: string): Json {
    if pairs == [] then Null
    else if pairs[|pairs| - 1].0 == k then pairs[|pairs| - 1].1
    else Lookup(pairs[..|pairs| - 1], k)
  }

  /** Python's `a or b`. */
  function Or(a: Json, b: Json): Json {
    if Truthy(a) then a else b
  }

  /** (cves or [None])[0]; None where indexing raises. */
  function FirstCve(cves: Json): Option<Json> {
    if !Truthy(cves) then Some(Null) else
      match cves
      case Arr(items) => Some(items[0])
      case Str(s) => Some(Str(s[..1]))
      case _ => None
  }

  /** pick_advisory_id; None where it raises. */
  function PickAdvisoryId(py: Python, a: seq<(string, Json)>): Option<Json> {
    var stable := Or(Lookup(a, "github_advisory_id"), Lookup(a, "url"));
    if Truthy(stable) then Some(stable) else
      var cve := FirstCve(Lookup(a, "cves"));
      if cve.None? then None
      else if Truthy(cve.value) then cve
      else
        var id := Lookup(a, "id");
        var shown := match id case Null => Null case Str(s) => Str(s) case _ => Str(py.str(id));
        Some(Or(Or(Or(shown, Lookup(a, "title")), Lookup(a, "advisory")), Lookup(a, "overview")))
  }

  /** One value of `advisories`; None where a method of a non-dict is called. */
  function FromAdvisory(py: Python, a: Json): Option<Finding> {
    if !a.Obj? then None else
      var id := PickAdvisoryId(py, a.pairs);
      if id.None? then None
      else Some(Finding(Or(Lookup(a.pairs, "module_name"), Lookup(a.pairs, "name")), Lookup(a.pairs, "severity"), id.value))
  }

  /** One generator after the other; a raise in either ends both. */
  function Join(a: Option<seq<Finding>>, b: Option<seq<Finding>>): Option<seq<Finding>> {
    if a.None? || b.None? then None else Some(a.value + b.value)
  }

  function FromAdvisories(py: Python, entries: seq<(string, Json)>): Option<seq<Finding>> {
    if entries == [] then Some([]) else
      var last := FromAdvisory(py, entries[|entries| - 1].1);
      Join(FromAdvisories(py, entries[..|entries| - 1]), if last.None? then None else Some([last.value]))
  }

  function ViaId(item: Json): Json {
    match item
    case Obj(p) =>
      Or(Or(Or(Or(Lookup(p, "github_advisory_id"), Lookup(p, "url")), Lookup(p, "source")), Lookup(p, "title")), Lookup(p, "name"))
    case Str(_) => item
    case _ => Null
  }

  function ViaTitle(item: Json): Json {
    match item
    case Obj(p) => Or(Or(Or(Lookup(p, "title"), Lookup(p, "url")), Lookup(p, "advisory")), Lookup(p, "source"))
    case Str(_) => item
    case _ => Null
  }

  /** The items of `via`: a list, a single string, or nothing usable. */
  function ViaItems(via: Json): seq<Json> {
    match via
    case Arr(items) => items
    case Str(_) => [via]
    case _ => []
  }

  /** "; ".join over the truthy titles raises on one that is not a string. */
  predicate TitlesJoin(items: seq<Json>) {
    forall i :: 0 <= i < |items| && Truthy(ViaTitle(items[i])) ==> ViaTitle(items[i]).Str?
  }

  function Identified(items: seq<Json>): seq<Json> {
    if items == [] then [] else
      var init := Identified(items[..|items| - 1]);
      var id := ViaId(items[|items| - 1]);
      if Truthy(id) then init + [id] else init
  }

  /** The loop over one vulnerability's `via`. */
  method CollectVia(via: Json) returns (ids: seq<Json>, joins: bool)
    ensures ids == Identified(ViaItems(via)) && joins == TitlesJoin(ViaItems(via))
  {
    var items := ViaItems(via);
    ids, joins := [], true;
    for i := 0 to |items|
      invariant ids == Identified(items[..i])
      invariant joins <==> TitlesJoin(items[..i])
    {
      assert items[..i + 1][..i] == items[..i] && items[..i + 1][i] == items[i];
      assert forall j :: 0 <= j < i ==> items[..i + 1][j] == items[..i][j];
      var id, title := ViaId(items[i]), ViaTitle(items[i]);
      if Truthy(id) { ids := ids + [id]; }
      if Truthy(title) && !title.Str? { joins := false; }
    }
    assert items[..|items|] == items;
  }

  function Named(name: string, severity: Json, ids: seq<Json>): (fs: seq<Finding>)
    ensures |fs| == |ids|
  {
    seq(|ids|, i requires 0 <= i < |ids| => Finding(Str(name), severity, ids[i]))
  }

  function FromVulnerability(v: (string, Json)): Option<seq<Finding>> {
    if !v.1.Obj? then None else
      var via := Lookup(v.1.pairs, "via");
      var items := ViaItems(via);
      if !TitlesJoin(items) then None else Some(Named(v.0, Lookup(v.1.pairs, "severity"), Identified(items)))
  }

  function FromVulnerabilities(vs: seq<(string, Json)>): Option<seq<Finding>> {
    if vs == [] then Some([]) else Join(FromVulnerabilities(vs[..|vs| - 1]), FromVulnerability(vs[|vs| - 1]))
  }

  /** iter_vulns as a whole; None where it raises. */
  function IterVulns(py: Python, data: Json): Option<seq<Finding>> {
    if !data.Obj? then None else
      var a, v := Lookup(data.pairs, "advisories"), Lookup(data.pairs, "vulnerabilities");
      var first := if a.Obj? then FromAdvisories(py, a.pairs) else Some([]);
      var second := if v.Obj? then FromVulnerabilities(v.pairs) else Some([]);
      Join(first, second)
  }

  // ---- what is reported and what is not ----

  /** No item has an identifier. */
  predicate Anonymous(items: seq<Json>) {
    forall i :: 0 <= i < |items| ==> !Truthy(ViaId(items[i]))
  }

  lemma {:induction false} IdentifiedExact(items: seq<Json>)
    ensures Identified(items) == [] <==> Anonymous(items)
  {
    if items != [] {
      IdentifiedExact(items[..|items| - 1]);
    }
  }

  lemma JoinAssociates(a: Option<seq<Finding>>, b: Option<seq<Finding>>, c: Option<seq<Finding>>)
    ensures Join(Join(a, b), c) == Join(a, Join(b, c))
    ensures Join(a, Some([])) == a && Join(Some([]), a) == a
  {
    if a.Some? {
      assert a.value + [] == a.value && [] + a.value == a.value;
      if b.Some? && c.Some? {
        assert a.value + b.value + c.value == a.value + (b.value + c.value);
      }
    }
  }

  lemma {:induction false} FromVulnerabilitiesConcat(a: seq<(string, Json)>, b: seq<(string, Json)>)
    ensures FromVulnerabilities(a + b) == Join(FromVulnerabilities(a), FromVulnerabilities(b))
  {
    if b == [] {
      assert a + b == a;
      JoinAssociates(FromVulnerabilities(a), None, None);
    } else {
      var init, last := b[..|b| - 1], b[|b| - 1];
      assert (a + b)[..|a + b| - 1] == a + init && (a + b)[|a + b| - 1] == last;
      FromVulnerabilitiesConcat(a, init);
      JoinAssociates(FromVulnerabilities(a), FromVulnerabilities(init), FromVulnerability(last));
    }
  }

  /** A vulnerability reaches the gate if and only if some item of its `via` has an identifier; one
      without is dropped, whatever its severity, and the rest of the report reads the same. */
  lemma UnidentifiedIsDropped(a: seq<(string, Json)>, v: (string, Json), b: seq<(string, Json)>)
    requires FromVulnerability(v).Some?
    ensures FromVulnerability(v).value == [] <==> Anonymous(ViaItems(Lookup(v.1.pairs, "via")))
    ensures FromVulnerability(v).value == [] ==> FromVulnerabilities(a + [v] + b) == FromVulnerabilities(a + b)
  {
    IdentifiedExact(ViaItems(Lookup(v.1.pairs, "via")));
    FromVulnerabilitiesConcat(a, [v]);
    FromVulnerabilitiesConcat(a + [v], b);
    FromVulnerabilitiesConcat(a, b);
    assert [v][..0] == [] && FromVulnerabilities([v]) == Join(Some([]), FromVulnerability(v));
    JoinAssociates(FromVulnerability(v), None, None);
    JoinAssociates(FromVulnerabilities(a), None, None);
  }

  // ---- the loops ----

  lemma {:induction false} AdvisoryFailureStays(py: Python, entries: seq<(string, Json)>, i: nat)
    requires i <= |entries| && FromAdvisories(py, entries[..i]).None?
    ensures FromAdvisories(py, entries).None?
  {
    if i == |entries| {
      assert entries[..i] == entries;
    } else {
      assert entries[..|entries| - 1][..i] == entries[..i];
      AdvisoryFailureStays(py, entries[..|entries| - 1], i);
    }
  }

  method CollectAdvisories(py: Python, entries: seq<(string, Json)>) returns (r: Option<seq<Finding>>)
    ensures r == FromAdvisories(py, entries)
  {
    var findings: seq<Finding> := [];
    for i := 0 to |entries|
      invariant FromAdvisories(py, entries[..i]) == Some(findings)
    {
      assert entries[..i + 1][..i] == entries[..i];
      var finding := FromAdvisory(py, entries[i].1);
      if finding.None? {
        AdvisoryFailureStays(py, entries, i + 1);
        return None;
      }
      findings := findings + [finding.value];
    }
    assert entries[..|entries|] == entries;
    return Some(findings);
  }

  lemma VulnerabilityFailureStays(vs: seq<(string, Json)>, i: nat)
    requires i <= |vs| && FromVulnerabilities(vs[..i]).None?
    ensures FromVulnerabilities(vs).None?
  {
    FromVulnerabilitiesConcat(vs[..i], vs[i..]);
    assert vs == vs[..i] + vs[i..];
  }

  method CollectVulnerabilities(vs: seq<(string, Json)>) returns (r: Option<seq<Finding>>)
    ensures r == FromVulnerabilities(vs)
  {
    var findings: seq<Finding> := [];
    for i := 0 to |vs|
      invariant FromVulnerabilities(vs[..i]) == Some(findings)
    {
      assert vs[..i + 1][..i] == vs[..i];
      var more := CollectVulnerability(vs[i]);
      if more.None? {
        VulnerabilityFailureStays(vs, i + 1);
        return None;
      }
      findings := findings + more.value;
    }
    assert vs[..|vs|] == vs;
    return Some(findings);
  }

  method CollectVulnerability(v: (string, Json)) returns (r: Option<seq<Finding>>)
    ensures r == FromVulnerability(v)
  {
    if !v.1.Obj? { return None; }
    var ids, joins := CollectVia(Lookup(v.1.pairs, "via"));
    if !joins { return None; }
    return Some(Named(v.0, Lookup(v.1.pairs, "severity"), ids));
  }

  /** iter_vulns, run to its end. */
  method Collect(py: Python, data: Json) returns (r: Option<seq<Finding>>)
    ensures r == IterVulns(py, data)
  {
    if !data.Obj? { return None; }
    var a, v := Lookup(data.pairs, "advisories"), Lookup(data.pairs, "vulnerabilities");
    var first, second := Some([]), Some([]);
    if a.Obj? { first := CollectAdvisories(py, a.pairs); }
    if v.Obj? { second := CollectVulnerabilities(v.pairs); }
    return Join(first, second);
  }

  /** The exception list parses, the report is readable, and the rule accepts. */
  ghost predicate Passes(py: Python, exceptions: string, report: Json, today: int) {
    && ExceptionParser.ParseText(exceptions).Some? && IterVulns(py, report).Some?
    && Accepts(py, ExceptionParser.ParseText(exceptions).value, IterVulns(py, report).value, today)
  }

  /** main as a whole: parse the exception list, read the report, decide. */
  method CheckAudit(py: Python, exceptions: string, report: Json, today: int) returns (status: int)
    ensures status == 0 || status == 1
    ensures status == 0 <==> Passes(py, exceptions, report, today)
  {
    var entries := ExceptionParser.ParseExceptions(PyText.ReadLines(exceptions));
    if entries.None? { return 1; }
    var findings := Collect(py, report);
    if findings.None? { return 1; }
    status := Gate(py, entries.value, findings.value, today);
  }

  // ---- a report that passes ----

  lemma {:induction false} AllAnonymous(vs: seq<(string, Json)>)
    requires forall v :: v in vs ==> FromVulnerability(v) == Some([])
    ensures FromVulnerabilities(vs) == Some([])
  {
    if vs != [] {
      assert vs[|vs| - 1] in vs;
      AllAnonymous(vs[..|vs| - 1]);
      JoinAssociates(Some([]), None, None);
    }
  }

  /** A report whose vulnerabilities have no identifier passes without any exception, on every day and
      whatever their severities. */
  lemma AnonymousReportPasses(py: Python, vs: seq<(string, Json)>, today: int)
    requires forall v :: v in vs ==> FromVulnerability(v) == Some([])
    ensures Passes(py, "", Obj([("vulnerabilities", Obj(vs))]), today)
  {
    AllAnonymous(vs);
    var pairs := [("vulnerabilities", Obj(vs))];
    assert "vulnerabilities" != "advisories" by {
      assert "vulnerabilities"[0] != "advisories"[0];
    }
    assert Lookup(pairs, "vulnerabilities") == Obj(vs);
    assert pairs[..0] == [] && Lookup(pairs, "advisories") == Null;
    assert PyText.ReadLines("") == [];
    assert ExceptionParser.ParseText("") == Some([]);
  }

  /** For instance one vulnerability of high severity with an empty `via`. */
  lemma HighVulnerabilityPasses(py: Python, today: int)
    ensures var v := ("left-pad", Obj([("severity", Str("high")), ("via", Arr([]))]));
      Passes(py, "", Obj([("vulnerabilities", Obj([v]))]), today)
  {
    var v := ("left-pad", Obj([("severity", Str("high")), ("via", Arr([]))]));
    assert Lookup(v.1.pairs, "via") == Arr([]);
    assert FromVulnerability(v) == Some([]);
    AnonymousReportPasses(py, [v], today);
  }
}
