/** What a passed audit guarantees, from the text of the report and of the exception list to the verdict. */
module AuditGuarantee {
  import opened Options
  import opened PyText
  import ExceptionParser
  import opened AuditGate
  import opened AuditFindings
  import opened AuditReport

  /** All five fields are there, and none is empty. */
  predicate FilledIn(e: Entry) {
    && "package" in e && e["package"] != "" && "advisory" in e && e["advisory"] != ""
    && "severity" in e && e["severity"] != "" && "mitigation" in e && e["mitigation"] != ""
    && "expires_on" in e && e["expires_on"] != ""
  }

  /** The entry is a complete exception for this package and advisory that has not expired. */
  ghost predicate Excepts(py: Python, e: Entry, package: string, advisory: string, today: int) {
    && FilledIn(e)
    && Strip(e["package"]) == package && py.lower(Strip(e["advisory"])) == advisory
    && py.date(e["expires_on"]).Some? && today <= py.date(e["expires_on"]).value
  }

  lemma CompleteExact(e: Entry)
    ensures Complete(e) <==> FilledIn(e)
  {
    assert REQUIRED[0] == "package" && REQUIRED[1] == "advisory" && REQUIRED[2] == "severity";
    assert REQUIRED[3] == "mitigation" && REQUIRED[4] == "expires_on" && |REQUIRED| == 5;
    if Complete(e) {
      assert Get(e, REQUIRED[0]) != "" && Get(e, REQUIRED[1]) != "" && Get(e, REQUIRED[2]) != "";
      assert Get(e, REQUIRED[3]) != "" && Get(e, REQUIRED[4]) != "";
    }
  }

  /** An entry that lacks one of the five fields, or leaves one empty, is malformed. */
  lemma ItemNeedsFields(py: Python, e: Entry)
    requires ItemOf(py, e).Item?
    ensures var item := ItemOf(py, e);
      FilledIn(e) && py.date(e["expires_on"]) == Some(item.exception.expires)
      && item.key == Key(Strip(e["package"]), py.lower(Strip(e["advisory"])))
      && item.exception.severity == py.lower(Strip(e["severity"]))
  {
    CompleteExact(e);
  }

  /** A passed audit has only complete exceptions. */
  lemma PassedEntriesAreFilledIn(py: Python, exceptions: string, report: Json, today: int)
    requires Passes(py, exceptions, report, today)
    ensures forall e :: e in ExceptionParser.ParseText(exceptions).value ==> FilledIn(e)
  {
    var es := ExceptionParser.ParseText(exceptions).value;
    forall e | e in es ensures FilledIn(e) {
      var i :| 0 <= i < |es| && es[i] == e;
      assert ItemsOf(py, es)[i].Item?;
      ItemNeedsFields(py, e);
    }
  }

  lemma CoveredHasEntry(py: Python, es: seq<Entry>, p: Probe, today: int) returns (e: Entry)
    requires p.Probe? && Covered(ItemsOf(py, es), p, today)
    ensures e in es && Excepts(py, e, p.key.package, p.key.advisory, today)
  {
    var x :| Item(p.key, x) in ItemsOf(py, es) && today <= x.expires;
    var i :| 0 <= i < |es| && ItemsOf(py, es)[i] == Item(p.key, x);
    e := es[i];
    ItemNeedsFields(py, e);
  }

  /** Every relevant finding of a passed audit has its exception. */
  lemma FindingIsExcepted(py: Python, es: seq<Entry>, fs: seq<Finding>, today: int, f: Finding) returns (e: Entry)
    requires Accepts(py, es, fs, today) && f in fs && ProbeOf(py, f).Probe?
    ensures e in es && Excepts(py, e, ProbeOf(py, f).key.package, ProbeOf(py, f).key.advisory, today)
  {
    var k :| 0 <= k < |fs| && fs[k] == f;
    assert ProbesOf(py, fs)[k] == ProbeOf(py, f);
    assert ProbeOf(py, f) in ProbesOf(py, fs);
    e := CoveredHasEntry(py, es, ProbeOf(py, f), today);
  }

  /** A string that normalises to high or critical. */
  ghost predicate IsSevere(py: Python, severity: Json) {
    severity.Str? && (py.lower(Strip(severity.s)) == "high" || py.lower(Strip(severity.s)) == "critical")
  }

  lemma SevereIsProbed(py: Python, f: Finding)
    requires IsSevere(py, f.severity) && Truthy(f.name)
    ensures ProbeOf(py, f).Probe? && ProbeOf(py, f).key == KeyOf(py, f)
  {
  }

  lemma SaysOnce(py: Python, report: Json, o: Origin, f: Finding, g: Finding)
    requires Says(py, report, o, f) && Says(py, report, o, g)
    ensures f == g
  {
    match o
    case OfAdvisory(i) =>
      var a := PairsAt(report, "advisories")[i].1;
      OneFirstTruthy([Lookup(a.pairs, "module_name"), Lookup(a.pairs, "name")], f.name, g.name);
      OneFirstTruthy(AdvisoryCandidates(py, a.pairs), f.advisory, g.advisory);
    case OfItem(i, j) =>
      ItemSaysExact(PairsAt(report, "vulnerabilities")[i], j, f);
      ItemSaysExact(PairsAt(report, "vulnerabilities")[i], j, g);
  }

  lemma ReportedIsFound(py: Python, report: Json, o: Origin, f: Finding)
    requires IterVulns(py, report).Some? && Says(py, report, o, f)
    ensures f in IterVulns(py, report).value
  {
    var fs := IterVulns(py, report).value;
    var at := FindingsExact(py, report);
    var k :| 0 <= k < |at| && at[k] == o;
    SaysOnce(py, report, o, f, fs[k]);
  }

  /** In a passed audit everything the report says of a named package with high or critical severity, in an
      advisory or an identified item of a `via`, has a complete and unexpired exception. */
  lemma PassedIsExcepted(py: Python, exceptions: string, report: Json, today: int, o: Origin, f: Finding)
    returns (e: Entry)
    requires Passes(py, exceptions, report, today) && Says(py, report, o, f)
    requires IsSevere(py, f.severity) && Truthy(f.name)
    ensures e in ExceptionParser.ParseText(exceptions).value
    ensures Excepts(py, e, KeyOf(py, f).package, KeyOf(py, f).advisory, today)
  {
    ReportedIsFound(py, report, o, f);
    SevereIsProbed(py, f);
    e := FindingIsExcepted(py, ExceptionParser.ParseText(exceptions).value, IterVulns(py, report).value, today, f);
  }

  /** In particular for an item that is a string: an exception for this name and this string. */
  lemma PassedStringIsExcepted(py: Python, exceptions: string, report: Json, today: int, i: int, j: int, item: string)
    returns (e: Entry)
    requires Passes(py, exceptions, report, today) && 0 <= i < |PairsAt(report, "vulnerabilities")|
    requires var v := PairsAt(report, "vulnerabilities")[i];
      && v.0 != "" && v.1.Obj? && IsSevere(py, Lookup(v.1.pairs, "severity"))
      && ItemAt(Lookup(v.1.pairs, "via"), j) == Some(Str(item)) && item != ""
    ensures e in ExceptionParser.ParseText(exceptions).value
    ensures Excepts(py, e, Strip(PairsAt(report, "vulnerabilities")[i].0), py.lower(Strip(item)), today)
  {
    var v := PairsAt(report, "vulnerabilities")[i];
    var f := Finding(Str(v.0), Lookup(v.1.pairs, "severity"), Str(item));
    assert Says(py, report, OfItem(i, j), f);
    e := PassedIsExcepted(py, exceptions, report, today, OfItem(i, j), f);
  }

  // ---- the rule, spelled out ----

  function KeyIn(py: Python, e: Entry): Key
    requires FilledIn(e)
  {
    Key(Strip(e["package"]), py.lower(Strip(e["advisory"])))
  }

  /** The entry is complete, has a date, and names something. */
  ghost predicate WellFormed(py: Python, e: Entry) {
    FilledIn(e) && py.date(e["expires_on"]).Some? && KeyIn(py, e).package != "" && KeyIn(py, e).advisory != ""
  }

  lemma WellFormedExact(py: Python, e: Entry)
    ensures ItemOf(py, e).Item? <==> WellFormed(py, e)
    ensures WellFormed(py, e) ==>
      ItemOf(py, e) == Item(KeyIn(py, e), Exception(py.lower(Strip(e["severity"])), py.date(e["expires_on"]).value))
  {
    CompleteExact(e);
  }

  /** A finding that has to be excused: named, and of high or critical severity. */
  ghost predicate Matters(py: Python, f: Finding) {
    IsSevere(py, f.severity) && Truthy(f.name)
  }

  /** The severity is a string, or missing, or falsy; any other value makes the tool raise. */
  predicate SeverityReads(f: Finding) {
    f.severity.Str? || !Truthy(f.severity)
  }

  lemma ProbeExact(py: Python, f: Finding)
    requires py.lower("") == ""
    ensures ProbeOf(py, f).Raised? <==> !SeverityReads(f)
    ensures ProbeOf(py, f).Probe? <==> Matters(py, f)
    ensures Matters(py, f) ==> ProbeOf(py, f) == Probe(KeyOf(py, f), py.lower(Strip(f.severity.s)))
  {
    assert |"high"| == 4 && |"critical"| == 8 && Strip("") == "";
  }

  /** No earlier finding that matters has its key. */
  ghost predicate ComesFirst(py: Python, fs: seq<Finding>, k: int)
    requires 0 <= k < |fs|
  {
    Matters(py, fs[k]) && forall i :: 0 <= i < k && Matters(py, fs[i]) ==> KeyOf(py, fs[i]) != KeyOf(py, fs[k])
  }

  /** The recorded severity is blank or that of the finding. */
  ghost predicate SameSeverity(py: Python, e: Entry, f: Finding)
    requires FilledIn(e) && f.severity.Str?
  {
    py.lower(Strip(e["severity"])) == "" || py.lower(Strip(e["severity"])) == py.lower(Strip(f.severity.s))
  }

  /** Well-formed exceptions with distinct keys. */
  ghost predicate ExceptionsRuled(py: Python, es: seq<Entry>) {
    && (forall i :: 0 <= i < |es| ==> WellFormed(py, es[i]))
    && (forall i, j :: 0 <= i < j < |es| && FilledIn(es[i]) && FilledIn(es[j]) ==> KeyIn(py, es[i]) != KeyIn(py, es[j]))
  }

  /** Every finding that matters is identified and excepted, and the first with its key has the recorded
      severity. */
  ghost predicate FindingsRuled(py: Python, es: seq<Entry>, fs: seq<Finding>, today: int) {
    && (forall f :: f in fs ==> SeverityReads(f))
    && (forall f :: f in fs && Matters(py, f) ==>
          && KeyOf(py, f).advisory != ""
          && exists e :: e in es && Excepts(py, e, KeyOf(py, f).package, KeyOf(py, f).advisory, today))
    && (forall k, e :: 0 <= k < |fs| && ComesFirst(py, fs, k) && e in es && FilledIn(e) && KeyIn(py, e) == KeyOf(py, fs[k]) ==>
          SameSeverity(py, e, fs[k]))
  }

  lemma ExceptionsExact(py: Python, es: seq<Entry>)
    ensures Sound(ItemsOf(py, es)) <==> ExceptionsRuled(py, es)
  {
    forall i | 0 <= i < |es|
      ensures ItemsOf(py, es)[i].Item? <==> WellFormed(py, es[i])
      ensures WellFormed(py, es[i]) ==> ItemsOf(py, es)[i].Item? && ItemsOf(py, es)[i].key == KeyIn(py, es[i])
    {
      WellFormedExact(py, es[i]);
    }
  }

  lemma FirstExact(py: Python, fs: seq<Finding>, k: nat)
    requires py.lower("") == "" && k < |fs|
    ensures IsFirst(ProbesOf(py, fs), k) <==> ComesFirst(py, fs, k)
  {
    var ps := ProbesOf(py, fs);
    forall i | 0 <= i < |fs|
      ensures ps[i].Probe? <==> Matters(py, fs[i])
      ensures Matters(py, fs[i]) ==> ps[i].Probe? && ps[i].key == KeyOf(py, fs[i])
    {
      ProbeExact(py, fs[i]);
    }
  }

  lemma CoveredExact(py: Python, es: seq<Entry>, f: Finding, today: int)
    requires py.lower("") == "" && Matters(py, f) && ExceptionsRuled(py, es)
    ensures ProbeOf(py, f).Probe?
    ensures Covered(ItemsOf(py, es), ProbeOf(py, f), today) <==>
      exists e :: e in es && Excepts(py, e, KeyOf(py, f).package, KeyOf(py, f).advisory, today)
  {
    ProbeExact(py, f);
    var p, items := ProbeOf(py, f), ItemsOf(py, es);
    if Covered(items, p, today) {
      var e := CoveredHasEntry(py, es, p, today);
    }
    if e :| e in es && Excepts(py, e, KeyOf(py, f).package, KeyOf(py, f).advisory, today) {
      var i :| 0 <= i < |es| && es[i] == e;
      WellFormedExact(py, e);
      assert items[i] == Item(p.key, Exception(py.lower(Strip(e["severity"])), py.date(e["expires_on"]).value));
      assert items[i] in items;
    }
  }

  lemma SeverityExact(py: Python, es: seq<Entry>, f: Finding)
    requires py.lower("") == "" && Matters(py, f) && ExceptionsRuled(py, es)
    ensures ProbeOf(py, f).Probe?
    ensures SeverityAgrees(ItemsOf(py, es), ProbeOf(py, f)) <==>
      forall e :: e in es && FilledIn(e) && KeyIn(py, e) == KeyOf(py, f) ==> SameSeverity(py, e, f)
  {
    ProbeExact(py, f);
    var p, items := ProbeOf(py, f), ItemsOf(py, es);
    if SeverityAgrees(items, p) {
      forall e | e in es && FilledIn(e) && KeyIn(py, e) == KeyOf(py, f) ensures SameSeverity(py, e, f) {
        var i :| 0 <= i < |es| && es[i] == e;
        WellFormedExact(py, e);
        assert items[i] in items;
      }
    }
    if forall e :: e in es && FilledIn(e) && KeyIn(py, e) == KeyOf(py, f) ==> SameSeverity(py, e, f) {
      forall x | Item(p.key, x) in items ensures x.severity == "" || x.severity == p.severity {
        var i :| 0 <= i < |es| && items[i] == Item(p.key, x);
        WellFormedExact(py, es[i]);
        assert es[i] in es;
      }
    }
  }

  /** The gate accepts exactly when the exceptions are well formed with distinct keys and every finding meets
      the rule. */
  lemma AcceptsExact(py: Python, es: seq<Entry>, fs: seq<Finding>, today: int)
    requires py.lower("") == ""
    ensures Accepts(py, es, fs, today) <==> ExceptionsRuled(py, es) && FindingsRuled(py, es, fs, today)
  {
    ExceptionsExact(py, es);
    if ExceptionsRuled(py, es) {
      FindingsExactly(py, es, fs, today);
    }
  }

  lemma FindingsExactly(py: Python, es: seq<Entry>, fs: seq<Finding>, today: int)
    requires py.lower("") == "" && ExceptionsRuled(py, es) && Sound(ItemsOf(py, es))
    ensures Accepts(py, es, fs, today) <==> FindingsRuled(py, es, fs, today)
  {
    var ps, items := ProbesOf(py, fs), ItemsOf(py, es);
    forall k | 0 <= k < |fs|
      ensures ps[k].Raised? <==> !SeverityReads(fs[k])
      ensures ps[k].Probe? <==> Matters(py, fs[k])
      ensures IsFirst(ps, k) <==> ComesFirst(py, fs, k)
      ensures Matters(py, fs[k]) ==> ps[k].Probe? && ps[k].key == KeyOf(py, fs[k])
      ensures Matters(py, fs[k]) ==> (Covered(items, ps[k], today) <==>
        exists e :: e in es && Excepts(py, e, KeyOf(py, fs[k]).package, KeyOf(py, fs[k]).advisory, today))
      ensures Matters(py, fs[k]) ==> (SeverityAgrees(items, ps[k]) <==>
        forall e :: e in es && FilledIn(e) && KeyIn(py, e) == KeyOf(py, fs[k]) ==> SameSeverity(py, e, fs[k]))
    {
      ProbeExact(py, fs[k]);
      FirstExact(py, fs, k);
      if Matters(py, fs[k]) {
        CoveredExact(py, es, fs[k], today);
        SeverityExact(py, es, fs[k]);
      }
    }
  }
}
