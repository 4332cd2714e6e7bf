/** Exactly when the order of the findings cannot change the verdict of the audit gate. */
module AuditOrder {
  import opened Options
  import opened PyText
  import opened AuditGate

  /** Every order of these findings gets the same verdict, for every exception list, on every day. */
  ghost predicate OrderInvariant(py: Python, fs: seq<Finding>) {
    forall es, gs, today :: multiset(gs) == multiset(fs) ==> (Accepts(py, es, gs, today) <==> Accepts(py, es, fs, today))
  }

  /** A date that an exception can carry. */
  ghost predicate Dated(py: Python, date: string) {
    date != "" && py.date(date).Some?
  }

  /** No exception list excuses the finding: it raises, its name or identifier is blank, or no expiry date
      can be written. */
  ghost predicate Unexcusable(py: Python, p: Probe) {
    p.Raised? || (p.Probe? && (p.key.package == "" || p.key.advisory == "" || forall date :: !Dated(py, date)))
  }

  ghost predicate Hopeless(py: Python, fs: seq<Finding>) {
    exists p :: p in ProbesOf(py, fs) && Unexcusable(py, p)
  }

  lemma SameMembers(fs: seq<Finding>, gs: seq<Finding>)
    requires multiset(gs) == multiset(fs)
    ensures forall f :: f in fs <==> f in gs
  {
    assert forall f :: f in fs <==> f in multiset(fs);
    assert forall f :: f in gs <==> f in multiset(gs);
  }

  /** The order is irrelevant if and only if findings that share a key share a severity, or some finding
      is one that no exception list excuses. */
  lemma OrderInvariantIff(py: Python, fs: seq<Finding>)
    ensures OrderInvariant(py, fs) <==> Consistent(ProbesOf(py, fs)) || Hopeless(py, fs)
  {
    if Consistent(ProbesOf(py, fs)) || Hopeless(py, fs) {
      forall es, gs, today | multiset(gs) == multiset(fs)
        ensures Accepts(py, es, gs, today) <==> Accepts(py, es, fs, today)
      {
        SameMembers(fs, gs);
        if Hopeless(py, fs) {
          ProbesOfSame(py, gs, fs);
          HopelessIsRejected(py, es, fs, today);
          HopelessIsRejected(py, es, gs, today);
        } else {
          OrderDoesNotMatter(py, es, fs, gs, today);
        }
      }
    } else {
      Distinguishes(py, fs);
    }
  }

  /** The key of an exception has no blank part, and its date can be written. */
  lemma ItemsAreNamed(py: Python, es: seq<Entry>, k: Key, x: Exception)
    requires Item(k, x) in ItemsOf(py, es)
    ensures k.package != "" && k.advisory != "" && exists date :: Dated(py, date)
  {
    var i :| 0 <= i < |es| && ItemsOf(py, es)[i] == Item(k, x);
    assert ItemOf(py, es[i]) == Item(k, x);
    assert REQUIRED[4] == "expires_on";
    assert Dated(py, Get(es[i], "expires_on"));
  }

  lemma AcceptedIsExcusable(py: Python, es: seq<Entry>, fs: seq<Finding>, today: int, p: Probe)
    requires Accepts(py, es, fs, today) && p in ProbesOf(py, fs)
    ensures !Unexcusable(py, p)
  {
    if p.Probe? {
      var x :| Item(p.key, x) in ItemsOf(py, es) && today <= x.expires;
      ItemsAreNamed(py, es, p.key, x);
    }
  }

  lemma HopelessIsRejected(py: Python, es: seq<Entry>, fs: seq<Finding>, today: int)
    requires Hopeless(py, fs)
    ensures !Accepts(py, es, fs, today)
  {
    var p :| p in ProbesOf(py, fs) && Unexcusable(py, p);
    if Accepts(py, es, fs, today) {
      AcceptedIsExcusable(py, es, fs, today, p);
    }
  }

  // ---- exceptions that tell orders apart ----

  /** One exception per key, for the first of the first n findings that has it. */
  ghost function FirstItems(ps: seq<Probe>, n: nat, day: int): seq<Item>
    requires n <= |ps|
  {
    if n == 0 then []
    else if IsFirst(ps, n - 1) then FirstItems(ps, n - 1, day) + [Item(ps[n - 1].key, Exception(ps[n - 1].severity, day))]
    else FirstItems(ps, n - 1, day)
  }

  lemma {:induction false} FirstItemsExact(ps: seq<Probe>, n: nat, day: int)
    requires n <= |ps|
    ensures Sound(FirstItems(ps, n, day))
    ensures forall it :: it in FirstItems(ps, n, day) ==>
      it.Item? && exists j :: 0 <= j < n && IsFirst(ps, j) && it == Item(ps[j].key, Exception(ps[j].severity, day))
    ensures forall j :: 0 <= j < n && IsFirst(ps, j) ==> Item(ps[j].key, Exception(ps[j].severity, day)) in FirstItems(ps, n, day)
  {
    if n > 0 {
      FirstItemsExact(ps, n - 1, day);
      var init := FirstItems(ps, n - 1, day);
      if IsFirst(ps, n - 1) {
        assert forall i :: 0 <= i < |init| ==> init[i] in init;
      }
    }
  }

  lemma FirstItemsAccept(ps: seq<Probe>, day: int)
    requires Raised !in ps && forall p :: p in ps && p.Probe? ==> p.key.advisory != ""
    ensures Rule(FirstItems(ps, |ps|, day), ps, day)
  {
    var items := FirstItems(ps, |ps|, day);
    FirstItemsExact(ps, |ps|, day);
    forall p | p in ps && p.Probe? ensures Covered(items, p, day) {
      var i :| 0 <= i < |ps| && ps[i] == p;
      var j := FirstWithKey(ps, i);
      assert Item(p.key, Exception(ps[j].severity, day)) in items;
    }
    forall i | 0 <= i < |ps| && IsFirst(ps, i) ensures SeverityAgrees(items, ps[i]) {
      forall x | Item(ps[i].key, x) in items ensures x.severity == ps[i].severity {
        var j :| 0 <= j < |ps| && IsFirst(ps, j) && Item(ps[i].key, x) == Item(ps[j].key, Exception(ps[j].severity, day));
        assert j == i;
      }
    }
  }

  lemma FirstItemsReject(ps: seq<Probe>, qs: seq<Probe>, day: int)
    requires |ps| > 0 && |qs| > 0 && ps[0].Probe? && qs[0].Probe?
    requires ps[0].key == qs[0].key && ps[0].severity != "" && ps[0].severity != qs[0].severity
    ensures !Rule(FirstItems(ps, |ps|, day), qs, day)
  {
    FirstItemsExact(ps, |ps|, day);
    assert IsFirst(ps, 0) && IsFirst(qs, 0);
    assert Item(ps[0].key, Exception(ps[0].severity, day)) in FirstItems(ps, |ps|, day);
  }

  // ---- writing them down ----

  function NonEmpty(s: string): string {
    if s == "" then " " else s
  }

  lemma NonEmptyStrips(s: string)
    ensures Strip(NonEmpty(s)) == Strip(s)
  {
    if s == "" {
      assert " "[1..] == "" && TrimLeft(" ") == "";
    }
  }

  function TextOf(py: Python, j: Json): string {
    if j.Str? then j.s else py.str(j)
  }

  /** The entry that excuses a finding until the given date. */
  function Excuse(py: Python, f: Finding, date: string): Entry {
    map["package" := Package(py, f.name),
        "advisory" := NonEmpty(TextOf(py, f.advisory)),
        "severity" := NonEmpty(if f.severity.Str? then f.severity.s else ""),
        "mitigation" := "m",
        "expires_on" := date]
  }

  lemma ExcuseFields(py: Python, f: Finding, date: string)
    ensures var e := Excuse(py, f, date);
      && Get(e, "package") == Package(py, f.name)
      && Get(e, "advisory") == NonEmpty(TextOf(py, f.advisory))
      && Get(e, "severity") == NonEmpty(if f.severity.Str? then f.severity.s else "")
      && Get(e, "mitigation") == "m" && Get(e, "expires_on") == date
  {
    assert "advisory"[0] != "severity"[0] && "mitigation"[0] != "expires_on"[0];
    assert |"package"| == 7 && |"advisory"| == 8 && |"severity"| == 8 && |"mitigation"| == 10 && |"expires_on"| == 10;
  }

  lemma ExcuseExcuses(py: Python, f: Finding, date: string)
    requires Dated(py, date) && ProbeOf(py, f).Probe? && !Unexcusable(py, ProbeOf(py, f))
    ensures var p := ProbeOf(py, f);
      ItemOf(py, Excuse(py, f, date)) == Item(p.key, Exception(p.severity, py.date(date).value))
  {
    var e := Excuse(py, f, date);
    ExcuseFields(py, f, date);
    StripTrims(if f.name.Str? then f.name.s else py.str(f.name));
    StripKeeps(Package(py, f.name));
    NonEmptyStrips(TextOf(py, f.advisory));
    NonEmptyStrips(if f.severity.Str? then f.severity.s else "");
    assert Complete(e);
  }

  ghost function Excuses(py: Python, fs: seq<Finding>, n: nat, date: string): seq<Entry>
    requires n <= |fs|
  {
    if n == 0 then []
    else if IsFirst(ProbesOf(py, fs), n - 1) then Excuses(py, fs, n - 1, date) + [Excuse(py, fs[n - 1], date)]
    else Excuses(py, fs, n - 1, date)
  }

  lemma ItemsOfAppend(py: Python, es: seq<Entry>, e: Entry)
    ensures ItemsOf(py, es + [e]) == ItemsOf(py, es) + [ItemOf(py, e)]
  {
  }

  lemma ExcusableAt(py: Python, fs: seq<Finding>, i: nat)
    requires !Hopeless(py, fs) && i < |fs|
    ensures !Unexcusable(py, ProbeOf(py, fs[i])) && ProbesOf(py, fs)[i] == ProbeOf(py, fs[i])
  {
    assert ProbesOf(py, fs)[i] in ProbesOf(py, fs);
  }

  lemma {:induction false} ExcusesAreFirstItems(py: Python, fs: seq<Finding>, n: nat, date: string)
    requires n <= |fs| && Dated(py, date) && !Hopeless(py, fs)
    ensures ItemsOf(py, Excuses(py, fs, n, date)) == FirstItems(ProbesOf(py, fs), n, py.date(date).value)
  {
    if n > 0 {
      ExcusesAreFirstItems(py, fs, n - 1, date);
      if IsFirst(ProbesOf(py, fs), n - 1) {
        ExcusableAt(py, fs, n - 1);
        ExcuseExcuses(py, fs[n - 1], date);
        ItemsOfAppend(py, Excuses(py, fs, n - 1, date), Excuse(py, fs[n - 1], date));
      }
    }
  }

  /** Two findings that share a key but not a severity. */
  ghost predicate Disagree(py: Python, f: Finding, g: Finding) {
    var p, q := ProbeOf(py, f), ProbeOf(py, g);
    p.Probe? && q.Probe? && p.key == q.key && p.severity != q.severity
  }

  lemma ExcusesAccept(py: Python, fs: seq<Finding>, date: string)
    requires !Hopeless(py, fs) && Dated(py, date)
    ensures Accepts(py, Excuses(py, fs, |fs|, date), fs, py.date(date).value)
  {
    ExcusesAreFirstItems(py, fs, |fs|, date);
    FirstItemsAccept(ProbesOf(py, fs), py.date(date).value);
  }

  lemma ExcusesReject(py: Python, fs: seq<Finding>, gs: seq<Finding>, date: string)
    requires !Hopeless(py, fs) && Dated(py, date) && |fs| > 0 && |gs| > 0 && Disagree(py, fs[0], gs[0])
    ensures !Accepts(py, Excuses(py, fs, |fs|, date), gs, py.date(date).value)
  {
    ExcusesAreFirstItems(py, fs, |fs|, date);
    var ps, qs, day := ProbesOf(py, fs), ProbesOf(py, gs), py.date(date).value;
    assert ps[0] == ProbeOf(py, fs[0]) && qs[0] == ProbeOf(py, gs[0]);
    ProbeHasSeverity(py, fs[0]);
    FirstItemsReject(ps, qs, day);
    assert !Rule(ItemsOf(py, Excuses(py, fs, |fs|, date)), qs, day);
  }

  lemma ProbeHasSeverity(py: Python, f: Finding)
    requires ProbeOf(py, f).Probe?
    ensures ProbeOf(py, f).severity != ""
  {
    assert |"high"| == 4 && |"critical"| == 8;
  }

  /** The same findings with f moved to the front. */
  lemma Fronted(fs: seq<Finding>, f: Finding) returns (gs: seq<Finding>)
    requires f in fs
    ensures multiset(gs) == multiset(fs) && |gs| > 0 && gs[0] == f
  {
    var i :| 0 <= i < |fs| && fs[i] == f;
    gs := [f] + fs[..i] + fs[i + 1..];
    assert fs == fs[..i] + [f] + fs[i + 1..];
  }

  lemma Distinguishes(py: Python, fs: seq<Finding>)
    requires !Consistent(ProbesOf(py, fs)) && !Hopeless(py, fs)
    ensures !OrderInvariant(py, fs)
  {
    var ps := ProbesOf(py, fs);
    var i, j :| 0 <= i < |ps| && 0 <= j < |ps| && Disagree(py, fs[i], fs[j]);
    assert ps[i] in ps && !Unexcusable(py, ps[i]);
    var date :| Dated(py, date);
    var good := Fronted(fs, fs[i]);
    var bad := Fronted(fs, fs[j]);
    SameMembers(fs, good);
    ProbesOfSame(py, fs, good);
    ExcusesAccept(py, good, date);
    ExcusesReject(py, good, bad, date);
    assert multiset(good) == multiset(fs) && multiset(bad) == multiset(fs);
  }

  /** A report on which the order matters: only a key's first finding is compared with the recorded
      severity. */
  lemma OrderCanMatter(py: Python, day: int)
    requires py.lower("high") == "high" && py.lower("critical") == "critical" && py.lower("GHSA-1") == "ghsa-1"
    requires py.date("2030-01-01") == Some(day)
    ensures var high := Finding(Str("left-pad"), Str("high"), Str("GHSA-1"));
      var critical := high.(severity := Str("critical"));
      var es := [Excuse(py, high, "2030-01-01")];
      Accepts(py, es, [high, critical], day) && !Accepts(py, es, [critical, high], day)
  {
    var high := Finding(Str("left-pad"), Str("high"), Str("GHSA-1"));
    var critical := high.(severity := Str("critical"));
    StripKeeps("left-pad");
    StripKeeps("high");
    StripKeeps("critical");
    StripKeeps("GHSA-1");
    assert ProbeOf(py, high) == Probe(Key("left-pad", "ghsa-1"), "high");
    assert ProbeOf(py, critical) == Probe(Key("left-pad", "ghsa-1"), "critical");
    var fs := [high, critical];
    var ps := ProbesOf(py, fs);
    assert ps == [ProbeOf(py, high), ProbeOf(py, critical)];
    assert Dated(py, "2030-01-01");
    assert IsFirst(ps, 0) && ps[0].key == ps[1].key && !IsFirst(ps, 1);
    assert Excuses(py, fs, 1, "2030-01-01") == [Excuse(py, high, "2030-01-01")];
    assert Excuses(py, fs, 2, "2030-01-01") == [Excuse(py, high, "2030-01-01")];
    ExcusesAccept(py, fs, "2030-01-01");
    ExcusesReject(py, fs, [critical, high], "2030-01-01");
  }
}
