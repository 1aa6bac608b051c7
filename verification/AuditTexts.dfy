/** The decision of the audit gate on the texts of the exception list and of the report: which texts
    make it return 0, and which differences between texts it does not see. */
module AuditTexts {
  import opened Schema
  import opened AuditParser
  import opened AuditGate

  // ---------------------------------------------------------------- the condition, on texts

  /** The texts of one record of the report. */
  datatype Texts = Texts(name: string, severity: string, advisory: string)

  /** The report has these texts, with any titles. */
  ghost predicate Carries(vs: seq<Vuln>, ts: seq<Texts>) {
    && |vs| == |ts|
    && forall i | 0 <= i < |ts| ::
         vs[i].name == Str(ts[i].name) && vs[i].severity == Str(ts[i].severity) && vs[i].advisory == Str(ts[i].advisory)
  }

  ghost predicate Given(e: Record, field: string) {
    field in e && e[field] != ""
  }

  /** All five fields are there, the date can be read, package and advisory are not blank. */
  ghost predicate Complete(env: Env, e: Record) {
    && Given(e, "package") && Given(e, "advisory") && Given(e, "severity") && Given(e, "mitigation")
    && Given(e, "expires_on") && env.parseDate(e["expires_on"]).Some?
    && Strip(e["package"]) != "" && env.lower(Strip(e["advisory"])) != ""
  }

  /** Packages agree but for blanks around them, advisories also but for case. */
  ghost predicate SamePair(env: Env, p: string, a: string, q: string, b: string) {
    Strip(p) == Strip(q) && env.lower(Strip(a)) == env.lower(Strip(b))
  }

  /** A record the gate looks at: it has a name, and a severity of high or critical. */
  ghost predicate Counts(env: Env, t: Texts) {
    t.name != "" && (env.lower(Strip(t.severity)) == "high" || env.lower(Strip(t.severity)) == "critical")
  }

  /** An exception for this package and advisory, not expired, of the same severity or of none. */
  ghost predicate Excuses(env: Env, e: Record, t: Texts)
    requires Complete(env, e)
  {
    && SamePair(env, e["package"], e["advisory"], t.name, t.advisory)
    && (env.lower(Strip(e["severity"])) == env.lower(Strip(t.severity)) || env.lower(Strip(e["severity"])) == "")
    && env.today <= env.parseDate(e["expires_on"]).value
  }

  /** Every exception is complete, and no two are for the same package and advisory. */
  ghost predicate Tidy(env: Env, es: seq<Record>) {
    && (forall i | 0 <= i < |es| :: Complete(env, es[i]))
    && (forall i, j | 0 <= i < j < |es| ::
          !SamePair(env, es[i]["package"], es[i]["advisory"], es[j]["package"], es[j]["advisory"]))
  }

  ghost predicate SomeExcuses(env: Env, es: seq<Record>, t: Texts)
    requires Tidy(env, es)
  {
    exists k :: 0 <= k < |es| && Excuses(env, es[k], t)
  }

  /** A record before i counts and is for the same package and advisory. */
  ghost predicate Repeats(env: Env, ts: seq<Texts>, i: nat)
    requires i < |ts|
  {
    exists j :: 0 <= j < i && Counts(env, ts[j]) && SamePair(env, ts[j].name, ts[j].advisory, ts[i].name,
                                                             ts[i].advisory)
  }

  lemma CompleteIs(env: Env, e: Record)
    ensures Complete(env, e) <==> WellFormed(env, e)
    ensures Complete(env, e) ==> KeyOfException(env, e) == (Strip(e["package"]), env.lower(Strip(e["advisory"])))
  {
    if WellFormed(env, e) {
      assert forall f | f in RequiredFields :: f !in Missing(e);
      assert "package" in RequiredFields && "advisory" in RequiredFields && "severity" in RequiredFields;
      assert "mitigation" in RequiredFields && "expires_on" in RequiredFields;
    }
  }

  lemma TidyIs(env: Env, es: seq<Record>)
    ensures Tidy(env, es) <==> Orderly(env, es, |es|)
  {
    forall i | 0 <= i < |es|
      ensures Complete(env, es[i]) <==> WellFormed(env, es[i])
      ensures Complete(env, es[i]) ==>
                KeyOfException(env, es[i]) == (Strip(es[i]["package"]), env.lower(Strip(es[i]["advisory"])))
    {
      CompleteIs(env, es[i]);
    }
  }

  lemma CountsIs(env: Env, v: Vuln, t: Texts)
    requires v.name == Str(t.name) && v.severity == Str(t.severity) && v.advisory == Str(t.advisory)
    ensures NormalizeSeverity(env, v.severity) == Some(env.lower(Strip(t.severity)))
    ensures Relevant(env, v) <==> Counts(env, t)
    ensures KeyOfVuln(env, v) == (Strip(t.name), env.lower(Strip(t.advisory)))
  {
  }

  lemma ExcusedIs(env: Env, es: seq<Record>, v: Vuln, t: Texts)
    requires v.name == Str(t.name) && v.severity == Str(t.severity) && v.advisory == Str(t.advisory)
    requires Tidy(env, es) && Counts(env, t)
    ensures Relevant(env, v) && (Excused(env, es, v) <==> SomeExcuses(env, es, t))
  {
    CountsIs(env, v, t);
    forall k | 0 <= k < |es|
      ensures Excuses(env, es[k], t) <==>
                KeyOfException(env, es[k]) == KeyOfVuln(env, v) && Covers(env, es[k], env.lower(Strip(t.severity)))
    {
      CompleteIs(env, es[k]);
    }
  }

  /** The exit code is 0 exactly if the exceptions are tidy and every record that counts has an
      advisory and, unless it repeats an earlier one, an exception that excuses it. */
  lemma ExitZeroTexts(env: Env, es: seq<Record>, vs: seq<Vuln>, ts: seq<Texts>)
    requires Carries(vs, ts)
    ensures Gate(env, es, vs) == Some([]) <==>
              && Tidy(env, es)
              && forall i | 0 <= i < |ts| && Counts(env, ts[i]) ::
                   env.lower(Strip(ts[i].advisory)) != "" && (Repeats(env, ts, i) || SomeExcuses(env, es, ts[i]))
  {
    ExitZeroIff(env, es, vs);
    TidyIs(env, es);
    if Tidy(env, es) {
      forall i | 0 <= i < |ts|
        ensures Acceptable(env, es, vs, i) <==>
                  (Counts(env, ts[i]) ==>
                     env.lower(Strip(ts[i].advisory)) != "" && (Repeats(env, ts, i) || SomeExcuses(env, es, ts[i])))
      {
        AcceptableIs(env, es, vs, ts, i);
      }
    }
  }

  lemma RepeatsIs(env: Env, vs: seq<Vuln>, ts: seq<Texts>, i: nat)
    requires Carries(vs, ts) && i < |ts|
    ensures SeenBefore(env, vs, i, KeyOfVuln(env, vs[i])) <==> Repeats(env, ts, i)
  {
    CountsIs(env, vs[i], ts[i]);
    forall j | 0 <= j < i
      ensures Relevant(env, vs[j]) && KeyOfVuln(env, vs[j]) == KeyOfVuln(env, vs[i]) <==>
                Counts(env, ts[j]) && SamePair(env, ts[j].name, ts[j].advisory, ts[i].name, ts[i].advisory)
    {
      CountsIs(env, vs[j], ts[j]);
    }
  }

  lemma AcceptableIs(env: Env, es: seq<Record>, vs: seq<Vuln>, ts: seq<Texts>, i: nat)
    requires Carries(vs, ts) && i < |ts| && Tidy(env, es)
    ensures Acceptable(env, es, vs, i) <==>
              (Counts(env, ts[i]) ==>
                 env.lower(Strip(ts[i].advisory)) != "" && (Repeats(env, ts, i) || SomeExcuses(env, es, ts[i])))
  {
    CountsIs(env, vs[i], ts[i]);
    RepeatsIs(env, vs, ts, i);
    if Counts(env, ts[i]) {
      ExcusedIs(env, es, vs[i], ts[i]);
    }
  }

  /** One record: it is excused by an unexpired exception of equal severity whose package is the same
      but for blanks around it and whose advisory is the same but for blanks and case. */
  lemma ExcusedByTexts(env: Env, es: seq<Record>, k: nat, v: Vuln, t: Texts)
    requires Gate(env, es, []) == Some([]) && k < |es| && Carries([v], [t])
    requires "package" in es[k] && Strip(es[k]["package"]) == Strip(t.name)
    requires "advisory" in es[k] && env.lower(Strip(es[k]["advisory"])) == env.lower(Strip(t.advisory)) != ""
    requires "severity" in es[k] && env.lower(Strip(es[k]["severity"])) == env.lower(Strip(t.severity))
    requires "expires_on" in es[k] && env.parseDate(es[k]["expires_on"]).Some?
    requires env.today <= env.parseDate(es[k]["expires_on"]).value
    ensures Gate(env, es, [v]) == Some([])
  {
    ExitZeroTexts(env, es, [], []);
    ExitZeroTexts(env, es, [v], [t]);
    assert Excuses(env, es[k], t);
  }

  // ---------------------------------------------------------------- differences that do not count

  /** The gate does not tell the two exceptions apart. */
  ghost predicate LikeException(env: Env, e: Record, f: Record) {
    && (WellFormed(env, e) <==> WellFormed(env, f))
    && (WellFormed(env, e) ==>
          && KeyOfException(env, e) == KeyOfException(env, f) && SeverityOf(env, e) == SeverityOf(env, f)
          && ExpiresOn(env, e) == ExpiresOn(env, f))
  }

  ghost predicate LikeRecord(env: Env, v: Vuln, w: Vuln) {
    && NormalizeSeverity(env, v.severity) == NormalizeSeverity(env, w.severity)
    && (Relevant(env, v) <==> Relevant(env, w))
    && (Relevant(env, v) ==> KeyOfVuln(env, v) == KeyOfVuln(env, w))
  }

  lemma LikeExcused(env: Env, es: seq<Record>, i: nat, f: Record, v: Vuln)
    requires i < |es| && LikeException(env, es[i], f) && Orderly(env, es, |es|) && Relevant(env, v)
    ensures Excused(env, es, v) <==> Excused(env, es[i := f], v)
  {
    var fs := es[i := f];
    forall k | 0 <= k < |es|
      ensures KeyOfException(env, es[k]) == KeyOfVuln(env, v) && Covers(env, es[k],
                  NormalizeSeverity(env, v.severity).value) <==>
              KeyOfException(env, fs[k]) == KeyOfVuln(env, v) && Covers(env, fs[k],
                  NormalizeSeverity(env, v.severity).value)
    {
    }
  }

  lemma LikeOrderly(env: Env, es: seq<Record>, i: nat, f: Record)
    requires i < |es| && LikeException(env, es[i], f)
    ensures Orderly(env, es, |es|) <==> Orderly(env, es[i := f], |es|)
  {
    var fs := es[i := f];
    forall k | 0 <= k < |es| ensures LikeException(env, es[k], fs[k]) {
    }
  }

  lemma LikeExceptionSame(env: Env, es: seq<Record>, i: nat, f: Record, vs: seq<Vuln>)
    requires i < |es| && LikeException(env, es[i], f)
    ensures Gate(env, es, vs) == Some([]) <==> Gate(env, es[i := f], vs) == Some([])
  {
    var fs := es[i := f];
    ExitZeroIff(env, es, vs);
    ExitZeroIff(env, fs, vs);
    LikeOrderly(env, es, i, f);
    if Orderly(env, es, |es|) {
      forall n | 0 <= n < |vs| ensures Acceptable(env, es, vs, n) <==> Acceptable(env, fs, vs, n) {
        if Relevant(env, vs[n]) {
          LikeExcused(env, es, i, f, vs[n]);
        }
      }
    }
  }

  lemma LikeSeen(env: Env, vs: seq<Vuln>, i: nat, w: Vuln, n: nat, k: Key)
    requires i < |vs| && LikeRecord(env, vs[i], w) && n <= |vs|
    ensures SeenBefore(env, vs, n, k) <==> SeenBefore(env, vs[i := w], n, k)
  {
    var ws := vs[i := w];
    forall j | 0 <= j < n
      ensures Relevant(env, vs[j]) && KeyOfVuln(env, vs[j]) == k <==> Relevant(env, ws[j]) && KeyOfVuln(env, ws[j]) == k
    {
    }
  }

  lemma LikeAcceptable(env: Env, es: seq<Record>, vs: seq<Vuln>, i: nat, w: Vuln, n: nat)
    requires i < |vs| && LikeRecord(env, vs[i], w) && n < |vs|
    ensures Acceptable(env, es, vs, n) <==> Acceptable(env, es, vs[i := w], n)
  {
    var ws := vs[i := w];
    assert LikeRecord(env, vs[n], ws[n]);
    if Relevant(env, vs[n]) {
      LikeSeen(env, vs, i, w, n, KeyOfVuln(env, vs[n]));
      assert Excused(env, es, vs[n]) <==> Excused(env, es, ws[n]);
    }
  }

  lemma LikeRecordSame(env: Env, es: seq<Record>, vs: seq<Vuln>, i: nat, w: Vuln)
    requires i < |vs| && LikeRecord(env, vs[i], w)
    ensures Gate(env, es, vs) == Some([]) <==> Gate(env, es, vs[i := w]) == Some([])
  {
    var ws := vs[i := w];
    ExitZeroIff(env, es, vs);
    ExitZeroIff(env, es, ws);
    forall n | 0 <= n < |vs| ensures Acceptable(env, es, vs, n) <==> Acceptable(env, es, ws, n) {
      LikeAcceptable(env, es, vs, i, w, n);
    }
    if forall n | 0 <= n < |ws| :: Acceptable(env, es, ws, n) {
      assert forall n | 0 <= n < |vs| :: Acceptable(env, es, ws, n);
    }
  }

  /** In an exception: blanks around the package, and blanks and case of advisory and severity.  Only
      a severity must not become empty, since then the field would be missing. */
  lemma ExceptionTexts(env: Env, es: seq<Record>, i: nat, p: string, a: string, s: string, vs: seq<Vuln>)
    requires i < |es| && "package" in es[i] && "advisory" in es[i] && "severity" in es[i] && env.lower("") == ""
    requires Strip(p) == Strip(es[i]["package"]) && env.lower(Strip(a)) == env.lower(Strip(es[i]["advisory"]))
    requires env.lower(Strip(s)) == env.lower(Strip(es[i]["severity"])) && (s == "" <==> es[i]["severity"] == "")
    ensures var f := es[i]["package" := p]["advisory" := a]["severity" := s];
            Gate(env, es, vs) == Some([]) <==> Gate(env, es[i := f], vs) == Some([])
  {
    var f := es[i]["package" := p]["advisory" := a]["severity" := s];
    CompleteIs(env, es[i]);
    CompleteIs(env, f);
    assert Complete(env, es[i]) <==> Complete(env, f);
    LikeExceptionSame(env, es, i, f, vs);
  }

  /** In a record: the same, where only a name must not become empty. */
  lemma RecordTexts(env: Env, es: seq<Record>, vs: seq<Vuln>, i: nat, u: Texts, t: Texts)
    requires i < |vs| && Carries([vs[i]], [u])
    requires Strip(t.name) == Strip(u.name) && (t.name == "" <==> u.name == "")
    requires env.lower(Strip(t.severity)) == env.lower(Strip(u.severity))
    requires env.lower(Strip(t.advisory)) == env.lower(Strip(u.advisory))
    ensures var w := Vuln(Str(t.name), Str(t.severity), Str(t.advisory), vs[i].title);
            Gate(env, es, vs) == Some([]) <==> Gate(env, es, vs[i := w]) == Some([])
  {
    var w := Vuln(Str(t.name), Str(t.severity), Str(t.advisory), vs[i].title);
    assert [vs[i]][0] == vs[i];
    CountsIs(env, vs[i], u);
    CountsIs(env, w, t);
    LikeRecordSame(env, es, vs, i, w);
  }

  // ---------------------------------------------------------------- values that are no texts

  /** A number as advisory or name counts as its digits; nothing, and zero as name or severity, count
      as the empty text. */
  lemma OtherValues(env: Env, es: seq<Record>, vs: seq<Vuln>, i: nat, digits: string, zero: bool)
    requires i < |vs| && env.lower("") == "" && digits != ""
    ensures vs[i].advisory == Absent ==>
              (Gate(env, es, vs) == Some([]) <==> Gate(env, es, vs[i := vs[i].(advisory := Str(""))]) == Some([]))
    ensures vs[i].advisory == Number(digits, zero) ==>
              (Gate(env, es, vs) == Some([]) <==> Gate(env, es, vs[i := vs[i].(advisory := Str(digits))]) == Some([]))
    ensures vs[i].name == Absent || vs[i].name == Number(digits, true) ==>
              (Gate(env, es, vs) == Some([]) <==> Gate(env, es, vs[i := vs[i].(name := Str(""))]) == Some([]))
    ensures vs[i].name == Number(digits, false) ==>
              (Gate(env, es, vs) == Some([]) <==> Gate(env, es, vs[i := vs[i].(name := Str(digits))]) == Some([]))
    ensures vs[i].severity == Absent || vs[i].severity == Number(digits, true) ==>
              (Gate(env, es, vs) == Some([]) <==> Gate(env, es, vs[i := vs[i].(severity := Str(""))]) == Some([]))
  {
    var v := vs[i];
    if v.advisory.Absent? { LikeRecordSame(env, es, vs, i, v.(advisory := Str(""))); }
    if v.advisory == Number(digits, zero) { LikeRecordSame(env, es, vs, i, v.(advisory := Str(digits))); }
    if v.name.Absent? || v.name == Number(digits, true) { LikeRecordSame(env, es, vs, i, v.(name := Str(""))); }
    if v.name == Number(digits, false) { LikeRecordSame(env, es, vs, i, v.(name := Str(digits))); }
    if v.severity == Absent || v.severity == Number(digits, true) {
      LikeRecordSame(env, es, vs, i, v.(severity := Str("")));
    }
  }

  /** A severity that is a number other than zero makes the gate raise, and nothing else does. */
  lemma RaisesTexts(env: Env, es: seq<Record>, vs: seq<Vuln>)
    ensures Gate(env, es, vs).None? <==> exists i :: 0 <= i < |vs| && vs[i].severity.Number? && !vs[i].severity.zero
  {
    var s := IndexExceptions(env, es, |es|);
    ScanRaises(env, s.index, s.errors, vs, |vs|);
    assert forall i | 0 <= i < |vs| ::
        NormalizeSeverity(env, vs[i].severity).None? <==> vs[i].severity.Number? && !vs[i].severity.zero;
  }

  // ---------------------------------------------------------------- what is reported

  /** One exception alone: what is said of it.  The names of the missing fields are given as a set. */
  lemma OneExceptionReport(env: Env, e: Record, missing: set<string>)
    requires forall f :: f in missing <==>
                           f in ["package", "advisory", "severity", "mitigation", "expires_on"] && !Given(e, f)
    ensures Gate(env, [e], []) ==
              if missing != {} then
                Some([MissingFields(missing, if "package" in e then e["package"] else "<unknown>")])
              else if !("expires_on" in e && env.parseDate(e["expires_on"]).Some?) then
                Some([InvalidDate(if "package" in e then e["package"] else "")])
              else if !Complete(env, e) then Some([MissingValue])
              else Some([])
  {
    assert missing == Missing(e);
    GateExceptions(env, [e]);
    AddFirst(env, e);
    assert |[e]| == 1;
    CompleteIs(env, e);
    if missing == {} {
      GivenAll(e);
    }
  }

  lemma AddFirst(env: Env, e: Record)
    ensures IndexExceptions(env, [e], 1).errors ==
              if Missing(e) != {} then [MissingFields(Missing(e), if "package" in e then e["package"] else "<unknown>")]
              else if ExpiresOn(env, e).None? then [InvalidDate(Get(e, "package"))]
              else if !WellFormed(env, e) then [MissingValue]
              else []
  {
    assert IndexExceptions(env, [e], 0) == Indexed(map[], []);
    assert IndexExceptions(env, [e], 1) == AddException(env, Indexed(map[], []), e);
  }

  lemma GivenAll(e: Record)
    requires Missing(e) == {}
    ensures Given(e, "package") && Given(e, "expires_on")
  {
    assert "package" !in Missing(e) && "expires_on" !in Missing(e);
  }

  /** A second exception for the same package and advisory. */
  lemma DuplicateReport(env: Env, e: Record, f: Record)
    requires Complete(env, e) && Complete(env, f)
    requires SamePair(env, e["package"], e["advisory"], f["package"], f["advisory"])
    ensures Gate(env, [e, f], []) == Some([Duplicate(Strip(f["package"]), f["advisory"])])
  {
    GateExceptions(env, [e, f]);
    CompleteIs(env, e);
    CompleteIs(env, f);
    var key := KeyOfException(env, e);
    assert IndexExceptions(env, [e, f], 0) == Indexed(map[], []);
    assert IndexExceptions(env, [e, f], 1) == AddException(env, Indexed(map[], []), e);
    assert IndexExceptions(env, [e, f], 1) == Indexed(map[][key := e], []);
    assert IndexExceptions(env, [e, f], 2) == AddException(env, Indexed(map[][key := e], []), f);
    AddDuplicate(env, map[][key := e], f);
    assert |[e, f]| == 2;
  }

  lemma AddDuplicate(env: Env, index: Index, f: Record)
    requires Complete(env, f) && KeyOfException(env, f) in index
    ensures AddException(env, Indexed(index, []), f).errors == [Duplicate(Strip(f["package"]), f["advisory"])]
  {
    CompleteIs(env, f);
  }

  lemma GateExceptions(env: Env, es: seq<Record>)
    ensures Gate(env, es, []) == Some(IndexExceptions(env, es, |es|).errors)
  {
    var errors := IndexExceptions(env, es, |es|).errors;
    assert Report(Scan({}, errors, [], [])) == errors;
  }

  /** A record that does not count, or has no advisory. */
  lemma SilentReport(env: Env, es: seq<Record>, v: Vuln, t: Texts)
    requires Tidy(env, es) && Carries([v], [t])
    ensures !Counts(env, t) ==> Gate(env, es, [v]) == Some([])
    ensures Counts(env, t) && env.lower(Strip(t.advisory)) == "" ==>
              Gate(env, es, [v]) == Some([MissingAdvisory(v.name, env.lower(Strip(t.severity)))])
  {
    OneVisit(env, es, v, t);
  }

  /** A record without an exception. */
  lemma UnexcusedReport(env: Env, es: seq<Record>, v: Vuln, t: Texts)
    requires Tidy(env, es) && Carries([v], [t]) && Counts(env, t) && env.lower(Strip(t.advisory)) != ""
    requires forall k | 0 <= k < |es| :: !SamePair(env, es[k]["package"], es[k]["advisory"], t.name, t.advisory)
    ensures Gate(env, es, [v]) ==
              Some([UnexcusedHeading, Unexcused(v.name, env.lower(Strip(t.severity)), v.advisory, v.title)])
  {
    OneVisit(env, es, v, t);
    var index, key := IndexExceptions(env, es, |es|).index, KeyOfVuln(env, v);
    if key in index {
      var k :| 0 <= k < |es| && KeyOfException(env, es[k]) == key;
      CompleteIs(env, es[k]);
    }
    JudgedUnexcused(env, index, v, env.lower(Strip(t.severity)), key);
  }

  lemma JudgedUnexcused(env: Env, index: Index, v: Vuln, sev: string, key: Key)
    requires key !in index
    ensures Report(Judge(env, index, Scan({key}, [], [], []), v, sev, key)) ==
              [UnexcusedHeading, Unexcused(v.name, sev, v.advisory, v.title)]
  {
  }

  /** A record with an exception of another severity, or with an expired one. */
  lemma ExceptionReport(env: Env, es: seq<Record>, k: nat, v: Vuln, t: Texts)
    requires Tidy(env, es) && Carries([v], [t]) && Counts(env, t) && env.lower(Strip(t.advisory)) != ""
    requires k < |es| && SamePair(env, es[k]["package"], es[k]["advisory"], t.name, t.advisory)
    ensures var sev, got := env.lower(Strip(t.severity)), env.lower(Strip(es[k]["severity"]));
            var date := env.parseDate(es[k]["expires_on"]).value;
            Gate(env, es, [v]) ==
              Some((if got != "" && got != sev then [Mismatch(v.name, v.advisory, sev, got)] else [])
                   + if date < env.today then [ExpiredHeading, Expired(v.name, sev, v.advisory, date)] else [])
  {
    OneVisit(env, es, v, t);
    CompleteIs(env, es[k]);
    JudgedException(env, IndexExceptions(env, es, |es|).index, v, env.lower(Strip(t.severity)), KeyOfVuln(env, v),
                    es[k]);
  }

  lemma JudgedException(env: Env, index: Index, v: Vuln, sev: string, key: Key, e: Record)
    requires key in index && index[key] == e && Complete(env, e)
    ensures var got, date := env.lower(Strip(e["severity"])), env.parseDate(e["expires_on"]).value;
            Report(Judge(env, index, Scan({key}, [], [], []), v, sev, key)) ==
              (if got != "" && got != sev then [Mismatch(v.name, v.advisory, sev, got)] else [])
              + if date < env.today then [ExpiredHeading, Expired(v.name, sev, v.advisory, date)] else []
  {
  }

  lemma OneVisit(env: Env, es: seq<Record>, v: Vuln, t: Texts)
    requires Tidy(env, es) && Carries([v], [t])
    ensures Indexes(env, es, |es|, IndexExceptions(env, es, |es|).index)
    ensures KeyOfVuln(env, v) == (Strip(t.name), env.lower(Strip(t.advisory)))
    ensures var sev, key, index :=
              env.lower(Strip(t.severity)), KeyOfVuln(env, v), IndexExceptions(env, es, |es|).index;
            Gate(env, es, [v]) ==
              if !Counts(env, t) then Some([])
              else if key.1 == "" then Some([MissingAdvisory(v.name, sev)])
              else Some(Report(Judge(env, index, Scan({key}, [], [], []), v, sev, key)))
  {
    assert [v][0] == v && [t][0] == t;
    CountsIs(env, v, t);
    TidyIs(env, es);
    IndexClean(env, es, |es|);
    var index := IndexExceptions(env, es, |es|).index;
    FirstVisit(env, index, v);
    VisitOne(env, index, v, env.lower(Strip(t.severity)), KeyOfVuln(env, v));
  }

  lemma VisitOne(env: Env, index: Index, v: Vuln, sev: string, key: Key)
    requires NormalizeSeverity(env, v.severity) == Some(sev) && key == KeyOfVuln(env, v)
    ensures var r := Visit(env, index, Scan({}, [], [], []), v);
            && r.Some?
            && Report(r.value) ==
                 if !Relevant(env, v) then []
                 else if key.1 == "" then [MissingAdvisory(v.name, sev)]
                 else Report(Judge(env, index, Scan({key}, [], [], []), v, sev, key))
  {
    assert {} + {key} == {key};
    assert [] + [MissingAdvisory(v.name, sev)] == [MissingAdvisory(v.name, sev)];
  }

  lemma FirstVisit(env: Env, index: Index, v: Vuln)
    ensures ScanAll(env, index, [], [v], 1) == Visit(env, index, Scan({}, [], [], []), v)
  {
    assert ScanAll(env, index, [], [v], 0) == Some(Scan({}, [], [], []));
  }

  // ---------------------------------------------------------------- the sections of a report

  /** A message of the first section. */
  ghost predicate General(m: Message) {
    !m.Unexcused? && !m.Expired? && !m.UnexcusedHeading? && !m.ExpiredHeading?
  }

  ghost predicate AllGeneral(ms: seq<Message>) {
    forall i | 0 <= i < |ms| :: General(ms[i])
  }

  ghost predicate Sectioned(s: Scan) {
    && AllGeneral(s.errors)
    && (forall i | 0 <= i < |s.unexcused| :: s.unexcused[i].Unexcused?)
    && (forall i | 0 <= i < |s.expired| :: s.expired[i].Expired?)
  }

  lemma {:induction false} IndexGeneral(env: Env, es: seq<Record>, n: nat)
    requires n <= |es|
    ensures AllGeneral(IndexExceptions(env, es, n).errors)
  {
    if n > 0 {
      IndexGeneral(env, es, n - 1);
      AddGeneral(env, IndexExceptions(env, es, n - 1), es[n - 1]);
    }
  }

  lemma AddGeneral(env: Env, s: Indexed, e: Record)
    requires AllGeneral(s.errors)
    ensures AllGeneral(AddException(env, s, e).errors)
  {
  }

  lemma VisitSectioned(env: Env, index: Index, s: Scan, v: Vuln)
    requires Sectioned(s)
    ensures Visit(env, index, s, v).Some? ==> Sectioned(Visit(env, index, s, v).value)
  {
  }

  lemma {:induction false} ScanSectioned(env: Env, index: Index, errors: seq<Message>, vs: seq<Vuln>, n: nat)
    requires n <= |vs| && AllGeneral(errors)
    ensures ScanAll(env, index, errors, vs, n).Some? ==> Sectioned(ScanAll(env, index, errors, vs, n).value)
  {
    if n > 0 {
      ScanSectioned(env, index, errors, vs, n - 1);
      var s := ScanAll(env, index, errors, vs, n - 1);
      if s.Some? {
        VisitSectioned(env, index, s.value, vs[n - 1]);
      }
    }
  }

  /** Every report has three sections in this order: other errors, then under their heading the records
      without an exception, then under theirs the expired exceptions. */
  lemma ReportSections(env: Env, es: seq<Record>, vs: seq<Vuln>)
    returns (errors: seq<Message>, unexcused: seq<Message>, expired: seq<Message>)
    requires Gate(env, es, vs).Some?
    ensures Gate(env, es, vs).value ==
              errors + (if unexcused == [] then [] else [UnexcusedHeading] + unexcused)
              + (if expired == [] then [] else [ExpiredHeading] + expired)
    ensures forall i | 0 <= i < |errors| :: General(errors[i])
    ensures forall i | 0 <= i < |unexcused| :: unexcused[i].Unexcused?
    ensures forall i | 0 <= i < |expired| :: expired[i].Expired?
  {
    var indexed := IndexExceptions(env, es, |es|);
    IndexGeneral(env, es, |es|);
    ScanSectioned(env, indexed.index, indexed.errors, vs, |vs|);
    var s := ScanAll(env, indexed.index, indexed.errors, vs, |vs|).value;
    errors, unexcused, expired := s.errors, s.unexcused, s.expired;
  }
}
