/** The decision of the audit gate: indexing the exceptions, scanning the vulnerabilities, and the
    exit code. */
module AuditGate {
  import opened Schema
  import opened AuditParser
  import opened Bags

  // ---------------------------------------------------------------- inputs

  /** A value of the audit report where the gate expects a text. */
  datatype Value = Absent | Str(s: string) | Number(text: string, zero: bool)
  {
    /** Python's truth value. */
    predicate Truthy() {
      (Str? && s != "") || (Number? && !zero)
    }
    /** str(...), with None already ruled out. */
    function AsText(): string {
      if Str? then s else if Number? then text else ""
    }
  }

  datatype Vuln = Vuln(name: Value, severity: Value, advisory: Value, title: Value)

  /** Lower-casing, ISO date parsing and the current day. */
  datatype Env = Env(lower: string -> string, parseDate: string -> Option<int>, today: int)

  type Key = (string, string)

  // ---------------------------------------------------------------- normalisation

  function NormalizePackage(name: Value): string {
    if name.Absent? then "" else Strip(name.AsText())
  }

  function NormalizeAdvisory(env: Env, advisory: Value): string {
    if advisory.Absent? then "" else env.lower(Strip(advisory.AsText()))
  }

  /** None is the exception raised for a severity that is neither text nor falsy. */
  function NormalizeSeverity(env: Env, severity: Value): Option<string> {
    if !severity.Truthy() then Some(env.lower(Strip("")))
    else if severity.Str? then Some(env.lower(Strip(severity.s)))
    else None
  }

  // ---------------------------------------------------------------- exceptions

  const RequiredFields: set<string> := {"package", "advisory", "severity", "mitigation", "expires_on"}

  function Get(e: Record, field: string): string {
    if field in e then e[field] else ""
  }

  function Missing(e: Record): set<string> {
    set f | f in RequiredFields && Get(e, f) == ""
  }

  function ExpiresOn(env: Env, e: Record): Option<int> {
    env.parseDate(Get(e, "expires_on"))
  }

  function KeyOfException(env: Env, e: Record): Key {
    (NormalizePackage(Str(Get(e, "package"))), NormalizeAdvisory(env, Str(Get(e, "advisory"))))
  }

  function SeverityOf(env: Env, e: Record): string {
    env.lower(Strip(Get(e, "severity")))
  }

  /** An exception that is usable on its own. */
  predicate WellFormed(env: Env, e: Record) {
    && Missing(e) == {}
    && ExpiresOn(env, e).Some?
    && KeyOfException(env, e).0 != "" && KeyOfException(env, e).1 != ""
  }

  datatype Message =
    | MissingFields(fields: set<string>, package: string)
    | InvalidDate(package: string)
    | MissingValue
    | Duplicate(package: string, listed: string)
    | MissingAdvisory(name: Value, severity: string)
    | Mismatch(name: Value, advisory: Value, expected: string, got: string)
    | Unexcused(name: Value, severity: string, advisory: Value, title: Value)
    | Expired(name: Value, severity: string, advisory: Value, expiresOn: int)
    | UnexcusedHeading
    | ExpiredHeading

  type Index = map<Key, Record>

  datatype Indexed = Indexed(index: Index, errors: seq<Message>)

  function Complain(s: Indexed, m: Message): Indexed {
    s.(errors := s.errors + [m])
  }

  /** One round of the first loop. */
  function AddException(env: Env, s: Indexed, e: Record): Indexed {
    if Missing(e) != {} then Complain(s,
                                      MissingFields(Missing(e), if "package" in e then e["package"] else "<unknown>"))
    else if ExpiresOn(env, e).None? then Complain(s, InvalidDate(Get(e, "package")))
    else
      var key := KeyOfException(env, e);
      if key.0 == "" || key.1 == "" then Complain(s, MissingValue)
      else if key in s.index then Complain(s, Duplicate(key.0, Get(e, "advisory")))
      else s.(index := s.index[key := e])
  }

  function IndexExceptions(env: Env, es: seq<Record>, n: nat): Indexed
    requires n <= |es|
  {
    if n == 0 then Indexed(map[], []) else AddException(env, IndexExceptions(env, es, n - 1), es[n - 1])
  }

  // ---------------------------------------------------------------- vulnerabilities

  predicate High(severity: string) {
    severity == "high" || severity == "critical"
  }

  /** The records the gate looks at. */
  predicate Relevant(env: Env, v: Vuln) {
    && NormalizeSeverity(env, v.severity).Some? && High(NormalizeSeverity(env, v.severity).value)
    && v.name.Truthy()
  }

  function KeyOfVuln(env: Env, v: Vuln): Key {
    (NormalizePackage(v.name), NormalizeAdvisory(env, v.advisory))
  }

  datatype Scan = Scan(seen: set<Key>, errors: seq<Message>, unexcused: seq<Message>, expired: seq<Message>)

  /** A first record of its key, against the index. */
  function Judge(env: Env, index: Index, s: Scan, v: Vuln, sev: string, key: Key): Scan {
    if key !in index then s.(unexcused := s.unexcused + [Unexcused(v.name, sev, v.advisory, v.title)])
    else
      var e := index[key];
      var got := SeverityOf(env, e);
      var s1 := if got != "" && got != sev then s.(errors := s.errors + [Mismatch(v.name, v.advisory, sev,
          got)]) else s;
      var date := ExpiresOn(env, e);
      if date.Some? && date.value < env.today then s1.(expired := s1.expired + [Expired(v.name, sev, v.advisory,
          date.value)]) else s1
  }

  /** One round of the second loop; None if normalising the severity raised. */
  function Visit(env: Env, index: Index, s: Scan, v: Vuln): Option<Scan> {
    var sev := NormalizeSeverity(env, v.severity);
    if sev.None? then None
    else if !High(sev.value) || !v.name.Truthy() then Some(s)
    else
      var key := KeyOfVuln(env, v);
      if key.1 == "" then Some(s.(errors := s.errors + [MissingAdvisory(v.name, sev.value)]))
      else if key in s.seen then Some(s)
      else Some(Judge(env, index, s.(seen := s.seen + {key}), v, sev.value, key))
  }

  function ScanAll(env: Env, index: Index, errors: seq<Message>, vs: seq<Vuln>, n: nat): Option<Scan>
    requires n <= |vs|
  {
    if n == 0 then Some(Scan({}, errors, [], []))
    else
      var s := ScanAll(env, index, errors, vs, n - 1);
      if s.None? then None else Visit(env, index, s.value, vs[n - 1])
  }

  function Report(s: Scan): seq<Message> {
    s.errors
    + (if s.unexcused == [] then [] else [UnexcusedHeading] + s.unexcused)
    + (if s.expired == [] then [] else [ExpiredHeading] + s.expired)
  }

  /** Everything the gate writes to standard error; None if it raised. */
  function Gate(env: Env, es: seq<Record>, vs: seq<Vuln>): Option<seq<Message>> {
    var indexed := IndexExceptions(env, es, |es|);
    var s := ScanAll(env, indexed.index, indexed.errors, vs, |vs|);
    if s.None? then None else Some(Report(s.value))
  }

  datatype Outcome = Exit(code: int, errors: seq<Message>) | Raised

  /** The first loop of main. */
  method IndexLoop(env: Env, exceptions: seq<Record>) returns (index: Index, errors: seq<Message>)
    ensures Indexed(index, errors) == IndexExceptions(env, exceptions, |exceptions|)
  {
    index, errors := map[], [];
    for n := 0 to |exceptions|
      invariant Indexed(index, errors) == IndexExceptions(env, exceptions, n)
    {
      var exc := exceptions[n];
      var missing := Missing(exc);
      if missing != {} {
        errors := errors + [MissingFields(missing, if "package" in exc then exc["package"] else "<unknown>")];
        continue;
      }
      var key := KeyOfException(env, exc);
      if ExpiresOn(env, exc).None? {
        errors := errors + [InvalidDate(Get(exc, "package"))];
        continue;
      }
      if key.0 == "" || key.1 == "" {
        errors := errors + [MissingValue];
        continue;
      }
      if key in index {
        errors := errors + [Duplicate(key.0, Get(exc, "advisory"))];
        continue;
      }
      index := index[key := exc];
    }
  }

  /** The second loop of main. */
  method ScanLoop(env: Env, index: Index, start: seq<Message>, vulns: seq<Vuln>) returns (r: Option<Scan>)
    ensures r == ScanAll(env, index, start, vulns, |vulns|)
  {
    var errors, unexcused: seq<Message>, expired: seq<Message> := start, [], [];
    var seen: set<Key> := {};
    for n := 0 to |vulns|
      invariant ScanAll(env, index, start, vulns, n) == Some(Scan(seen, errors, unexcused, expired))
    {
      var v := vulns[n];
      var sev := NormalizeSeverity(env, v.severity);
      if sev.None? {
        Propagates(env, index, start, vulns, n + 1, |vulns|);
        return None;
      }
      if !High(sev.value) || !v.name.Truthy() {
        continue;
      }
      var key := KeyOfVuln(env, v);
      if key.1 == "" {
        errors := errors + [MissingAdvisory(v.name, sev.value)];
        continue;
      }
      if key in seen {
        continue;
      }
      seen := seen + {key};
      if key !in index {
        unexcused := unexcused + [Unexcused(v.name, sev.value, v.advisory, v.title)];
        continue;
      }
      var exc := index[key];
      var got, date := SeverityOf(env, exc), ExpiresOn(env, exc);
      if got != "" && got != sev.value {
        errors := errors + [Mismatch(v.name, v.advisory, sev.value, got)];
      }
      if date.Some? && date.value < env.today {
        expired := expired + [Expired(v.name, sev.value, v.advisory, date.value)];
      }
    }
    return Some(Scan(seen, errors, unexcused, expired));
  }

  /** main, from the parsed inputs to the exit code. */
  method Decide(env: Env, exceptions: seq<Record>, vulns: seq<Vuln>) returns (r: Outcome)
    ensures r.Exit? && r.code == 0 <==> Passes(env, exceptions, vulns)
    ensures r.Raised? <==> exists i | 0 <= i < |vulns| :: NormalizeSeverity(env, vulns[i].severity).None?
    ensures r == match Gate(env, exceptions, vulns)
                 case None => Raised
                 case Some(ms) => Exit(if ms == [] then 0 else 1, ms)
  {
    ExitZeroIff(env, exceptions, vulns);
    var index, errors := IndexLoop(env, exceptions);
    ScanRaises(env, index, errors, vulns, |vulns|);
    var scan := ScanLoop(env, index, errors, vulns);
    if scan.None? {
      return Raised;
    }
    var all := Compose(scan.value);
    return Exit(if all == [] then 0 else 1, all);
  }

  /** The tail of main: the two headed lists follow the other errors. */
  method Compose(s: Scan) returns (all: seq<Message>)
    ensures all == Report(s)
  {
    all := s.errors;
    if s.unexcused != [] {
      all := all + ([UnexcusedHeading] + s.unexcused);
    }
    if s.expired != [] {
      all := all + ([ExpiredHeading] + s.expired);
    }
  }

  lemma {:induction false} Propagates(env: Env, index: Index, errors: seq<Message>, vs: seq<Vuln>, m: nat, n: nat)
    requires m <= n <= |vs| && ScanAll(env, index, errors, vs, m).None?
    ensures ScanAll(env, index, errors, vs, n).None?
  {
    if m < n { Propagates(env, index, errors, vs, m, n - 1); }
  }

  lemma {:induction false} ScanRaises(env: Env, index: Index, errors: seq<Message>, vs: seq<Vuln>, n: nat)
    requires n <= |vs|
    ensures ScanAll(env, index, errors, vs, n).None? <==>
              exists i | 0 <= i < n :: NormalizeSeverity(env, vs[i].severity).None?
  {
    if n > 0 {
      ScanRaises(env, index, errors, vs, n - 1);
      VisitRaises(env, index, ScanAll(env, index, errors, vs, n - 1), vs[n - 1]);
    }
  }

  lemma VisitRaises(env: Env, index: Index, s: Option<Scan>, v: Vuln)
    ensures s.Some? ==> (Visit(env, index, s.value, v).None? <==> NormalizeSeverity(env, v.severity).None?)
  {
  }

  // ---------------------------------------------------------------- when the exit code is zero

  /** Every one of the first n exceptions is well formed, and no two have the same key. */
  ghost predicate Orderly(env: Env, es: seq<Record>, n: nat)
    requires n <= |es|
  {
    && (forall i | 0 <= i < n :: WellFormed(env, es[i]))
    && (forall i, j | 0 <= i < j < n :: KeyOfException(env, es[i]) != KeyOfException(env, es[j]))
  }

  /** The index holds exactly the first n exceptions under their keys. */
  ghost predicate Indexes(env: Env, es: seq<Record>, n: nat, index: Index)
    requires n <= |es|
  {
    && (forall k | k in index :: exists i | 0 <= i < n :: KeyOfException(env, es[i]) == k)
    && (forall i | 0 <= i < n :: KeyOfException(env, es[i]) in index && index[KeyOfException(env, es[i])] == es[i])
  }

  /** Key k is not among those of the first n exceptions. */
  ghost predicate NewKey(env: Env, es: seq<Record>, n: nat, k: Key)
    requires n <= |es|
  {
    forall i | 0 <= i < n :: KeyOfException(env, es[i]) != k
  }

  lemma OrderlyStep(env: Env, es: seq<Record>, n: nat)
    requires n < |es|
    ensures Orderly(env, es, n + 1) <==>
              Orderly(env, es, n) && WellFormed(env, es[n]) && NewKey(env, es, n, KeyOfException(env, es[n]))
  {
  }

  lemma IndexesNew(env: Env, es: seq<Record>, n: nat, index: Index, k: Key)
    requires n <= |es| && Indexes(env, es, n, index)
    ensures k in index <==> !NewKey(env, es, n, k)
  {
  }

  lemma IndexesStep(env: Env, es: seq<Record>, n: nat, index: Index, k: Key)
    requires n < |es| && Indexes(env, es, n, index) && k == KeyOfException(env, es[n]) && NewKey(env, es, n, k)
    ensures Indexes(env, es, n + 1, index[k := es[n]])
  {
    var next := index[k := es[n]];
    forall x | x in next ensures exists i | 0 <= i < n + 1 :: KeyOfException(env, es[i]) == x {
      if x == k {
        assert KeyOfException(env, es[n]) == x;
      } else {
        var i :| 0 <= i < n && KeyOfException(env, es[i]) == x;
      }
    }
  }

  lemma AddClean(env: Env, s: Indexed, e: Record)
    ensures |AddException(env, s, e).errors| >= |s.errors|
    ensures AddException(env, s, e).errors == [] <==>
              s.errors == [] && WellFormed(env, e) && KeyOfException(env, e) !in s.index
    ensures AddException(env, s, e).errors == [] ==>
              AddException(env, s, e).index == s.index[KeyOfException(env, e) := e]
  {
  }

  /** After n exceptions: no complaint exactly when they are orderly, and then they are indexed. */
  ghost predicate Tracks(env: Env, es: seq<Record>, n: nat, s: Indexed)
    requires n <= |es|
  {
    && (s.errors == [] <==> Orderly(env, es, n))
    && (Orderly(env, es, n) ==> Indexes(env, es, n, s.index))
  }

  lemma TracksStep(env: Env, es: seq<Record>, n: nat, s: Indexed, t: Indexed, k: Key)
    requires n < |es| && Tracks(env, es, n, s) && k == KeyOfException(env, es[n])
    requires t.errors == [] <==> s.errors == [] && WellFormed(env, es[n]) && k !in s.index
    requires t.errors == [] ==> t.index == s.index[k := es[n]]
    ensures Tracks(env, es, n + 1, t)
  {
    OrderlyStep(env, es, n);
    if Orderly(env, es, n) {
      IndexesNew(env, es, n, s.index, k);
      if NewKey(env, es, n, k) {
        IndexesStep(env, es, n, s.index, k);
      }
    }
  }

  /** One more exception. */
  lemma AddTracks(env: Env, es: seq<Record>, n: nat, s: Indexed, t: Indexed)
    requires 0 < n <= |es| && Tracks(env, es, n - 1, s) && t == AddException(env, s, es[n - 1])
    ensures Tracks(env, es, n, t)
  {
    AddClean(env, s, es[n - 1]);
    TracksStep(env, es, n - 1, s, t, KeyOfException(env, es[n - 1]));
  }

  /** The states of the first loop, from the empty index on. */
  ghost predicate Rounds(env: Env, es: seq<Record>, ss: seq<Indexed>) {
    && |ss| == |es| + 1 && ss[0] == Indexed(map[], [])
    && forall n | 0 < n <= |es| :: ss[n] == AddException(env, ss[n - 1], es[n - 1])
  }

  lemma {:induction false} RoundsTrack(env: Env, es: seq<Record>, ss: seq<Indexed>, n: nat)
    requires Rounds(env, es, ss) && n <= |es|
    ensures Tracks(env, es, n, ss[n])
  {
    if n == 0 {
      TracksStart(env, es);
    } else {
      RoundsTrack(env, es, ss, n - 1);
      AddTracks(env, es, n, ss[n - 1], ss[n]);
    }
  }

  lemma IndexRounds(env: Env, es: seq<Record>) returns (ss: seq<Indexed>)
    ensures Rounds(env, es, ss)
    ensures forall n | 0 <= n <= |es| :: ss[n] == IndexExceptions(env, es, n)
  {
    ss := seq(|es| + 1, n requires 0 <= n <= |es| => IndexExceptions(env, es, n));
  }

  lemma IndexClean(env: Env, es: seq<Record>, n: nat)
    requires n <= |es|
    ensures Tracks(env, es, n, IndexExceptions(env, es, n))
  {
    var ss := IndexRounds(env, es);
    RoundsTrack(env, es, ss, n);
  }

  lemma TracksStart(env: Env, es: seq<Record>)
    ensures Tracks(env, es, 0, Indexed(map[], []))
  {
  }

  /** Exception e covers a vulnerability of this severity today. */
  predicate Covers(env: Env, e: Record, sev: string) {
    && (SeverityOf(env, e) == "" || SeverityOf(env, e) == sev)
    && !(ExpiresOn(env, e).Some? && ExpiresOn(env, e).value < env.today)
  }

  predicate CoveredBy(env: Env, index: Index, v: Vuln)
    requires Relevant(env, v)
  {
    KeyOfVuln(env, v) in index && Covers(env, index[KeyOfVuln(env, v)], NormalizeSeverity(env, v.severity).value)
  }

  /** Some relevant record before i has key k. */
  predicate SeenBefore(env: Env, vs: seq<Vuln>, i: nat, k: Key)
    requires i <= |vs|
  {
    exists j | 0 <= j < i :: Relevant(env, vs[j]) && KeyOfVuln(env, vs[j]) == k
  }

  /** Record i raises nothing, has an advisory if it is relevant, and is covered if it is the first
      of its key. */
  ghost predicate Fine(env: Env, index: Index, vs: seq<Vuln>, i: nat)
    requires i < |vs|
  {
    && NormalizeSeverity(env, vs[i].severity).Some?
    && (Relevant(env, vs[i]) ==>
          && KeyOfVuln(env, vs[i]).1 != ""
          && (!SeenBefore(env, vs, i, KeyOfVuln(env, vs[i])) ==> CoveredBy(env, index, vs[i])))
  }

  predicate Clean(s: Option<Scan>) {
    s.Some? && s.value.errors == [] && s.value.unexcused == [] && s.value.expired == []
  }

  /** Visiting record v took a scan from s to t. */
  ghost predicate Visited(env: Env, index: Index, s: Option<Scan>, v: Vuln, t: Option<Scan>) {
    && (Clean(t) <==>
          && Clean(s)
          && NormalizeSeverity(env, v.severity).Some?
          && (Relevant(env, v) ==>
                KeyOfVuln(env, v).1 != "" && (KeyOfVuln(env, v) !in s.value.seen ==> CoveredBy(env, index, v))))
    && (Clean(t) ==> t.value.seen == if Relevant(env, v) then s.value.seen + {KeyOfVuln(env, v)} else s.value.seen)
  }

  /** One round keeps a clean scan clean exactly when its record is fine, and cleans nothing. */
  lemma VisitClean(env: Env, index: Index, s: Scan, v: Vuln)
    ensures Visited(env, index, Some(s), v, Visit(env, index, s, v))
  {
  }

  /** After n records: clean exactly when all were fine, and then their keys are the seen ones. */
  ghost predicate Scanned(env: Env, index: Index, errors: seq<Message>, vs: seq<Vuln>, n: nat, s: Option<Scan>)
    requires n <= |vs|
  {
    && (Clean(s) <==> errors == [] && forall i | 0 <= i < n :: Fine(env, index, vs, i))
    && (Clean(s) ==> forall k :: k in s.value.seen <==> SeenBefore(env, vs, n, k))
  }

  lemma ScannedStep(env: Env, index: Index, errors: seq<Message>, vs: seq<Vuln>, n: nat, s: Option<Scan>,
                    t: Option<Scan>)
    requires n < |vs| && Scanned(env, index, errors, vs, n, s) && Visited(env, index, s, vs[n], t)
    ensures Scanned(env, index, errors, vs, n + 1, t)
  {
    if Clean(s) {
      assert Clean(t) <==> Fine(env, index, vs, n);
      if Clean(t) {
        forall k ensures k in t.value.seen <==> SeenBefore(env, vs, n + 1, k) {
          SeenStep(env, vs, n, k);
        }
      }
    }
  }

  lemma {:induction false} ScanClean(env: Env, index: Index, errors: seq<Message>, vs: seq<Vuln>, n: nat)
    requires n <= |vs|
    ensures Scanned(env, index, errors, vs, n, ScanAll(env, index, errors, vs, n))
  {
    if n > 0 {
      ScanClean(env, index, errors, vs, n - 1);
      var s := ScanAll(env, index, errors, vs, n - 1);
      if s.Some? {
        VisitClean(env, index, s.value, vs[n - 1]);
      }
      ScannedStep(env, index, errors, vs, n - 1, s, ScanAll(env, index, errors, vs, n));
    }
  }

  lemma SeenStep(env: Env, vs: seq<Vuln>, n: nat, k: Key)
    requires n < |vs|
    ensures SeenBefore(env, vs, n + 1, k) <==>
              SeenBefore(env, vs, n, k) || (Relevant(env, vs[n]) && KeyOfVuln(env, vs[n]) == k)
  {
    if SeenBefore(env, vs, n, k) {
      var j :| 0 <= j < n && Relevant(env, vs[j]) && KeyOfVuln(env, vs[j]) == k;
      assert SeenBefore(env, vs, n + 1, k);
    }
  }

  // ---------------------------------------------------------------- the condition, without the index

  /** The exception list has an unexpired exception of the right key and severity for v. */
  ghost predicate Excused(env: Env, es: seq<Record>, v: Vuln)
    requires Relevant(env, v)
  {
    exists i | 0 <= i < |es| ::
      KeyOfException(env, es[i]) == KeyOfVuln(env, v) && Covers(env, es[i], NormalizeSeverity(env, v.severity).value)
  }

  /** What has to hold of record i: see ExitZeroIff. */
  ghost predicate Acceptable(env: Env, es: seq<Record>, vs: seq<Vuln>, i: nat)
    requires i < |vs|
  {
    && NormalizeSeverity(env, vs[i].severity).Some?
    && (Relevant(env, vs[i]) ==>
          && KeyOfVuln(env, vs[i]).1 != ""
          && (!SeenBefore(env, vs, i, KeyOfVuln(env, vs[i])) ==> Excused(env, es, vs[i])))
  }

  ghost predicate Passes(env: Env, es: seq<Record>, vs: seq<Vuln>) {
    Orderly(env, es, |es|) && forall i | 0 <= i < |vs| :: Acceptable(env, es, vs, i)
  }

  lemma ExcusedIsIndexed(env: Env, es: seq<Record>, index: Index, v: Vuln)
    requires Relevant(env, v) && Indexes(env, es, |es|, index)
    ensures Excused(env, es, v) <==> CoveredBy(env, index, v)
  {
    var k := KeyOfVuln(env, v);
    if k in index {
      var i :| 0 <= i < |es| && KeyOfException(env, es[i]) == k;
      assert index[k] == es[i];
    }
  }

  lemma FineIsAcceptable(env: Env, es: seq<Record>, index: Index, vs: seq<Vuln>, i: nat)
    requires i < |vs| && Indexes(env, es, |es|, index)
    ensures Fine(env, index, vs, i) <==> Acceptable(env, es, vs, i)
  {
    if Relevant(env, vs[i]) {
      ExcusedIsIndexed(env, es, index, vs[i]);
    }
  }

  lemma ReportEmpty(s: Scan)
    ensures Report(s) == [] <==> Clean(Some(s))
  {
    assert |Report(s)| >= |s.errors| + |s.unexcused| + |s.expired|;
  }

  /** The gate returns zero exactly when every exception is complete, validly dated and unique by
      its normalised key, no severity is malformed, every high or critical named record has an
      advisory, and the first record of each key has an unexpired exception whose severity is blank
      or equal. */
  lemma ExitZeroIff(env: Env, es: seq<Record>, vs: seq<Vuln>)
    ensures Gate(env, es, vs) == Some([]) <==> Passes(env, es, vs)
  {
    var s := IndexExceptions(env, es, |es|);
    IndexClean(env, es, |es|);
    ScanClean(env, s.index, s.errors, vs, |vs|);
    var scan := ScanAll(env, s.index, s.errors, vs, |vs|);
    if scan.Some? {
      ReportEmpty(scan.value);
    }
    if Orderly(env, es, |es|) {
      forall i | 0 <= i < |vs| ensures Fine(env, s.index, vs, i) <==> Acceptable(env, es, vs, i) {
        FineIsAcceptable(env, es, s.index, vs, i);
      }
    }
  }

  // ---------------------------------------------------------------- order does not matter

  /** Two places of es' with one key can be found in es as well. */
  lemma ClashMoves(env: Env, es: seq<Record>, es': seq<Record>, i: nat, j: nat)
    requires multiset(es) == multiset(es') && i < j < |es'|
    requires KeyOfException(env, es'[i]) == KeyOfException(env, es'[j])
    ensures !Orderly(env, es, |es|)
  {
    var a, b := PlacesInWhole(es', es, i, j);
    assert KeyOfException(env, es[a]) == KeyOfException(env, es[b]);
    assert a < b || b < a;
  }

  lemma SameRecords(es: seq<Record>, es': seq<Record>, i: nat) returns (j: nat)
    requires multiset(es) == multiset(es') && i < |es|
    ensures j < |es'| && es'[j] == es[i]
  {
    assert es[i] in multiset(es');
    j :| 0 <= j < |es'| && es'[j] == es[i];
  }

  lemma OrderlyPermutes(env: Env, es: seq<Record>, es': seq<Record>)
    requires multiset(es) == multiset(es') && Orderly(env, es, |es|)
    ensures Orderly(env, es', |es'|)
  {
    forall i | 0 <= i < |es'| ensures WellFormed(env, es'[i]) {
      var j := SameRecords(es', es, i);
    }
    forall i, j | 0 <= i < j < |es'| ensures KeyOfException(env, es'[i]) != KeyOfException(env, es'[j]) {
      if KeyOfException(env, es'[i]) == KeyOfException(env, es'[j]) {
        ClashMoves(env, es, es', i, j);
      }
    }
  }

  lemma ExcusedPermutes(env: Env, es: seq<Record>, es': seq<Record>, v: Vuln)
    requires multiset(es) == multiset(es') && Relevant(env, v) && Excused(env, es, v)
    ensures Excused(env, es', v)
  {
    var i :| 0 <= i < |es| &&
      KeyOfException(env, es[i]) == KeyOfVuln(env, v) && Covers(env, es[i], NormalizeSeverity(env, v.severity).value);
    var j := SameRecords(es, es', i);
  }

  lemma PassesPermutes(env: Env, es: seq<Record>, es': seq<Record>, vs: seq<Vuln>)
    requires multiset(es) == multiset(es') && Passes(env, es, vs)
    ensures Passes(env, es', vs)
  {
    OrderlyPermutes(env, es, es');
    forall i | 0 <= i < |vs| ensures Acceptable(env, es', vs, i) {
      assert Acceptable(env, es, vs, i);
      if Relevant(env, vs[i]) && !SeenBefore(env, vs, i, KeyOfVuln(env, vs[i])) {
        ExcusedPermutes(env, es, es', vs[i]);
      }
    }
  }

  /** The exit code does not depend on the order of the exceptions. */
  lemma ExceptionOrderIrrelevant(env: Env, es: seq<Record>, es': seq<Record>, vs: seq<Vuln>)
    requires multiset(es) == multiset(es')
    ensures Gate(env, es, vs) == Some([]) <==> Gate(env, es', vs) == Some([])
  {
    ExitZeroIff(env, es, vs);
    ExitZeroIff(env, es', vs);
    if Passes(env, es, vs) { PassesPermutes(env, es, es', vs); }
    if Passes(env, es', vs) { PassesPermutes(env, es', es, vs); }
  }

  /** Relevant records with one key have one severity. */
  ghost predicate Consistent(env: Env, vs: seq<Vuln>) {
    forall v, w | v in vs && w in vs && Relevant(env, v) && Relevant(env, w) && KeyOfVuln(env, v) == KeyOfVuln(env,
        w) ::
      NormalizeSeverity(env, v.severity) == NormalizeSeverity(env, w.severity)
  }

  /** The condition on a record by itself, first of its key or not. */
  ghost predicate Settled(env: Env, es: seq<Record>, v: Vuln) {
    && NormalizeSeverity(env, v.severity).Some?
    && (Relevant(env, v) ==> KeyOfVuln(env, v).1 != "" && Excused(env, es, v))
  }

  lemma {:induction false} FirstExcuses(env: Env, es: seq<Record>, vs: seq<Vuln>, i: nat)
    requires Consistent(env, vs) && i < |vs| && Relevant(env, vs[i])
    requires forall j | 0 <= j < |vs| :: Acceptable(env, es, vs, j)
    ensures Excused(env, es, vs[i])
  {
    assert Acceptable(env, es, vs, i);
    var k := KeyOfVuln(env, vs[i]);
    if SeenBefore(env, vs, i, k) {
      var j :| 0 <= j < i && Relevant(env, vs[j]) && KeyOfVuln(env, vs[j]) == k;
      FirstExcuses(env, es, vs, j);
      assert vs[i] in vs && vs[j] in vs;
    }
  }

  /** For consistent reports the first-record rule is a rule about every record. */
  lemma PassesIffSettled(env: Env, es: seq<Record>, vs: seq<Vuln>)
    requires Consistent(env, vs)
    ensures Passes(env, es, vs) <==> Orderly(env, es, |es|) && forall v | v in vs :: Settled(env, es, v)
  {
    if Passes(env, es, vs) {
      forall i | 0 <= i < |vs| ensures Settled(env, es, vs[i]) {
        assert Acceptable(env, es, vs, i);
        if Relevant(env, vs[i]) {
          FirstExcuses(env, es, vs, i);
        }
      }
    }
    if Orderly(env, es, |es|) && forall v | v in vs :: Settled(env, es, v) {
      forall i | 0 <= i < |vs| ensures Acceptable(env, es, vs, i) {
        assert vs[i] in vs;
      }
    }
  }

  /** Permuting or repeating the records of a consistent report does not change the exit code. */
  lemma RecordOrderIrrelevant(env: Env, es: seq<Record>, vs: seq<Vuln>, vs': seq<Vuln>)
    requires Consistent(env, vs) && forall v :: v in vs <==> v in vs'
    ensures Gate(env, es, vs) == Some([]) <==> Gate(env, es, vs') == Some([])
  {
    assert Consistent(env, vs');
    ExitZeroIff(env, es, vs);
    ExitZeroIff(env, es, vs');
    PassesIffSettled(env, es, vs);
    PassesIffSettled(env, es, vs');
  }

  /** Swapping two blocks of the exception file, each starting with a record, does not change the
      exit code: neither whether reading it raises, nor the verdict. */
  lemma FileBlocksCommute(env: Env, a: seq<string>, b: seq<string>, vs: seq<Vuln>)
    requires StartsFresh(a) && StartsFresh(b)
    ensures Parse(a + b).Some? <==> Parse(b + a).Some?
    ensures Parse(a + b).Some? ==>
              (Gate(env, Parse(a + b).value, vs) == Some([]) <==> Gate(env, Parse(b + a).value, vs) == Some([]))
  {
    ParseAppend(a, b);
    ParseAppend(b, a);
    if Parse(a + b).Some? {
      var x, y := Parse(a).value, Parse(b).value;
      assert multiset(x + y) == multiset(y + x);
      ExceptionOrderIrrelevant(env, x + y, y + x, vs);
    }
  }

  // ---------------------------------------------------------------- when the order of records matters

  ghost predicate Reorders(vs: seq<Vuln>, vs': seq<Vuln>) {
    multiset(vs) == multiset(vs')
  }

  lemma SameElements(vs: seq<Vuln>, vs': seq<Vuln>, v: Vuln)
    requires Reorders(vs, vs')
    ensures v in vs <==> v in vs'
  {
    assert v in vs <==> v in multiset(vs);
    assert v in vs' <==> v in multiset(vs');
  }

  /** The verdict on every reordering. */
  ghost predicate AlwaysPasses(env: Env, es: seq<Record>, vs: seq<Vuln>) {
    forall vs' | Reorders(vs, vs') :: Gate(env, es, vs') == Some([])
  }

  ghost predicate CanPass(env: Env, es: seq<Record>, vs: seq<Vuln>) {
    exists vs' :: Reorders(vs, vs') && Gate(env, es, vs') == Some([])
  }

  ghost predicate AllSettled(env: Env, es: seq<Record>, vs: seq<Vuln>) {
    Orderly(env, es, |es|) && forall v | v in vs :: Settled(env, es, v)
  }

  lemma SettledPasses(env: Env, es: seq<Record>, vs: seq<Vuln>)
    requires AllSettled(env, es, vs)
    ensures Gate(env, es, vs) == Some([])
  {
    ExitZeroIff(env, es, vs);
    forall i | 0 <= i < |vs| ensures Acceptable(env, es, vs, i) {
      assert vs[i] in vs;
    }
  }

  /** The same records with v in front. */
  lemma InFront(vs: seq<Vuln>, v: Vuln) returns (vs': seq<Vuln>)
    requires v in vs
    ensures Reorders(vs, vs') && |vs'| > 0 && vs'[0] == v
  {
    var i :| 0 <= i < |vs| && vs[i] == v;
    vs' := [v] + (vs[..i] + vs[i + 1..]);
    assert vs == vs[..i] + [v] + vs[i + 1..];
  }

  lemma FirstSettled(env: Env, es: seq<Record>, vs: seq<Vuln>)
    requires |vs| > 0 && Passes(env, es, vs)
    ensures Settled(env, es, vs[0])
  {
    assert Acceptable(env, es, vs, 0);
    if Relevant(env, vs[0]) {
      assert !SeenBefore(env, vs, 0, KeyOfVuln(env, vs[0]));
    }
  }

  /** Every order of the records passes exactly if the exceptions are orderly and every record is
      settled by itself. */
  lemma EveryOrderPasses(env: Env, es: seq<Record>, vs: seq<Vuln>)
    ensures AlwaysPasses(env, es, vs) <==> AllSettled(env, es, vs)
  {
    if AllSettled(env, es, vs) {
      forall vs' | Reorders(vs, vs') ensures Gate(env, es, vs') == Some([]) {
        forall v | v in vs' ensures Settled(env, es, v) { SameElements(vs, vs', v); }
        SettledPasses(env, es, vs');
      }
    }
    if AlwaysPasses(env, es, vs) {
      assert Reorders(vs, vs);
      ExitZeroIff(env, es, vs);
      forall v | v in vs ensures Settled(env, es, v) {
        var vs' := InFront(vs, v);
        ExitZeroIff(env, es, vs');
        FirstSettled(env, es, vs');
      }
    }
  }

  /** Record w is relevant, has key k and is covered. */
  ghost predicate Answers(env: Env, es: seq<Record>, w: Vuln, k: Key) {
    Relevant(env, w) && KeyOfVuln(env, w) == k && Excused(env, es, w)
  }

  /** Record v raises nothing, has an advisory if relevant, and some record of its key is covered. */
  ghost predicate Salvageable(env: Env, es: seq<Record>, vs: seq<Vuln>, v: Vuln) {
    && NormalizeSeverity(env, v.severity).Some?
    && (Relevant(env, v) ==>
          KeyOfVuln(env, v).1 != "" && exists w :: w in vs && Answers(env, es, w, KeyOfVuln(env, v)))
  }

  ghost predicate AllSalvageable(env: Env, es: seq<Record>, vs: seq<Vuln>) {
    Orderly(env, es, |es|) && forall v | v in vs :: Salvageable(env, es, vs, v)
  }

  /** The first record with the key of record i. */
  lemma {:induction false} FirstOfKey(env: Env, vs: seq<Vuln>, i: nat) returns (j: nat)
    requires i < |vs| && Relevant(env, vs[i])
    ensures j < |vs| && Relevant(env, vs[j]) && KeyOfVuln(env, vs[j]) == KeyOfVuln(env, vs[i])
    ensures !SeenBefore(env, vs, j, KeyOfVuln(env, vs[j]))
  {
    if SeenBefore(env, vs, i, KeyOfVuln(env, vs[i])) {
      var h :| 0 <= h < i && Relevant(env, vs[h]) && KeyOfVuln(env, vs[h]) == KeyOfVuln(env, vs[i]);
      j := FirstOfKey(env, vs, h);
    } else {
      j := i;
    }
  }

  lemma PassingSalvages(env: Env, es: seq<Record>, vs: seq<Vuln>, i: nat)
    requires Passes(env, es, vs) && i < |vs|
    ensures Salvageable(env, es, vs, vs[i])
  {
    assert Acceptable(env, es, vs, i);
    if Relevant(env, vs[i]) {
      var j := FirstOfKey(env, vs, i);
      assert Acceptable(env, es, vs, j);
      assert vs[j] in vs && Answers(env, es, vs[j], KeyOfVuln(env, vs[i]));
    }
  }

  /** The covered records, and the others. */
  ghost function Part(env: Env, es: seq<Record>, vs: seq<Vuln>, covered: bool): (out: seq<Vuln>)
    ensures forall v | v in out :: v in vs && (covered <==> (Relevant(env, v) && Excused(env, es, v)))
  {
    if vs == [] then []
    else if (Relevant(env, vs[0]) && Excused(env, es, vs[0])) == covered then [vs[0]] + Part(env, es, vs[1..], covered)
    else Part(env, es, vs[1..], covered)
  }

  lemma {:induction false} PartsMakeWhole(env: Env, es: seq<Record>, vs: seq<Vuln>)
    ensures multiset(Part(env, es, vs, true)) + multiset(Part(env, es, vs, false)) == multiset(vs)
  {
    if vs != [] {
      PartsMakeWhole(env, es, vs[1..]);
      assert vs == [vs[0]] + vs[1..];
    }
  }

  lemma {:induction false} InPart(env: Env, es: seq<Record>, vs: seq<Vuln>, v: Vuln)
    requires v in vs && Relevant(env, v) && Excused(env, es, v)
    ensures v in Part(env, es, vs, true)
  {
    if v != vs[0] {
      InPart(env, es, vs[1..], v);
    }
  }

  lemma SeenInFront(env: Env, front: seq<Vuln>, back: seq<Vuln>, w: Vuln, i: nat)
    requires w in front && |front| <= i <= |front + back| && Relevant(env, w)
    ensures SeenBefore(env, front + back, i, KeyOfVuln(env, w))
  {
    var j :| 0 <= j < |front| && front[j] == w;
    assert (front + back)[j] == w;
  }

  lemma AcceptableIf(env: Env, es: seq<Record>, vs: seq<Vuln>, all: seq<Vuln>, i: nat)
    requires i < |all| && Salvageable(env, es, vs, all[i])
    requires Relevant(env, all[i]) ==> Excused(env, es, all[i]) || SeenBefore(env, all, i, KeyOfVuln(env, all[i]))
    ensures Acceptable(env, es, all, i)
  {
  }

  /** With the covered records in front, every salvageable report passes. */
  lemma CoveredFirst(env: Env, es: seq<Record>, vs: seq<Vuln>, front: seq<Vuln>, back: seq<Vuln>, i: nat)
    requires AllSalvageable(env, es, vs) && front == Part(env, es, vs, true) && back == Part(env, es, vs, false)
    requires i < |front + back|
    ensures Acceptable(env, es, front + back, i)
  {
    var all := front + back;
    var v := all[i];
    assert if i < |front| then v in front else v in back;
    assert Salvageable(env, es, vs, v);
    if |front| <= i && Relevant(env, v) {
      var w :| w in vs && Answers(env, es, w, KeyOfVuln(env, v));
      InPart(env, es, vs, w);
      SeenInFront(env, front, back, w, i);
    }
    AcceptableIf(env, es, vs, all, i);
  }

  lemma SalvagePasses(env: Env, es: seq<Record>, vs: seq<Vuln>) returns (vs': seq<Vuln>)
    requires AllSalvageable(env, es, vs)
    ensures Reorders(vs, vs') && Gate(env, es, vs') == Some([])
  {
    var front, back := Part(env, es, vs, true), Part(env, es, vs, false);
    vs' := front + back;
    PartsMakeWhole(env, es, vs);
    ExitZeroIff(env, es, vs');
    forall i | 0 <= i < |vs'| ensures Acceptable(env, es, vs', i) {
      CoveredFirst(env, es, vs, front, back, i);
    }
  }

  /** Some order of the records passes exactly if the exceptions are orderly, no severity is
      malformed, no relevant record lacks an advisory, and every relevant key has a covered record. */
  lemma SomeOrderPasses(env: Env, es: seq<Record>, vs: seq<Vuln>)
    ensures CanPass(env, es, vs) <==> AllSalvageable(env, es, vs)
  {
    if AllSalvageable(env, es, vs) {
      var vs' := SalvagePasses(env, es, vs);
    }
    if CanPass(env, es, vs) {
      var vs' :| Reorders(vs, vs') && Gate(env, es, vs') == Some([]);
      ExitZeroIff(env, es, vs');
      forall v | v in vs ensures Salvageable(env, es, vs, v) {
        SameElements(vs, vs', v);
        var i :| 0 <= i < |vs'| && vs'[i] == v;
        PassingSalvages(env, es, vs', i);
        SalvageableMoves(env, es, vs, vs', v);
      }
    }
  }

  lemma SalvageableMoves(env: Env, es: seq<Record>, vs: seq<Vuln>, vs': seq<Vuln>, v: Vuln)
    requires Reorders(vs, vs') && Salvageable(env, es, vs', v)
    ensures Salvageable(env, es, vs, v)
  {
    if Relevant(env, v) {
      var w :| w in vs' && Answers(env, es, w, KeyOfVuln(env, v));
      SameElements(vs, vs', w);
    }
  }

  /** The verdict depends on the order of the records. */
  ghost predicate OrderMatters(env: Env, es: seq<Record>, vs: seq<Vuln>) {
    CanPass(env, es, vs) && !AlwaysPasses(env, es, vs)
  }

  /** Exactly when it does: every relevant key has a covered record, but not every relevant record is
      covered. */
  lemma OrderMattersIff(env: Env, es: seq<Record>, vs: seq<Vuln>)
    ensures OrderMatters(env, es, vs) <==>
              AllSalvageable(env, es, vs) && exists v :: v in vs && Relevant(env, v) && !Excused(env, es, v)
  {
    EveryOrderPasses(env, es, vs);
    SomeOrderPasses(env, es, vs);
    if AllSalvageable(env, es, vs) {
      assert forall v | v in vs :: Salvageable(env, es, vs, v);
    }
  }

  // ---------------------------------------------------------------- a report whose order matters

  /** Lower-casing and date reading as they are, before the year 2100. */
  predicate Ordinary(env: Env) {
    && env.lower("a") == "a" && env.lower("high") == "high" && env.lower("critical") == "critical"
    && env.parseDate("2099-12-31").Some? && env.today <= env.parseDate("2099-12-31").value
  }

  const SampleException: Record := map[
    "package" := "p", "advisory" := "a", "severity" := "high", "mitigation" := "m", "expires_on" := "2099-12-31"]

  function SampleVuln(severity: string): Vuln {
    Vuln(Str("p"), Str(severity), Str("a"), Absent)
  }

  lemma SampleWellFormed(env: Env, e: Record)
    requires Ordinary(env) && e == SampleException
    ensures WellFormed(env, e) && KeyOfException(env, e) == ("p", "a") && SeverityOf(env, e) == "high"
    ensures ExpiresOn(env, e).value >= env.today
  {
    StripTrimmed("p");
    StripTrimmed("a");
    StripTrimmed("high");
  }

  lemma SampleRelevant(env: Env, severity: string)
    requires Ordinary(env) && Trimmed(severity) && High(severity)
    ensures Relevant(env, SampleVuln(severity)) && KeyOfVuln(env, SampleVuln(severity)) == ("p", "a")
    ensures NormalizeSeverity(env, SampleVuln(severity).severity) == Some(severity)
  {
    StripTrimmed("p");
    StripTrimmed("a");
    StripTrimmed(severity);
  }

  /** One exception for severity high, and the same advisory reported as high and as critical: with
      the high record first the gate returns 0, with the critical one first it does not. */
  lemma OrderWitness(env: Env, es: seq<Record>, v: Vuln, w: Vuln)
    requires Ordinary(env) && es == [SampleException] && v == SampleVuln("high") && w == SampleVuln("critical")
    ensures Gate(env, es, [v, w]) == Some([])
    ensures Gate(env, es, [w, v]) != Some([])
    ensures OrderMatters(env, es, [v, w])
  {
    SampleWellFormed(env, es[0]);
    SampleRelevant(env, "high");
    SampleRelevant(env, "critical");
    SampleExcuses(env, es, v, w);
    PairPasses(env, es, v, w);
    PairPasses(env, es, w, v);
    PairOrderMatters(env, es, v, w);
  }

  lemma PairOrderMatters(env: Env, es: seq<Record>, v: Vuln, w: Vuln)
    requires Gate(env, es, [v, w]) == Some([]) && Gate(env, es, [w, v]) != Some([])
    ensures OrderMatters(env, es, [v, w])
  {
    assert multiset([v, w]) == multiset([w, v]);
    assert Reorders([v, w], [w, v]) && Reorders([v, w], [v, w]);
  }

  lemma SampleExcuses(env: Env, es: seq<Record>, v: Vuln, w: Vuln)
    requires |es| == 1 && WellFormed(env, es[0]) && KeyOfException(env, es[0]) == ("p", "a")
    requires SeverityOf(env, es[0]) == "high" && ExpiresOn(env, es[0]).value >= env.today
    requires Relevant(env, v) && KeyOfVuln(env, v) == ("p", "a")
    requires NormalizeSeverity(env, v.severity) == Some("high")
    requires Relevant(env, w) && KeyOfVuln(env, w) == ("p", "a")
    requires NormalizeSeverity(env, w.severity) == Some("critical")
    ensures Orderly(env, es, 1) && Excused(env, es, v) && !Excused(env, es, w)
  {
    assert "high" != "critical" by { assert "high"[0] != "critical"[0]; }
    assert Covers(env, es[0], "high");
  }

  /** Of two records with one key only the first decides. */
  lemma PairPasses(env: Env, es: seq<Record>, v: Vuln, w: Vuln)
    requires Orderly(env, es, |es|)
    requires Relevant(env, v) && Relevant(env, w) && KeyOfVuln(env, v) == KeyOfVuln(env, w) && KeyOfVuln(env, v).1 != ""
    ensures Gate(env, es, [v, w]) == Some([]) <==> Excused(env, es, v)
  {
    var vs := [v, w];
    ExitZeroIff(env, es, vs);
    assert !SeenBefore(env, vs, 0, KeyOfVuln(env, v));
    assert Acceptable(env, es, vs, 0) <==> Excused(env, es, v);
    assert vs[0] == v && vs[1] == w;
    assert SeenBefore(env, vs, 1, KeyOfVuln(env, w));
    assert Acceptable(env, es, vs, 1);
  }
}
