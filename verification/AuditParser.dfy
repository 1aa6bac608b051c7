/** The exception list reader of the audit gate: split_kv and parse_exceptions. */
module AuditParser {
  import opened Schema
  import opened Strings

  // ---------------------------------------------------------------- strings

  /** The characters str.strip() removes. */
  predicate IsSpace(c: char) {
    var n := c as int;
    || 9 <= n <= 13 || 28 <= n <= 32 || n == 0x85 || n == 0xA0 || n == 0x1680
    || 0x2000 <= n <= 0x200A || n == 0x2028 || n == 0x2029 || n == 0x202F || n == 0x205F || n == 0x3000
  }

  /** Among the ASCII characters: blank, tab, the four vertical moves and the four separators. */
  lemma AsciiSpaces(c: char)
    requires c as int < 128
    ensures IsSpace(c) <==> c in [' ', '\t', '\n', '\r', 11 as char, 12 as char, 28 as char, 29 as char, 30 as char,
                                  31 as char]
  {
  }

  function StripLeft(s: string): string {
    if s != "" && IsSpace(s[0]) then StripLeft(s[1..]) else s
  }

  function StripRight(s: string): string {
    if s != "" && IsSpace(s[|s| - 1]) then StripRight(s[..|s| - 1]) else s
  }

  function Strip(s: string): string {
    StripRight(StripLeft(s))
  }

  /** The position of the first c in s, or |s|. */
  function Find(s: string, c: char): (i: nat)
    ensures i <= |s|
    ensures forall j | 0 <= j < i :: s[j] != c
    ensures i < |s| ==> s[i] == c
  {
    if s == "" || s[0] == c then 0 else Find(s[1..], c) + 1
  }

  predicate Trimmed(s: string) {
    s == "" || (!IsSpace(s[0]) && !IsSpace(s[|s| - 1]))
  }

  lemma {:induction false} StripLeftTrims(s: string)
    ensures StripLeft(s) == "" || !IsSpace(StripLeft(s)[0])
    ensures StripLeft(s) != "" ==> s != "" && StripLeft(s)[|StripLeft(s)| - 1] == s[|s| - 1]
    ensures s != "" && !IsSpace(s[|s| - 1]) ==> StripLeft(s) != ""
  {
    if s != "" && IsSpace(s[0]) { StripLeftTrims(s[1..]); }
  }

  lemma {:induction false} StripRightTrims(s: string)
    ensures StripRight(s) == "" || !IsSpace(StripRight(s)[|StripRight(s)| - 1])
    ensures StripRight(s) != "" ==> s != "" && StripRight(s)[0] == s[0]
    ensures s != "" && !IsSpace(s[|s| - 1]) ==> StripRight(s) == s
  {
    if s != "" && IsSpace(s[|s| - 1]) { StripRightTrims(s[..|s| - 1]); }
  }

  lemma StripTrims(s: string)
    ensures Trimmed(Strip(s))
    ensures s != "" && !IsSpace(s[|s| - 1]) ==> Strip(s) != ""
  {
    StripLeftTrims(s);
    StripRightTrims(StripLeft(s));
  }

  lemma StripTrimmed(s: string)
    requires Trimmed(s)
    ensures Strip(s) == s
  {
  }

  /** Spaces around a trimmed text go away. */
  lemma {:induction false} StripAround(before: string, s: string, after: string)
    requires Trimmed(s)
    requires forall i | 0 <= i < |before| :: IsSpace(before[i])
    requires forall i | 0 <= i < |after| :: IsSpace(after[i])
    ensures Strip(before + s + after) == s
    decreases |before| + |after|
  {
    var all := before + s + after;
    if before != "" {
      assert all[1..] == before[1..] + s + after;
      StripAround(before[1..], s, after);
    } else if s == "" {
      assert all == after;
      if after != "" {
        assert all[1..] == "" + s + after[1..];
        StripAround("", s, after[1..]);
      }
    } else if after != "" {
      assert all[0] == s[0];
      assert all[..|all| - 1] == "" + s + after[..|after| - 1];
      StripAround("", s, after[..|after| - 1]);
      assert StripLeft("" + s + after[..|after| - 1]) == "" + s + after[..|after| - 1];
    } else {
      assert all == s;
    }
  }

  // ---------------------------------------------------------------- split_kv

  function Unquote(v: string): string {
    if |v| > 0 && ((v[0] == '"' && v[|v| - 1] == '"') || (v[0] == '\'' && v[|v| - 1] == '\''))
    then if |v| == 1 then "" else v[1..|v| - 1]
    else v
  }

  /** None is the ValueError for a line without a colon. */
  function SplitKv(line: string): (r: Option<(string, string)>)
    ensures r.None? <==> ':' !in line
    ensures r.Some? ==> exists i | 0 <= i < |line| ::
              && line[i] == ':' && ':' !in line[..i]
              && r.value == (Strip(line[..i]), Unquote(Strip(line[i + 1..])))
  {
    var i := Find(line, ':');
    if i == |line| then None else Some((Strip(line[..i]), Unquote(Strip(line[i + 1..]))))
  }

  // ---------------------------------------------------------------- parse_exceptions

  type Record = map<string, string>

  /** What a line is to the reader. */
  datatype Line = Nothing | Open(body: string) | Field(body: string)

  function Classify(raw: string): Line {
    var line := Strip(raw);
    if line == "" || line[0] == '#' then Nothing
    else if StartsWith(line, "version:") || StartsWith(line, "exceptions:") then Nothing
    else if StartsWith(line, "- ") then Open(Strip(line[2..]))
    else if ':' in line then Field(line)
    else Nothing
  }

  datatype State = State(done: seq<Record>, current: Option<Record>)

  function Close(s: State): seq<Record> {
    if s.current.Some? && s.current.value != map[] then s.done + [s.current.value] else s.done
  }

  function Insert(r: Record, body: string): Option<Record> {
    match SplitKv(body)
    case None => None
    case Some(kv) => Some(r[kv.0 := kv.1])
  }

  /** One line; None means that parsing raised. */
  function Step(s: State, line: Line): Option<State> {
    match line
    case Nothing => Some(s)
    case Open(body) =>
      var r := if body == "" then Some(map[]) else Insert(map[], body);
      if r.None? then None else Some(State(Close(s), r))
    case Field(body) =>
      if s.current.None? then Some(s)
      else
        var r := Insert(s.current.value, body);
        if r.None? then None else Some(s.(current := r))
  }

  function Fold(s: Option<State>, lines: seq<string>): Option<State>
    decreases lines
  {
    if lines == [] || s.None? then s else Fold(Step(s.value, Classify(lines[0])), lines[1..])
  }

  const Start: State := State([], None)

  function Parse(lines: seq<string>): Option<seq<Record>> {
    var s := Fold(Some(Start), lines);
    if s.None? then None else Some(Close(s.value))
  }

  /** The loop of the source. */
  method ParseExceptions(lines: seq<string>) returns (r: Option<seq<Record>>)
    ensures r == Parse(lines)
  {
    var exceptions: seq<Record> := [];
    var current: Option<Record> := None;
    for n := 0 to |lines|
      invariant Fold(Some(State(exceptions, current)), lines[n..]) == Fold(Some(Start), lines)
    {
      assert lines[n..][0] == lines[n] && lines[n..][1..] == lines[n + 1..];
      var line := Strip(lines[n]);
      if line == "" || line[0] == '#' {
        continue;
      }
      if StartsWith(line, "version:") || StartsWith(line, "exceptions:") {
        continue;
      }
      if StartsWith(line, "- ") {
        if current.Some? && current.value != map[] {
          exceptions := exceptions + [current.value];
        }
        current := Some(map[]);
        line := Strip(line[2..]);
        if line != "" {
          var kv := SplitKv(line);
          if kv.None? {
            return None;
          }
          current := Some(current.value[kv.value.0 := kv.value.1]);
        }
        continue;
      }
      if current.Some? && ':' in line {
        var kv := SplitKv(line);
        current := Some(current.value[kv.value.0 := kv.value.1]);
      }
    }
    if current.Some? && current.value != map[] {
      exceptions := exceptions + [current.value];
    }
    return Some(exceptions);
  }

  // ---------------------------------------------------------------- records and opening lines

  /** A line whose stripped form starts with a dash and a space. */
  predicate Opens(raw: string) {
    StartsWith(Strip(raw), "- ")
  }

  function Count(lines: seq<string>): nat {
    if lines == [] then 0 else (if Opens(lines[0]) then 1 else 0) + Count(lines[1..])
  }

  /** Every opening line is read as one, and carries the first field of its record. */
  lemma OpensIsOpen(raw: string)
    ensures Opens(raw) <==> Classify(raw).Open?
    ensures Opens(raw) ==> Classify(raw).body != ""
  {
    var line := Strip(raw);
    StripTrims(raw);
    if StartsWith(line, "- ") {
      PrefixAt(line, "- ", 0);
      PrefixAt(line, "- ", 1);
      PrefixAt(line, "version:", 0);
      PrefixAt(line, "exceptions:", 0);
      assert |line| > 2;
      assert line[2..][|line[2..]| - 1] == line[|line| - 1];
      StripTrims(line[2..]);
    }
  }

  /** A reachable state: no record is empty. */
  predicate Full(s: State) {
    && (forall i | 0 <= i < |s.done| :: s.done[i] != map[])
    && (s.current.Some? ==> s.current.value != map[])
  }

  lemma InsertFills(r: Record, body: string)
    ensures Insert(r, body).Some? ==> Insert(r, body).value != map[]
  {
    var kv := SplitKv(body);
    if kv.Some? {
      assert kv.value.0 in r[kv.value.0 := kv.value.1];
    }
  }

  lemma StepFull(s: State, raw: string)
    requires Full(s) && Step(s, Classify(raw)).Some?
    ensures Full(Step(s, Classify(raw)).value)
    ensures |Close(Step(s, Classify(raw)).value)| == |Close(s)| + if Opens(raw) then 1 else 0
  {
    OpensIsOpen(raw);
    match Classify(raw)
    case Nothing =>
    case Open(body) => InsertFills(map[], body);
    case Field(body) => if s.current.Some? { InsertFills(s.current.value, body); }
  }

  lemma {:induction false} FoldFull(s: State, lines: seq<string>)
    requires Full(s) && Fold(Some(s), lines).Some?
    ensures Full(Fold(Some(s), lines).value)
    ensures |Close(Fold(Some(s), lines).value)| == |Close(s)| + Count(lines)
    decreases lines
  {
    if lines != [] {
      StepFull(s, lines[0]);
      FoldFull(Step(s, Classify(lines[0])).value, lines[1..]);
    }
  }

  /** Whenever parsing does not raise, there are as many records as opening lines, and none of them
      is empty. */
  lemma RecordPerOpening(lines: seq<string>)
    requires Parse(lines).Some?
    ensures |Parse(lines).value| == Count(lines)
    ensures forall i | 0 <= i < |Parse(lines).value| :: Parse(lines).value[i] != map[]
  {
    FoldFull(Start, lines);
  }

  /** An opening line without a colon is the one thing that makes parsing raise. */
  predicate Breaks(raw: string) {
    Classify(raw).Open? && Classify(raw).body != "" && ':' !in Classify(raw).body
  }

  lemma StepRaises(s: State, raw: string)
    ensures Step(s, Classify(raw)).None? <==> Breaks(raw)
  {
  }

  lemma {:induction false} FoldRaises(s: State, lines: seq<string>)
    ensures Fold(Some(s), lines).None? <==> exists i | 0 <= i < |lines| :: Breaks(lines[i])
    decreases lines
  {
    if lines != [] {
      StepRaises(s, lines[0]);
      var t := Step(s, Classify(lines[0]));
      if t.Some? {
        FoldRaises(t.value, lines[1..]);
        assert forall i | 1 <= i < |lines| :: lines[i] == lines[1..][i - 1];
      }
    }
  }

  lemma RaisesIff(lines: seq<string>)
    ensures Parse(lines).None? <==> exists i | 0 <= i < |lines| :: Breaks(lines[i])
  {
    FoldRaises(Start, lines);
  }

  // ---------------------------------------------------------------- concatenation

  lemma {:induction false} FoldAppend(s: Option<State>, a: seq<string>, b: seq<string>)
    ensures Fold(s, a + b) == Fold(Fold(s, a), b)
    decreases a
  {
    if a == [] {
      assert a + b == b;
    } else if s.Some? {
      assert (a + b)[0] == a[0] && (a + b)[1..] == a[1..] + b;
      FoldAppend(Step(s.value, Classify(a[0])), a[1..], b);
    }
  }

  /** Lines that mean nothing can be inserted anywhere. */
  lemma InsertNothing(a: seq<string>, x: string, b: seq<string>)
    requires Classify(x).Nothing?
    ensures Parse(a + [x] + b) == Parse(a + b)
  {
    FoldAppend(Some(Start), a, b);
    FoldAppend(Some(Start), a + [x], b);
    FoldAppend(Some(Start), a, [x]);
    var s := Fold(Some(Start), a);
    if s.Some? {
      assert [x][1..] == [];
      assert Fold(s, [x]) == Fold(Step(s.value, Classify(x)), []);
    }
  }

  /** Comments, blank lines and the two headers mean nothing, however they are indented. */
  lemma CommentsMeanNothing(x: string)
    requires Strip(x) == "" || Strip(x)[0] == '#' || StartsWith(Strip(x), "version:") || StartsWith(Strip(x),
               "exceptions:")
    ensures Classify(x).Nothing?
  {
  }

  /** Lines before the first opening line are not read at all. */
  lemma {:induction false} PreambleIgnored(a: seq<string>, b: seq<string>)
    requires forall i | 0 <= i < |a| :: !Opens(a[i])
    ensures Parse(a + b) == Parse(b)
  {
    if a == [] {
      assert a + b == b;
    } else {
      OpensIsOpen(a[0]);
      assert (a + b)[0] == a[0] && (a + b)[1..] == a[1..] + b;
      PreambleIgnored(a[1..], b);
    }
  }

  /** The first line of b that means something, if any, opens a record. */
  predicate StartsFresh(b: seq<string>) {
    b == [] || Classify(b[0]).Open? || (Classify(b[0]).Nothing? && StartsFresh(b[1..]))
  }

  /** s with earlier records put in front. */
  function After(done: seq<Record>, s: Option<State>): Option<State> {
    if s.None? then None else Some(State(done + s.value.done, s.value.current))
  }

  lemma StepAfter(done: seq<Record>, s: State, line: Line)
    ensures Step(State(done + s.done, s.current), line) == After(done, Step(s, line))
  {
    if line.Open? && s.current.Some? && s.current.value != map[] {
      assert (done + s.done) + [s.current.value] == done + (s.done + [s.current.value]);
    }
  }

  lemma {:induction false} FoldAfter(done: seq<Record>, s: State, lines: seq<string>)
    ensures Fold(Some(State(done + s.done, s.current)), lines) == After(done, Fold(Some(s), lines))
    decreases lines
  {
    if lines != [] {
      var line := Classify(lines[0]);
      StepAfter(done, s, line);
      var t := Step(s, line);
      if t.Some? {
        FoldAfter(done, t.value, lines[1..]);
      }
    }
  }

  /** Reading lines that start fresh: what was read before is closed and put in front. */
  lemma {:induction false} FoldFresh(s: State, b: seq<string>)
    requires StartsFresh(b)
    ensures var t, u := Fold(Some(s), b), Fold(Some(Start), b);
            && (t.None? <==> u.None?)
            && (t.Some? ==> Close(t.value) == Close(s) + Close(u.value))
  {
    if b == [] {
      assert Close(s) + [] == Close(s);
    } else if Classify(b[0]).Nothing? {
      FoldFresh(s, b[1..]);
    } else {
      var line := Classify(b[0]);
      var first := Step(Start, line);
      assert Close(s) + [] == Close(s);
      assert Step(s, line) == After(Close(s), first);
      if first.Some? {
        FoldAfter(Close(s), first.value, b[1..]);
        CloseAfter(Close(s), Fold(first, b[1..]));
      }
    }
  }

  lemma CloseAfter(done: seq<Record>, s: Option<State>)
    ensures s.Some? ==> Close(After(done, s).value) == done + Close(s.value)
  {
  }

  /** parse(a ++ b) = parse(a) ++ parse(b) when b starts fresh; it raises iff one of them does. */
  lemma ParseAppend(a: seq<string>, b: seq<string>)
    requires StartsFresh(b)
    ensures Parse(a + b) ==
              if Parse(a).Some? && Parse(b).Some? then Some(Parse(a).value + Parse(b).value) else None
  {
    FoldAppend(Some(Start), a, b);
    var s := Fold(Some(Start), a);
    if s.Some? {
      FoldFresh(s.value, b);
    }
  }

  // ---------------------------------------------------------------- printing

  /** How a value is written: as it is, or between quotes. */
  datatype Style = Bare | Single | Double

  datatype Item = Item(key: string, value: string, style: Style)

  /** A record in the order in which it is printed. */
  type Entries = seq<Item>

  function Written(v: string, style: Style): string {
    match style
    case Bare => v
    case Single => ['\''] + v + ['\'']
    case Double => ['"'] + v + ['"']
  }

  /** A value can be written as it is if it is trimmed and does not begin and end with one quote. */
  predicate Writable(v: string, style: Style) {
    style == Bare ==>
      Trimmed(v) && !(v != "" && v[0] == v[|v| - 1] && (v[0] == '"' || v[0] == '\''))
  }

  /** An entry that can be read back. */
  predicate Legible(x: Item) {
    Trimmed(x.key) && Colonless(x.key) && Writable(x.value, x.style)
  }

  /** What follows the colon: a space and the value, or nothing. */
  function Rest(x: Item): string {
    var w := Written(x.value, x.style);
    if w == "" then "" else [' '] + w
  }

  /** key: value */
  function Entry(x: Item): string {
    x.key + [':'] + Rest(x)
  }

  predicate Spaces(s: string) {
    forall i | 0 <= i < |s| :: IsSpace(s[i])
  }

  predicate Colonless(k: string) {
    forall i | 0 <= i < |k| :: k[i] != ':'
  }

  lemma FindIn(k: string, rest: string)
    requires Colonless(k)
    ensures Find(k + [':'] + rest, ':') == |k|
  {
    var s := k + [':'] + rest;
    assert s[|k|] == ':';
    assert forall j | 0 <= j < |k| :: s[j] == k[j];
  }

  lemma UnquoteWritten(v: string, style: Style)
    requires Writable(v, style)
    ensures Trimmed(Written(v, style)) && Unquote(Written(v, style)) == v
  {
    if style != Bare {
      var w := Written(v, style);
      assert w[1..|w| - 1] == v;
    }
  }

  /** Splitting a line at its first colon. */
  lemma SplitAt(k: string, before: string, w: string)
    requires Trimmed(k) && Colonless(k) && Spaces(before) && Trimmed(w)
    ensures SplitKv(k + [':'] + (before + w)) == Some((k, Unquote(w)))
  {
    var rest := before + w;
    var line := k + [':'] + rest;
    FindIn(k, rest);
    assert line[..|k|] == k;
    assert line[|k| + 1..] == rest;
    StripTrimmed(k);
    assert rest == before + w + "";
    StripAround(before, w, "");
  }

  /** split_kv undoes Entry, however the value is written. */
  lemma SplitEntry(x: Item)
    requires Legible(x)
    ensures SplitKv(Entry(x)) == Some((x.key, x.value))
  {
    var w := Written(x.value, x.style);
    UnquoteWritten(x.value, x.style);
    if w == "" {
      assert Rest(x) == "" + w;
      SplitAt(x.key, "", w);
    } else {
      assert Rest(x) == [' '] + w;
      SplitAt(x.key, [' '], w);
    }
  }

  lemma AfterColon(k: string, w: string)
    ensures k + ": " + w == k + [':'] + ([' '] + w)
  {
    assert ": " == [':'] + [' '];
    Regroup(k, [':'], [' ']);
    Regroup(k + [':'], [' '], w);
  }

  lemma InQuotes(k: string, q: char, v: string)
    ensures k + ([':'] + [' '] + [q]) + v + [q] == k + [':'] + ([' '] + ([q] + v + [q]))
  {
  }

  /** A trimmed value that does not begin and end with the same quote is kept as it is. */
  lemma SplitBare(k: string, v: string)
    requires Trimmed(k) && Colonless(k) && Trimmed(v)
    requires v == "" || v[0] != v[|v| - 1] || (v[0] != '"' && v[0] != '\'')
    ensures SplitKv(k + ": " + v) == Some((k, v))
  {
    AfterColon(k, v);
    SplitAt(k, [' '], v);
  }

  /** A value between two quotes of one kind, whatever it contains, is what is between them. */
  lemma SplitQuoted(k: string, v: string)
    requires Trimmed(k) && Colonless(k)
    ensures SplitKv(k + ": '" + v + "'") == Some((k, v))
    ensures SplitKv(k + ": \"" + v + "\"") == Some((k, v))
  {
    UnquoteWritten(v, Single);
    UnquoteWritten(v, Double);
    assert ": '" == [':'] + [' '] + ['\''] && ": \"" == [':'] + [' '] + ['"'];
    InQuotes(k, '\'', v);
    InQuotes(k, '"', v);
    SplitAt(k, [' '], Written(v, Single));
    SplitAt(k, [' '], Written(v, Double));
  }

  lemma EntryTrimmed(x: Item)
    requires Legible(x)
    ensures Trimmed(Entry(x)) && Entry(x) != "" && ':' in Entry(x)
  {
    var line, w := Entry(x), Written(x.value, x.style);
    UnquoteWritten(x.value, x.style);
    assert line[|x.key|] == ':';
    assert x.key != "" ==> line[0] == x.key[0];
    assert line[|line| - 1] == if w == "" then ':' else w[|w| - 1];
  }

  /** The line that opens a record: indentation, dash, first entry, line end. */
  function OpenLine(indent: string, x: Item): string {
    indent + (['-'] + [' '] + Entry(x)) + ['\n']
  }

  function FieldLine(indent: string, x: Item): string {
    indent + Entry(x) + ['\n']
  }

  lemma ClassifyOpenLine(indent: string, x: Item)
    requires Spaces(indent) && Legible(x)
    ensures Classify(OpenLine(indent, x)) == Open(Entry(x))
  {
    var e := Entry(x);
    EntryTrimmed(x);
    var line := ['-'] + [' '] + e;
    assert line[|line| - 1] == e[|e| - 1];
    StripAround(indent, line, ['\n']);
    assert line[..2] == "- ";
    assert line[2..] == e;
    StripTrimmed(e);
    OpensIsOpen(OpenLine(indent, x));
  }

  lemma HeaderKey(k: string, rest: string, p: string)
    requires Colonless(k) && Colonless(p)
    ensures StartsWith(k + [':'] + rest, p + [':']) <==> k == p
  {
    var s, h := k + [':'] + rest, p + [':'];
    if StartsWith(s, h) {
      var tail := s[|h|..];
      assert s == p + [':'] + tail;
      FindIn(k, rest);
      FindIn(p, tail);
      assert k == s[..|k|] && p == s[..|p|];
    }
    assert k == p ==> s[..|h|] == h;
  }

  /** The keys that may follow the first one of a record: anything a reader does not take for a
      header, a comment or a new record. */
  predicate Plain(k: string) {
    && k != "version" && k != "exceptions"
    && (k == "" || k[0] != '#')
    && !(|k| >= 2 && k[0] == '-' && k[1] == ' ')
  }

  /** Plain is exact: any other key is lost or starts a record. */
  lemma ClassifyFieldLine(indent: string, x: Item)
    requires Spaces(indent) && Legible(x)
    ensures Classify(FieldLine(indent, x)) == Field(Entry(x)) <==> Plain(x.key)
  {
    var e, k := Entry(x), x.key;
    EntryTrimmed(x);
    StripAround(indent, e, ['\n']);
    assert "version" + [':'] == "version:" && "exceptions" + [':'] == "exceptions:";
    HeaderKey(k, Rest(x), "version");
    HeaderKey(k, Rest(x), "exceptions");
    assert e[0] == if k == "" then ':' else k[0];
    assert |k| >= 2 ==> e[1] == k[1];
    assert |k| == 1 ==> e[1] == ':';
    PrefixAt(e, "- ", 0);
    PrefixAt(e, "- ", 1);
    assert e[0] == '-' && e[1] == ' ' ==> e[..2] == "- ";
  }

  // ---------------------------------------------------------------- the round trip

  /** The dictionary a list of entries stands for. */
  function Dict(es: Entries, n: nat): Record
    requires n <= |es|
  {
    if n == 0 then map[] else Dict(es, n - 1)[es[n - 1].key := es[n - 1].value]
  }

  predicate KeyIn(es: Entries, n: nat, k: string)
    requires n <= |es|
  {
    exists i | 0 <= i < n :: es[i].key == k
  }

  lemma {:induction false} DictKeys(es: Entries, n: nat, k: string)
    requires n <= |es|
    ensures k in Dict(es, n) <==> KeyIn(es, n, k)
  {
    if n > 0 {
      DictKeys(es, n - 1, k);
      assert es[n - 1].key == k ==> KeyIn(es, n, k);
    }
  }

  predicate DistinctKeys(es: Entries) {
    forall i, j | 0 <= i < j < |es| :: es[i].key != es[j].key
  }

  /** With distinct keys the dictionary has exactly the listed entries. */
  lemma {:induction false} DictOfDistinct(es: Entries, n: nat)
    requires n <= |es| && DistinctKeys(es)
    ensures forall i | 0 <= i < n :: es[i].key in Dict(es, n) && Dict(es, n)[es[i].key] == es[i].value
    ensures |Dict(es, n)| == n
  {
    if n > 0 {
      DictOfDistinct(es, n - 1);
      var k, d := es[n - 1].key, Dict(es, n - 1);
      DictKeys(es, n - 1, k);
      assert k !in d;
      assert d[k := es[n - 1].value].Keys == d.Keys + {k};
    }
  }

  /** Of several entries with one key the last one counts. */
  lemma {:induction false} DictLastWins(es: Entries, n: nat, i: nat)
    requires i < n <= |es| && forall j | i < j < n :: es[j].key != es[i].key
    ensures es[i].key in Dict(es, n) && Dict(es, n)[es[i].key] == es[i].value
  {
    if i < n - 1 {
      DictLastWins(es, n - 1, i);
    }
  }

  /** Printed records can be read back: keys are trimmed and colon-free, and all but the first of a
      record are plain. */
  predicate Printable(es: Entries) {
    && es != []
    && (forall i | 0 <= i < |es| :: Legible(es[i]))
    && (forall i | 1 <= i < |es| :: Plain(es[i].key))
  }

  function PrintRecord(indent: string, es: Entries, n: nat): seq<string>
    requires n <= |es|
  {
    if n == 0 then []
    else if n == 1 then [OpenLine(indent, es[0])]
    else PrintRecord(indent, es, n - 1) + [FieldLine(indent, es[n - 1])]
  }

  function Print(indent: string, rs: seq<Entries>): seq<string> {
    if rs == [] then [] else PrintRecord(indent, rs[0], |rs[0]|) + Print(indent, rs[1..])
  }

  lemma FoldOne(s: State, x: string)
    ensures Fold(Some(s), [x]) == Step(s, Classify(x))
  {
    assert [x][1..] == [];
    assert Fold(Some(s), [x]) == Fold(Step(s, Classify(x)), []);
  }

  lemma StepOpenLine(indent: string, x: Item)
    requires Spaces(indent) && Legible(x)
    ensures Fold(Some(Start), [OpenLine(indent, x)]) == Some(State([], Some(map[x.key := x.value])))
  {
    ClassifyOpenLine(indent, x);
    SplitEntry(x);
    EntryTrimmed(x);
    FoldOne(Start, OpenLine(indent, x));
    assert map[][x.key := x.value] == map[x.key := x.value];
  }

  lemma StepFieldLine(indent: string, r: Record, x: Item)
    requires Spaces(indent) && Legible(x) && Plain(x.key)
    ensures Fold(Some(State([], Some(r))), [FieldLine(indent, x)]) == Some(State([], Some(r[x.key := x.value])))
  {
    ClassifyFieldLine(indent, x);
    SplitEntry(x);
    FoldOne(State([], Some(r)), FieldLine(indent, x));
  }

  lemma {:induction false} FoldRecord(indent: string, es: Entries, n: nat)
    requires Spaces(indent) && Printable(es) && 1 <= n <= |es|
    ensures Fold(Some(Start), PrintRecord(indent, es, n)) == Some(State([], Some(Dict(es, n))))
  {
    if n == 1 {
      FoldFirst(indent, es);
    } else {
      FoldRecord(indent, es, n - 1);
      FoldStep(indent, es, n);
    }
  }

  lemma FoldStep(indent: string, es: Entries, n: nat)
    requires Spaces(indent) && Printable(es) && 1 < n <= |es|
    requires Fold(Some(Start), PrintRecord(indent, es, n - 1)) == Some(State([], Some(Dict(es, n - 1))))
    ensures Fold(Some(Start), PrintRecord(indent, es, n)) == Some(State([], Some(Dict(es, n))))
  {
    FoldNext(indent, PrintRecord(indent, es, n - 1), Dict(es, n - 1), es[n - 1]);
  }

  lemma FoldFirst(indent: string, es: Entries)
    requires Spaces(indent) && Printable(es)
    ensures Fold(Some(Start), PrintRecord(indent, es, 1)) == Some(State([], Some(Dict(es, 1))))
  {
    StepOpenLine(indent, es[0]);
    assert Dict(es, 1) == map[es[0].key := es[0].value];
  }

  lemma FoldNext(indent: string, lines: seq<string>, r: Record, x: Item)
    requires Spaces(indent) && Legible(x) && Plain(x.key)
    requires Fold(Some(Start), lines) == Some(State([], Some(r)))
    ensures Fold(Some(Start), lines + [FieldLine(indent, x)]) == Some(State([], Some(r[x.key := x.value])))
  {
    StepFieldLine(indent, r, x);
    FoldAppend(Some(Start), lines, [FieldLine(indent, x)]);
  }

  lemma {:induction false} RecordOpens(indent: string, es: Entries, n: nat)
    requires Spaces(indent) && Printable(es) && 1 <= n <= |es|
    ensures PrintRecord(indent, es, n) != [] && Classify(PrintRecord(indent, es, n)[0]).Open?
  {
    if n == 1 {
      ClassifyOpenLine(indent, es[0]);
    } else {
      RecordOpens(indent, es, n - 1);
    }
  }

  function Dicts(rs: seq<Entries>): seq<Record> {
    seq(|rs|, i requires 0 <= i < |rs| => Dict(rs[i], |rs[i]|))
  }

  lemma ParseRecord(indent: string, es: Entries)
    requires Spaces(indent) && Printable(es)
    ensures Parse(PrintRecord(indent, es, |es|)) == Some([Dict(es, |es|)])
  {
    var n := |es|;
    FoldRecord(indent, es, n);
    assert es[n - 1].key in Dict(es, n);
    ParseOne(PrintRecord(indent, es, n), Dict(es, n));
  }

  lemma ParseOne(lines: seq<string>, r: Record)
    requires Fold(Some(Start), lines) == Some(State([], Some(r))) && r != map[]
    ensures Parse(lines) == Some([r])
  {
    assert [] + [r] == [r];
  }

  lemma PrintStartsFresh(indent: string, rs: seq<Entries>)
    requires Spaces(indent) && forall i | 0 <= i < |rs| :: Printable(rs[i])
    ensures StartsFresh(Print(indent, rs))
  {
    if rs != [] {
      RecordOpens(indent, rs[0], |rs[0]|);
    }
  }

  /** Printing any list of records and reading the lines returns the same list. */
  lemma {:induction false} PrintThenParse(indent: string, rs: seq<Entries>)
    requires Spaces(indent) && forall i | 0 <= i < |rs| :: Printable(rs[i])
    ensures Parse(Print(indent, rs)) == Some(Dicts(rs))
  {
    if rs != [] {
      ParseRecord(indent, rs[0]);
      PrintThenParse(indent, rs[1..]);
      PrintStartsFresh(indent, rs[1..]);
      ParseAppend(PrintRecord(indent, rs[0], |rs[0]|), Print(indent, rs[1..]));
      assert Dicts(rs) == [Dict(rs[0], |rs[0]|)] + Dicts(rs[1..]);
    } else {
      assert Parse([]) == Some([]);
    }
  }

  // ---------------------------------------------------------------- files

  predicate IsBreak(c: char) {
    c == '\n' || c == '\r'
  }

  /** The position of the first line break, or |t|. */
  function FindBreak(t: string): (i: nat)
    ensures i <= |t|
    ensures forall j | 0 <= j < i :: !IsBreak(t[j])
    ensures i < |t| ==> IsBreak(t[i])
  {
    if t == "" || IsBreak(t[0]) then 0 else FindBreak(t[1..]) + 1
  }

  /** The lines of a file in text mode: each of the three line ends reads as a newline. */
  function Lines(t: string): seq<string> {
    if t == "" then []
    else
      var i := FindBreak(t);
      if i == |t| then [t]
      else
        var next := if t[i] == '\r' && i + 1 < |t| && t[i + 1] == '\n' then i + 2 else i + 1;
        [t[..i] + ['\n']] + Lines(t[next..])
  }

  predicate OneLine(s: string) {
    forall i | 0 <= i < |s| :: !IsBreak(s[i])
  }

  /** The lines end in a newline and have no other line break. */
  predicate Clean(lines: seq<string>) {
    forall i | 0 <= i < |lines| ::
        lines[i] != "" && lines[i][|lines[i]| - 1] == '\n' && OneLine(lines[i][..|lines[i]| - 1])
  }

  /** Non-empty lines, each ending in a newline and without another line break. */
  predicate Filled(lines: seq<string>) {
    Clean(lines) && forall i | 0 <= i < |lines| :: |lines[i]| > 1
  }

  lemma FilledSum(a: seq<string>, b: seq<string>)
    requires Filled(a) && Filled(b)
    ensures Filled(a + b)
  {
  }

  lemma FilledRest(lines: seq<string>)
    requires Filled(lines) && lines != []
    ensures Filled(lines[1..]) && OneLine(lines[0][..|lines[0]| - 1])
    ensures lines[0][..|lines[0]| - 1] != "" && lines[0][..|lines[0]| - 1] + ['\n'] == lines[0]
  {
  }

  /** The three line ends. */
  predicate IsEnd(e: string) {
    e == "\n" || e == "\r\n" || e == "\r"
  }

  predicate AllEnds(ends: seq<string>) {
    forall i | 0 <= i < |ends| :: IsEnd(ends[i])
  }

  /** The text of a file whose line i ends with ends[i]. */
  function Join(lines: seq<string>, ends: seq<string>): string
    requires |lines| == |ends| && Filled(lines)
  {
    if lines == [] then ""
    else
      FilledRest(lines);
      lines[0][..|lines[0]| - 1] + ends[0] + Join(lines[1..], ends[1..])
  }

  /** Cutting off the first line of a text. */
  lemma FirstLine(body: string, e: string, rest: string)
    requires OneLine(body) && IsEnd(e) && (rest == "" || rest[0] != '\n')
    ensures Lines(body + e + rest) == [body + ['\n']] + Lines(rest)
  {
    var t, n := body + e + rest, |body|;
    assert t[n] == e[0];
    assert forall j | 0 <= j < n :: t[j] == body[j];
    assert FindBreak(t) == n;
    assert t[..n] == body;
    if e == "\r\n" {
      assert t[n + 1] == '\n';
      assert t[n + 2..] == rest;
    } else {
      assert t[n + 1..] == rest;
      assert n + 1 < |t| ==> t[n + 1] == rest[0];
    }
  }

  lemma NoLines(tail: string)
    requires OneLine(tail)
    ensures Lines(tail) == if tail == "" then [] else [tail]
  {
    if tail != "" {
      assert FindBreak(tail) == |tail|;
    }
  }

  predicate NotBroken(t: string) {
    t == "" || t[0] != '\n'
  }

  /** Lines that are not empty can be told apart whatever ends them, and the last one may have no end
      at all. */
  lemma {:induction false} LinesOfJoin(lines: seq<string>, ends: seq<string>, tail: string)
    requires Filled(lines) && |ends| == |lines| && AllEnds(ends) && OneLine(tail)
    ensures Lines(Join(lines, ends) + tail) == lines + Lines(tail)
    ensures NotBroken(Join(lines, ends) + tail)
  {
    if lines == [] {
      assert Join(lines, ends) + tail == tail;
      assert lines + Lines(tail) == Lines(tail);
    } else {
      FilledRest(lines);
      LinesOfJoin(lines[1..], ends[1..], tail);
      JoinStep(lines[0][..|lines[0]| - 1], ends[0], Join(lines[1..], ends[1..]), tail, lines);
    }
  }

  lemma JoinStep(body: string, e: string, rest: string, tail: string, lines: seq<string>)
    requires OneLine(body) && body != "" && IsEnd(e) && lines != [] && lines[0] == body + ['\n']
    requires NotBroken(rest + tail) && Lines(rest + tail) == lines[1..] + Lines(tail)
    ensures Lines((body + e + rest) + tail) == lines + Lines(tail) && NotBroken((body + e + rest) + tail)
  {
    Regroup(body + e, rest, tail);
    FirstLine(body, e, rest + tail);
    Regroup([lines[0]], lines[1..], Lines(tail));
    assert [lines[0]] + lines[1..] == lines;
    StartsAlike(body, e, rest + tail);
  }

  lemma Regroup<T>(a: seq<T>, b: seq<T>, c: seq<T>)
    ensures (a + b) + c == a + (b + c)
  {
  }

  lemma StartsAlike(body: string, e: string, rest: string)
    requires OneLine(body) && body != ""
    ensures NotBroken(body + e + rest)
  {
    assert (body + e + rest)[0] == body[0];
  }

  lemma LineFilled(body: string)
    requires OneLine(body) && body != ""
    ensures Filled([body + ['\n']])
  {
    var x := body + ['\n'];
    assert x[..|x| - 1] == body;
  }

  lemma OneLineSum(a: string, b: string)
    requires OneLine(a) && OneLine(b)
    ensures OneLine(a + b)
  {
  }

  lemma EntryOneLine(x: Item)
    requires OneLine(x.key) && OneLine(x.value)
    ensures OneLine(Entry(x))
  {
    OneLineSum(['"'], x.value);
    OneLineSum(['\''], x.value);
    OneLineSum([' '], Written(x.value, x.style));
    OneLineSum(x.key, [':']);
    OneLineSum(x.key + [':'], Rest(x));
  }

  /** No key and no value has a line break. */
  predicate Unbroken(es: Entries) {
    forall i | 0 <= i < |es| :: OneLine(es[i].key) && OneLine(es[i].value)
  }

  lemma OpenFilled(indent: string, x: Item)
    requires OneLine(indent) && OneLine(x.key) && OneLine(x.value)
    ensures Filled([OpenLine(indent, x)]) && Filled([FieldLine(indent, x)])
  {
    EntryOneLine(x);
    OneLineSum(['-'] + [' '], Entry(x));
    OneLineSum(indent, ['-'] + [' '] + Entry(x));
    OneLineSum(indent, Entry(x));
    LineFilled(indent + (['-'] + [' '] + Entry(x)));
    LineFilled(indent + Entry(x));
  }

  lemma {:induction false} RecordFilled(indent: string, es: Entries, n: nat)
    requires OneLine(indent) && n <= |es| && Unbroken(es)
    ensures Filled(PrintRecord(indent, es, n))
  {
    if n > 0 {
      OpenFilled(indent, es[n - 1]);
      if n > 1 {
        RecordFilled(indent, es, n - 1);
        FilledSum(PrintRecord(indent, es, n - 1), [FieldLine(indent, es[n - 1])]);
      }
    }
  }

  lemma {:induction false} PrintFilled(indent: string, rs: seq<Entries>)
    requires OneLine(indent) && forall i | 0 <= i < |rs| :: Unbroken(rs[i])
    ensures Filled(Print(indent, rs))
  {
    if rs != [] {
      RecordFilled(indent, rs[0], |rs[0]|);
      PrintFilled(indent, rs[1..]);
      FilledSum(PrintRecord(indent, rs[0], |rs[0]|), Print(indent, rs[1..]));
    }
  }

  /** The same over file contents, for values and keys free of line breaks and lines ended in any of
      the three ways. */
  lemma FileRoundTrip(indent: string, rs: seq<Entries>, ends: seq<string>)
    requires Spaces(indent) && OneLine(indent) && forall i | 0 <= i < |rs| :: Printable(rs[i]) && Unbroken(rs[i])
    requires |ends| == |Print(indent, rs)| && AllEnds(ends)
    ensures Filled(Print(indent, rs)) && Parse(Lines(Join(Print(indent, rs), ends))) == Some(Dicts(rs))
  {
    var lines := Print(indent, rs);
    PrintFilled(indent, rs);
    LinesOfJoin(lines, ends, "");
    assert Join(lines, ends) + "" == Join(lines, ends);
    NoLines("");
    assert lines + [] == lines;
    PrintThenParse(indent, rs);
  }
}
