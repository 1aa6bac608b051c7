/** The title branch of injectBranding, with JavaScript's replacement patterns, and escapeHtml. */
module Branding {
  import opened Schema
  import opened Strings

  // ---------------------------------------------------------------- escapeHtml

  /** The character references of section 13.1.4 of the HTML standard used here. */
  function Reference(c: char): string {
    match c
    case '&' => "&amp;"
    case '<' => "&lt;"
    case '>' => "&gt;"
    case '"' => "&quot;"
    case '\'' => "&#39;"
    case _ => [c]
  }

  function Escape(s: string): string {
    if s == "" then "" else Reference(s[0]) + Escape(s[1..])
  }

  /** A reader of those references. */
  function Unescape(s: string): string {
    if s == "" then ""
    else if StartsWith(s, "&amp;") then "&" + Unescape(s[5..])
    else if StartsWith(s, "&lt;") then "<" + Unescape(s[4..])
    else if StartsWith(s, "&gt;") then ">" + Unescape(s[4..])
    else if StartsWith(s, "&quot;") then "\"" + Unescape(s[6..])
    else if StartsWith(s, "&#39;") then "'" + Unescape(s[5..])
    else [s[0]] + Unescape(s[1..])
  }

  lemma UnescapeReference(c: char, rest: string)
    ensures Unescape(Reference(c) + rest) == [c] + Unescape(rest)
  {
    var r := Reference(c);
    PrefixOfSum(r, rest);
    var s := r + rest;
    match c
    case '&' =>
    case '<' => PrefixAt(s, "&amp;", 1);
    case '>' => PrefixAt(s, "&amp;", 1); PrefixAt(s, "&lt;", 1);
    case '"' => PrefixAt(s, "&amp;", 1); PrefixAt(s, "&lt;", 1); PrefixAt(s, "&gt;", 1);
    case '\'' => PrefixAt(s, "&amp;", 1); PrefixAt(s, "&lt;", 1); PrefixAt(s, "&gt;", 1); PrefixAt(s, "&quot;", 1);
    case _ => PrefixAt(s, "&amp;", 0); PrefixAt(s, "&lt;", 0); PrefixAt(s, "&gt;", 0); PrefixAt(s, "&quot;",
        0); PrefixAt(s, "&#39;", 0);
  }

  lemma {:induction false} UnescapeEscape(s: string)
    ensures Unescape(Escape(s)) == s
  {
    if s != "" {
      UnescapeReference(s[0], Escape(s[1..]));
      UnescapeEscape(s[1..]);
    }
  }

  lemma EscapeInjective(s: string, t: string)
    requires Escape(s) == Escape(t)
    ensures s == t
  {
    UnescapeEscape(s);
    UnescapeEscape(t);
  }

  predicate Markup(c: char) {
    c == '<' || c == '>' || c == '"' || c == '\''
  }

  lemma {:induction false} EscapeSafe(s: string)
    ensures forall i | 0 <= i < |Escape(s)| :: !Markup(Escape(s)[i])
  {
    if s != "" {
      EscapeSafe(s[1..]);
    }
  }

  // ---------------------------------------------------------------- the regular expression

  /** The fixed texts of the title branch.  The proofs only use what Proper says of them. */
  datatype Site = Site(open: string, close: string, suffix: string)
  {
    ghost predicate Proper() {
      && Tag(open) && Tag(close) && open[1] == 't' && close[1] == '/'
      && NoDollar(suffix) && NoLt(suffix) && suffix != "" && !Pattern(suffix[0])
    }
  }

  /** A lower-case tag of at least two characters with one '<', at its start. */
  ghost predicate Tag(p: string) {
    |p| >= 2 && NoDollar(p) && (forall k | 0 <= k < |p| :: p[k] == '<' <==> k == 0) && forall k | 0 <= k < |p| ::
        Lower(p[k]) == p[k]
  }

  /** The texts in the source. */
  const Gateway: Site := Site("<title>", "</title>", " - AI API Gateway")

  lemma GatewayIsProper()
    ensures Gateway.Proper()
  {
  }

  /** Case folding of the /i flag, which never relates a letter of the pattern to a character
      outside ASCII. */
  function Lower(c: char): char {
    if 'A' <= c <= 'Z' then (c as int + 32) as char else c
  }

  /** The first n characters of p are matched at i. */
  predicate MatchesTo(h: string, i: nat, p: string, n: nat)
    requires n <= |p| && i + n <= |h|
  {
    n == 0 || (MatchesTo(h, i, p, n - 1) && Lower(h[i + n - 1]) == p[n - 1])
  }

  predicate MatchesAt(h: string, i: nat, p: string) {
    i + |p| <= |h| && MatchesTo(h, i, p, |p|)
  }

  lemma {:induction false} MatchesChar(h: string, i: nat, p: string, n: nat, j: nat)
    requires j < n <= |p| && i + n <= |h| && MatchesTo(h, i, p, n)
    ensures Lower(h[i + j]) == p[j]
  {
    if j < n - 1 {
      MatchesChar(h, i, p, n - 1, j);
    }
  }

  /** Equal slices have equal parts. */
  lemma SubSlice(x: string, a: nat, y: string, b: nat, n: nat, u: nat, v: nat)
    requires a + n <= |x| && b + n <= |y| && x[a..a + n] == y[b..b + n] && u <= v <= n
    ensures x[a + u..a + v] == y[b + u..b + v]
  {
    SliceOfSlice(x, a, n, u, v);
    SliceOfSlice(y, b, n, u, v);
  }

  lemma SliceOfSlice(x: string, a: nat, n: nat, u: nat, v: nat)
    requires a + n <= |x| && u <= v <= n
    ensures x[a..a + n][u..v] == x[a + u..a + v]
  {
    var y := x[a..a + n];
    assert |y[u..v]| == |x[a + u..a + v]|;
    assert forall i | 0 <= i < v - u :: y[u..v][i] == x[a + u..a + v][i];
  }

  lemma SliceChar(x: string, a: nat, n: nat, j: nat)
    requires a + n <= |x| && j < n
    ensures x[a..a + n][j] == x[a + j]
  {
  }

  lemma {:induction false} CopyTo(h: string, i: nat, g: string, k: nat, p: string, n: nat)
    requires n <= |p| && i + |p| <= |h| && k + |p| <= |g| && h[i..i + |p|] == g[k..k + |p|] && MatchesTo(h, i, p, n)
    ensures MatchesTo(g, k, p, n)
  {
    if n > 0 {
      CopyTo(h, i, g, k, p, n - 1);
      SliceChar(h, i, |p|, n - 1);
      SliceChar(g, k, |p|, n - 1);
    }
  }

  /** A copy of a matched text is matched. */
  lemma MatchesCopy(h: string, i: nat, g: string, k: nat, p: string)
    requires MatchesAt(h, i, p) && k + |p| <= |g| && h[i..i + |p|] == g[k..k + |p|]
    ensures MatchesAt(g, k, p)
  {
    CopyTo(h, i, g, k, p, |p|);
  }

  /** The first '<' at or after i, or |h|. */
  function NextLt(h: string, i: nat): (j: nat)
    requires i <= |h|
    ensures i <= j <= |h|
    ensures forall k | i <= k < j :: h[k] != '<'
    ensures j < |h| ==> h[j] == '<'
    decreases |h| - i
  {
    if i == |h| || h[i] == '<' then i else NextLt(h, i + 1)
  }

  /** Where a match that starts at i ends.  The middle of the pattern takes everything up to the
      next '<', where the closing tag has to be. */
  function MatchEnd(site: Site, h: string, i: nat): (e: Option<nat>)
    ensures e.Some? ==> i + |site.open| + |site.close| <= e.value <= |h|
  {
    if !MatchesAt(h, i, site.open) then None
    else
      var j := NextLt(h, i + |site.open|);
      if MatchesAt(h, j, site.close) then Some(j + |site.close|) else None
  }

  /** The start of the leftmost match at or after i, or |h| if there is none. */
  function FirstMatch(site: Site, h: string, i: nat): (a: nat)
    requires i <= |h|
    ensures i <= a <= |h|
    ensures forall k | i <= k < a :: MatchEnd(site, h, k).None?
    ensures a < |h| ==> MatchEnd(site, h, a).Some?
    decreases |h| - i
  {
    if i == |h| || MatchEnd(site, h, i).Some? then i else FirstMatch(site, h, i + 1)
  }

  // ---------------------------------------------------------------- the replacement

  /** What a replacement string stands for, given the text before the match, the match and the text
      after it.  The pattern has no groups, so $1 and $< mean themselves. */
  function Expand(t: string, before: string, m: string, after: string): string {
    if t == "" then ""
    else if t[0] == '$' && |t| > 1 && t[1] == '$' then "$" + Expand(t[2..], before, m, after)
    else if t[0] == '$' && |t| > 1 && t[1] == '&' then m + Expand(t[2..], before, m, after)
    else if t[0] == '$' && |t| > 1 && t[1] == '`' then before + Expand(t[2..], before, m, after)
    else if t[0] == '$' && |t| > 1 && t[1] == '\'' then after + Expand(t[2..], before, m, after)
    else [t[0]] + Expand(t[1..], before, m, after)
  }

  function Title(site: Site, name: string): string {
    site.open + (Escape(name) + (site.suffix + site.close))
  }

  /** The title branch, for a trimmed site name. */
  function Brand(site: Site, html: string, name: string): string {
    var a := FirstMatch(site, html, 0);
    if name == "" || a == |html| then html
    else
      var e := MatchEnd(site, html, a).value;
      html[..a] + Expand(Title(site, name), html[..a], html[a..e], html[e..]) + html[e..]
  }

  // ---------------------------------------------------------------- replacement patterns in the name

  predicate Pattern(c: char) {
    c == '$' || c == '&' || c == '`' || c == '\''
  }

  predicate HasPattern(t: string) {
    |t| >= 2 && ((t[0] == '$' && Pattern(t[1])) || HasPattern(t[1..]))
  }

  lemma {:induction false} ExpandLiteral(t: string, before: string, m: string, after: string)
    requires !HasPattern(t)
    ensures Expand(t, before, m, after) == t
  {
    if t != "" {
      ExpandLiteral(t[1..], before, m, after);
    }
  }

  /** A dollar sign followed by something that is, or escapes to, the second half of a pattern. */
  predicate Active(name: string) {
    |name| >= 2 && ((name[0] == '$' &&
        (name[1] == '$' || name[1] == '`' || Reference(name[1])[0] == '&')) || Active(name[1..]))
  }

  predicate NoDollar(t: string) {
    forall i | 0 <= i < |t| :: t[i] != '$'
  }

  lemma {:induction false} SkipPlain(e: string, rest: string)
    requires NoDollar(e)
    ensures HasPattern(e + rest) <==> HasPattern(rest)
  {
    if e == "" {
      assert e + rest == rest;
    } else {
      assert (e + rest)[1..] == e[1..] + rest;
      SkipPlain(e[1..], rest);
    }
  }

  lemma {:induction false} EscapePattern(name: string, tail: string)
    requires tail != "" && !Pattern(tail[0]) && !HasPattern(tail)
    ensures HasPattern(Escape(name) + tail) <==> Active(name)
  {
    if name == "" {
      assert Escape(name) + tail == tail;
    } else {
      EscapePattern(name[1..], tail);
      PatternStep(name, Escape(name[1..]) + tail, tail);
    }
  }

  lemma PatternStep(name: string, rest: string, tail: string)
    requires name != "" && rest == Escape(name[1..]) + tail && tail != "" && !Pattern(tail[0])
    requires HasPattern(rest) <==> Active(name[1..])
    ensures HasPattern(Escape(name) + tail) <==> Active(name)
  {
    assert Escape(name) + tail == Reference(name[0]) + rest;
    if name[0] == '$' {
      RestStart(name[1..], tail, rest);
      DollarStep(name, rest);
    } else {
      SkipPlain(Reference(name[0]), rest);
    }
  }

  lemma DollarStep(name: string, rest: string)
    requires name != "" && name[0] == '$' && rest != "" && (HasPattern(rest) <==> Active(name[1..]))
    requires if |name| > 1 then rest[0] == Reference(name[1])[0] else !Pattern(rest[0])
    ensures HasPattern(['$'] + rest) <==> Active(name)
  {
    var t := ['$'] + rest;
    assert t[0] == '$' && t[1] == rest[0] && t[1..] == rest;
    if |name| > 1 {
      SecondHalf(name[1]);
    }
  }

  lemma SecondHalf(c: char)
    ensures Pattern(Reference(c)[0]) <==> c == '$' || c == '`' || Reference(c)[0] == '&'
  {
  }

  lemma RestStart(name: string, tail: string, rest: string)
    requires rest == Escape(name) + tail && tail != ""
    ensures |rest| > 0 && rest[0] == if name == "" then tail[0] else Reference(name[0])[0]
  {
  }

  lemma TitlePattern(site: Site, name: string)
    requires site.Proper()
    ensures HasPattern(Title(site, name)) <==> Active(name)
  {
    var tail := site.suffix + site.close;
    SkipPlain(tail, "");
    assert tail + "" == tail;
    EscapePattern(name, tail);
    SkipPlain(site.open, Escape(name) + tail);
  }

  // ---------------------------------------------------------------- where the new title is found

  /** Inside a match of a tag the only '<' is its first character. */
  lemma TagHasOneLt(site: Site, h: string, i: nat, p: string, k: nat)
    requires site.Proper()
    requires (p == site.open || p == site.close) && MatchesAt(h, i, p) && k < |p|
    ensures h[i + k] == '<' <==> k == 0
  {
    MatchesChar(h, i, p, |p|, k);
  }

  /** A tag matched before a, in a text with '<' at a, ends before a. */
  lemma TagStaysLeft(site: Site, h: string, i: nat, p: string, a: nat)
    requires site.Proper()
    requires (p == site.open || p == site.close) && MatchesAt(h, i, p) && i < a < |h| && h[a] == '<'
    ensures i + |p| <= a
  {
    if a < i + |p| {
      TagHasOneLt(site, h, i, p, a - i);
    }
  }

  /** The two texts agree before a, and at a both have an opening tag. */
  ghost predicate Agree(site: Site, h: string, g: string, a: nat) {
    && MatchesAt(h, a, site.open) && MatchesAt(g, a, site.open)
    && h[..a] == g[..a]
  }

  lemma OpenNotClose(site: Site, h: string, a: nat)
    requires site.Proper()
    requires MatchesAt(h, a, site.open)
    ensures !MatchesAt(h, a, site.close) && h[a] == '<'
  {
    TagHasOneLt(site, h, a, site.open, 0);
    MatchesChar(h, a, site.open, |site.open|, 1);
    if MatchesAt(h, a, site.close) {
      MatchesChar(h, a, site.close, |site.close|, 1);
    }
  }

  lemma SameNextLt(site: Site, h: string, g: string, a: nat, i: nat)
    requires site.Proper()
    requires Agree(site, h, g, a) && i <= a && h[a] == '<' && g[a] == '<'
    ensures NextLt(h, i) == NextLt(g, i) <= a
  {
    forall k | i <= k < a ensures h[k] == g[k] {
      assert h[..a][k] == h[k] && g[..a][k] == g[k];
    }
  }

  /** A tag matched before a in one text is matched in the other. */
  lemma TagTransfers(site: Site, h: string, g: string, a: nat, i: nat, p: string)
    requires site.Proper()
    requires (p == site.open || p == site.close) && MatchesAt(h, i, p) && i < a < |h| && h[a] == '<'
    requires a <= |g| && h[..a] == g[..a]
    ensures i + |p| <= a && MatchesAt(g, i, p)
  {
    TagStaysLeft(site, h, i, p, a);
    SubSlice(h, 0, g, 0, a, i, i + |p|);
    MatchesCopy(h, i, g, i, p);
  }

  /** A match before a in one text is a match in the other. */
  lemma MatchTransfers(site: Site, h: string, g: string, a: nat, i: nat)
    requires site.Proper()
    requires Agree(site, h, g, a) && i < a && MatchEnd(site, h, i).Some?
    ensures MatchEnd(site, g, i).Some?
  {
    OpenNotClose(site, h, a);
    OpenNotClose(site, g, a);
    TagTransfers(site, h, g, a, i, site.open);
    var j := NextLt(h, i + |site.open|);
    SameNextLt(site, h, g, a, i + |site.open|);
    assert j < a;
    TagTransfers(site, h, g, a, j, site.close);
  }

  /** The first match of html is at a; g agrees with it before a and has a match at a. */
  lemma SameFirstMatch(site: Site, html: string, g: string, a: nat)
    requires site.Proper()
    requires a < |html| && a == FirstMatch(site, html, 0) && Agree(site, html, g, a) && MatchEnd(site, g, a).Some?
    ensures FirstMatch(site, g, 0) == a
  {
    forall i | 0 <= i < a ensures MatchEnd(site, g, i).None? {
      if MatchEnd(site, g, i).Some? {
        MatchTransfers(site, g, html, a, i);
      }
    }
    var b := FirstMatch(site, g, 0);
    assert b <= a;
  }

  predicate NoLt(text: string) {
    forall i | 0 <= i < |text| :: text[i] != '<'
  }

  /** Where the parts of a text are. */
  lemma Layout(before: string, p: string, text: string, q: string, after: string, h: string)
    requires h == before + (p + text + q) + after
    ensures |h| == |before| + |p| + |text| + |q| + |after|
    ensures h[|before|..|before| + |p|] == p
    ensures h[|before| + |p|..|before| + |p| + |text|] == text
    ensures h[|before| + |p| + |text|..|before| + |p| + |text| + |q|] == q
  {
  }

  lemma TagsAreLower(site: Site, p: string, j: nat)
    requires site.Proper()
    requires (p == site.open || p == site.close) && j < |p|
    ensures Lower(p[j]) == p[j]
  {
  }

  lemma {:induction false} TagTo(site: Site, h: string, i: nat, p: string, n: nat)
    requires site.Proper()
    requires (p == site.open || p == site.close) && n <= |p| && i + |p| <= |h| && h[i..i + |p|] == p
    ensures MatchesTo(h, i, p, n)
  {
    if n > 0 {
      TagTo(site, h, i, p, n - 1);
      SliceChar(h, i, |p|, n - 1);
      TagsAreLower(site, p, n - 1);
    }
  }

  lemma TagAt(site: Site, h: string, i: nat, p: string)
    requires site.Proper()
    requires (p == site.open || p == site.close) && i + |p| <= |h| && h[i..i + |p|] == p
    ensures MatchesAt(h, i, p)
  {
    TagTo(site, h, i, p, |p|);
  }

  lemma {:induction false} NextIs(h: string, i: nat, j: nat)
    requires i <= j < |h| && NoLt(h[i..j]) && h[j] == '<'
    ensures NextLt(h, i) == j
    decreases j - i
  {
    if i < j {
      assert h[i..j][0] == h[i];
      assert h[i + 1..j] == h[i..j][1..];
      NextIs(h, i + 1, j);
    }
  }

  lemma NextClean(h: string, i: nat)
    requires i <= |h|
    ensures NoLt(h[i..NextLt(h, i)])
  {
  }

  lemma WholeMatch(site: Site, h: string, a: nat, j: nat)
    requires site.Proper()
    requires MatchesAt(h, a, site.open) && a + |site.open| <= j && MatchesAt(h, j, site.close)
    requires NoLt(h[a + |site.open|..j])
    ensures MatchEnd(site, h, a) == Some(j + |site.close|)
  {
    TagHasOneLt(site, h, j, site.close, 0);
    NextIs(h, a + |site.open|, j);
  }

  /** A title element. */
  function Element(site: Site, text: string): string {
    site.open + text + site.close
  }

  /** A title element without '<' in its text is matched as a whole. */
  lemma WholeTitle(site: Site, before: string, text: string, after: string, h: string, a: nat)
    requires site.Proper()
    requires NoLt(text) && h == before + Element(site, text) + after && a == |before|
    ensures MatchEnd(site, h, a) == Some(a + |Element(site, text)|)
  {
    var j := a + |site.open| + |text|;
    Layout(before, site.open, text, site.close, after, h);
    TagAt(site, h, a, site.open);
    TagAt(site, h, j, site.close);
    WholeMatch(site, h, a, j);
  }

  lemma NoLtSum(s: string, t: string)
    requires NoLt(s) && NoLt(t)
    ensures NoLt(s + t)
  {
  }

  lemma Regroup(p: string, s: string, t: string, q: string)
    ensures p + (s + (t + q)) == p + (s + t) + q
  {
  }

  /** Branding with a name free of patterns: exactly the first title is replaced, by the escaped
      name, and everything before and after it stays. */
  lemma BrandIsLiteral(site: Site, html: string, name: string)
    requires site.Proper()
    requires !Active(name) && name != ""
    ensures var a := FirstMatch(site, html, 0);
            Brand(site, html, name) ==
              if a == |html| then html else html[..a] + Title(site, name) + html[MatchEnd(site, html, a).value..]
  {
    var a := FirstMatch(site, html, 0);
    if a < |html| {
      TitlePattern(site, name);
      var e := MatchEnd(site, html, a).value;
      ExpandLiteral(Title(site, name), html[..a], html[a..e], html[e..]);
    }
  }

  /** A page that keeps the text before the first match and has a match in its place. */
  lemma KeepsFirst(site: Site, html: string, a: nat, g: string)
    requires site.Proper()
    requires a < |html| && a == FirstMatch(site, html, 0)
    requires a <= |g| && g[..a] == html[..a] && MatchEnd(site, g, a).Some?
    ensures FirstMatch(site, g, 0) == a
  {
    AgreeBefore(site, html, a, g);
    SameFirstMatch(site, html, g, a);
  }

  lemma Parts(s: string, t: string, u: string, g: string)
    requires g == s + t + u
    ensures |s| <= |s + t| <= |g| && g[..|s|] == s && g[|s| + |t|..] == u
  {
  }

  lemma AgreeBefore(site: Site, html: string, a: nat, g: string)
    requires site.Proper()
    requires a <= |html| && a <= |g| && html[..a] == g[..a] && MatchEnd(site, html, a).Some?
    requires MatchEnd(site, g, a).Some?
    ensures Agree(site, html, g, a)
  {
  }

  // ---------------------------------------------------------------- patterns do harm

  /** With nothing around the match, a replacement string with a pattern never has its own length,
      if the match is longer than the string. */
  lemma {:induction false} PatternChangesLength(t: string, m: string, bound: nat)
    requires |t| <= bound < |m|
    ensures var d := |Expand(t, "", m, "")| - |t|;
            && d >= -|t|
            && (d <= 0 || d >= |m| - |t|)
            && (HasPattern(t) ==> d != 0)
  {
    if t != "" {
      if t[0] == '$' && |t| > 1 && Pattern(t[1]) {
        PatternChangesLength(t[2..], m, bound);
      } else {
        PatternChangesLength(t[1..], m, bound);
      }
    }
  }

  function Filler(n: nat): (s: string)
    ensures |s| == n && NoLt(s)
  {
    seq(n, _ => 'x')
  }

  /** A page that is one title element, with no shorter a title than n. */
  lemma OneTitle(site: Site, n: nat) returns (html: string)
    requires site.Proper()
    ensures |html| > n && FirstMatch(site, html, 0) == 0 && MatchEnd(site, html, 0) == Some(|html|)
  {
    html := Element(site, Filler(n));
    ElementLength(site, Filler(n));
    Padded(html);
    WholeTitle(site, "", Filler(n), "", html, 0);
    FirstIs(site, html, 0);
  }

  lemma Padded(s: string)
    ensures s == "" + s + ""
  {
  }

  /** The condition is exact: every name with a pattern is inserted wrongly into some page. */
  lemma PatternsBreak(site: Site, name: string) returns (html: string)
    requires site.Proper()
    requires Active(name)
    ensures FirstMatch(site, html, 0) == 0 < |html| && MatchEnd(site, html, 0) == Some(|html|)
    ensures Brand(site, html, name) != Title(site, name)
  {
    var t := Title(site, name);
    TitlePattern(site, name);
    html := OneTitle(site, |t|);
    PatternChangesLength(t, html, |t|);
    assert html[..0] == "" && html[0..|html|] == html && html[|html|..] == "";
    var x := Expand(t, "", html, "");
    assert "" + x + "" == x;
    assert name != "";
  }

  /** Literal insertion into this page, if it has a title. */
  ghost predicate LiteralOn(site: Site, name: string, html: string) {
    var a := FirstMatch(site, html, 0);
    a < |html| ==> Brand(site, html, name) == html[..a] + Title(site, name) + html[MatchEnd(site, html, a).value..]
  }

  ghost predicate InsertsLiterally(site: Site, name: string) {
    forall html: string :: LiteralOn(site, name, html)
  }

  lemma NotLiteralOn(site: Site, name: string, html: string)
    requires FirstMatch(site, html, 0) == 0 < |html| && MatchEnd(site, html, 0) == Some(|html|)
    requires Brand(site, html, name) != Title(site, name)
    ensures !LiteralOn(site, name, html)
  {
    var t := Title(site, name);
    assert html[..0] + t + html[|html|..] == t;
  }

  /** A name is inserted literally into every page exactly when it has no pattern: no dollar sign
      before one of $ & ` < > " and the apostrophe. */
  lemma LiteralIff(site: Site, name: string)
    requires site.Proper()
    requires name != ""
    ensures InsertsLiterally(site, name) <==> !Active(name)
  {
    if !Active(name) {
      forall html: string ensures LiteralOn(site, name, html) {
        BrandIsLiteral(site, html, name);
      }
    } else {
      var html := PatternsBreak(site, name);
      NotLiteralOn(site, name, html);
    }
  }

  // ---------------------------------------------------------------- what the new title is

  lemma {:induction false} ExpandSkips(p: string, t: string, before: string, m: string, after: string)
    requires NoDollar(p)
    ensures Expand(p + t, before, m, after) == p + Expand(t, before, m, after)
  {
    if p == "" {
      assert p + t == t;
    } else {
      assert (p + t)[0] == p[0] && (p + t)[1..] == p[1..] + t;
      ExpandSkips(p[1..], t, before, m, after);
    }
  }

  /** What a pattern stands for. */
  function Stands(c: char, before: string, m: string, after: string): string {
    if c == '&' then m else if c == '`' then before else after
  }

  /** A pattern stands at the start. */
  predicate AtPattern(s: string) {
    |s| > 1 && s[0] == '$' && Pattern(s[1])
  }

  lemma ExpandPattern(s: string, before: string, m: string, after: string)
    requires AtPattern(s)
    ensures Expand(s, before, m, after) ==
              (if s[1] == '$' then "$" else Stands(s[1], before, m, after)) + Expand(s[2..], before, m, after)
  {
  }

  lemma ExpandPlain(s: string, before: string, m: string, after: string)
    requires s != "" && !AtPattern(s)
    ensures Expand(s, before, m, after) == [s[0]] + Expand(s[1..], before, m, after)
  {
  }

  /** A tail without dollar signs is added as it is. */
  lemma {:induction false} ExpandTail(s: string, tail: string, before: string, m: string, after: string)
    requires NoDollar(tail) && tail != "" && !Pattern(tail[0])
    ensures Expand(s + tail, before, m, after) == Expand(s, before, m, after) + tail
  {
    if s == "" {
      assert s + tail == tail;
      SkipPlain(tail, "");
      assert tail + "" == tail;
      ExpandLiteral(tail, before, m, after);
    } else {
      if AtPattern(s) {
        ExpandTail(s[2..], tail, before, m, after);
        TailAtPattern(s, tail, before, m, after);
      } else {
        ExpandTail(s[1..], tail, before, m, after);
        TailAtPlain(s, tail, before, m, after);
      }
    }
  }

  lemma Associate(s: string, t: string, u: string)
    ensures (s + t) + u == s + (t + u)
  {
  }

  lemma TailAtPattern(s: string, tail: string, before: string, m: string, after: string)
    requires AtPattern(s) && Expand(s[2..] + tail, before, m, after) == Expand(s[2..], before, m, after) + tail
    ensures Expand(s + tail, before, m, after) == Expand(s, before, m, after) + tail
  {
    assert (s + tail)[0] == s[0] && (s + tail)[1] == s[1];
    assert (s + tail)[2..] == s[2..] + tail;
    ExpandPattern(s, before, m, after);
    ExpandPattern(s + tail, before, m, after);
    Associate(if s[1] == '$' then "$" else Stands(s[1], before, m, after), Expand(s[2..], before, m, after), tail);
  }

  lemma TailAtPlain(s: string, tail: string, before: string, m: string, after: string)
    requires s != "" && !AtPattern(s) && tail != "" && !Pattern(tail[0])
    requires Expand(s[1..] + tail, before, m, after) == Expand(s[1..], before, m, after) + tail
    ensures Expand(s + tail, before, m, after) == Expand(s, before, m, after) + tail
  {
    assert (s + tail)[0] == s[0] && (s + tail)[1] == if |s| > 1 then s[1] else tail[0];
    assert (s + tail)[1..] == s[1..] + tail;
    ExpandPlain(s, before, m, after);
    ExpandPlain(s + tail, before, m, after);
    Associate([s[0]], Expand(s[1..], before, m, after), tail);
  }

  /** The text of the new title element. */
  function NewText(site: Site, name: string, before: string, m: string, after: string): string {
    Expand(Escape(name), before, m, after) + site.suffix
  }

  lemma TailFacts(site: Site)
    requires site.Proper()
    ensures NoDollar(site.open) && NoDollar(site.suffix + site.close) && site.suffix + site.close != ""
    ensures !Pattern((site.suffix + site.close)[0])
  {
  }

  lemma ExpandTitle(site: Site, name: string, before: string, m: string, after: string)
    requires site.Proper()
    ensures Expand(Title(site, name), before, m, after) == Element(site, NewText(site, name, before, m, after))
  {
    TailFacts(site);
    ExpandSkips(site.open, Escape(name) + (site.suffix + site.close), before, m, after);
    ExpandTail(Escape(name), site.suffix + site.close, before, m, after);
    Regroup(site.open, Expand(Escape(name), before, m, after), site.suffix, site.close);
  }

  /** Branding replaces the first title by another title element. */
  lemma BrandIs(site: Site, html: string, name: string, a: nat, e: nat)
    requires site.Proper()
    requires name != "" && a < |html| && a == FirstMatch(site, html, 0) && MatchEnd(site, html, a) == Some(e)
    ensures Brand(site, html, name) == html[..a] + Element(site,
                                                           NewText(site, name, html[..a], html[a..e],
                                                                   html[e..])) + html[e..]
  {
    ExpandTitle(site, name, html[..a], html[a..e], html[e..]);
  }

  // ---------------------------------------------------------------- live patterns

  /** Reading left to right and consuming `$$`, the pattern `$c` is met. */
  predicate Meets(s: string, c: char) {
    |s| >= 2 &&
    if s[0] == '$' && s[1] == '$' then Meets(s[2..], c)
    else if AtPattern(s) then s[1] == c || Meets(s[2..], c)
    else Meets(s[1..], c)
  }

  /** A pattern that is met puts its text into the result. */
  lemma {:induction false} MetIsInserted(s: string, c: char, before: string, m: string, after: string)
    returns (x: string, y: string)
    requires Meets(s, c) && (c == '&' || c == '`' || c == '\'')
    ensures Expand(s, before, m, after) == x + Stands(c, before, m, after) + y
  {
    if AtPattern(s) {
      ExpandPattern(s, before, m, after);
      if s[1] == c {
        x, y := "", Expand(s[2..], before, m, after);
      } else {
        var h := if s[1] == '$' then "$" else Stands(s[1], before, m, after);
        x, y := MetIsInserted(s[2..], c, before, m, after);
        Prepend(h, x, Stands(c, before, m, after), y);
        x := h + x;
      }
    } else {
      ExpandPlain(s, before, m, after);
      x, y := MetIsInserted(s[1..], c, before, m, after);
      Prepend([s[0]], x, Stands(c, before, m, after), y);
      x := [s[0]] + x;
    }
  }

  lemma Prepend(h: string, x: string, t: string, y: string)
    ensures h + (x + t + y) == (h + x) + t + y
  {
  }

  /** If none is met, the result does not depend on the page, and has no new characters. */
  lemma {:induction false} UnmetIsFixed(s: string, before: string, m: string, after: string)
    requires !Meets(s, '&') && !Meets(s, '`') && !Meets(s, '\'') && NoLt(s)
    ensures Expand(s, before, m, after) == Expand(s, "", "", "") && NoLt(Expand(s, before, m, after))
  {
    if s != "" {
      if |s| > 1 && s[0] == '$' && s[1] == '$' {
        UnmetIsFixed(s[2..], before, m, after);
      } else {
        UnmetIsFixed(s[1..], before, m, after);
      }
    }
  }

  /** An escaped text has no apostrophe, so `$'` is never met. */
  lemma {:induction false} NoApostrophe(s: string)
    requires forall i | 0 <= i < |s| :: s[i] != '\''
    ensures !Meets(s, '\'')
  {
    if |s| >= 2 {
      NoApostrophe(s[1..]);
      NoApostrophe(s[2..]);
    }
  }

  /** The escaped name meets neither `$&` nor `$``. */
  predicate Tame(name: string) {
    !Meets(Escape(name), '&') && !Meets(Escape(name), '`')
  }

  lemma EscapeFacts(name: string)
    ensures NoLt(Escape(name)) && !Meets(Escape(name), '\'')
  {
    EscapeSafe(name);
    NoApostrophe(Escape(name));
  }

  // ---------------------------------------------------------------- branding twice

  lemma TameText(site: Site, name: string, before: string, m: string, after: string)
    requires site.Proper()
    requires Tame(name)
    ensures NewText(site, name, before, m, after) == NewText(site, name, "", "", "")
    ensures NoLt(NewText(site, name, "", "", ""))
  {
    EscapeFacts(name);
    UnmetIsFixed(Escape(name), before, m, after);
    NoLtSum(Expand(Escape(name), "", "", ""), site.suffix);
  }

  lemma TameBrand(site: Site, html: string, name: string, a: nat, e: nat)
    requires site.Proper()
    requires name != "" && Tame(name) && a < |html| && a == FirstMatch(site, html, 0)
    requires MatchEnd(site, html, a) == Some(e)
    ensures Brand(site, html, name) == html[..a] + Element(site, NewText(site, name, "", "", "")) + html[e..]
  {
    BrandIs(site, html, name, a, e);
    TameText(site, name, html[..a], html[a..e], html[e..]);
  }

  /** Branding is idempotent on every page for every tame name. */
  lemma BrandIdempotent(site: Site, html: string, name: string)
    requires site.Proper()
    requires Tame(name)
    ensures Brand(site, Brand(site, html, name), name) == Brand(site, html, name)
  {
    var a := FirstMatch(site, html, 0);
    if name != "" && a < |html| {
      var e := MatchEnd(site, html, a).value;
      var text, g := NewText(site, name, "", "", ""), Brand(site, html, name);
      TameBrand(site, html, name, a, e);
      assert NoLt(text) by { TameText(site, name, "", "", ""); }
      TitleInPlace(site, html, a, text, html[e..], g);
      TameAgain(site, name, html[..a], text, html[e..], g, a);
    }
  }

  lemma TameAgain(site: Site, name: string, pre: string, text: string, post: string, g: string, a: nat)
    requires site.Proper()
    requires name != "" && Tame(name) && text == NewText(site, name, "", "", "")
    requires g == pre + Element(site, text) + post
    requires a == |pre| == FirstMatch(site, g, 0) && a < |g| && MatchEnd(site, g, a) == Some(a + |Element(site, text)|)
    ensures Brand(site, g, name) == g
  {
    TameBrand(site, g, name, a, a + |Element(site, text)|);
    Parts(pre, Element(site, text), post, g);
  }

  /** A page whose first title was replaced by another element: that element is its first title. */
  lemma TitleInPlace(site: Site, html: string, a: nat, text: string, after: string, g: string)
    requires site.Proper()
    requires a < |html| && a == FirstMatch(site, html, 0) && NoLt(text) && g == html[..a] + Element(site, text) + after
    ensures a < |g| && FirstMatch(site, g, 0) == a && MatchEnd(site, g, a) == Some(a + |Element(site, text)|)
    ensures a + |Element(site, text)| <= |g| && g[..a] == html[..a] && g[a + |Element(site, text)|..] == after
  {
    WholeTitle(site, html[..a], text, after, g, a);
    Parts(html[..a], Element(site, text), after, g);
    KeepsFirst(site, html, a, g);
  }

  // ---------------------------------------------------------------- names that are not tame

  /** A copy of a match is a match. */
  lemma MatchMoves(site: Site, html: string, a: nat, n: nat, g: string, b: nat)
    requires site.Proper()
    requires MatchEnd(site, html, a) == Some(a + n) && b + n <= |g| && html[a..a + n] == g[b..b + n]
    ensures MatchEnd(site, g, b) == Some(b + n)
  {
    var t := |site.open|;
    var j := NextLt(html, a + t) - a;
    PartCopied(html, a, n, g, b, 0, site.open);
    PartCopied(html, a, n, g, b, j, site.close);
    assert NoLt(g[b + t..b + j]) by {
      SubSlice(html, a, g, b, n, t, j);
      NextClean(html, a + t);
    }
    WholeMatch(site, g, b, b + j);
  }

  lemma PartCopied(html: string, a: nat, n: nat, g: string, b: nat, j: nat, p: string)
    requires a + n <= |html| && b + n <= |g| && html[a..a + n] == g[b..b + n] && j + |p| <= n
    requires MatchesAt(html, a + j, p)
    ensures MatchesAt(g, b + j, p)
  {
    SubSlice(html, a, g, b, n, j, j + |p|);
    MatchesCopy(html, a + j, g, b + j, p);
  }

  /** The match, cut out, is a page with a match at its start. */
  lemma CutOut(site: Site, html: string, a: nat, e: nat)
    requires site.Proper()
    requires MatchEnd(site, html, a) == Some(e)
    ensures e <= |html| && MatchEnd(site, html[a..e], 0) == Some(|html[a..e]|)
  {
    var m := html[a..e];
    var n := |m|;
    assert a + n == e && m[0..0 + n] == m && html[a..a + n] == m;
    MatchMoves(site, html, a, n, m, 0);
  }

  lemma ElementLength(site: Site, text: string)
    requires site.Proper()
    ensures |Element(site, text)| == |text| + |site.open| + |site.close|
  {
  }

  /** Wherever m stands in g, there is a match. */
  lemma MatchInside(site: Site, x: string, m: string, y: string, g: string)
    requires site.Proper()
    requires g == x + m + y && MatchEnd(site, m, 0) == Some(|m|)
    ensures FirstMatch(site, g, 0) < |g|
  {
    assert m[0..0 + |m|] == m && g[|x|..|x| + |m|] == m;
    MatchMoves(site, m, 0, |m|, g, |x|);
  }

  /** A page with a title, cut at its first match, and what branding makes of it. */
  lemma BrandPieces(site: Site, html: string, name: string) returns (pre: string, m: string, post: string)
    requires site.Proper()
    requires name != "" && FirstMatch(site, html, 0) < |html|
    ensures html == pre + m + post && |pre| == FirstMatch(site, html, 0) && MatchEnd(site, m, 0) == Some(|m|)
    ensures Brand(site, html, name) == pre + Element(site, NewText(site, name, pre, m, post)) + post
  {
    var a := FirstMatch(site, html, 0);
    var e := MatchEnd(site, html, a).value;
    pre, m, post := html[..a], html[a..e], html[e..];
    ThreeParts(html, a, e);
    BrandIs(site, html, name, a, e);
    CutOut(site, html, a, e);
  }

  lemma ThreeParts(s: string, a: nat, e: nat)
    requires a <= e <= |s|
    ensures s == s[..a] + s[a..e] + s[e..] && |s[..a]| == a
  {
  }

  lemma NewTextLength(site: Site, name: string, before: string, m: string, after: string)
    requires site.Proper()
    requires Meets(Escape(name), '&')
    ensures |Element(site, NewText(site, name, before, m, after))| > |m|
  {
    var x, y := MetIsInserted(Escape(name), '&', before, m, after);
    ElementLength(site, NewText(site, name, before, m, after));
  }

  /** With a live `$&` branding makes any page with a title longer than it takes away. */
  lemma BrandGrows(site: Site, html: string, name: string)
    requires site.Proper()
    requires Meets(Escape(name), '&') && FirstMatch(site, html, 0) < |html|
    ensures |Brand(site, html, name)| > |html|
  {
    var pre, m, post := BrandPieces(site, html, name);
    NewTextLength(site, name, pre, m, post);
  }

  /** The old title survives inside the new one. */
  lemma TitleSurvives(site: Site, html: string, name: string)
    requires site.Proper()
    requires Meets(Escape(name), '&') && FirstMatch(site, html, 0) < |html|
    ensures FirstMatch(site, Brand(site, html, name), 0) < |Brand(site, html, name)|
  {
    var pre, m, post := BrandPieces(site, html, name);
    var x, y := MetIsInserted(Escape(name), '&', pre, m, post);
    SurvivesElement(site, pre, x, m, y, post, NewText(site, name, pre, m, post), Brand(site, html, name));
  }

  lemma SurvivesElement(site: Site, s: string, x: string, m: string, y: string, u: string, text: string, g: string)
    requires site.Proper()
    requires text == (x + m + y) + site.suffix && g == s + Element(site, text) + u && MatchEnd(site, m, 0) == Some(|m|)
    ensures FirstMatch(site, g, 0) < |g|
  {
    SurvivesIn(site, s, site.open, x, m, y, site.suffix, site.close, u, g);
  }

  lemma SurvivesIn(site: Site, s: string, p: string, x: string, m: string, y: string, t: string, q: string, u: string,
                   g: string)
    requires site.Proper()
    requires g == s + (p + ((x + m + y) + t) + q) + u && MatchEnd(site, m, 0) == Some(|m|)
    ensures FirstMatch(site, g, 0) < |g|
  {
    Nest(s, p, x, m, y, t, q, u);
    MatchInside(site, s + p + x, m, y + t + q + u, g);
  }

  lemma Nest(s: string, p: string, x: string, m: string, y: string, t: string, q: string, u: string)
    ensures s + (p + ((x + m + y) + t) + q) + u == (s + p + x) + m + (y + t + q + u)
  {
  }

  /** Every name with a live `$&`: on every page with a title each further branding makes the page
      longer. */
  lemma AmpersandGrows(site: Site, html: string, name: string)
    requires site.Proper()
    requires Meets(Escape(name), '&') && FirstMatch(site, html, 0) < |html|
    ensures |Brand(site, Brand(site, html, name), name)| > |Brand(site, html, name)|
  {
    TitleSurvives(site, html, name);
    BrandGrows(site, Brand(site, html, name), name);
  }

  lemma NotATag(site: Site, g: string, i: nat)
    requires site.Proper()
    requires i < |g| && g[i] != '<'
    ensures MatchEnd(site, g, i).None?
  {
    if MatchesAt(g, i, site.open) {
      TagHasOneLt(site, g, i, site.open, 0);
    }
  }

  lemma NotATitle(site: Site, g: string)
    requires site.Proper()
    requires |g| >= 2 && g[0] == '<' && g[1] == 'p'
    ensures MatchEnd(site, g, 0).None?
  {
    TitleSecond(site, g);
  }

  lemma TitleSecond(site: Site, g: string)
    requires site.Proper()
    requires |g| >= 2
    ensures MatchesAt(g, 0, site.open) ==> Lower(g[1]) == 't'
  {
    if MatchesAt(g, 0, site.open) {
      MatchesChar(g, 0, site.open, |site.open|, 1);
    }
  }

  lemma FirstIs(site: Site, html: string, k: nat)
    requires site.Proper()
    requires k < |html| && MatchEnd(site, html, k).Some? && forall i | 0 <= i < k :: MatchEnd(site, html, i).None?
    ensures FirstMatch(site, html, 0) == k
  {
  }

  /** The page starts with a paragraph tag. */
  predicate StartsP(p: string) {
    |p| == 3 && p[0] == '<' && p[1] == 'p' && p[2] == '>'
  }

  lemma TwoTitlesMatch(site: Site, p: string, x: string, y: string, html: string)
    requires site.Proper()
    requires StartsP(p) && NoLt(x) && html == p + Element(site, x) + y
    ensures FirstMatch(site, html, 0) == 3 < |html| && MatchEnd(site, html, 3) == Some(3 + |Element(site, x)|)
    ensures 3 + |Element(site, x)| <= |html|
    ensures html[..3] == p && html[3 + |Element(site, x)|..] == y
  {
    WholeTitle(site, p, x, y, html, 3);
    Parts(p, Element(site, x), y, html);
    StartsLikeP(p, html);
    FirstAtThree(site, html);
  }

  lemma FirstAtThree(site: Site, html: string)
    requires site.Proper()
    requires |html| > 3 && html[0] == '<' && html[1] == 'p' && html[2] == '>' && MatchEnd(site, html, 3).Some?
    ensures FirstMatch(site, html, 0) == 3
  {
    NotATitle(site, html);
    NotATag(site, html, 1);
    NotATag(site, html, 2);
    FirstIs(site, html, 3);
  }

  lemma StartsLikeP(p: string, g: string)
    requires StartsP(p) && |p| <= |g| && g[..|p|] == p
    ensures g[0] == '<' && g[1] == 'p' && g[2] == '>'
  {
    assert g[..3][0] == g[0] && g[..3][1] == g[1] && g[..3][2] == g[2];
  }

  /** Inside a match there is no '<'. */
  lemma MatchIsClean(site: Site, m: string, i: nat)
    requires site.Proper()
    requires MatchEnd(site, m, 0) == Some(|m|) && |site.open| <= i < |m| - |site.close|
    ensures m[i] != '<'
  {
  }

  lemma ElementAt(site: Site, text: string, i: nat)
    requires site.Proper()
    requires i < |text|
    ensures |Element(site, text)| == |text| + |site.open| + |site.close|
    ensures Element(site, text)[|site.open| + i] == text[i]
  {
  }

  /** A title element that has a '<' in its text is no match. */
  lemma BrokenTitle(site: Site, m: string, text: string, i: nat)
    requires site.Proper()
    requires i < |text| && text[i] == '<' && MatchEnd(site, m, 0) == Some(|m|)
    ensures m != Element(site, text)
  {
    ElementAt(site, text, i);
    if |m| == |Element(site, text)| {
      MatchIsClean(site, m, |site.open| + i);
    }
  }

  lemma Replaced(pre: string, m: string, post: string, x: string)
    requires x != m
    ensures pre + x + post != pre + m + post
  {
    var g, h := pre + x + post, pre + m + post;
    if |g| == |h| {
      assert g[|pre|..|pre| + |x|] == x && h[|pre|..|pre| + |m|] == m;
    }
  }

  lemma InsertedAt(x: string, b: string, y: string, t: string, text: string)
    requires text == (x + b + y) + t && b != ""
    ensures |x| < |text| && text[|x|] == b[0]
  {
  }

  /** A name with a live "$`" changes every page that has a title and starts with another tag. */
  lemma BacktickChanges(site: Site, g: string, name: string)
    requires site.Proper()
    requires Meets(Escape(name), '`') && |g| >= 2 && g[0] == '<' && g[1] == 'p' && FirstMatch(site, g, 0) < |g|
    ensures Brand(site, g, name) != g
  {
    var pre, m, post := BrandPieces(site, g, name);
    StartsWithTag(site, pre, m, post, g);
    PiecesChange(site, name, pre, m, post);
  }

  lemma StartsWithTag(site: Site, pre: string, m: string, post: string, g: string)
    requires site.Proper()
    requires g == pre + m + post && |pre| == FirstMatch(site, g, 0) < |g| && |g| >= 2 && g[0] == '<' && g[1] == 'p'
    ensures pre != "" && pre[0] == '<'
  {
    NotATitle(site, g);
    if |pre| > 0 {
      FirstChar(pre, m + post, g);
    }
  }

  lemma PiecesChange(site: Site, name: string, pre: string, m: string, post: string)
    requires site.Proper()
    requires Meets(Escape(name), '`') && pre != "" && pre[0] == '<' && MatchEnd(site, m, 0) == Some(|m|)
    ensures pre + Element(site, NewText(site, name, pre, m, post)) + post != pre + m + post
  {
    NewTitleBroken(site, name, pre, m, post);
    Replaced(pre, m, post, Element(site, NewText(site, name, pre, m, post)));
  }

  lemma FirstChar(pre: string, rest: string, g: string)
    requires g == pre + rest && pre != ""
    ensures pre[0] == g[0]
  {
  }

  lemma NewTitleBroken(site: Site, name: string, before: string, m: string, after: string)
    requires site.Proper()
    requires Meets(Escape(name), '`') && before != "" && before[0] == '<' && MatchEnd(site, m, 0) == Some(|m|)
    ensures Element(site, NewText(site, name, before, m, after)) != m
  {
    var x, y := MetIsInserted(Escape(name), '`', before, m, after);
    var text := NewText(site, name, before, m, after);
    InsertedAt(x, before, y, site.suffix, text);
    BrokenTitle(site, m, text, |x|);
  }

  lemma BacktickBreaks(site: Site, name: string, p: string, html: string)
    requires site.Proper()
    requires Meets(Escape(name), '`') && StartsP(p) && html == p + Element(site, "a") + Element(site, "b")
    ensures Brand(site, Brand(site, html, name), name) != Brand(site, html, name)
  {
    TwoTitlesMatch(site, p, "a", Element(site, "b"), html);
    var e := 3 + |Element(site, "a")|;
    BrandIs(site, html, name, 3, e);
    ChangesAgain(site, name, p, NewText(site, name, html[..3], html[3..e], html[e..]), Brand(site, html, name));
  }

  lemma ChangesAgain(site: Site, name: string, p: string, text: string, g: string)
    requires site.Proper()
    requires Meets(Escape(name), '`') && StartsP(p) && g == p + Element(site, text) + Element(site, "b")
    ensures Brand(site, g, name) != g
  {
    Parts(p, Element(site, text), Element(site, "b"), g);
    StartsLikeP(p, g);
    assert g == (p + Element(site, text)) + Element(site, "b") + "";
    WholeTitle(site, p + Element(site, text), "b", "", g, |p + Element(site, text)|);
    BacktickChanges(site, g, name);
  }

  /** Idempotent on this page. */
  ghost predicate SettlesOn(site: Site, name: string, html: string) {
    Brand(site, Brand(site, html, name), name) == Brand(site, html, name)
  }

  ghost predicate Settles(site: Site, name: string) {
    forall html: string :: SettlesOn(site, name, html)
  }

  lemma GrowsUnsettled(site: Site, name: string, html: string)
    requires site.Proper()
    requires Meets(Escape(name), '&') && FirstMatch(site, html, 0) < |html|
    ensures !SettlesOn(site, name, html)
  {
    AmpersandGrows(site, html, name);
  }

  lemma BacktickUnsettled(site: Site, name: string) returns (html: string)
    requires site.Proper()
    requires Meets(Escape(name), '`')
    ensures !SettlesOn(site, name, html)
  {
    var p := "<p>";
    html := p + Element(site, "a") + Element(site, "b");
    BacktickBreaks(site, name, p, html);
  }

  /** A page on which branding with a name that is not tame is not idempotent. */
  lemma Unsettled(site: Site, name: string) returns (html: string)
    requires site.Proper()
    requires !Tame(name)
    ensures !SettlesOn(site, name, html)
  {
    if Meets(Escape(name), '&') {
      html := OneTitle(site, 0);
      GrowsUnsettled(site, name, html);
    } else {
      html := BacktickUnsettled(site, name);
    }
  }

  /** Branding with a name is idempotent on every page exactly if the name is tame: reading the
      escaped name left to right and consuming `$$`, neither `$&` nor "$`" is met. */
  lemma IdempotentIff(site: Site, name: string)
    requires site.Proper()
    ensures Settles(site, name) <==> Tame(name)
  {
    if Tame(name) {
      forall html: string ensures SettlesOn(site, name, html) {
        BrandIdempotent(site, html, name);
      }
    } else {
      var html := Unsettled(site, name);
    }
  }

  // ---------------------------------------------------------------- the texts of the source

  /** For the texts of the source: branding is idempotent on every page iff the name is tame, and the
      name is inserted literally into every page iff it has no pattern at all. */
  lemma GatewayBranding(name: string)
    ensures Settles(Gateway, name) <==> Tame(name)
    ensures name != "" ==> (InsertsLiterally(Gateway, name) <==> !Active(name))
  {
    GatewayIsProper();
    IdempotentIff(Gateway, name);
    if name != "" {
      LiteralIff(Gateway, name);
    }
  }

  /** The two conditions differ: `$$` is not inserted literally, but settles. */
  lemma DollarsSettle()
    ensures Active("$$") && Tame("$$")
  {
    assert "$$"[1..] == "$" && "$"[1..] == "" && "$$"[2..] == "";
    assert Escape("$") == "$" + "";
    assert Escape("$$") == "$" + "$";
    assert Escape("$$")[2..] == "";
  }
}
