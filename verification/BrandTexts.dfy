/** The title branch on the texts themselves: which titles are found, what a replacement string stands
    for, and which page results. */
module BrandTexts {
  import opened Schema
  import opened Strings
  import opened Branding

  // ---------------------------------------------------------------- escapeHtml, character by character

  lemma EscapeEach(c: char, rest: string)
    ensures Escape("") == ""
    ensures Escape([c] + rest) ==
              (match c
               case '&' => "&amp;"
               case '<' => "&lt;"
               case '>' => "&gt;"
               case '"' => "&quot;"
               case '\'' => "&#39;"
               case _ => [c]) + Escape(rest)
  {
    assert ([c] + rest)[1..] == rest;
  }

  // ---------------------------------------------------------------- replacement strings

  /** The four patterns that a pattern without groups leaves special ... */
  lemma ExpandPatterns(t: string, before: string, m: string, after: string)
    ensures Expand("$$" + t, before, m, after) == "$" + Expand(t, before, m, after)
    ensures Expand("$&" + t, before, m, after) == m + Expand(t, before, m, after)
    ensures Expand("$`" + t, before, m, after) == before + Expand(t, before, m, after)
    ensures Expand("$'" + t, before, m, after) == after + Expand(t, before, m, after)
  {
    assert ("$$" + t)[2..] == t && ("$&" + t)[2..] == t && ("$`" + t)[2..] == t && ("$'" + t)[2..] == t;
  }

  /** ... and everything else, which stands for itself. */
  lemma ExpandRest(c: char, t: string, before: string, m: string, after: string)
    requires c != '$' || t == "" || (t[0] != '$' && t[0] != '&' && t[0] != '`' && t[0] != '\'')
    ensures Expand([c] + t, before, m, after) == [c] + Expand(t, before, m, after)
    ensures Expand("", before, m, after) == ""
  {
    assert ([c] + t)[1..] == t;
  }

  // ---------------------------------------------------------------- titles

  /** The characters from i on are those of p or, position by position, of q. */
  ghost predicate Spelled(h: string, i: nat, p: string, q: string)
    requires |p| == |q|
  {
    i + |p| <= |h| && forall k | 0 <= k < |p| :: h[i + k] == p[k] || h[i + k] == q[k]
  }

  /** From i to e the page has a title element without '<' inside, its tags in any case. */
  ghost predicate TitleIn(h: string, i: nat, e: nat) {
    && i + 15 <= e <= |h| && Spelled(h, i, "<title>", "<TITLE>") && Spelled(h, e - 8, "</title>", "</TITLE>")
    && forall k | i + 7 <= k < e - 8 :: h[k] != '<'
  }

  lemma {:induction false} MatchesToIs(h: string, i: nat, p: string, n: nat)
    requires n <= |p| && i + n <= |h|
    ensures MatchesTo(h, i, p, n) <==> forall k | 0 <= k < n :: Lower(h[i + k]) == p[k]
  {
    if n > 0 {
      MatchesToIs(h, i, p, n - 1);
    }
  }

  /** A lower-case letter is matched by itself and its capital, any other ASCII character by itself. */
  lemma LowerIs(c: char, p: char)
    requires p == '<' || p == '>' || p == '/' || 'a' <= p <= 'z'
    ensures Lower(c) == p <==> c == p || ('a' <= p <= 'z' && c == (p as int - 32) as char)
  {
  }

  lemma OpenMatches(h: string, i: nat)
    ensures MatchesAt(h, i, "<title>") <==> Spelled(h, i, "<title>", "<TITLE>")
  {
    var p, q := "<title>", "<TITLE>";
    if i + 7 <= |h| {
      MatchesToIs(h, i, p, 7);
      forall k | 0 <= k < 7 ensures Lower(h[i + k]) == p[k] <==> h[i + k] == p[k] || h[i + k] == q[k] {
        LowerIs(h[i + k], p[k]);
      }
    }
  }

  lemma CloseMatches(h: string, i: nat)
    ensures MatchesAt(h, i, "</title>") <==> Spelled(h, i, "</title>", "</TITLE>")
  {
    var p, q := "</title>", "</TITLE>";
    if i + 8 <= |h| {
      MatchesToIs(h, i, p, 8);
      forall k | 0 <= k < 8 ensures Lower(h[i + k]) == p[k] <==> h[i + k] == p[k] || h[i + k] == q[k] {
        LowerIs(h[i + k], p[k]);
      }
    }
  }

  lemma ClosesAt(h: string, i: nat)
    requires Spelled(h, i, "</title>", "</TITLE>")
    ensures i < |h| && h[i] == '<'
  {
    var p, q := "</title>", "</TITLE>";
    assert h[i + 0] == p[0] || h[i + 0] == q[0];
  }

  /** The regular expression finds exactly the title elements. */
  lemma MatchIsTitle(h: string, i: nat, e: nat)
    ensures MatchEnd(Gateway, h, i) == Some(e) <==> TitleIn(h, i, e)
  {
    OpenMatches(h, i);
    if Spelled(h, i, "<title>", "<TITLE>") {
      var j := NextLt(h, i + 7);
      CloseMatches(h, j);
      if TitleIn(h, i, e) {
        ClosesAt(h, e - 8);
        assert j == e - 8;
      }
    }
  }

  // ---------------------------------------------------------------- the page that results

  /** A page without a title, and every page if the name is empty, stays as it is. */
  lemma NoTitleNoChange(h: string, name: string)
    requires name == "" || forall i: nat, e: nat :: !TitleIn(h, i, e)
    ensures Brand(Gateway, h, name) == h
  {
    var a := FirstMatch(Gateway, h, 0);
    if name != "" && a < |h| {
      var e := MatchEnd(Gateway, h, a).value;
      MatchIsTitle(h, a, e);
    }
  }

  /** Otherwise the first title element, and nothing else, is replaced by what the replacement string
      stands for. */
  lemma FirstTitleReplaced(h: string, name: string, i: nat, e: nat)
    requires name != "" && TitleIn(h, i, e) && forall k: nat, l: nat | k < i :: !TitleIn(h, k, l)
    ensures Brand(Gateway, h, name) ==
              h[..i] + Expand("<title>" + Escape(name) + " - AI API Gateway</title>", h[..i], h[i..e], h[e..]) + h[e..]
  {
    MatchIsTitle(h, i, e);
    var a := FirstMatch(Gateway, h, 0);
    if a < i {
      var l := MatchEnd(Gateway, h, a).value;
      MatchIsTitle(h, a, l);
    }
    assert a == i;
    TitleText(name);
  }

  /** For a name without a dollar sign that is the escaped name between the tags of the source. */
  lemma TitleOfName(h: string, name: string, i: nat, e: nat)
    requires name != "" && '$' !in name && TitleIn(h, i, e) && forall k: nat, l: nat | k < i :: !TitleIn(h, k, l)
    ensures Brand(Gateway, h, name) == h[..i] + ("<title>" + Escape(name) + " - AI API Gateway</title>") + h[e..]
  {
    FirstTitleReplaced(h, name, i, e);
    NoDollarInactive(name);
    GatewayIsProper();
    TitlePattern(Gateway, name);
    ExpandLiteral(Title(Gateway, name), h[..i], h[i..e], h[e..]);
    TitleText(name);
  }

  lemma {:induction false} NoDollarInactive(name: string)
    requires '$' !in name
    ensures !Active(name)
  {
    if |name| >= 2 {
      assert name[0] in name;
      assert '$' !in name[1..];
      NoDollarInactive(name[1..]);
    }
  }

  lemma TitleText(name: string)
    ensures Title(Gateway, name) == "<title>" + Escape(name) + " - AI API Gateway</title>"
  {
    assert " - AI API Gateway" + "</title>" == " - AI API Gateway</title>";
    Regrouped("<title>", Escape(name), " - AI API Gateway</title>");
  }

  lemma Regrouped(a: string, b: string, c: string)
    ensures a + (b + c) == a + b + c
  {
  }
}
