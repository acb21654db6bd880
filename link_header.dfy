/**
 * Reading the `link` response header the way the issue collector does
 * (a simplified reader of the Link field of section 3 of RFC 8288): the header
 * is split on commas; in each part the leftmost match of the pattern
 * `<([^>]+)>;\s*rel="(\w+)"` is taken, and the first part whose matched
 * relation is exactly `next` gives the URL of the next page.
 *
 * The regular expression has at most one match at a given start position
 * (`[^>]+` must stop at the first `>`, `\s*` must stop before `r`, `\w+` must
 * stop before `"`), so it is written below as a direct string function.
 */
module LinkHeader {
  import opened Base
  import opened JsText

  /** One `<url>; rel="rel"` entry. */
  datatype LinkEntry = LinkEntry(url: string, rel: string)

  /** What `\w` matches. */
  predicate IsWordChar(c: char)
  {
    'a' <= c <= 'z' || 'A' <= c <= 'Z' || '0' <= c <= '9' || c == '_'
  }

  predicate IsWord(s: string)
  {
    forall k :: 0 <= k < |s| ==> IsWordChar(s[k])
  }

  /** End of the run of word characters starting at `i`. */
  function WordEnd(s: string, i: nat): (j: nat)
    requires i <= |s|
    ensures i <= j <= |s|
    ensures j < |s| ==> !IsWordChar(s[j])
    decreases |s| - i
  {
    if i < |s| && IsWordChar(s[i]) then WordEnd(s, i + 1) else i
  }

  /** Everything `WordEnd` skips is a word character. */
  lemma {:induction false} WordEndRun(s: string, i: nat)
    requires i <= |s|
    ensures IsWord(s[i..WordEnd(s, i)])
    decreases |s| - i
  {
    if i < |s| && IsWordChar(s[i]) {
      WordEndRun(s, i + 1);
      assert s[i..WordEnd(s, i)] == [s[i]] + s[i + 1..WordEnd(s, i + 1)];
    }
  }

  /** End of the run of whitespace starting at `i`. */
  function SpaceEnd(s: string, i: nat): (j: nat)
    requires i <= |s|
    ensures i <= j <= |s|
    ensures j < |s| ==> !IsJsSpace(s[j])
    decreases |s| - i
  {
    if i < |s| && IsJsSpace(s[i]) then SpaceEnd(s, i + 1) else i
  }

  /** The literal `rel="` of the pattern at position `k`. */
  predicate RelKeyAt(p: string, k: nat)
  {
    k + 5 <= |p| && p[k] == 'r' && p[k + 1] == 'e' && p[k + 2] == 'l' && p[k + 3] == '=' && p[k + 4] == '"'
  }

  /** The tail `\s*rel="(\w+)"` of the pattern, read from position `j`: the relation. */
  function RelAt(p: string, j: nat): (rel: Option<string>)
    requires j <= |p|
    ensures rel.Some? ==> rel.value != [] && IsWord(rel.value)
  {
    var k := SpaceEnd(p, j);
    if !RelKeyAt(p, k) then None
    else
      var w := WordEnd(p, k + 5);
      if w == k + 5 || w == |p| || p[w] != '"' then None
      else WordEndRun(p, k + 5); Some(p[k + 5..w])
  }

  /** The match of the pattern that starts exactly at position `i` of `p`, if any. */
  function MatchAt(p: string, i: nat): Option<LinkEntry>
    requires i <= |p|
  {
    if i == |p| || p[i] != '<' then None
    else MatchClosed(p, i, IndexFrom(p, '>', i + 1))
  }

  /** The rest of a match whose `<` is at `i` and whose URL ends at the first `>`, at `close`. */
  function MatchClosed(p: string, i: nat, close: nat): Option<LinkEntry>
    requires i < close <= |p|
  {
    if close == i + 1 || close + 1 >= |p| || p[close + 1] != ';' then None
    else
      var rel := RelAt(p, close + 2);
      if rel.None? then None
      else Some(LinkEntry(p[i + 1..close], rel.value))
  }

  /**
   * A match at a position has a non-empty URL free of `>`, taken from the
   * characters right after the `<`, and a non-empty word as its relation.
   */
  lemma MatchAtShape(p: string, i: nat)
    requires i <= |p|
    ensures var m := MatchAt(p, i);
      m.Some? ==>
        && m.value.url != [] && '>' !in m.value.url
        && m.value.rel != [] && IsWord(m.value.rel)
        && i + 1 + |m.value.url| <= |p| && m.value.url == p[i + 1..i + 1 + |m.value.url|]
  {
    if MatchAt(p, i).Some? {
      var close := IndexFrom(p, '>', i + 1);
      var url := MatchAt(p, i).value.url;
      assert url == p[i + 1..close];
      forall m | 0 <= m < |url|
        ensures url[m] != '>'
      {
        IndexFromSkips(p, '>', i + 1, i + 1 + m);
      }
    }
  }

  /** Which positions of `p` start a match. */
  function Starts(p: string): (b: seq<bool>)
    ensures |b| == |p|
  {
    seq(|p|, j requires 0 <= j < |p| => MatchAt(p, j).Some?)
  }

  /** The first `true` in `b` at or after `i`; `|b|` when there is none. */
  function FirstTrue(b: seq<bool>, i: nat): (j: nat)
    requires i <= |b|
    ensures i <= j <= |b|
    ensures j < |b| ==> b[j]
    ensures forall j' :: i <= j' < j ==> !b[j']
    decreases |b| - i
  {
    if i == |b| || b[i] then i else FirstTrue(b, i + 1)
  }

  /** `p.match(...)`: the match at the leftmost position where one starts. */
  function FirstMatch(p: string): Option<LinkEntry>
  {
    MatchAt(p, FirstTrue(Starts(p), 0))
  }

  /**
   * `match` semantics: no match anywhere gives none; otherwise the result is
   * the match at some position before which no match starts.
   */
  lemma FirstMatchLeftmost(p: string)
    ensures FirstMatch(p).None? ==> forall j :: 0 <= j <= |p| ==> MatchAt(p, j).None?
    ensures FirstMatch(p).Some? ==>
      exists i :: 0 <= i <= |p| && FirstMatch(p) == MatchAt(p, i) &&
        forall j :: 0 <= j < i ==> MatchAt(p, j).None?
  {
    var b := Starts(p);
    var a := FirstTrue(b, 0);
    assert forall j :: 0 <= j < a ==> !b[j] && b[j] == MatchAt(p, j).Some?;
    if a < |p| {
      assert b[a] == MatchAt(p, a).Some?;
    }
  }

  /** `m && m[2] === "next"`. */
  predicate IsNext(m: Option<LinkEntry>)
  {
    m.Some? && m.value.rel == "next"
  }

  /** The match found in each comma-separated part. */
  function Matches(parts: seq<string>): (ms: seq<Option<LinkEntry>>)
    ensures |ms| == |parts|
  {
    seq(|parts|, k requires 0 <= k < |parts| => FirstMatch(parts[k]))
  }

  /** The loop of getNextLink over the parts' matches, with its early return. */
  function NextIn(ms: seq<Option<LinkEntry>>): Option<string>
    decreases |ms|, 1
  {
    if ms == [] then None else NextHead(ms)
  }

  /** One turn of that loop: the part in front decides, or the loop goes on with the rest. */
  function NextHead(ms: seq<Option<LinkEntry>>): Option<string>
    requires ms != []
    decreases |ms|, 0
  {
    if IsNext(ms[0]) then Some(ms[0].value.url) else NextIn(ms[1..])
  }

  /** The loop finds nothing exactly when no part matches with `rel="next"`. */
  lemma {:induction false} NextInNone(ms: seq<Option<LinkEntry>>)
    ensures NextIn(ms).None? <==> forall k :: 0 <= k < |ms| ==> !IsNext(ms[k])
  {
    if ms != [] {
      NextInNone(ms[1..]);
      assert forall k :: 1 <= k < |ms| ==> ms[k] == ms[1..][k - 1];
    }
  }

  /** What the loop returns is the URL of the first part that matches with `rel="next"`. */
  lemma {:induction false} NextInFirst(ms: seq<Option<LinkEntry>>)
    requires NextIn(ms).Some?
    ensures exists k :: 0 <= k < |ms| && ms[k] == Some(LinkEntry(NextIn(ms).value, "next"))
              && forall j :: 0 <= j < k ==> !IsNext(ms[j])
  {
    if !IsNext(ms[0]) {
      NextInFirst(ms[1..]);
      var k :| 0 <= k < |ms[1..]| && ms[1..][k] == Some(LinkEntry(NextIn(ms).value, "next"))
               && forall j :: 0 <= j < k ==> !IsNext(ms[1..][j]);
      assert forall j :: 1 <= j < k + 1 ==> ms[j] == ms[1..][j - 1];
      assert ms[k + 1] == Some(LinkEntry(NextIn(ms).value, "next"));
    } else {
      assert ms[0] == Some(LinkEntry(NextIn(ms).value, "next"));
    }
  }

  /** getNextLink: `null` for a missing or empty header, else the first `rel="next"` URL. */
  function GetNextLink(header: Option<string>): (r: Option<string>)
  {
    match header
    case None => None
    case Some(h) => if h == "" then None else NextIn(Matches(Split(h, ',')))
  }

  /** A URL read from a header is non-empty and holds neither `>` nor `,`; no header gives none. */
  lemma NextLinkShape(header: Option<string>)
    ensures header.None? || header == Some("") ==> GetNextLink(header).None?
    ensures GetNextLink(header).Some? ==> var u := GetNextLink(header).value; u != [] && '>' !in u && ',' !in u
  {
    if GetNextLink(header).Some? {
      var parts := Split(header.value, ',');
      var ms := Matches(parts);
      NextInFirst(ms);
      var k :| 0 <= k < |ms| && ms[k] == Some(LinkEntry(GetNextLink(header).value, "next"));
      assert ms[k] == FirstMatch(parts[k]);
      MatchAtShape(parts[k], FirstTrue(Starts(parts[k]), 0));
      var a := FirstTrue(Starts(parts[k]), 0) + 1;
      SliceLacks(parts[k], a, a + |GetNextLink(header).value|, ',');
    }
  }

  lemma SliceLacks(s: string, a: nat, b: nat, c: char)
    requires a <= b <= |s| && c !in s
    ensures c !in s[a..b]
  {
    forall k | 0 <= k < b - a
      ensures s[a..b][k] != c
    {
      assert s[a..b][k] == s[a + k];
    }
  }

  // ------------------------------------------------- writing a link header

  /** One entry as a server writes it: `<url>; rel="rel"`. */
  function Render(e: LinkEntry): string
  {
    "<" + e.url + ">;" + RelText(e.rel)
  }

  /** The part of a rendered entry after its `;`. */
  function RelText(rel: string): string
  {
    " rel=\"" + rel + "\""
  }

  /** An entry the pattern can read back: a non-empty URL without `>` or `,`, a word relation. */
  predicate WellFormed(e: LinkEntry)
  {
    e.url != [] && '>' !in e.url && ',' !in e.url && e.rel != [] && IsWord(e.rel)
  }

  /** The parts of a header listing `entries` separated by `, `. */
  function FormatParts(entries: seq<LinkEntry>): (parts: seq<string>)
    ensures |parts| == |entries|
  {
    seq(|entries|, k requires 0 <= k < |entries| => (if k == 0 then "" else " ") + Render(entries[k]))
  }

  /** A whole header, as GitHub sends it. */
  function Format(entries: seq<LinkEntry>): string
  {
    Join(FormatParts(entries), ',')
  }

  /** Reference reading of a list of entries: the URL of the first `next` entry. */
  function FirstNextUrl(entries: seq<LinkEntry>): Option<string>
  {
    if entries == [] then None
    else if entries[0].rel == "next" then Some(entries[0].url)
    else FirstNextUrl(entries[1..])
  }

  /** A run of `n` word characters at `a` followed by a non-word character ends at `a + n`. */
  lemma {:induction false} WordEndAt(p: string, a: nat, n: nat)
    requires a + n < |p| && !IsWordChar(p[a + n])
    requires forall m :: a <= m < a + n ==> IsWordChar(p[m])
    ensures WordEnd(p, a) == a + n
    decreases n
  {
    if n > 0 {
      WordEndAt(p, a + 1, n - 1);
    }
  }

  /** The pattern reads a rendered entry back at the position where it starts. */
  lemma MatchRendered(pre: string, e: LinkEntry)
    requires WellFormed(e)
    ensures MatchAt(pre + Render(e), |pre|) == Some(e)
  {
    RenderedParts(pre, e);
    MatchAtParts(pre + Render(e), |pre|, e);
  }

  /** The pieces `MatchAtParts` asks for, found in a rendered entry. */
  lemma RenderedParts(pre: string, e: LinkEntry)
    requires WellFormed(e)
    ensures var p, i := pre + Render(e), |pre|;
      && i + 1 + |e.url| + 1 < |p|
      && p[i] == '<' && p[i + 1 + |e.url| + 1] == ';'
      && IndexFrom(p, '>', i + 1) == i + 1 + |e.url|
      && RelAt(p, i + 1 + |e.url| + 2) == Some(e.rel) && p[i + 1..i + 1 + |e.url|] == e.url
  {
    var q := pre + "<" + e.url + ">;";
    RenderAppended(pre, e);
    CloseRendered(pre, e);
    RelAtText(q, e.rel, |pre| + 1 + |e.url| + 2);
  }

  lemma RenderAppended(pre: string, e: LinkEntry)
    ensures pre + Render(e) == pre + "<" + e.url + ">;" + RelText(e.rel)
  {
  }

  /** In a rendered entry the first `>` after `<` is the one that closes the URL. */
  lemma CloseRendered(pre: string, e: LinkEntry)
    requires '>' !in e.url
    ensures var p := pre + "<" + e.url + ">;" + RelText(e.rel);
      && |pre| + 1 + |e.url| + 1 < |p| && p[|pre|] == '<' && p[|pre| + 1 + |e.url| + 1] == ';'
      && p[|pre| + 1..|pre| + 1 + |e.url|] == e.url
      && IndexFrom(p, '>', |pre| + 1) == |pre| + 1 + |e.url|
  {
    var p := pre + "<" + e.url + ">;" + RelText(e.rel);
    var i := |pre| + 1;
    assert forall m :: i <= m < i + |e.url| ==> p[m] == e.url[m - i];
    IndexFromAt(p, '>', i, |e.url|);
  }

  /** The tail `\s*rel="(\w+)"` of the pattern reads the relation back from its rendering. */
  lemma RelAtText(q: string, rel: string, j: nat)
    requires rel != [] && IsWord(rel) && j == |q|
    ensures RelAt(q + RelText(rel), j) == Some(rel)
  {
    var p := q + RelText(rel);
    var k := |q| + 1;
    assert p[|q|] == ' ' && p[k] == 'r';
    assert SpaceEnd(p, |q|) == k by {
      assert IsJsSpace(p[|q|]) && !IsJsSpace(p[k]);
    }
    assert RelKeyAt(p, k);
    assert forall m :: k + 5 <= m < k + 5 + |rel| ==> p[m] == rel[m - (k + 5)];
    assert p[k + 5 + |rel|] == '"';
    WordEndAt(p, k + 5, |rel|);
    assert p[k + 5..k + 5 + |rel|] == rel;
  }

  /** The match at `i` assembled from its pieces. */
  lemma MatchAtParts(p: string, i: nat, e: LinkEntry)
    requires e.url != [] && i + 1 + |e.url| + 1 < |p|
    requires p[i] == '<' && p[i + 1 + |e.url| + 1] == ';'
    requires IndexFrom(p, '>', i + 1) == i + 1 + |e.url|
    requires RelAt(p, i + 1 + |e.url| + 2) == Some(e.rel) && p[i + 1..i + 1 + |e.url|] == e.url
    ensures MatchAt(p, i) == Some(e)
  {
    MatchClosedParts(p, i, i + 1 + |e.url|, e);
  }

  lemma MatchClosedParts(p: string, i: nat, close: nat, e: LinkEntry)
    requires close == i + 1 + |e.url| && e.url != [] && close + 1 < |p| && p[close + 1] == ';'
    requires RelAt(p, close + 2) == Some(e.rel) && p[i + 1..close] == e.url
    ensures MatchClosed(p, i, close) == Some(e)
  {
  }

  lemma FirstMatchRendered(pre: string, e: LinkEntry)
    requires WellFormed(e) && (pre == "" || pre == " ")
    ensures FirstMatch(pre + Render(e)) == Some(e)
  {
    var p := pre + Render(e);
    var b := Starts(p);
    MatchRendered(pre, e);
    assert b[|pre|];
    if pre == " " {
      assert p[0] == ' ';
      assert !b[0];
    }
    assert FirstTrue(b, 0) == |pre|;
  }

  lemma {:induction false} NextInEntries(ms: seq<Option<LinkEntry>>, entries: seq<LinkEntry>)
    requires |ms| == |entries|
    requires forall k :: 0 <= k < |ms| ==> ms[k] == Some(entries[k])
    ensures NextIn(ms) == FirstNextUrl(entries)
  {
    if ms != [] {
      NextInEntries(ms[1..], entries[1..]);
    }
  }

  /** One part of a formatted header is comma-free and matches as the entry it renders. */
  lemma PartMatches(entries: seq<LinkEntry>, k: nat)
    requires k < |entries| && WellFormed(entries[k])
    ensures ',' !in FormatParts(entries)[k]
    ensures FirstMatch(FormatParts(entries)[k]) == Some(entries[k])
  {
    var e := entries[k];
    var pre := if k == 0 then "" else " ";
    assert FormatParts(entries)[k] == pre + Render(e);
    RenderNoComma(e);
    FirstMatchRendered(pre, e);
  }

  lemma RenderNoComma(e: LinkEntry)
    requires WellFormed(e)
    ensures ',' !in Render(e)
  {
    assert ',' !in e.rel;
    assert ',' !in RelText(e.rel);
  }

  lemma PartsMatch(entries: seq<LinkEntry>)
    requires forall k :: 0 <= k < |entries| ==> WellFormed(entries[k])
    ensures forall k :: 0 <= k < |entries| ==> ',' !in FormatParts(entries)[k]
    ensures forall k :: 0 <= k < |entries| ==> Matches(FormatParts(entries))[k] == Some(entries[k])
  {
    forall k | 0 <= k < |entries|
      ensures ',' !in FormatParts(entries)[k] && Matches(FormatParts(entries))[k] == Some(entries[k])
    {
      PartMatches(entries, k);
    }
  }

  /** A header listing at least one entry is not empty. */
  lemma FormatNonEmpty(entries: seq<LinkEntry>)
    requires entries != []
    ensures Format(entries) != ""
  {
    var parts := FormatParts(entries);
    if |parts| == 1 {
      assert Format(entries) == parts[0];
    } else {
      assert Format(entries) == parts[0] + [','] + Join(parts[1..], ',');
    }
    assert |parts[0]| > 0;
  }

  /** Reading a header that was written from well-formed entries finds the first `next` entry. */
  lemma {:induction false} FormatRoundTrip(entries: seq<LinkEntry>)
    requires forall k :: 0 <= k < |entries| ==> WellFormed(entries[k])
    ensures GetNextLink(Some(Format(entries))) == FirstNextUrl(entries)
  {
    if entries != [] {
      var parts := FormatParts(entries);
      PartsMatch(entries);
      SplitJoin(parts, ',');
      FormatNonEmpty(entries);
      NextInEntries(Matches(parts), entries);
    }
  }

  /** Entries whose relation is not `next` are skipped; a header with no `next` entry gives `null`. */
  lemma NoNextEntry(entries: seq<LinkEntry>)
    requires forall k :: 0 <= k < |entries| ==> WellFormed(entries[k]) && entries[k].rel != "next"
    ensures GetNextLink(Some(Format(entries))) == None
  {
    FormatRoundTrip(entries);
    NoNextUrl(entries);
  }

  lemma {:induction false} NoNextUrl(entries: seq<LinkEntry>)
    requires forall k :: 0 <= k < |entries| ==> entries[k].rel != "next"
    ensures FirstNextUrl(entries) == None
  {
    if entries != [] {
      NoNextUrl(entries[1..]);
    }
  }
}
