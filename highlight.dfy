/** Highlighting of opinion occurrences in review texts.

    A document returned by the search endpoint carries enrichments: spans
    `[begin, end)` of its content tagged with the term they mention and the
    polarity of that mention. The product-review script splices the whole
    content into plain and highlighted pieces joined by `**`; the
    retail-feedback script shows a window of 50 characters on each side of
    the first occurrence, with whitespace runs collapsed, for the first twelve
    documents of each of the top ten opinions. */
module Highlight {
  import opened Common

  datatype Enrichment = Enrichment(term: string, opinion: string, begin: int, end: int)

  datatype Document = Document(externalId: string, content: string, enrichments: seq<Enrichment>)

  const Delimiter := "**"
  const Negative := "NEGATIVE"

  /* ------------------------------------------------------------------ */
  /* Which enrichments are highlighted                                   */
  /* ------------------------------------------------------------------ */

  /** `o["term"] == opinion_id and o["opinion"] == "NEGATIVE"` */
  predicate IsNegativeMention(e: Enrichment, opinionId: string) {
    e.term == opinionId && e.opinion == Negative
  }

  predicate BeginLe(a: Enrichment, b: Enrichment) {
    a.begin <= b.begin
  }

  lemma BeginLeIsTotalPreorder()
    ensures TotalPreorder(BeginLe)
  {
  }

  /** The highlights of a document: its negative mentions of the opinion,
      sorted by ascending begin offset (a stable sort). */
  function Highlights(enrichments: seq<Enrichment>, opinionId: string): seq<Enrichment> {
    SortBy(Filter(enrichments, e => IsNegativeMention(e, opinionId)), BeginLe)
  }

  /** The highlights are exactly the negative mentions of the opinion (each
      as often as the document has it), in ascending order of begin offset. */
  lemma HighlightsSelected(enrichments: seq<Enrichment>, opinionId: string)
    ensures var hs := Highlights(enrichments, opinionId);
            && (forall e :: e in hs <==> e in enrichments && IsNegativeMention(e, opinionId))
            && (forall e :: IsNegativeMention(e, opinionId) ==>
                  multiset(hs)[e] == multiset(enrichments)[e])
            && (forall i, j :: 0 <= i < j < |hs| ==> hs[i].begin <= hs[j].begin)
  {
    var p := (e: Enrichment) => IsNegativeMention(e, opinionId);
    var wanted := Filter(enrichments, p);
    var hs := SortBy(wanted, BeginLe);
    BeginLeIsTotalPreorder();
    SortBySorted(wanted, BeginLe);
    forall e ensures e in hs <==> e in wanted {
      assert e in hs <==> e in multiset(hs);
      assert e in wanted <==> e in multiset(wanted);
    }
    forall e | IsNegativeMention(e, opinionId)
      ensures multiset(hs)[e] == multiset(enrichments)[e]
    {
      FilterMultiset(enrichments, p, e);
    }
  }

  /* ------------------------------------------------------------------ */
  /* Splicing (product reviews)                                          */
  /* ------------------------------------------------------------------ */

  /** The pieces the splicing loop appends from position `last` on:
      for each highlight, the text before it and the highlighted text, then
      the rest of the content. */
  function Pieces(content: string, hs: seq<Enrichment>, last: int): seq<string>
  {
    if hs == [] then [SliceFrom(content, last)]
    else
      [Slice(content, last, hs[0].begin), Slice(content, hs[0].begin, hs[0].end)]
      + Pieces(content, hs[1..], hs[0].end)
  }

  /** The loop building `splitted`. */
  method Splice(content: string, hs: seq<Enrichment>) returns (splitted: seq<string>)
    ensures splitted == Pieces(content, hs, 0)
  {
    splitted := [];
    var last := 0;
    var i := 0;
    while i < |hs|
      invariant 0 <= i <= |hs|
      invariant i == 0 ==> last == 0
      invariant 0 < i ==> last == hs[i - 1].end
      invariant splitted + Pieces(content, hs[i..], last) == Pieces(content, hs, 0)
    {
      assert hs[i..][1..] == hs[i + 1..];
      splitted := splitted + [Slice(content, last, hs[i].begin)];
      splitted := splitted + [Slice(content, hs[i].begin, hs[i].end)];
      last := hs[i].end;
      i := i + 1;
    }
    splitted := splitted + [SliceFrom(content, last)];
  }

  /** k highlights give 2k+1 pieces, the last one the text after the last
      highlight. */
  lemma {:induction false} PiecesLength(content: string, hs: seq<Enrichment>, last: int)
    ensures |Pieces(content, hs, last)| == 2 * |hs| + 1
    ensures Pieces(content, hs, last)[2 * |hs|] ==
              SliceFrom(content, if hs == [] then last else hs[|hs| - 1].end)
  {
    if hs != [] {
      PiecesLength(content, hs[1..], hs[0].end);
    }
  }

  /** Piece 2j+1 is the text of highlight j; piece 2j is the text between
      the end of highlight j-1 (`last` for j = 0) and the begin of highlight j. */
  lemma {:induction false} PiecesAt(content: string, hs: seq<Enrichment>, last: int, j: nat)
    requires j < |hs|
    ensures |Pieces(content, hs, last)| == 2 * |hs| + 1
    ensures Pieces(content, hs, last)[2 * j + 1] == Slice(content, hs[j].begin, hs[j].end)
    ensures Pieces(content, hs, last)[2 * j] ==
              Slice(content, if j == 0 then last else hs[j - 1].end, hs[j].begin)
  {
    PiecesLength(content, hs, last);
    PiecesFront(content, hs, last);
    if j > 0 {
      PiecesAt(content, hs[1..], hs[0].end, j - 1);
      assert hs[1..][j - 1] == hs[j];
      assert j - 1 > 0 ==> hs[1..][j - 2] == hs[j - 1];
    }
  }

  /** The first two pieces, and the pieces of the remaining highlights. */
  lemma PiecesFront(content: string, hs: seq<Enrichment>, last: int)
    requires hs != []
    ensures Pieces(content, hs, last)[..2] ==
              [Slice(content, last, hs[0].begin), Slice(content, hs[0].begin, hs[0].end)]
    ensures Pieces(content, hs, last)[2..] == Pieces(content, hs[1..], hs[0].end)
  {
  }

  /** With no highlight, the content comes out unchanged. */
  lemma NoHighlightKeepsContent(content: string)
    ensures Pieces(content, [], 0) == [content]
  {
  }

  /** Spans that start at or after `last`, are ordered, do not overlap and
      stay inside the content. */
  ghost predicate Disjoint(hs: seq<Enrichment>, last: int, n: nat) {
    if hs == [] then 0 <= last <= n
    else 0 <= last <= hs[0].begin <= hs[0].end && Disjoint(hs[1..], hs[0].end, n)
  }

  /** `"".join(xs)` */
  function Concat(xs: seq<string>): string {
    if xs == [] then "" else xs[0] + Concat(xs[1..])
  }

  /** Concatenating the pieces gives back the content from `last` on; from
      0, the whole content. */
  lemma {:induction false} PiecesRoundTrip(content: string, hs: seq<Enrichment>, last: int)
    requires Disjoint(hs, last, |content|)
    ensures 0 <= last <= |content|
    ensures Concat(Pieces(content, hs, last)) == content[last..]
  {
    if hs != [] {
      var h := hs[0];
      PiecesRoundTrip(content, hs[1..], h.end);
      var rest := Pieces(content, hs[1..], h.end);
      var p := Pieces(content, hs, last);
      assert p == [content[last..h.begin], content[h.begin..h.end]] + rest;
      assert p[1..] == [content[h.begin..h.end]] + rest;
      assert p[1..][1..] == rest;
      assert content[last..] == content[last..h.begin] + content[h.begin..h.end] + content[h.end..];
    }
  }

  /** `sep.join(xs)` */
  function Join(xs: seq<string>, sep: string): string {
    if xs == [] then ""
    else if |xs| == 1 then xs[0]
    else xs[0] + sep + Join(xs[1..], sep)
  }

  lemma {:induction false} JoinAppend(a: seq<string>, b: seq<string>, sep: string)
    requires a != [] && b != []
    ensures Join(a + b, sep) == Join(a, sep) + sep + Join(b, sep)
  {
    if |a| == 1 {
      assert (a + b)[1..] == b;
    } else {
      assert (a + b)[1..] == a[1..] + b;
      JoinAppend(a[1..], b, sep);
    }
  }

  /** The printed text of a document: its pieces joined by `**`. */
  function HighlightedText(content: string, hs: seq<Enrichment>): string {
    Join(Pieces(content, hs, 0), Delimiter)
  }

  /** In the printed text every highlighted span stands between two `**`. */
  lemma HighlightIsDelimited(content: string, hs: seq<Enrichment>, j: nat)
    requires j < |hs|
    ensures exists before, after ::
              HighlightedText(content, hs) ==
                before + Delimiter + Slice(content, hs[j].begin, hs[j].end) + Delimiter + after
  {
    var p := Pieces(content, hs, 0);
    PiecesAt(content, hs, 0, j);
    var a, m, b := p[..2 * j + 1], p[2 * j + 1], p[2 * j + 2..];
    assert p == a + ([m] + b);
    JoinAround(a, m, b, Delimiter);
  }

  /** Joining puts the separator on both sides of an inner item. */
  lemma JoinAround(a: seq<string>, m: string, b: seq<string>, sep: string)
    requires a != [] && b != []
    ensures Join(a + ([m] + b), sep) == Join(a, sep) + sep + m + sep + Join(b, sep)
  {
    JoinAppend(a, [m] + b, sep);
    assert ([m] + b)[1..] == b;
  }

  /* ------------------------------------------------------------------ */
  /* Snippets (retail feedbacks)                                         */
  /* ------------------------------------------------------------------ */

  const Context := 50

  /** `txt[begin-50:begin] + "**" + txt[begin:end] + "**" + txt[end:end+50]` */
  function Snippet(txt: string, begin: int, end: int): string {
    Slice(txt, begin - Context, begin) + Delimiter + Slice(txt, begin, end) + Delimiter
    + Slice(txt, end, end + Context)
  }

  /** What the three slices of a snippet are for a span inside the text.
      Python counts a negative start from the end: when the span starts in
      the first 50 characters of a text of 50 characters or more, the
      leading context is empty. */
  lemma SnippetParts(txt: string, begin: int, end: int)
    requires 0 <= begin <= end <= |txt|
    ensures Snippet(txt, begin, end) ==
              Slice(txt, begin - Context, begin) + Delimiter + txt[begin..end] + Delimiter
              + Slice(txt, end, end + Context)
    ensures Context <= begin ==> Slice(txt, begin - Context, begin) == txt[begin - Context..begin]
    ensures begin < Context <= |txt| ==> Slice(txt, begin - Context, begin) == []
    ensures begin < Context && |txt| < Context ==>
              Slice(txt, begin - Context, begin) ==
                txt[(if begin - Context + |txt| < 0 then 0 else begin - Context + |txt|)..begin]
    ensures |Slice(txt, end, end + Context)| <= Context
    ensures Slice(txt, end, end + Context) ==
              txt[end..if end + Context < |txt| then end + Context else |txt|]
  {
  }

  /** Python's `\s` on text: the characters `str.isspace` accepts. */
  predicate IsSpace(c: char) {
    || c == ' ' || ('\t' <= c <= '\r') || ('\U{1C}' <= c <= '\U{1F}')
    || c == '\U{85}' || c == '\U{A0}' || c == '\U{1680}'
    || ('\U{2000}' <= c <= '\U{200A}') || c == '\U{2028}' || c == '\U{2029}'
    || c == '\U{202F}' || c == '\U{205F}' || c == '\U{3000}'
  }

  function SkipSpaces(s: string): (r: string)
    ensures |r| <= |s|
    ensures r == s[|s| - |r|..]
    ensures r != [] ==> !IsSpace(r[0])
  {
    if s != [] && IsSpace(s[0]) then SkipSpaces(s[1..]) else s
  }

  /** `re.sub("\s+", " ", s)`: every maximal run of whitespace becomes one
      plain space. */
  function Collapse(s: string): (r: string)
    ensures |r| <= |s|
    ensures forall k :: 0 <= k < |r| && IsSpace(r[k]) ==> r[k] == ' '
    ensures forall k :: 0 <= k < |r| - 1 ==> !(IsSpace(r[k]) && IsSpace(r[k + 1]))
    ensures s != [] ==> r != [] && (IsSpace(r[0]) <==> IsSpace(s[0]))
    decreases |s|
  {
    if s == [] then []
    else if IsSpace(s[0]) then " " + Collapse(SkipSpaces(s[1..]))
    else [s[0]] + Collapse(s[1..])
  }

  /** The characters that are not whitespace, in order. */
  function Visible(s: string): string {
    if s == [] then [] else (if IsSpace(s[0]) then [] else [s[0]]) + Visible(s[1..])
  }

  lemma {:induction false} VisibleSkipSpaces(s: string)
    ensures Visible(SkipSpaces(s)) == Visible(s)
  {
    if s != [] && IsSpace(s[0]) {
      VisibleSkipSpaces(s[1..]);
    }
  }

  /** Collapsing keeps every other character, in order. */
  lemma {:induction false} CollapseKeepsVisible(s: string)
    ensures Visible(Collapse(s)) == Visible(s)
    decreases |s|
  {
    if s != [] {
      if IsSpace(s[0]) {
        var t := SkipSpaces(s[1..]);
        CollapseKeepsVisible(t);
        VisibleSkipSpaces(s[1..]);
        assert (" " + Collapse(t))[1..] == Collapse(t);
      } else {
        CollapseKeepsVisible(s[1..]);
        assert ([s[0]] + Collapse(s[1..]))[1..] == Collapse(s[1..]);
      }
    }
  }

  /** Collapsing twice changes nothing more. */
  lemma {:induction false} CollapseIdempotent(s: string)
    ensures Collapse(Collapse(s)) == Collapse(s)
    decreases |s|
  {
    if s != [] {
      var r := Collapse(s);
      if IsSpace(s[0]) {
        var t := SkipSpaces(s[1..]);
        CollapseIdempotent(t);
        var ct := Collapse(t);
        assert r == " " + ct;
        assert r[1..] == ct;
        assert SkipSpaces(ct) == ct by {
          if ct != [] {
            assert !IsSpace(ct[0]);
          }
        }
      } else {
        CollapseIdempotent(s[1..]);
        assert r[1..] == Collapse(s[1..]);
      }
    }
  }

  /** Whitespace only. */
  predicate AllSpace(w: string) {
    forall k :: 0 <= k < |w| ==> IsSpace(w[k])
  }

  /** Skipping the leading whitespace of a text that has a visible last
      character leaves whatever follows it untouched. */
  lemma {:induction false} SkipSpacesAppend(x: string, y: string)
    requires x != [] && !IsSpace(x[|x| - 1])
    ensures SkipSpaces(x + y) == SkipSpaces(x) + y
    ensures SkipSpaces(x) != []
    decreases |x|
  {
    if IsSpace(x[0]) {
      assert |x| > 1;
      assert (x + y)[1..] == x[1..] + y;
      SkipSpacesAppend(x[1..], y);
    }
  }

  /** A run of whitespace in front of a visible character (or of the end)
      is skipped entirely. */
  lemma {:induction false} SkipSpacesRun(w: string, b: string)
    requires AllSpace(w)
    requires b == [] || !IsSpace(b[0])
    ensures SkipSpaces(w + b) == b
    decreases |w|
  {
    if w != [] {
      assert (w + b)[1..] == w[1..] + b;
      SkipSpacesRun(w[1..], b);
    } else {
      assert w + b == b;
    }
  }

  /** A text without whitespace is left as it is. */
  lemma {:induction false} CollapseNoSpace(s: string)
    requires forall k :: 0 <= k < |s| ==> !IsSpace(s[k])
    ensures Collapse(s) == s
    decreases |s|
  {
    if s != [] {
      CollapseNoSpace(s[1..]);
    }
  }

  /** A leading run of whitespace before a visible character (or the end)
      becomes one space. */
  lemma CollapseLeadingRun(w: string, b: string)
    requires w != [] && AllSpace(w)
    requires b == [] || !IsSpace(b[0])
    ensures Collapse(w + b) == " " + Collapse(b)
  {
    assert (w + b)[0] == w[0];
    assert (w + b)[1..] == w[1..] + b;
    SkipSpacesRun(w[1..], b);
  }

  /** Collapsing a text that starts with whitespace and ends with a visible
      character, alone or followed by a run and more text: the leading run
      becomes one space and the rest keeps its visible last character. */
  lemma CollapseSpaceFirst(a: string, w: string, b: string)
    requires a != [] && IsSpace(a[0]) && !IsSpace(a[|a| - 1])
    ensures var t := SkipSpaces(a[1..]);
            && t != [] && |t| < |a| && !IsSpace(t[|t| - 1])
            && Collapse(a) == " " + Collapse(t)
            && Collapse(a + w + b) == " " + Collapse(t + w + b)
  {
    var s := a + w + b;
    assert s[0] == a[0];
    assert s[1..] == a[1..] + (w + b);
    SkipSpacesAppend(a[1..], w + b);
    var t := SkipSpaces(a[1..]);
    assert t + (w + b) == t + w + b;
    assert t == a[1..][|a[1..]| - |t|..];
    assert t[|t| - 1] == a[|a| - 1];
  }

  /** Collapsing a text that starts with a visible character, alone or
      followed by a run and more text, keeps that character. */
  lemma CollapseVisibleFirst(a: string, w: string, b: string)
    requires a != [] && !IsSpace(a[0]) && !IsSpace(a[|a| - 1])
    ensures a[1..] == [] || !IsSpace(a[1..][|a[1..]| - 1])
    ensures Collapse(a) == [a[0]] + Collapse(a[1..])
    ensures Collapse(a + w + b) == [a[0]] + Collapse(a[1..] + w + b)
  {
    var s := a + w + b;
    assert s[0] == a[0];
    assert s[1..] == a[1..] + w + b;
    if |a| > 1 {
      assert a[1..][|a[1..]| - 1] == a[|a| - 1];
    }
  }

  /** A maximal run of whitespace, wherever it stands, becomes exactly one
      plain space, and the text on either side of it is collapsed on its
      own. With `CollapseNoSpace` this determines the result on every text. */
  lemma {:induction false} CollapseRun(a: string, w: string, b: string)
    requires w != [] && AllSpace(w)
    requires a == [] || !IsSpace(a[|a| - 1])
    requires b == [] || !IsSpace(b[0])
    ensures Collapse(a + w + b) == Collapse(a) + " " + Collapse(b)
    decreases |a|
  {
    if a == [] {
      assert a + w + b == w + b;
      CollapseLeadingRun(w, b);
    } else if IsSpace(a[0]) {
      CollapseSpaceFirst(a, w, b);
      var t := SkipSpaces(a[1..]);
      CollapseRun(t, w, b);
      Associate(" ", Collapse(t), Collapse(b));
    } else {
      CollapseVisibleFirst(a, w, b);
      CollapseRun(a[1..], w, b);
      Associate([a[0]], Collapse(a[1..]), Collapse(b));
    }
  }

  lemma Associate(x: string, y: string, z: string)
    ensures x + (y + " " + z) == (x + y) + " " + z
  {
  }

  /** The line printed for one document:
      `"[%s]\t[...]" % externalId + re.sub("\s+", " ", snippet) + "[...]"`,
      an IndexError when it has no highlight. */
  function ExtractLine(doc: Document, opinionId: string): (r: Result<string>)
    ensures r.Err? <==> Highlights(doc.enrichments, opinionId) == []
    ensures r.Err? ==> r.error == IndexError
  {
    var hs := Highlights(doc.enrichments, opinionId);
    if hs == [] then Err(IndexError)
    else
      var first := hs[0];
      Ok("[" + doc.externalId + "]\t[...]"
         + Collapse(Snippet(doc.content, first.begin, first.end)) + "[...]")
  }

  /** Lines printed for the documents `docs[i..n]`, in order, up to the
      first one whose line fails, which stops the script; `lineOf` makes the
      line of one document. */
  function ExtractRun(docs: seq<Document>, i: nat, n: nat, lineOf: Document -> Result<string>)
    : (out: (seq<string>, Option<Error>))
    requires i <= n <= |docs|
    ensures |out.0| <= n - i
    ensures out.1.None? ==> |out.0| == n - i
    decreases n - i
  {
    if i == n then ([], None)
    else match lineOf(docs[i])
      case Err(e) => ([], Some(e))
      case Ok(line) =>
        var rest := ExtractRun(docs, i + 1, n, lineOf);
        ([line] + rest.0, rest.1)
  }

  /** The lines `ls` printed before the outcome `out` of the documents that follow. */
  function Prepend(ls: seq<string>, out: (seq<string>, Option<Error>)): (seq<string>, Option<Error>) {
    (ls + out.0, out.1)
  }

  lemma PrependTwice(a: seq<string>, b: seq<string>, out: (seq<string>, Option<Error>))
    ensures Prepend(a, Prepend(b, out)) == Prepend(a + b, out)
  {
    assert a + (b + out.0) == (a + b) + out.0;
  }

  /** The loop over the documents found for one opinion: it prints before
      testing `i > 10`, so it prints for documents 0..11 at most. */
  const MaxExtracts := 12

  /** How many documents the loop visits at most. */
  function Visited(docs: seq<Document>): (n: nat)
    ensures n <= |docs| && n <= MaxExtracts
    ensures n == |docs| || n == MaxExtracts
  {
    if |docs| < MaxExtracts then |docs| else MaxExtracts
  }

  /** What the loop over the documents of one opinion prints, and the error
      that stops it, if any. */
  function Extracts(docs: seq<Document>, opinionId: string): (seq<string>, Option<Error>) {
    ExtractRun(docs, 0, Visited(docs), d => ExtractLine(d, opinionId))
  }

  method PrintExtracts(docs: seq<Document>, opinionId: string)
    returns (lines: seq<string>, failure: Option<Error>)
    ensures (lines, failure) == Extracts(docs, opinionId)
  {
    var lineOf := d => ExtractLine(d, opinionId);
    lines, failure := [], None;
    var n := Visited(docs);
    var i := 0;
    assert [] + ExtractRun(docs, 0, n, lineOf).0 == ExtractRun(docs, 0, n, lineOf).0;
    while i < |docs|
      invariant 0 <= i <= n && i < MaxExtracts
      invariant ExtractRun(docs, 0, n, lineOf) == Prepend(lines, ExtractRun(docs, i, n, lineOf))
    {
      var line := lineOf(docs[i]);
      if line.Err? {
        failure := Some(line.error);
        assert lines + [] == lines;
        return;
      }
      PrependTwice(lines, [line.value], ExtractRun(docs, i + 1, n, lineOf));
      lines := lines + [line.value];
      if i > 10 {
        assert lines + [] == lines;
        return;
      }
      i := i + 1;
    }
    assert lines + [] == lines;
  }

  /** A run stops exactly when one of its documents has no line. */
  lemma {:induction false} RunFailsIffLineFails(docs: seq<Document>, i: nat, n: nat,
                                                lineOf: Document -> Result<string>)
    requires i <= n <= |docs|
    ensures ExtractRun(docs, i, n, lineOf).1.Some? <==>
              exists k :: i <= k < n && lineOf(docs[k]).Err?
    decreases n - i
  {
    if i < n {
      RunFailsIffLineFails(docs, i + 1, n, lineOf);
    }
  }

  /** At most twelve extracts per opinion; the script stops exactly when one
      of the first twelve documents has no negative mention of the opinion,
      and otherwise prints one line per visited document. */
  lemma ExtractsBounded(docs: seq<Document>, opinionId: string)
    ensures var out := Extracts(docs, opinionId);
            && |out.0| <= MaxExtracts
            && (out.1.Some? <==> exists k :: 0 <= k < Visited(docs) &&
                                   Highlights(docs[k].enrichments, opinionId) == [])
            && (out.1.None? ==> |out.0| == Visited(docs))
  {
    var lineOf := d => ExtractLine(d, opinionId);
    RunFailsIffLineFails(docs, 0, Visited(docs), lineOf);
  }

  /* ------------------------------------------------------------------ */
  /* The loop over the top ten opinions (retail feedbacks)               */
  /* ------------------------------------------------------------------ */

  datatype Illustration = Illustration(opinion: Term, cooccurrences: seq<string>, extracts: seq<string>)

  /** `", ".join([o["label"] for o in items[1:20]])`: the labels of items
      1 to 19 of the co-occurrence answer; item 0 is left out. */
  function CooccurrenceLabels(items: seq<Term>): (labels: seq<string>)
    ensures |labels| == |Slice(items, 1, 20)|
    ensures |labels| <= 19
    ensures forall k :: 0 <= k < |labels| ==> labels[k] == items[k + 1].labelText
  {
    var kept := Slice(items, 1, 20);
    seq(|kept|, k requires 0 <= k < |kept| => kept[k].labelText)
  }

  /** What the loop shows for one opinion. */
  function IllustrationOf(opinion: Term, cooccurrences: string -> seq<Term>,
                          documents: string -> seq<Document>): Illustration
  {
    Illustration(opinion, CooccurrenceLabels(cooccurrences(opinion.id)),
                 Extracts(documents(opinion.id), opinion.id).0)
  }

  /** `[f(x) for x in s[:n]]`, built one item at a time. */
  function MapPrefix<T, U>(s: seq<T>, n: nat, f: T -> U): (r: seq<U>)
    requires n <= |s|
    ensures |r| == n
  {
    if n == 0 then [] else MapPrefix(s, n - 1, f) + [f(s[n - 1])]
  }

  lemma {:induction false} MapPrefixAt<T, U>(s: seq<T>, n: nat, k: nat, f: T -> U)
    requires k < n <= |s|
    ensures MapPrefix(s, n, f)[k] == f(s[k])
  {
    if k < n - 1 {
      MapPrefixAt(s, n - 1, k, f);
    }
  }

  /** What the loop shows for the first n opinions of `top`. */
  function Illustrations(top: seq<Term>, n: nat, cooccurrences: string -> seq<Term>,
                         documents: string -> seq<Document>): (r: seq<Illustration>)
    requires n <= |top|
    ensures |r| == n
  {
    MapPrefix(top, n, t => IllustrationOf(t, cooccurrences, documents))
  }

  /** The k-th illustration shown is the one of the k-th top opinion. */
  lemma IllustrationsAt(top: seq<Term>, n: nat, k: nat,
                        cooccurrences: string -> seq<Term>,
                        documents: string -> seq<Document>)
    requires k < n <= |top|
    ensures Illustrations(top, n, cooccurrences, documents)[k]
            == IllustrationOf(top[k], cooccurrences, documents)
  {
    MapPrefixAt(top, n, k, t => IllustrationOf(t, cooccurrences, documents));
  }

  /** One more round appends the next opinion's illustration. */
  lemma IllustrationsStep(top: seq<Term>, n: nat,
                          cooccurrences: string -> seq<Term>,
                          documents: string -> seq<Document>)
    requires n < |top|
    ensures Illustrations(top, n + 1, cooccurrences, documents)
            == Illustrations(top, n, cooccurrences, documents) + [IllustrationOf(top[n], cooccurrences, documents)]
  {
  }

  /** The outcome of printing the extracts of each of the first n top
      opinions. */
  function Failures(top: seq<Term>, n: nat, documents: string -> seq<Document>): (r: seq<Option<Error>>)
    requires n <= |top|
    ensures |r| == n
  {
    MapPrefix(top, n, (t: Term) => Extracts(documents(t.id), t.id).1)
  }

  /** The k-th outcome is the one of the k-th top opinion's extracts. */
  lemma FailuresAt(top: seq<Term>, n: nat, k: nat, documents: string -> seq<Document>)
    requires k < n <= |top|
    ensures Failures(top, n, documents)[k] == Extracts(documents(top[k].id), top[k].id).1
  {
    MapPrefixAt(top, n, k, (t: Term) => Extracts(documents(t.id), t.id).1);
  }

  /** No outcome is an error. */
  predicate NoneFailed(outcomes: seq<Option<Error>>) {
    forall k :: 0 <= k < |outcomes| ==> outcomes[k].None?
  }

  /** One round of the loop: the co-occurring labels, then the extracts. */
  method Illustrate(opinion: Term, cooccurrences: string -> seq<Term>,
                    documents: string -> seq<Document>)
    returns (illustration: Illustration, failure: Option<Error>)
    ensures illustration == IllustrationOf(opinion, cooccurrences, documents)
    ensures failure == Extracts(documents(opinion.id), opinion.id).1
  {
    var labels := CooccurrenceLabels(cooccurrences(opinion.id));
    var lines;
    lines, failure := PrintExtracts(documents(opinion.id), opinion.id);
    illustration := Illustration(opinion, labels, lines);
  }

  /** One round of the loop for each of the first ten top opinions.
      `cooccurrences(id)` and `documents(id)` stand for the answers of the
      two searches made with the opinion's id. The script stops at the first
      opinion whose extracts stop it. */
  method IllustrateTopOpinions(top: seq<Term>, cooccurrences: string -> seq<Term>,
                               documents: string -> seq<Document>)
    returns (shown: seq<Illustration>, failure: Option<Error>)
    ensures |shown| <= 10 && |shown| <= |top|
    ensures shown == Illustrations(top, |shown|, cooccurrences, documents)
    ensures failure.None? ==> |shown| == |Take(top, 10)|
    ensures failure.None? ==> NoneFailed(Failures(top, |shown|, documents))
    ensures failure.Some? ==> 0 < |shown| && NoneFailed(Failures(top, |shown| - 1, documents))
    ensures failure.Some? ==>
              (0 < |shown| &&
               var last := top[|shown| - 1];
               failure == Extracts(documents(last.id), last.id).1)
  {
    var selected := Take(top, 10);
    shown, failure := [], None;
    for i := 0 to |selected|
      invariant shown == Illustrations(top, i, cooccurrences, documents)
      invariant NoneFailed(Failures(top, i, documents))
    {
      assert selected[i] == top[i];
      var illustration, err := Illustrate(selected[i], cooccurrences, documents);
      IllustrationsStep(top, i, cooccurrences, documents);
      shown := shown + [illustration];
      assert |shown| == i + 1;
      if err.Some? {
        failure := err;
        return;
      }
      assert Failures(top, i + 1, documents) == Failures(top, i, documents) + [err];
    }
  }
}
