/** `parseMarkdownText` of the section-improvement page: the text is split on
    `**…**` spans with `text.split(/(\*\*.*?\*\*)/g)`, and the pieces are
    rendered as plain text or bold. */
module Markdown {
  import opened Wrappers
  import Text

  /** The characters a regular-expression `.` does not match. */
  predicate IsLineTerminator(c: char) {
    c == '\n' || c == '\r' || c == '\U{2028}' || c == '\U{2029}'
  }

  /** A `**` marker starts at index `j`. */
  predicate MarkerAt(s: string, j: int) {
    0 <= j && j + 1 < |s| && s[j] == '*' && s[j + 1] == '*'
  }

  /** The lazy `.*?\*\*` tail of the pattern, tried from index `from`: the
      least `q >= from` with a marker at `q`, provided `.` can cross every
      character before it. */
  function CloseFrom(s: string, from: nat): (q: Option<nat>)
    decreases |s| - from
    ensures q.Some? ==> from <= q.value && MarkerAt(s, q.value)
    ensures q.Some? ==> forall j :: from <= j < q.value ==> !MarkerAt(s, j) && !IsLineTerminator(s[j])
    ensures q.None? ==> forall j :: from <= j && MarkerAt(s, j) ==> exists k :: from <= k < j && IsLineTerminator(s[k])
  {
    if from + 2 > |s| then None
    else if s[from] == '*' && s[from + 1] == '*' then Some(from)
    else if IsLineTerminator(s[from]) then None
    else CloseFrom(s, from + 1)
  }

  /** The whole pattern tried at index `p`: the end of the match, if any. */
  function MatchAt(s: string, p: nat): (e: Option<nat>)
    ensures e.Some? ==> p + 4 <= e.value <= |s| && MarkerAt(s, p) && MarkerAt(s, e.value - 2)
  {
    if MarkerAt(s, p) then
      match CloseFrom(s, p + 2)
      case Some(q) => Some(q + 2)
      case None => None
    else None
  }

  /** The leftmost match at or after `p`, as (start, end). */
  function FirstMatch(s: string, p: nat): (m: Option<(nat, nat)>)
    decreases |s| - p
    ensures m.Some? ==> p <= m.value.0 && m.value.0 + 4 <= m.value.1 <= |s|
    ensures m.Some? ==> MatchAt(s, m.value.0) == Some(m.value.1)
    ensures m.Some? ==> forall j :: p <= j < m.value.0 ==> MatchAt(s, j).None?
    ensures m.None? ==> forall j :: p <= j < |s| ==> MatchAt(s, j).None?
  {
    if p >= |s| then None
    else match MatchAt(s, p)
      case Some(e) => Some((p, e))
      case None => FirstMatch(s, p + 1)
  }

  /** A piece of the `split` result: the text between matches, or a matched
      span with its markers (the pattern's capture group puts those in). */
  datatype Part = Gap(text: string) | Span(text: string)

  /** `text.split(/(\*\*.*?\*\*)/g)`, each piece tagged with where it came from. */
  function Split(s: string): (parts: seq<Part>)
    decreases |s|
    ensures |parts| % 2 == 1
    ensures forall i :: 0 <= i < |parts| ==> (parts[i].Span? <==> i % 2 == 1)
  {
    var m := FirstMatch(s, 0);
    if m.None? then [Gap(s)]
    else
      var p, e := m.value.0, m.value.1;
      var rest := Split(s[e..]);
      var parts := [Gap(s[..p]), Span(s[p..e])] + rest;
      forall i | 2 <= i < |parts|
        ensures parts[i].Span? <==> i % 2 == 1
      {
        assert parts[i] == rest[i - 2];
        assert (i - 2) % 2 == i % 2;
      }
      parts
  }

  /** Joining the texts of the pieces. */
  function Join(parts: seq<Part>): string {
    if parts == [] then "" else parts[0].text + Join(parts[1..])
  }

  /** Splitting loses nothing: the pieces put back together are the input. */
  lemma {:induction false} SplitJoin(s: string)
    ensures Join(Split(s)) == s
    decreases |s|
  {
    match FirstMatch(s, 0)
    case None =>
    case Some((p, e)) =>
      var rest := Split(s[e..]);
      SplitJoin(s[e..]);
      assert Split(s)[1..][1..] == rest;
      assert s == s[..p] + s[p..e] + s[e..];
  }

  /** Where the `i`th piece starts in the input: the length of the pieces
      before it. */
  function Offset(parts: seq<Part>, i: nat): nat
    requires i <= |parts|
  {
    |Join(parts[..i])|
  }

  /** An optional index moved `e` places to the right. */
  function ShiftBy(o: Option<nat>, e: nat): Option<nat> {
    if o.Some? then Some(o.value + e) else None
  }

  /** The lazy tail looks only forward, so on a suffix it finds the same
      closing marker, `e` places earlier. */
  lemma {:induction false} CloseFromSuffix(s: string, e: nat, f: nat)
    requires e <= |s|
    ensures CloseFrom(s, e + f) == ShiftBy(CloseFrom(s[e..], f), e)
    decreases |s| - e - f
  {
    var u := s[e..];
    if f + 2 <= |u| {
      assert u[f] == s[e + f] && u[f + 1] == s[e + f + 1];
      if !(u[f] == '*' && u[f + 1] == '*') && !IsLineTerminator(u[f]) {
        CloseFromSuffix(s, e, f + 1);
      }
    }
  }

  /** The pattern matches at `j` of a suffix exactly when it matches at
      `e + j` of the whole text, and the match ends `e` places earlier. */
  lemma MatchAtSuffix(s: string, e: nat, j: nat)
    requires e <= |s|
    ensures MatchAt(s, e + j) == ShiftBy(MatchAt(s[e..], j), e)
  {
    var u := s[e..];
    if j + 1 < |u| {
      assert u[j] == s[e + j] && u[j + 1] == s[e + j + 1];
    }
    assert MarkerAt(u, j) <==> MarkerAt(s, e + j);
    CloseFromSuffix(s, e, j + 2);
  }

  /** Two leading pieces move every later offset by their lengths. */
  lemma OffsetPastPair(x: Part, y: Part, rest: seq<Part>, k: nat)
    requires k <= |rest|
    ensures Offset([x, y] + rest, k + 2) == |x.text| + |y.text| + Offset(rest, k)
  {
    var pre := ([x, y] + rest)[..k + 2];
    assert pre[0] == x && pre[1..][0] == y;
    assert pre[1..][1..] == rest[..k];
    assert Join(pre[1..]) == y.text + Join(rest[..k]);
    assert Join(pre) == x.text + Join(pre[1..]);
  }

  /** One step of the split: with a leftmost match from `p` to `e`, the
      pieces are the text before it, the match, and the split of the rest. */
  lemma SplitStep(s: string)
    requires FirstMatch(s, 0).Some?
    ensures var p, e := FirstMatch(s, 0).value.0, FirstMatch(s, 0).value.1;
      Split(s) == [Gap(s[..p]), Span(s[p..e])] + Split(s[e..])
    ensures Split(s)[2..] == Split(s[FirstMatch(s, 0).value.1..])
    ensures |Split(s)[0].text| + |Split(s)[1].text| == FirstMatch(s, 0).value.1
  {
    var p, e := FirstMatch(s, 0).value.0, FirstMatch(s, 0).value.1;
    assert ([Gap(s[..p]), Span(s[p..e])] + Split(s[e..]))[2..] == Split(s[e..]);
  }

  /** The `i`th piece agrees with the pattern: a span is a match that starts
      where the span starts and ends where it ends, and no match starts
      inside the text between spans. */
  ghost predicate PieceFollowsPattern(s: string, parts: seq<Part>, i: nat)
    requires i < |parts|
  {
    var o := Offset(parts, i);
    && (i % 2 == 1 ==> MatchAt(s, o) == Some(o + |parts[i].text|))
    && (i % 2 == 0 ==> forall j :: o <= j < o + |parts[i].text| ==> MatchAt(s, j).None?)
  }

  /** The split follows the pattern: every span is the leftmost match left
      over, and the text between spans holds no match. */
  lemma {:induction false} SplitFollowsPattern(s: string, i: nat)
    requires i < |Split(s)|
    ensures PieceFollowsPattern(s, Split(s), i)
    decreases |s|
  {
    var m := FirstMatch(s, 0);
    if m.None? {
      assert Split(s) == [Gap(s)];
      assert Split(s)[..0] == [];
    } else if i < 2 {
      var p, e := m.value.0, m.value.1;
      SplitStep(s);
      if i == 0 {
        assert Split(s)[..0] == [];
      } else {
        assert Split(s)[..1] == [Gap(s[..p])];
        assert Join(Split(s)[..1]) == s[..p] + Join([]);
      }
    } else {
      var e := m.value.1;
      SplitStep(s);
      SplitFollowsPattern(s[e..], i - 2);
      ShiftedPiece(s, e, Split(s), Split(s[e..]), i);
    }
  }

  /** The inductive step: a piece after two leading pieces of total length
      `e` is a piece of the rest, moved right by `e`, and so is any match. */
  lemma ShiftedPiece(s: string, e: nat, parts: seq<Part>, rest: seq<Part>, i: nat)
    requires e <= |s| && 2 <= i < |parts| && parts[2..] == rest
    requires |parts[0].text| + |parts[1].text| == e
    requires PieceFollowsPattern(s[e..], rest, i - 2)
    ensures PieceFollowsPattern(s, parts, i)
  {
    var k := i - 2;
    assert k % 2 == i % 2;
    assert parts == [parts[0], parts[1]] + rest;
    OffsetPastPair(parts[0], parts[1], rest, k);
    var o := Offset(rest, k);
    assert parts[i] == rest[k];
    if i % 2 == 1 {
      MatchAtSuffix(s, e, o);
    } else {
      forall j | e + o <= j < e + o + |rest[k].text|
        ensures MatchAt(s, j).None?
      {
        MatchAtSuffix(s, e, j - e);
      }
    }
  }

  /** A text the lazy `.*?` can cover without reaching a closing marker: no
      line terminator and no `**` inside it. */
  ghost predicate Unmarked(u: string) {
    forall j :: 0 <= j < |u| ==> !IsLineTerminator(u[j]) && !MarkerAt(u, j)
  }

  /** A matched span: `**`, an unmarked text, and `**`. */
  ghost predicate WellFormedSpan(t: string) {
    && |t| >= 4 && Text.StartsWith(t, "**") && Text.EndsWith(t, "**")
    && Unmarked(t[2..|t| - 2])
  }

  lemma MatchWellFormed(s: string, p: nat, e: nat)
    requires MatchAt(s, p) == Some(e)
    ensures WellFormedSpan(s[p..e])
  {
    var t := s[p..e];
    var q := e - 2;
    assert CloseFrom(s, p + 2) == Some(q);
    assert |t| >= 4;
    assert t[..2] == "**" by {
      assert t[0] == s[p] && t[1] == s[p + 1];
    }
    assert t[|t| - 2..] == "**" by {
      assert t[|t| - 2] == s[q] && t[|t| - 1] == s[q + 1];
    }
    var u := t[2..|t| - 2];
    forall j | 0 <= j < |u|
      ensures !IsLineTerminator(u[j]) && !MarkerAt(u, j)
    {
      assert u[j] == t[2 + j] == s[p + 2 + j];
      assert !MarkerAt(s, p + 2 + j) && !IsLineTerminator(s[p + 2 + j]);
      if j + 1 < |u| {
        assert u[j + 1] == t[2 + j + 1] == s[p + 2 + j + 1];
      }
    }
  }

  /** Every span of the split is well formed. */
  lemma {:induction false} SpansWellFormed(s: string, i: nat)
    requires i < |Split(s)| && Split(s)[i].Span?
    ensures WellFormedSpan(Split(s)[i].text)
    decreases |s|
  {
    match FirstMatch(s, 0)
    case None =>
    case Some((p, e)) =>
      if i >= 2 {
        assert Split(s)[i] == Split(s[e..])[i - 2];
        SpansWellFormed(s[e..], i - 2);
      } else {
        assert Split(s)[i].text == s[p..e];
        MatchWellFormed(s, p, e);
      }
  }

  /** A rendered piece. */
  datatype Piece = Plain(text: string) | Bold(text: string)

  /** `t.slice(2, -2)`: empty when the two cuts overlap, that is when `t` has
      fewer than four characters. */
  function Inner(t: string): (r: string)
    ensures |t| >= 4 ==> r == t[2..|t| - 2]
    ensures |t| < 4 ==> r == ""
  {
    if |t| >= 4 then t[2..|t| - 2] else ""
  }

  /** As written: a piece that starts and ends with `**` becomes bold with two
      characters cut from each end; every other piece is kept as it is. */
  function PieceAsWritten(t: string): (r: Piece)
    ensures r.Bold? <==> Text.StartsWith(t, "**") && Text.EndsWith(t, "**")
    ensures r.Bold? ==> r.text == Inner(t)
    ensures r.Plain? ==> r.text == t
  {
    if Text.StartsWith(t, "**") && Text.EndsWith(t, "**") then Bold(Inner(t)) else Plain(t)
  }

  /** `parseMarkdownText(text)` as the page has it. */
  function ParseAsWritten(s: string): (pieces: seq<Piece>)
    ensures |pieces| == |Split(s)|
    ensures forall i :: 0 <= i < |pieces| ==> pieces[i] == PieceAsWritten(Split(s)[i].text)
  {
    var parts := Split(s);
    seq(|parts|, i requires 0 <= i < |parts| => PieceAsWritten(parts[i].text))
  }

  /** Corrected: exactly the matched spans are bold, with their markers removed. */
  function PieceOf(p: Part): Piece {
    match p
    case Gap(t) => Plain(t)
    case Span(t) => Bold(Inner(t))
  }

  /** `parseMarkdownText(text)` as intended: bold exactly where the pattern matched. */
  function Parse(s: string): (pieces: seq<Piece>)
    ensures |pieces| == |Split(s)|
    ensures forall i :: 0 <= i < |pieces| ==> (pieces[i].Bold? <==> i % 2 == 1)
    ensures forall i :: 0 <= i < |pieces| ==> pieces[i] == PieceOf(Split(s)[i])
  {
    var parts := Split(s);
    seq(|parts|, i requires 0 <= i < |parts| => PieceOf(parts[i]))
  }

  /** Putting the markers back around bold pieces and joining. */
  function Rewrap(pieces: seq<Piece>): string {
    if pieces == [] then ""
    else
      (match pieces[0]
       case Plain(t) => t
       case Bold(t) => "**" + t + "**") + Rewrap(pieces[1..])
  }

  /** The corrected parse is lossless. */
  lemma ParseLossless(s: string)
    ensures Rewrap(Parse(s)) == s
  {
    SplitJoin(s);
    forall i | 0 <= i < |Split(s)| && Split(s)[i].Span?
      ensures |Split(s)[i].text| >= 4 && Text.StartsWith(Split(s)[i].text, "**") && Text.EndsWith(Split(s)[i].text, "**")
    {
      SpansWellFormed(s, i);
    }
    RewrapPieces(Split(s), Parse(s), s);
  }

  lemma {:induction false} RewrapPieces(parts: seq<Part>, pieces: seq<Piece>, s: string)
    requires |pieces| == |parts|
    requires forall i :: 0 <= i < |parts| ==> pieces[i] == PieceOf(parts[i])
    requires forall i :: 0 <= i < |parts| && parts[i].Span? ==>
      |parts[i].text| >= 4 && Text.StartsWith(parts[i].text, "**") && Text.EndsWith(parts[i].text, "**")
    ensures Rewrap(pieces) == Join(parts)
    decreases |parts|
  {
    if parts != [] {
      RewrapPieces(parts[1..], pieces[1..], s);
      var t := parts[0].text;
      if parts[0].Span? {
        assert t == t[..2] + t[2..|t| - 2] + t[|t| - 2..];
      }
    }
  }

  /** Both parses agree on every matched span: the difference is confined to
      the text between spans. */
  lemma AgreeOnSpans(s: string, i: nat)
    requires i < |Split(s)| && i % 2 == 1
    ensures ParseAsWritten(s)[i] == Parse(s)[i]
  {
    SpansWellFormed(s, i);
  }

  /** The page's version is not lossless: the text "**" has no match, so its
      only piece is plain text that starts and ends with `**`; it is drawn as an
      empty bold piece, and the two asterisks disappear. */
  lemma AsWrittenDropsMarkers()
    ensures ParseAsWritten("**") == [Bold("")]
    ensures Rewrap(ParseAsWritten("**")) != "**"
    ensures Rewrap(Parse("**")) == "**"
  {
    assert FirstMatch("**", 0).None? by {
      assert MatchAt("**", 0).None?;
      assert MatchAt("**", 1).None?;
    }
    assert Split("**") == [Gap("**")];
    assert Rewrap([Bold("")]) == "****";
    ParseLossless("**");
  }
}
