/**
 * The document structure `OracleMessageRenderer` reads out of a reply before
 * drawing it: the trimmed text is cut into paragraphs at every run of two or
 * more line feeds (`/\n\n+/`); each trimmed paragraph is cut into lines at
 * every line feed; a paragraph whose first line matches
 * `^([A-ZÁÉÍÓÚ\s]{4,}):?$` becomes a titled section holding the remaining
 * lines, any other paragraph a plain group holding all of its lines; a line
 * starting with "- " is a bullet without those two characters.
 * The rendering itself (markup, styling, keys) is not modelled.
 */
module MessageRenderer {
  import opened Types
  import opened JsText

  // ---------------------------------------------------------------------------
  // Paragraphs: `split(/\n\n+/)`

  /** A run of `n` line feeds. */
  function Newlines(n: nat): (r: string)
    ensures |r| == n
    ensures forall j :: 0 <= j < n ==> r[j] == '\n'
  {
    seq(n, _ => '\n')
  }

  /** Two line feeds in a row start at index `j`. */
  predicate BlankAt(s: string, j: int)
  {
    0 <= j && j + 1 < |s| && s[j] == '\n' && s[j + 1] == '\n'
  }

  /** `s` has no two consecutive line feeds. */
  predicate NoBlank(s: string)
  {
    forall j :: 0 <= j < |s| ==> !BlankAt(s, j)
  }

  /** The first index where two line feeds meet, or |s|. */
  function FindBlank(s: string): (k: nat)
    ensures k <= |s|
    ensures k < |s| ==> BlankAt(s, k)
    ensures forall j :: 0 <= j < k ==> !BlankAt(s, j)
  {
    if |s| < 2 then |s|
    else if BlankAt(s, 0) then 0
    else
      var k := 1 + FindBlank(s[1..]);
      assert forall j :: 1 <= j < |s| ==> (BlankAt(s, j) <==> BlankAt(s[1..], j - 1));
      k
  }

  /** The number of line feeds `s` starts with. */
  function LeadingNewlines(s: string): (n: nat)
    ensures n <= |s|
    ensures forall j :: 0 <= j < n ==> s[j] == '\n'
    ensures n == |s| || s[n] != '\n'
  {
    if s != [] && s[0] == '\n' then 1 + LeadingNewlines(s[1..]) else 0
  }

  /** `s.split(/\n\n+/)`: the regular expression is tried left to right and
      takes the whole run of line feeds where it first matches. */
  function SplitBlank(s: string): (ps: seq<string>)
    ensures |ps| >= 1
    decreases |s|
  {
    var k := FindBlank(s);
    if k == |s| then [s]
    else
      var n := LeadingNewlines(s[k..]);
      [s[..k]] + SplitBlank(s[k + n..])
  }

  /** The length of each run of line feeds `SplitBlank` cuts out. */
  ghost function Gaps(s: string): (gs: seq<nat>)
    decreases |s|
  {
    var k := FindBlank(s);
    if k == |s| then []
    else
      var n := LeadingNewlines(s[k..]);
      [n] + Gaps(s[k + n..])
  }

  /** Paragraphs interleaved with runs of line feeds of the given lengths. */
  function Stitch(ps: seq<string>, gs: seq<nat>): string
    requires |ps| == |gs| + 1
    decreases |gs|
  {
    if |gs| == 0 then ps[0] else ps[0] + Newlines(gs[0]) + Stitch(ps[1..], gs[1..])
  }

  /** Reference description of a split at blank lines: `s` is the pieces
      `ps` glued by runs `gs` of two or more line feeds, no piece holds two
      line feeds in a row, no piece ends with a line feed where a run
      follows it, and no run is followed by a further line feed (so every
      run is taken whole, and only the last piece may be empty after a
      run). */
  ghost predicate IsBlankSplit(s: string, ps: seq<string>, gs: seq<nat>)
  {
    && |ps| == |gs| + 1
    && Stitch(ps, gs) == s
    && (forall i :: 0 <= i < |gs| ==> gs[i] >= 2)
    && (forall i :: 0 <= i < |ps| ==> NoBlank(ps[i]))
    && (forall i :: 0 <= i < |gs| ==> ps[i] == "" || ps[i][|ps[i]| - 1] != '\n')
    && (forall i :: 1 <= i < |ps| ==> ps[i] == "" || ps[i][0] != '\n')
    && (forall i :: 1 <= i < |ps| - 1 ==> ps[i] != "")
  }

  lemma PrefixBeforeBlank(s: string, k: nat)
    requires k <= |s| && forall j :: 0 <= j < k ==> !BlankAt(s, j)
    ensures NoBlank(s[..k])
    ensures k > 0 && k < |s| && BlankAt(s, k) ==> s[k - 1] != '\n'
  {
    forall j | 0 <= j < k
      ensures !BlankAt(s[..k], j)
    {
      assert !BlankAt(s, j);
    }
    if k > 0 && k < |s| && BlankAt(s, k) {
      assert !BlankAt(s, k - 1);
    }
  }

  /** Gluing a piece and a run in front of a split at blank lines gives a
      split at blank lines, provided the run is taken whole. */
  lemma ConsBlankSplit(p: string, g: nat, rest: string, ps: seq<string>, gs: seq<nat>)
    requires IsBlankSplit(rest, ps, gs)
    requires NoBlank(p) && (p == "" || p[|p| - 1] != '\n') && g >= 2
    requires rest == "" || rest[0] != '\n'
    ensures IsBlankSplit(p + Newlines(g) + rest, [p] + ps, [g] + gs)
  {
    var PS := [p] + ps;
    var GS := [g] + gs;
    assert PS[1..] == ps && GS[1..] == gs;
    StitchStart(rest, ps, gs);
    forall i | 1 <= i < |PS|
      ensures PS[i] == ps[i - 1]
    {
    }
    forall i | 1 <= i < |GS|
      ensures GS[i] == gs[i - 1]
    {
    }
  }

  /** Taking the first piece and run off a split at blank lines leaves a split
      at blank lines that does not start with a line feed. */
  lemma UnconsBlankSplit(s: string, ps: seq<string>, gs: seq<nat>)
    requires IsBlankSplit(s, ps, gs) && |gs| > 0
    ensures var rest := Stitch(ps[1..], gs[1..]);
      && s == ps[0] + Newlines(gs[0]) + rest
      && IsBlankSplit(rest, ps[1..], gs[1..])
      && (rest == "" || rest[0] != '\n')
      && NoBlank(ps[0]) && (ps[0] == "" || ps[0][|ps[0]| - 1] != '\n') && gs[0] >= 2
  {
    var rest := Stitch(ps[1..], gs[1..]);
    forall i | 0 <= i < |ps| - 1
      ensures ps[1..][i] == ps[i + 1]
    {
    }
    forall i | 0 <= i < |gs| - 1
      ensures gs[1..][i] == gs[i + 1]
    {
    }
    StitchStart(rest, ps[1..], gs[1..]);
  }

  /** Where `SplitBlank` cuts a string with a blank line at `k`: the text
      before it, the whole run of line feeds there, and the rest, which does
      not start with a line feed. */
  lemma CutAtBlank(s: string, k: nat, n: nat)
    requires BlankAt(s, k) && n == LeadingNewlines(s[k..])
    ensures n >= 2 && k + n <= |s|
    ensures s == s[..k] + Newlines(n) + s[k + n..]
    ensures s[k + n..] == "" || s[k + n..][0] != '\n'
  {
    var p, t := s[..k], s[k..];
    assert BlankAt(t, 0);
    RunAt(t, n);
    var run, rest := Newlines(n), t[n..];
    assert rest == s[k + n..];
    assert s == p + t;
    assert p + (run + rest) == p + run + rest;
  }

  /** A string that starts with at least two line feeds is its leading run
      followed by a rest that does not start with a line feed. */
  lemma RunAt(t: string, n: nat)
    requires BlankAt(t, 0) && n == LeadingNewlines(t)
    ensures n >= 2
    ensures t[..n] == Newlines(n)
    ensures t == Newlines(n) + t[n..]
    ensures t[n..] == "" || t[n..][0] != '\n'
  {
    assert t[..n] == Newlines(n);
    assert t == t[..n] + t[n..];
  }

  /** `SplitBlank` produces a split at blank lines, with `Gaps` as its runs. */
  lemma {:induction false} SplitBlankIsBlankSplit(s: string)
    ensures IsBlankSplit(s, SplitBlank(s), Gaps(s))
    decreases |s|
  {
    var k := FindBlank(s);
    if k == |s| {
      PrefixBeforeBlank(s, k);
      assert s[..k] == s;
    } else {
      var n := LeadingNewlines(s[k..]);
      var rest := s[k + n..];
      PrefixBeforeBlank(s, k);
      CutAtBlank(s, k, n);
      SplitBlankIsBlankSplit(rest);
      ConsBlankSplit(s[..k], n, rest, SplitBlank(rest), Gaps(rest));
    }
  }

  /** What a stitched string starts with. */
  lemma StitchStart(s: string, ps: seq<string>, gs: seq<nat>)
    requires |ps| == |gs| + 1 && Stitch(ps, gs) == s
    ensures ps[0] != "" ==> s != "" && s[0] == ps[0][0]
    ensures ps[0] == "" && |gs| > 0 && gs[0] > 0 ==> s != "" && s[0] == '\n'
    ensures ps[0] == "" && |gs| == 0 ==> s == ""
  {
    if |gs| > 0 && ps[0] == "" && gs[0] > 0 {
      assert s == ps[0] + Newlines(gs[0]) + Stitch(ps[1..], gs[1..]);
      assert s[0] == Newlines(gs[0])[0];
    }
  }

  /** A split at blank lines is unique: it is the one `SplitBlank` finds. */
  lemma {:induction false} BlankSplitUnique(s: string, ps: seq<string>, gs: seq<nat>)
    requires IsBlankSplit(s, ps, gs)
    ensures ps == SplitBlank(s) && gs == Gaps(s)
    decreases |gs|
  {
    if |gs| == 0 {
      assert s == ps[0];
      NoBlankHasNone(s);
    } else {
      var rest := Stitch(ps[1..], gs[1..]);
      UnconsBlankSplit(s, ps, gs);
      SplitBlankUnfold(ps[0], gs[0], rest);
      BlankSplitUnique(rest, ps[1..], gs[1..]);
      assert ps == [ps[0]] + ps[1..];
      assert gs == [gs[0]] + gs[1..];
    }
  }

  /** `SplitBlank` of a piece, a whole run and a rest: the piece, then the
      split of the rest. */
  lemma SplitBlankUnfold(p: string, g: nat, rest: string)
    requires NoBlank(p) && (p == "" || p[|p| - 1] != '\n') && g >= 2
    requires rest == "" || rest[0] != '\n'
    ensures SplitBlank(p + Newlines(g) + rest) == [p] + SplitBlank(rest)
    ensures Gaps(p + Newlines(g) + rest) == [g] + Gaps(rest)
  {
    FirstCut(p, g, rest);
  }

  /** The cut `SplitBlank` makes in a piece, a whole run and a rest. */
  lemma FirstCut(p: string, g: nat, rest: string)
    requires NoBlank(p) && (p == "" || p[|p| - 1] != '\n') && g >= 2
    requires rest == "" || rest[0] != '\n'
    ensures var s := p + Newlines(g) + rest;
      && FindBlank(s) == |p| < |s|
      && LeadingNewlines(s[|p|..]) == g
      && s[..|p|] == p
      && s[|p| + g..] == rest
  {
    var t := Newlines(g) + rest;
    var s := p + t;
    assert p + Newlines(g) + rest == s;
    FirstBlankAfter(p, g, rest);
    RunLength(g, rest);
    assert s[|p|..] == t;
    assert t[g..] == rest;
    assert s[|p| + g..] == rest;
    assert s[..|p|] == p;
  }

  /** The first blank line of `p + run + rest` starts right after `p`. */
  lemma FirstBlankAfter(p: string, g: nat, rest: string)
    requires NoBlank(p) && (p == "" || p[|p| - 1] != '\n') && g >= 2
    ensures FindBlank(p + Newlines(g) + rest) == |p|
  {
    var s := p + Newlines(g) + rest;
    assert BlankAt(s, |p|) by {
      assert s[|p|] == Newlines(g)[0] && s[|p| + 1] == Newlines(g)[1];
    }
    forall j | 0 <= j < |p|
      ensures !BlankAt(s, j)
    {
      if j + 1 < |p| {
        assert s[j] == p[j] && s[j + 1] == p[j + 1];
        assert !BlankAt(p, j);
      } else {
        assert s[j] == p[|p| - 1];
      }
    }
    FirstBlankIs(s, |p|);
  }

  lemma NoBlankHasNone(s: string)
    requires NoBlank(s)
    ensures FindBlank(s) == |s|
  {
  }

  lemma FirstBlankIs(s: string, k: nat)
    requires BlankAt(s, k) && forall j :: 0 <= j < k ==> !BlankAt(s, j)
    ensures FindBlank(s) == k
  {
  }

  lemma {:induction false} RunLength(g: nat, rest: string)
    requires rest == "" || rest[0] != '\n'
    ensures LeadingNewlines(Newlines(g) + rest) == g
  {
    if g > 0 {
      assert (Newlines(g) + rest)[1..] == Newlines(g - 1) + rest;
      RunLength(g - 1, rest);
    } else {
      assert Newlines(g) + rest == rest;
    }
  }

  // ---------------------------------------------------------------------------
  // Headers: `/^([A-ZÁÉÍÓÚ\s]{4,}):?$/`

  /** The character class `[A-ZÁÉÍÓÚ\s]`; case- and accent-sensitive. */
  predicate IsHeaderChar(c: char)
  {
    ('A' <= c <= 'Z') || c == 'Á' || c == 'É' || c == 'Í' || c == 'Ó' || c == 'Ú' || IsJsSpace(c)
  }

  predicate AllHeaderChars(s: string)
  {
    forall k :: 0 <= k < |s| ==> IsHeaderChar(s[k])
  }

  /** The regular expression matches `line` with `title` as its group. */
  ghost predicate HeaderShape(line: string, title: string)
  {
    |title| >= 4 && AllHeaderChars(title) && (line == title || line == title + ":")
  }

  /** The line without its final colon, if it has one. */
  function HeaderBody(line: string): string
  {
    if |line| > 0 && line[|line| - 1] == ':' then line[..|line| - 1] else line
  }

  /** The captured title when the first line is a header. */
  function HeaderTitle(line: string): (r: Option<string>)
    ensures r.Some? ==> |r.value| >= 4 && ':' !in r.value
  {
    var body := HeaderBody(line);
    if |body| >= 4 && AllHeaderChars(body) then Some(body) else None
  }

  /** Whatever `HeaderTitle` returns, the regular expression matches with
      that title. */
  lemma HeaderTitleSound(line: string)
    requires HeaderTitle(line).Some?
    ensures HeaderShape(line, HeaderTitle(line).value)
  {
    if |line| > 0 && line[|line| - 1] == ':' {
      assert line == HeaderBody(line) + ":";
    }
  }

  /** Wherever the regular expression matches, `HeaderTitle` finds the match
      and its title: so a paragraph is a section exactly when its first line
      has the header shape, and the title is unique. */
  lemma HeaderTitleComplete(line: string, title: string)
    requires HeaderShape(line, title)
    ensures HeaderTitle(line) == Some(title)
  {
    if line == title + ":" {
      assert line[..|line| - 1] == title;
    } else {
      assert IsHeaderChar(title[|title| - 1]);
    }
  }

  /** Worked example: an upper-case first line with a colon is a header
      whose title drops the colon. */
  lemma HeaderExample()
    ensures HeaderTitle("ESTRATEGIA:") == Some("ESTRATEGIA")
  {
    HeaderTitleComplete("ESTRATEGIA:", "ESTRATEGIA");
  }

  /** Worked examples: the class is case- and accent-sensitive, and Ñ and
      digits are not in it. */
  lemma NotHeaderExamples()
    ensures HeaderTitle("Estrategia:") == None
    ensures HeaderTitle("AÑOS:") == None
    ensures HeaderTitle("FASE 2") == None
  {
    assert HeaderBody("Estrategia:") == "Estrategia" && !IsHeaderChar("Estrategia"[1]);
    assert HeaderBody("AÑOS:") == "AÑOS" && !IsHeaderChar("AÑOS"[1]);
    assert !IsHeaderChar("FASE 2"[5]);
  }

  // ---------------------------------------------------------------------------
  // Lines and bullets

  datatype Line = Bullet(text: string) | Plain(text: string)

  datatype Paragraph =
    | Section(title: string, body: seq<Line>)
    | Group(lines: seq<Line>)

  /** `l.startsWith('- ')`. */
  predicate StartsWithBullet(l: string)
  {
    |l| >= 2 && l[0] == '-' && l[1] == ' '
  }

  /** A line starting with "- " is a bullet holding `l.substring(2)`. */
  function ClassifyLine(l: string): (r: Line)
    ensures r.Bullet? <==> StartsWithBullet(l)
  {
    if StartsWithBullet(l) then Bullet(l[2..]) else Plain(l)
  }

  /** The source line a classified line came from. */
  function LineSource(x: Line): string
  {
    match x
    case Bullet(t) => "- " + t
    case Plain(t) => t
  }

  /** Classification loses nothing: putting "- " back in front of a bullet
      gives back the line. */
  lemma ClassifyLineRoundTrip(l: string)
    ensures LineSource(ClassifyLine(l)) == l
  {
    if StartsWithBullet(l) {
      assert l == l[..2] + l[2..];
      assert l[..2] == "- ";
    }
  }

  /** The other direction holds for every bullet and for every plain line
      that does not itself start with "- ". */
  lemma LineSourceRoundTrip(x: Line)
    ensures ClassifyLine(LineSource(x)) == x <==> x.Bullet? || !StartsWithBullet(x.text)
  {
    if x.Bullet? {
      assert ("- " + x.text)[2..] == x.text;
    }
  }

  /** Worked examples of the bullet rule. */
  lemma BulletExamples()
    ensures ClassifyLine("- hallazgo uno") == Bullet("hallazgo uno")
    ensures ClassifyLine("-hallazgo") == Plain("-hallazgo")
    ensures ClassifyLine("") == Plain("")
  {
  }

  function ClassifyLines(ls: seq<string>): (r: seq<Line>)
    ensures |r| == |ls|
    ensures forall i :: 0 <= i < |r| ==> r[i] == ClassifyLine(ls[i])
  {
    seq(|ls|, i requires 0 <= i < |ls| => ClassifyLine(ls[i]))
  }

  function LineSources(xs: seq<Line>): (r: seq<string>)
    ensures |r| == |xs|
    ensures forall i :: 0 <= i < |r| ==> r[i] == LineSource(xs[i])
  {
    seq(|xs|, i requires 0 <= i < |xs| => LineSource(xs[i]))
  }

  lemma ClassifyLinesRoundTrip(ls: seq<string>)
    ensures LineSources(ClassifyLines(ls)) == ls
  {
    forall i | 0 <= i < |ls|
      ensures LineSources(ClassifyLines(ls))[i] == ls[i]
    {
      ClassifyLineRoundTrip(ls[i]);
    }
  }

  // ---------------------------------------------------------------------------
  // Paragraph and document

  /** `para.trim().split('\n')`. */
  function ParagraphLines(p: string): (ls: seq<string>)
    ensures |ls| >= 1
    ensures forall i :: 0 <= i < |ls| ==> '\n' !in ls[i]
    ensures Join(ls, '\n') == Trim(p)
  {
    Split(Trim(p), '\n')
  }

  /** The items a parsed paragraph shows. */
  function Items(pp: Paragraph): seq<Line>
  {
    match pp
    case Section(_, body) => body
    case Group(lines) => lines
  }

  /** The rendering of a paragraph's lines: a section when the first line is
      a header, whose items are the remaining lines, otherwise a group of all
      the lines. Every item shown is a bullet exactly when its source line
      starts with "- ". */
  function ParseLines(ls: seq<string>): (pp: Paragraph)
    requires |ls| >= 1
    ensures pp.Section? <==> HeaderTitle(ls[0]).Some?
    ensures var off := if pp.Section? then 1 else 0;
      && |Items(pp)| + off == |ls|
      && (forall i :: 0 <= i < |Items(pp)| ==> (Items(pp)[i].Bullet? <==> StartsWithBullet(ls[i + off])))
      && LineSources(Items(pp)) == ls[off..]
    ensures pp.Section? ==> HeaderTitle(ls[0]) == Some(pp.title)
  {
    match HeaderTitle(ls[0])
    case Some(title) =>
      var body := ClassifyLines(ls[1..]);
      assert forall i :: 0 <= i < |body| ==> body[i] == ClassifyLine(ls[i + 1]);
      ClassifyLinesRoundTrip(ls[1..]);
      Section(title, body)
    case None =>
      ClassifyLinesRoundTrip(ls);
      assert ls[0..] == ls;
      Group(ClassifyLines(ls))
  }

  /** One paragraph: `para.trim().split('\n')`, then rendered line by line. */
  function ParseParagraph(p: string): Paragraph
  {
    ParseLines(ParagraphLines(p))
  }

  /** The parsed document of a reply: one entry per paragraph, in order. */
  function Parse(content: string): (doc: seq<Paragraph>)
    ensures |doc| >= 1
    ensures |doc| == |SplitBlank(Trim(content))|
    ensures forall i :: 0 <= i < |doc| ==> doc[i] == ParseParagraph(SplitBlank(Trim(content))[i])
  {
    var ps := SplitBlank(Trim(content));
    seq(|ps|, i requires 0 <= i < |ps| => ParseParagraph(ps[i]))
  }

  /** A paragraph is a section exactly when its first line has the header
      shape; a section's body is the remaining lines and a group holds all the
      lines, each classified, none dropped, reordered or merged. */
  lemma ParseParagraphSpec(p: string)
    ensures var ls := ParagraphLines(p);
      match ParseParagraph(p)
      case Section(title, body) =>
        && HeaderShape(ls[0], title)
        && ':' !in title
        && LineSources(body) == ls[1..]
        && (forall i :: 0 <= i < |body| ==> (body[i].Bullet? <==> StartsWithBullet(ls[i + 1])))
      case Group(lines) =>
        && (forall t :: !HeaderShape(ls[0], t))
        && LineSources(lines) == ls
        && (forall i :: 0 <= i < |lines| ==> (lines[i].Bullet? <==> StartsWithBullet(ls[i])))
  {
    var ls := ParagraphLines(p);
    match ParseParagraph(p)
    case Section(title, body) =>
      HeaderTitleSound(ls[0]);
      ClassifyLinesRoundTrip(ls[1..]);
    case Group(lines) =>
      forall t | HeaderShape(ls[0], t)
        ensures false
      {
        HeaderTitleComplete(ls[0], t);
      }
      ClassifyLinesRoundTrip(ls);
  }

  /** A paragraph that is a single header line is a section with an empty
      body. */
  lemma HeaderOnlyParagraph(p: string)
    requires '\n' !in Trim(p) && HeaderTitle(Trim(p)).Some?
    ensures ParseParagraph(p) == Section(HeaderTitle(Trim(p)).value, [])
  {
    SplitNoDelimiter(Trim(p), '\n');
  }

  /** Item count: one per line of the trimmed paragraph, less the header line
      of a section. */
  lemma ParagraphItemCount(p: string)
    ensures |Items(ParseParagraph(p))| ==
      Count(Trim(p), '\n') + 1 - (if ParseParagraph(p).Section? then 1 else 0)
  {
    SplitCount(Trim(p), '\n');
  }

  /** Nothing is lost: a section's text is its header line (the title with or
      without its colon) followed by the body's source lines; a group's text is
      its lines' sources, joined by line feeds. */
  lemma ParagraphReassembles(p: string)
    ensures match ParseParagraph(p)
      case Section(title, body) =>
        Join([title] + LineSources(body), '\n') == Trim(p) ||
        Join([title + ":"] + LineSources(body), '\n') == Trim(p)
      case Group(lines) =>
        Join(LineSources(lines), '\n') == Trim(p)
  {
    var ls := ParagraphLines(p);
    ParseParagraphSpec(p);
    match ParseParagraph(p)
    case Section(title, body) =>
      assert ls == [ls[0]] + ls[1..];
    case Group(lines) =>
  }

  /** Paragraphs are the pieces of the trimmed reply between blank-line runs,
      in order: stitching them back with their runs gives the trimmed reply, and
      no piece holds a blank line. */
  lemma ParagraphsPartitionReply(content: string)
    ensures var ps := SplitBlank(Trim(content));
      && IsBlankSplit(Trim(content), ps, Gaps(Trim(content)))
      && Stitch(ps, Gaps(Trim(content))) == Trim(content)
      && (forall i :: 0 <= i < |ps| ==> NoBlank(ps[i]))
  {
    SplitBlankIsBlankSplit(Trim(content));
  }

  /** The empty paragraph is a plain group holding one empty line. */
  lemma EmptyParagraph()
    ensures ParseParagraph("") == Group([Plain("")])
  {
    TrimEmpty();
    SplitEmpty();
    var ls := ParagraphLines("");
    assert ls == [""];
    assert HeaderTitle(ls[0]) == None;
    assert ClassifyLines(ls) == [ClassifyLine("")];
  }

  lemma TrimEmpty()
    ensures Trim("") == ""
  {
  }

  lemma SplitEmpty()
    ensures Split("", '\n') == [""]
  {
  }

  /** The empty reply parses to one plain group holding one empty line. */
  lemma ParseEmpty()
    ensures Parse("") == [Group([Plain("")])]
  {
    TrimEmpty();
    SplitBlankEmpty();
    EmptyParagraph();
    var doc := Parse("");
    assert |doc| == 1 && doc[0] == ParseParagraph("");
  }

  lemma SplitBlankEmpty()
    ensures SplitBlank("") == [""]
  {
  }

  /** A reply without blank lines whose first line is not a header parses to a
      single plain group whose lines are the reply's lines, in order. */
  lemma SingleGroup(content: string)
    requires NoBlank(Trim(content))
    requires forall t :: !HeaderShape(ParagraphLines(Trim(content))[0], t)
    ensures |Parse(content)| == 1
    ensures Parse(content)[0].Group?
    ensures LineSources(Parse(content)[0].lines) == Split(Trim(content), '\n')
  {
    var t := Trim(content);
    NoBlankHasNone(t);
    assert SplitBlank(t) == [t];
    TrimIdempotent(content);
    var ls := ParagraphLines(t);
    if HeaderTitle(ls[0]).Some? {
      HeaderTitleSound(ls[0]);
    }
    ParseParagraphSpec(t);
  }
}
