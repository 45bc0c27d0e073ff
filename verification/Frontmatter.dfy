/** The frontmatter splitter of agent and command files. */
module Frontmatter {
  import opened Bytes
  import opened Whitespace

  const BOM: char := '\U{FEFF}'
  const FENCE: string := "---"

  predicate IsBlank(c: char) { c == ' ' || c == '\t' }

  predicate AllBlank(s: string) { forall i :: 0 <= i < |s| ==> IsBlank(s[i]) }

  function TrimBlanks(s: string): string {
    if s != [] && IsBlank(s[0]) then TrimBlanks(s[1..]) else s
  }

  /** The length of the first line, its newline included. */
  function LineLen(s: string): (n: nat)
    ensures n <= |s| && (s != [] ==> n > 0)
  {
    if s == [] then 0 else if s[0] == '\n' then 1 else 1 + LineLen(s[1..])
  }

  /** Where the first line that right-trims to the fence starts; the end of the text if none does. */
  function FenceAt(s: string): (r: nat)
    ensures r <= |s|
    decreases |s|
  {
    if s == [] || TrimEnd(s[..LineLen(s)]) == FENCE then 0
    else LineLen(s) + FenceAt(s[LineLen(s)..])
  }

  function ClosingFence(s: string): Option<nat> { if FenceAt(s) < |s| then Some(FenceAt(s)) else None }

  lemma NextLine(s: string, offset: nat)
    requires offset < |s|
    ensures var n := LineLen(s[offset..]);
            && 0 < n <= |s| - offset && s[offset..][..n] == s[offset..offset + n]
            && FenceAt(s[offset..]) == if TrimEnd(s[offset..offset + n]) == FENCE then 0 else n + FenceAt(s[offset + n..])
  {
    var rest := s[offset..];
    var n := LineLen(rest);
    assert rest[..n] == s[offset..offset + n] && rest[n..] == s[offset + n..];
    hide TrimEnd, LineLen;
  }

  /** `find_closing_fence` */
  method FindClosingFence(s: string) returns (r: Option<nat>)
    ensures r == ClosingFence(s)
  {
    hide FenceAt, TrimEnd, LineLen;
    var offset := 0;
    assert s[0..] == s;
    while offset < |s|
      invariant 0 <= offset <= |s| && FenceAt(s) == offset + FenceAt(s[offset..])
    {
      NextLine(s, offset);
      var n := LineLen(s[offset..]);
      var line := s[offset..offset + n];
      if TrimEnd(line) == FENCE { return Some(offset); }
      offset := offset + n;
    }
    r := None;
  }

  function StripPrefix(s: string, prefix: string): Option<string> {
    if |s| >= |prefix| && s[..|prefix|] == prefix then Some(s[|prefix|..]) else None
  }

  function StripOne(s: string, c: char): string { if s != [] && s[0] == c then s[1..] else s }

  /** Past the opening fence line: blanks, then at most one carriage return, then a newline. */
  function PastOpening(s: string): Option<string> {
    StripPrefix(StripOne(TrimBlanks(s), '\r'), "\n")
  }

  /** What follows the first newline, or nothing. */
  function PastLine(s: string): string { s[LineLen(s)..] }

  /** `split_fence`: the frontmatter and the body, or nothing when there is no whole fence. */
  function SplitFence(text: string): Option<(string, string)> {
    var fenced := StripPrefix(StripOne(text, BOM), FENCE);
    if fenced.None? then None
    else
      var rest := PastOpening(fenced.value);
      if rest.None? then None
      else
        var end := ClosingFence(rest.value);
        if end.None? then None
        else Some((rest.value[..end.value], PastLine(rest.value[end.value..])))
  }

  // ---- what is printed ----

  /** A file with frontmatter, and every freedom its fences have. */
  datatype Printed = Printed(bom: bool, blanks: string, cr: bool, lines: seq<string>, trail: string, ended: bool, body: string)

  /** One whole line. */
  predicate IsLine(l: string) {
    l != [] && l[|l| - 1] == '\n' && forall i :: 0 <= i < |l| - 1 ==> l[i] != '\n'
  }

  predicate PlainLine(l: string) { IsLine(l) && TrimEnd(l) != FENCE }

  function Join(lines: seq<string>): string {
    if lines == [] then [] else lines[0] + Join(lines[1..])
  }

  predicate Trail(s: string) { AllWhitespace(s) && '\n' !in s }

  /** The frontmatter is whole lines, none a fence; blanks may follow the opening fence, any whitespace on
      its line the closing one; a closing fence that ends the file has no body. */
  predicate Proper(p: Printed) {
    && AllBlank(p.blanks) && Trail(p.trail)
    && (forall i :: 0 <= i < |p.lines| ==> PlainLine(p.lines[i]))
    && (!p.ended ==> p.body == [])
  }

  function Closing(p: Printed): string { FENCE + p.trail + (if p.ended then "\n" else "") }

  function LineEnd(cr: bool): string { if cr then "\r\n" else "\n" }

  function Opening(p: Printed): string { p.blanks + LineEnd(p.cr) }

  function Text(p: Printed): string {
    (if p.bom then [BOM] else []) + (FENCE + (Opening(p) + (Join(p.lines) + (Closing(p) + p.body))))
  }

  // ---- pieces ----

  lemma {:induction false} TrimEndAll(s: string, ws: string)
    requires AllWhitespace(ws)
    ensures TrimEnd(s + ws) == TrimEnd(s)
    decreases |ws|
  {
    if ws == [] {
      assert s + ws == s;
    } else {
      TrimEndAll(s, ws[..|ws| - 1]);
      assert (s + ws)[..|s + ws| - 1] == s + ws[..|ws| - 1];
    }
  }

  lemma {:induction false} TrimBlanksAll(blanks: string, s: string)
    requires AllBlank(blanks) && (s == [] || !IsBlank(s[0]))
    ensures TrimBlanks(blanks + s) == s
  {
    if blanks == [] {
      assert blanks + s == s;
    } else {
      TrimBlanksAll(blanks[1..], s);
      assert (blanks + s)[1..] == blanks[1..] + s;
    }
  }

  lemma {:induction false} TrimBlanksSplit(s: string) returns (n: nat)
    ensures n <= |s| && TrimBlanks(s) == s[n..] && (n < |s| ==> !IsBlank(s[n]))
    ensures forall i :: 0 <= i < n ==> IsBlank(s[i])
  {
    if s != [] && IsBlank(s[0]) {
      var m := TrimBlanksSplit(s[1..]);
      n := m + 1;
      assert s[1..][m..] == s[n..];
      forall i | 0 <= i < n
        ensures IsBlank(s[i])
      {
        if i > 0 { assert s[i] == s[1..][i - 1]; }
      }
    } else {
      n := 0;
    }
  }

  /** A line is as long as it looks, whatever follows it; an unended one runs to the end. */
  lemma {:induction false} LineLenOf(l: string, rest: string)
    requires '\n' !in l
    ensures LineLen(l + "\n" + rest) == |l| + 1 && LineLen(l) == |l|
  {
    if l != [] {
      LineLenOf(l[1..], rest);
      assert (l + "\n" + rest)[1..] == l[1..] + "\n" + rest;
      assert forall c :: c in l[1..] ==> c in l;
    }
  }

  lemma {:induction false} LineLenSplit(s: string)
    ensures var n := LineLen(s);
            && (forall i :: 0 <= i < n - 1 ==> s[i] != '\n')
            && (n < |s| ==> n > 0 && s[n - 1] == '\n')
  {
    if s != [] && s[0] != '\n' { LineLenSplit(s[1..]); }
  }

  // ---- printing, then splitting ----

  lemma PlainLineSkipped(l: string, rest: string)
    requires PlainLine(l)
    ensures FenceAt(l + rest) == |l| + FenceAt(rest)
  {
    var front := l[..|l| - 1];
    assert l == front + "\n" && l + rest == front + "\n" + rest;
    LineLenOf(front, rest);
    assert (l + rest)[..|l|] == l && (l + rest)[|l|..] == rest;
  }

  lemma Assoc(a: string, b: string, c: string)
    ensures (a + b) + c == a + (b + c)
  {
  }

  lemma JoinedWith(lines: seq<string>, rest: string)
    requires lines != []
    ensures |Join(lines)| == |lines[0]| + |Join(lines[1..])|
    ensures Join(lines) + rest == lines[0] + (Join(lines[1..]) + rest)
  {
    var first, more := lines[0], Join(lines[1..]);
    assert Join(lines) == first + more;
    hide Join;
    Assoc(first, more, rest);
  }

  lemma {:induction false} LinesSkipped(lines: seq<string>, rest: string)
    requires forall i :: 0 <= i < |lines| ==> PlainLine(lines[i])
    ensures FenceAt(Join(lines) + rest) == |Join(lines)| + FenceAt(rest)
  {
    if lines == [] {
      assert Join(lines) + rest == rest;
    } else {
      hide PlainLine, FenceAt, Join;
      JoinedWith(lines, rest);
      LinesSkipped(lines[1..], rest);
      PlainLineSkipped(lines[0], Join(lines[1..]) + rest);
    }
  }

  lemma ClosingFound(p: Printed)
    requires Proper(p)
    ensures FenceAt(Closing(p) + p.body) == 0 && PastLine(Closing(p) + p.body) == p.body
  {
    var front := FENCE + p.trail;
    assert TrimEnd(FENCE) == FENCE;
    TrimEndAll(FENCE, p.trail);
    LineLenOf(front, p.body);
    if p.ended {
      assert Closing(p) + p.body == front + "\n" + p.body;
      assert (front + "\n" + p.body)[..|front| + 1] == FENCE + (p.trail + "\n");
      TrimEndAll(FENCE, p.trail + "\n");
    } else {
      assert Closing(p) + p.body == front && front[..|front|] == front;
    }
  }

  lemma LineEndStripped(cr: bool, rest: string)
    ensures StripPrefix(StripOne(LineEnd(cr) + rest, '\r'), "\n") == Some(rest) && !IsBlank((LineEnd(cr) + rest)[0])
  {
    assert StripOne(LineEnd(cr) + rest, '\r') == "\n" + rest;
    assert ("\n" + rest)[..1] == "\n" && ("\n" + rest)[1..] == rest;
  }

  lemma OpeningPassed(p: Printed, rest: string)
    requires AllBlank(p.blanks)
    ensures PastOpening(Opening(p) + rest) == Some(rest)
  {
    hide LineEnd, StripPrefix, StripOne;
    Assoc(p.blanks, LineEnd(p.cr), rest);
    LineEndStripped(p.cr, rest);
    TrimBlanksAll(p.blanks, LineEnd(p.cr) + rest);
  }

  lemma BomStripped(p: Printed, fenced: string)
    ensures StripPrefix(StripOne((if p.bom then [BOM] else []) + (FENCE + fenced), BOM), FENCE) == Some(fenced)
  {
    assert StripOne((if p.bom then [BOM] else []) + (FENCE + fenced), BOM) == FENCE + fenced;
    assert (FENCE + fenced)[..|FENCE|] == FENCE && (FENCE + fenced)[|FENCE|..] == fenced;
  }

  lemma SplitAs(text: string, fenced: string, rest: string, end: nat)
    requires StripPrefix(StripOne(text, BOM), FENCE) == Some(fenced) && PastOpening(fenced) == Some(rest) && end == FenceAt(rest) < |rest|
    ensures SplitFence(text) == Some((rest[..end], PastLine(rest[end..])))
  {
    hide StripPrefix, StripOne, PastOpening, FenceAt, PastLine;
  }

  lemma TextShape(p: Printed)
    ensures Text(p) == (if p.bom then [BOM] else []) + (FENCE + (Opening(p) + (Join(p.lines) + (Closing(p) + p.body))))
    ensures |Closing(p)| >= |FENCE|
  {
    hide Opening, Join;
  }

  /** Splitting undoes printing, for every way the fences can be written. */
  lemma SplitOfPrinted(p: Printed)
    requires Proper(p)
    ensures SplitFence(Text(p)) == Some((Join(p.lines), p.body))
  {
    LinesSkipped(p.lines, Closing(p) + p.body);
    OpeningPassed(p, Join(p.lines) + (Closing(p) + p.body));
    hide *;
    var tail := Closing(p) + p.body;
    var rest := Join(p.lines) + tail;
    TextShape(p);
    BomStripped(p, Opening(p) + rest);
    ClosingFound(p);
    assert rest[..|Join(p.lines)|] == Join(p.lines) && rest[|Join(p.lines)|..] == tail;
    SplitAs(Text(p), Opening(p) + rest, rest, |Join(p.lines)|);
  }

  lemma CrlfText(blanks: string, trail: string, lines: seq<string>, body: string) returns (p: Printed)
    requires forall i :: 0 <= i < |lines| ==> PlainLine(lines[i])
    requires (forall c :: c in blanks ==> c in " \t") && forall c :: c in trail ==> c in " \t\r"
    ensures Proper(p) && p.lines == lines && p.body == body
    ensures Text(p) == "---" + blanks + "\r\n" + Join(lines) + "---" + trail + "\n" + body
  {
    p := Printed(false, blanks, true, lines, trail, true, body);
    hide Join, PlainLine, BOM;
    assert Opening(p) == blanks + "\r\n" && Closing(p) == FENCE + trail + "\n";
    assert AllWhitespace(trail) by { forall i | 0 <= i < |trail| ensures IsWhitespace(trail[i]) { assert trail[i] in trail; } }
    assert AllBlank(blanks) by { forall i | 0 <= i < |blanks| ensures IsBlank(blanks[i]) { assert blanks[i] in blanks; } }
    hide Closing, Opening, AllWhitespace, AllBlank;
    assert Text(p) == FENCE + (blanks + "\r\n" + (Join(lines) + (FENCE + trail + "\n" + body)));
    hide Text, FENCE;
  }

  /** A file splits though its lines end in carriage returns and blanks follow its fences. */
  lemma CrlfSplits(blanks: string, trail: string, lines: seq<string>, body: string)
    requires forall i :: 0 <= i < |lines| ==> PlainLine(lines[i])
    requires (forall c :: c in blanks ==> c in " \t") && forall c :: c in trail ==> c in " \t\r"
    ensures SplitFence("---" + blanks + "\r\n" + Join(lines) + "---" + trail + "\n" + body) == Some((Join(lines), body))
  {
    hide *;
    var p := CrlfText(blanks, trail, lines, body);
    SplitOfPrinted(p);
  }

  // ---- splitting, then printing ----

  lemma FirstLine(s: string)
    requires FenceAt(s) < |s|
    ensures var n := LineLen(s);
            && 0 < n <= |s|
            && (TrimEnd(s[..n]) == FENCE ==> FenceAt(s) == 0)
            && (TrimEnd(s[..n]) != FENCE ==> PlainLine(s[..n]) && FenceAt(s) == n + FenceAt(s[n..]) && FenceAt(s[n..]) < |s[n..]|)
  {
    var n := LineLen(s);
    LineLenSplit(s);
    assert FenceAt(s) == if TrimEnd(s[..n]) == FENCE then 0 else n + FenceAt(s[n..]);
    hide FenceAt, TrimEnd, LineLen;
    if TrimEnd(s[..n]) != FENCE {
      assert n < |s|;
      assert IsLine(s[..n]);
    }
  }

  lemma JoinNone(s: string)
    ensures Join([]) == s[..0] && s[0..] == s
  {
  }

  lemma JoinOneMore(s: string, n: nat, lines: seq<string>, k: nat)
    requires n <= |s| && k <= |s| - n && Join(lines) == s[n..][..k]
    ensures Join([s[..n]] + lines) == s[..n + k] && s[n..][k..] == s[n + k..]
  {
    assert ([s[..n]] + lines)[1..] == lines;
  }

  lemma {:induction false} LinesBefore(s: string) returns (lines: seq<string>)
    requires FenceAt(s) < |s|
    ensures Join(lines) == s[..FenceAt(s)] && forall i :: 0 <= i < |lines| ==> PlainLine(lines[i])
    ensures var after := s[FenceAt(s)..]; TrimEnd(after[..LineLen(after)]) == FENCE
    decreases |s|
  {
    FirstLine(s);
    hide *;
    var n := LineLen(s);
    if TrimEnd(s[..n]) == FENCE {
      lines := [];
      JoinNone(s);
    } else {
      var rest := LinesBefore(s[n..]);
      lines := [s[..n]] + rest;
      JoinOneMore(s, n, rest, FenceAt(s[n..]));
      assert s[FenceAt(s)..] == s[n..][FenceAt(s[n..])..];
    }
  }

  /** A line that right-trims to the fence is the fence, trailing whitespace, and perhaps a newline. */
  lemma ClosingLine(after: string) returns (trail: string, ended: bool)
    requires TrimEnd(after[..LineLen(after)]) == FENCE
    ensures Trail(trail) && after == FENCE + trail + (if ended then "\n" else "") + PastLine(after)
    ensures !ended ==> PastLine(after) == []
  {
    var line := after[..LineLen(after)];
    LineLenSplit(after);
    TrimEndSplit(line);
    var ws := line[|FENCE|..];
    assert line == FENCE + ws && after == line + PastLine(after);
    ended := ws != [] && ws[|ws| - 1] == '\n';
    trail := if ended then ws[..|ws| - 1] else ws;
    forall c | c in trail
      ensures c != '\n'
    {
      var i :| 0 <= i < |trail| && trail[i] == c;
      assert c == after[|FENCE| + i];
    }
    assert line == FENCE + trail + (if ended then "\n" else "");
  }

  lemma LineEndSplit(t: string) returns (cr: bool)
    requires StripPrefix(StripOne(t, '\r'), "\n").Some?
    ensures t == LineEnd(cr) + StripPrefix(StripOne(t, '\r'), "\n").value
  {
    cr := t[0] == '\r';
  }

  lemma OpeningLine(s: string) returns (blanks: string, cr: bool)
    requires PastOpening(s).Some?
    ensures AllBlank(blanks) && s == (blanks + LineEnd(cr)) + PastOpening(s).value
  {
    var n := TrimBlanksSplit(s);
    hide TrimBlanks, StripPrefix, StripOne, LineEnd;
    blanks := s[..n];
    cr := LineEndSplit(s[n..]);
    Assoc(blanks, LineEnd(cr), PastOpening(s).value);
    assert s == blanks + s[n..];
  }

  lemma Assemble(p: Printed, text: string, fenced: string, rest: string, after: string)
    requires after == Closing(p) + p.body && rest == Join(p.lines) + after && fenced == Opening(p) + rest
    requires text == (if p.bom then [BOM] else []) + (FENCE + fenced)
    ensures Text(p) == text
  {
    hide Join;
  }

  lemma SplitParts(text: string) returns (bom: bool, fenced: string, rest: string, end: nat)
    requires SplitFence(text).Some?
    ensures text == (if bom then [BOM] else []) + (FENCE + fenced)
    ensures PastOpening(fenced) == Some(rest) && end == FenceAt(rest) < |rest|
    ensures SplitFence(text) == Some((rest[..end], PastLine(rest[end..])))
  {
    hide FenceAt, PastLine, PastOpening;
    bom := text != [] && text[0] == BOM;
    fenced := StripPrefix(StripOne(text, BOM), FENCE).value;
    assert FENCE + fenced == StripOne(text, BOM);
    rest := PastOpening(fenced).value;
    end := FenceAt(rest);
  }

  /** Any answer, on any text, is a split at the first closing fence that loses only the byte-order mark
      and the two fence lines: the text is a proper printing of exactly the parts returned. */
  lemma SplitIsPrinting(text: string)
    requires SplitFence(text).Some?
    ensures exists p :: Proper(p) && Text(p) == text && SplitFence(text) == Some((Join(p.lines), p.body))
  {
    hide FenceAt, TrimEnd, LineLen, TrimBlanks, StripPrefix, StripOne;
    hide PastOpening, PastLine, SplitFence, Join, Text, PlainLine, Trail, AllBlank;
    var bom, fenced, rest, end := SplitParts(text);
    var after := rest[end..];
    var blanks, cr := OpeningLine(fenced);
    var lines := LinesBefore(rest);
    var trail, ended := ClosingLine(after);
    var p := Printed(bom, blanks, cr, lines, trail, ended, PastLine(after));
    assert rest == rest[..end] + after;
    Assemble(p, text, fenced, rest, after);
  }

  /** So a text splits exactly when it is such a printing. */
  lemma SplitsExactlyPrintings(text: string, fm: string, body: string)
    ensures SplitFence(text) == Some((fm, body)) <==> exists p :: Proper(p) && Text(p) == text && Join(p.lines) == fm && p.body == body
  {
    if SplitFence(text) == Some((fm, body)) { SplitIsPrinting(text); }
    if p :| Proper(p) && Text(p) == text && Join(p.lines) == fm && p.body == body { SplitOfPrinted(p); }
  }
}
