/** `split_statements` of `mm0web/src/graph.rs`: one pass that drops line comments,
    splits on `;` outside `$ .. $`, and numbers the statements.  It is proved equal
    to three separate steps: blank the comments, split, number. */
module Statements {
  import opened Wrappers
  import opened Text

  datatype Statement = Statement(text: string, line: nat)

  // ----- step 1: comments outside math become one space -----

  predicate CommentAt(src: string, i: nat, inMath: bool) {
    !inMath && i + 1 < |src| && src[i] == '-' && src[i + 1] == '-'
  }

  function LineEnd(src: string, i: nat): (e: nat)
    requires i <= |src|
    ensures i <= e <= |src| && (forall k :: i <= k < e ==> src[k] != '\n') && (e < |src| ==> src[e] == '\n')
    decreases |src| - i
  {
    if i == |src| || src[i] == '\n' then i else LineEnd(src, i + 1)
  }

  predicate Toggled(inMath: bool, c: char) { if c == '$' then !inMath else inMath }

  function Uncommented(src: string, i: nat, inMath: bool): string
    requires i <= |src|
    decreases |src| - i
  {
    if i == |src| then ""
    else if CommentAt(src, i, inMath) then
      assert src[i] != '\n';
      " " + Uncommented(src, LineEnd(src, i + 1), inMath)
    else [src[i]] + Uncommented(src, i + 1, Toggled(inMath, src[i]))
  }

  // ----- step 2: split at every `;` outside math -----

  function Split(t: string, inMath: bool, buf: string): (pieces: seq<string>)
    ensures |pieces| > 0
    decreases |t|
  {
    if t == "" then [buf]
    else if t[0] == ';' && !inMath then [buf] + Split(t[1..], inMath, "")
    else Split(t[1..], Toggled(inMath, t[0]), buf + [t[0]])
  }

  // ----- step 3: drop blank pieces, number the others -----

  function Newlines(s: string): nat {
    if s == "" then 0 else Newlines(s[..|s| - 1]) + (if s[|s| - 1] == '\n' then 1 else 0)
  }

  lemma {:induction false} NewlinesConcat(a: string, b: string)
    ensures Newlines(a + b) == Newlines(a) + Newlines(b)
  {
    if b == "" {
      assert a + b == a;
    } else {
      assert (a + b)[..|a + b| - 1] == a + b[..|b| - 1];
      NewlinesConcat(a, b[..|b| - 1]);
    }
  }

  /** Where the first non-blank character is; the length of a blank text. */
  function FirstInk(s: string): (i: nat)
    ensures i <= |s| && IsBlank(s[..i]) && (i < |s| ==> !IsWhite(s[i])) && (i < |s| <==> !IsBlank(s))
  {
    if s == "" then 0
    else
      var i := FirstInk(s[..|s| - 1]);
      assert s == s[..|s| - 1] + [s[|s| - 1]];
      if i < |s| - 1 then assert s[..|s| - 1][..i] == s[..i]; i
      else if IsWhite(s[|s| - 1]) then |s| else |s| - 1
  }

  function LineOfInk(s: string, line: nat): nat { line + Newlines(s[..FirstInk(s)]) }

  function Numbered(pieces: seq<string>, line: nat): seq<Statement> {
    if pieces == [] then []
    else
      var p := pieces[0];
      (if IsBlank(p) then [] else [Statement(p, LineOfInk(p, line))]) + Numbered(pieces[1..], line + Newlines(p))
  }

  function StatementsOf(src: string): seq<Statement> {
    Numbered(Split(Uncommented(src, 0, false), false, ""), 1)
  }

  // ----- the one-pass form -----

  lemma InkPush(s: string, c: char, line: nat)
    ensures IsBlank(s + [c]) <==> IsBlank(s) && IsWhite(c)
    ensures !IsBlank(s) ==> LineOfInk(s + [c], line) == LineOfInk(s, line)
    ensures IsBlank(s) && !IsWhite(c) ==> LineOfInk(s + [c], line) == line + Newlines(s)
    ensures Newlines(s + [c]) == Newlines(s) + (if c == '\n' then 1 else 0)
  {
    var t := s + [c];
    assert t[..|t| - 1] == s;
    assert t[|s|] == c;
    assert forall i :: 0 <= i < |s| ==> t[i] == s[i];
    if !IsBlank(s) {
      assert t[..FirstInk(s)] == s[..FirstInk(s)];
    } else if !IsWhite(c) {
      assert FirstInk(t) == |s| && t[..|s|] == s;
    }
  }

  /** What is still to come, given what has been read. `at` is the line on which `buf` began. */
  function Rest(src: string, i: nat, inMath: bool, buf: string, at: nat): seq<Statement>
    requires i <= |src|
  {
    Numbered(Split(Uncommented(src, i, inMath), inMath, buf), at)
  }

  lemma RestAtComment(src: string, i: nat, buf: string, at: nat)
    requires i < |src| && CommentAt(src, i, false)
    ensures Rest(src, i, false, buf, at) == Rest(src, LineEnd(src, i), false, buf + " ", at)
  {
    var t := Uncommented(src, i, false);
    assert LineEnd(src, i) == LineEnd(src, i + 1);
    assert t[1..] == Uncommented(src, LineEnd(src, i), false);
  }

  lemma RestAtSplit(src: string, i: nat, buf: string, at: nat)
    requires i < |src| && src[i] == ';'
    ensures Rest(src, i, false, buf, at) ==
      (if IsBlank(buf) then [] else [Statement(buf, LineOfInk(buf, at))]) + Rest(src, i + 1, false, "",
          at + Newlines(buf))
  {
    var t, u := Uncommented(src, i, false), Uncommented(src, i + 1, false);
    assert t == [';'] + u && t[1..] == u;
    assert Split(t, false, buf) == [buf] + Split(u, false, "");
    hide LineOfInk, Newlines, IsBlank, Uncommented, Split, Numbered;
    NumberedStep(buf, Split(u, false, ""), at);
  }

  lemma RestAtChar(src: string, i: nat, inMath: bool, buf: string, at: nat)
    requires i < |src| && !CommentAt(src, i, inMath) && !(src[i] == ';' && !inMath)
    ensures Rest(src, i, inMath, buf, at) == Rest(src, i + 1, Toggled(inMath, src[i]), buf + [src[i]], at)
  {
    var t := Uncommented(src, i, inMath);
    assert t[1..] == Uncommented(src, i + 1, Toggled(inMath, src[i]));
  }

  /** `out` is done, `buf` is open since line `at`, and the rest is still to be read. */
  ghost predicate ScanInv(src: string, i: nat, inMath: bool, buf: string, at: nat, line: nat,
                          start: Option<nat>, out: seq<Statement>) {
    && i <= |src|
    && StatementsOf(src) == out + Rest(src, i, inMath, buf, at)
    && line == at + Newlines(buf)
    && start == if IsBlank(buf) then None else Some(LineOfInk(buf, at))
  }

  lemma ScanComment(src: string, i: nat, buf: string, at: nat, line: nat, start: Option<nat>, out: seq<Statement>)
    requires ScanInv(src, i, false, buf, at, line, start, out)
    requires i + 1 < |src| && src[i] == '-' && src[i + 1] == '-'
    ensures LineEnd(src, i) <= |src| && ScanInv(src, LineEnd(src, i), false, buf + " ", at, line, start, out)
  {
    hide Rest, StatementsOf, LineOfInk, Newlines, IsBlank, IsWhite;
    WhiteCharacters();
    RestAtComment(src, i, buf, at);
    InkPush(buf, ' ', at);
  }

  /** A character that is kept; a statement's line is set by its first ink. */
  lemma ScanChar(src: string, i: nat, inMath: bool, buf: string, at: nat, line: nat, start: Option<nat>,
          out: seq<Statement>)
    requires ScanInv(src, i, inMath, buf, at, line, start, out) && i < |src| && !(src[i] == ';' && !inMath)
    requires !(!inMath && src[i] == '-' && i + 1 < |src| && src[i + 1] == '-')
    ensures var c := src[i];
            ScanInv(src, i + 1, if c == '$' then !inMath else inMath, buf + [c], at, if c == '\n' then line + 1
                else line,
                    if !IsWhite(c) && start.None? then Some(line) else start, out)
    ensures start.None? ==> IsBlank(buf)
  {
    hide Rest, StatementsOf, LineOfInk, Newlines, IsBlank, IsWhite;
    WhiteCharacters();
    RestAtChar(src, i, inMath, buf, at);
    InkPush(buf, src[i], at);
  }

  lemma ScanSplit(src: string, i: nat, buf: string, at: nat, line: nat, start: Option<nat>, out: seq<Statement>)
    requires ScanInv(src, i, false, buf, at, line, start, out) && i < |src| && src[i] == ';'
    ensures ScanInv(src, i + 1, false, "", at + Newlines(buf), line, None,
                    if IsBlank(buf) then out else out + [Statement(buf, if start.Some? then start.value else line)])
  {
    hide Rest, StatementsOf, LineOfInk;
    EmptyText(at);
    hide Newlines, IsBlank;
    RestAtSplit(src, i, buf, at);
    var rest := Rest(src, i + 1, false, "", at + Newlines(buf));
    if IsBlank(buf) {
      assert [] + rest == rest;
    } else {
      var s := Statement(buf, LineOfInk(buf, at));
      assert out + ([s] + rest) == (out + [s]) + rest;
    }
  }

  lemma ScanEnd(src: string, inMath: bool, buf: string, at: nat, line: nat, start: Option<nat>, out: seq<Statement>)
    requires ScanInv(src, |src|, inMath, buf, at, line, start, out)
    ensures StatementsOf(src) ==
            if IsBlank(buf) then out else out + [Statement(buf, if start.Some? then start.value else line)]
  {
    hide Rest, StatementsOf, LineOfInk, Newlines, IsBlank;
    RestAtEnd(src, inMath, buf, at);
  }

  lemma ScanStart(src: string)
    ensures ScanInv(src, 0, false, "", 1, 1, None, [])
  {
    EmptyText(1);
    hide Newlines, IsBlank, Rest;
    assert StatementsOf(src) == Rest(src, 0, false, "", 1) by { StatementsAreRest(src); }
    assert [] + Rest(src, 0, false, "", 1) == Rest(src, 0, false, "", 1);
  }

  lemma StatementsAreRest(src: string)
    ensures StatementsOf(src) == Rest(src, 0, false, "", 1)
  {
  }

  method SplitStatements(src: string) returns (out: seq<Statement>)
    ensures out == StatementsOf(src)
  {
    out := [];
    var buf, line, start, inMath, i := "", 1, None, false, 0;
    ghost var at: nat := 1;
    hide *;
    ScanStart(src);
    WhiteCharacters();
    while i < |src|
      invariant i <= |src| && ScanInv(src, i, inMath, buf, at, line, start, out)
    {
      var c := src[i];
      if !inMath && c == '-' && i + 1 < |src| && src[i + 1] == '-' {
        ScanComment(src, i, buf, at, line, start, out);
        i := SkipLine(src, i);
        buf := buf + " ";
        continue;
      }
      if c == '\n' {
        ScanChar(src, i, inMath, buf, at, line, start, out);
        var was := line;
        line := line + 1;
        i := i + 1;
        // never taken: a buffer with ink already has its line
        if !IsBlank(buf) && start.None? { start := Some(was); }
        buf := buf + [c];
        continue;
      }
      if c == ';' && !inMath {
        ScanSplit(src, i, buf, at, line, start, out);
        if !IsBlank(buf) {
          out := out + [Statement(buf, if start.Some? then start.value else line)];
        }
        at := at + Newlines(buf);
        buf, start := "", None;
        i := i + 1;
        continue;
      }
      ScanChar(src, i, inMath, buf, at, line, start, out);
      if c == '$' { inMath := !inMath; }
      if !IsWhite(c) && start.None? { start := Some(line); }
      buf := buf + [c];
      i := i + 1;
    }
    ScanEnd(src, inMath, buf, at, line, start, out);
    if !IsBlank(buf) {
      out := out + [Statement(buf, if start.Some? then start.value else line)];
    }
  }

  method SkipLine(src: string, from: nat) returns (i: nat)
    requires from <= |src|
    ensures i == LineEnd(src, from)
  {
    i := from;
    while i < |src| && src[i] != '\n'
      invariant from <= i <= |src| && LineEnd(src, i) == LineEnd(src, from)
    {
      i := i + 1;
    }
  }

  lemma WhiteCharacters()
    ensures IsWhite('\n') && IsWhite(' ') && !IsWhite('$')
  {
  }

  lemma EmptyText(at: nat)
    ensures IsBlank("") && Newlines("") == 0
  {
  }

  lemma RestAtEnd(src: string, inMath: bool, buf: string, at: nat)
    ensures Rest(src, |src|, inMath, buf, at) == if IsBlank(buf) then [] else [Statement(buf, LineOfInk(buf, at))]
  {
    assert Uncommented(src, |src|, inMath) == "";
    assert Numbered([buf], at) == (if IsBlank(buf) then []
        else [Statement(buf, LineOfInk(buf, at))]) + Numbered([], at + Newlines(buf));
  }

  // ----- what the split is worth -----

  /** Reading `s` outside math never meets a `;` outside math. */
  predicate OneStatement(s: string) { ScansTo(s).Some? }

  /** The state after reading `s`, or None when a separator was met. */
  function ScansTo(s: string): Option<bool> {
    if s == "" then Some(false)
    else
      var c := s[|s| - 1];
      match ScansTo(s[..|s| - 1])
      case None => None
      case Some(m) => if c == ';' && !m then None else Some(Toggled(m, c))
  }

  /** The pieces, joined by `;`, are the text, and no piece holds a separator. */
  lemma {:induction false} SplitPartitions(t: string, inMath: bool, buf: string)
    requires ScansTo(buf) == Some(inMath)
    ensures Join(Split(t, inMath, buf), ";") == buf + t
    ensures forall p :: p in Split(t, inMath, buf) ==> OneStatement(p)
    decreases |t|
  {
    if t == "" {
      assert buf + t == buf;
    } else if t[0] == ';' && !inMath {
      var rest := Split(t[1..], inMath, "");
      SplitPartitions(t[1..], inMath, "");
      JoinCons(buf, rest, ";");
      assert buf + t == buf + ";" + t[1..];
    } else {
      var next := buf + [t[0]];
      assert next[..|next| - 1] == buf;
      SplitPartitions(t[1..], Toggled(inMath, t[0]), next);
      assert buf + t == next + t[1..];
    }
  }

  lemma {:induction false} JoinCons(p: string, rest: seq<string>, sep: string)
    requires |rest| > 0
    ensures Join([p] + rest, sep) == p + sep + Join(rest, sep)
    decreases |rest|
  {
    var all := [p] + rest;
    assert all[..|all| - 1] == [p] + rest[..|rest| - 1];
    if |rest| > 1 {
      JoinCons(p, rest[..|rest| - 1], sep);
    }
  }

  /** `s` is a stretch of `text` that starts after a `;` or at the beginning and ends before
      a `;` or at the end, and its line counts the newlines before its first ink. */
  ghost predicate Placed(text: string, s: Statement, before: string, after: string) {
    && text == before + s.text + after
    && (before == "" || before[|before| - 1] == ';') && (after == "" || after[0] == ';')
    && !IsBlank(s.text)
    && s.line == 1 + Newlines(before + s.text[..FirstInk(s.text)])
  }

  lemma NumberedStep(p: string, rest: seq<string>, line: nat)
    ensures Numbered([p] + rest, line) ==
      (if IsBlank(p) then [] else [Statement(p, LineOfInk(p, line))]) + Numbered(rest, line + Newlines(p))
  {
    assert ([p] + rest)[1..] == rest;
  }

  lemma HeadIsPlaced(text: string, p: string, before: string, after: string, line: nat)
    requires text == before + p + after && !IsBlank(p) && line == 1 + Newlines(before)
    requires (before == "" || before[|before| - 1] == ';') && (after == "" || after[0] == ';')
    ensures Placed(text, Statement(p, LineOfInk(p, line)), before, after)
  {
    NewlinesConcat(before, p[..FirstInk(p)]);
  }

  lemma PastHead(p: string, before: string, line: nat)
    requires line == 1 + Newlines(before)
    ensures line + Newlines(p) == 1 + Newlines(before + p + ";")
  {
    NewlinesConcat(before, p);
    NewlinesConcat(before + p, ";");
    NoNewlines(";");
  }

  lemma {:induction false} NumberedPlaces(text: string, pieces: seq<string>, before: string, line: nat, k: nat)
    requires pieces != [] && text == before + Join(pieces, ";") && line == 1 + Newlines(before)
    requires before == "" || before[|before| - 1] == ';'
    requires k < |Numbered(pieces, line)|
    ensures exists b, a :: Placed(text, Numbered(pieces, line)[k], b, a)
    decreases |pieces|
  {
    hide Placed, Numbered, Newlines, LineOfInk, IsBlank, Join;
    var p, rest := pieces[0], pieces[1..];
    assert pieces == [p] + rest;
    NumberedStep(p, rest, line);
    var head := if IsBlank(p) then [] else [Statement(p, LineOfInk(p, line))];
    if rest != [] {
      JoinCons(p, rest, ";");
      var tail := Join(rest, ";");
      assert text == before + p + (";" + tail) == (before + p + ";") + tail;
      if k < |head| {
        assert Numbered(pieces, line)[k] == Statement(p, LineOfInk(p, line));
        HeadIsPlaced(text, p, before, ";" + tail, line);
      } else {
        PastHead(p, before, line);
        NumberedPlaces(text, rest, before + p + ";", line + Newlines(p), k - |head|);
        assert Numbered(pieces, line)[k] == Numbered(rest, line + Newlines(p))[k - |head|];
      }
    } else {
      LastPiece(p, line);
      assert pieces == [p];
      assert text == before + p + "";
      assert Numbered(pieces, line)[k] == Statement(p, LineOfInk(p, line));
      HeadIsPlaced(text, p, before, "", line);
    }
  }

  lemma LastPiece(p: string, line: nat)
    ensures Join([p], ";") == p
    ensures Numbered([p], line) == if IsBlank(p) then [] else [Statement(p, LineOfInk(p, line))]
  {
    NumberedStep(p, [], line);
    assert [p] + [] == [p];
    assert Numbered([], line + Newlines(p)) == [];
  }

  /** Every statement is one stretch of the uncommented source between separators, not
      blank, and carries one plus the newlines before its first non-blank character. */
  lemma StatementsArePlaced(src: string, k: nat)
    requires k < |StatementsOf(src)|
    ensures OneStatement(StatementsOf(src)[k].text)
    ensures exists b, a :: Placed(Uncommented(src, 0, false), StatementsOf(src)[k], b, a)
  {
    var text := Uncommented(src, 0, false);
    var pieces := Split(text, false, "");
    SplitPartitions(text, false, "");
    assert text == "" + Join(pieces, ";");
    hide Placed, Split, Uncommented, Join, Numbered;
    NumberedPlaces(text, pieces, "", 1, k);
    NumberedTexts(pieces, 1, k);
  }

  lemma {:induction false} NumberedTexts(pieces: seq<string>, line: nat, k: nat)
    requires k < |Numbered(pieces, line)|
    ensures Numbered(pieces, line)[k].text in pieces
  {
    var head := if IsBlank(pieces[0]) then 0 else 1;
    if k >= head { NumberedTexts(pieces[1..], line + Newlines(pieces[0]), k - head); }
  }

  function Texts(s: seq<Statement>): seq<string> {
    if s == [] then [] else Texts(s[..|s| - 1]) + [s[|s| - 1].text]
  }

  function Inked(pieces: seq<string>): seq<string> {
    if pieces == [] then [] else (if IsBlank(pieces[0]) then [] else [pieces[0]]) + Inked(pieces[1..])
  }

  lemma {:induction false} TextsConcat(a: seq<Statement>, b: seq<Statement>)
    ensures Texts(a + b) == Texts(a) + Texts(b)
  {
    if b == [] {
      assert a + b == a;
    } else {
      assert (a + b)[..|a + b| - 1] == a + b[..|b| - 1];
      TextsConcat(a, b[..|b| - 1]);
    }
  }

  /** Nothing but blank pieces is dropped, and the order is kept. */
  lemma {:induction false} NumberedFilters(pieces: seq<string>, line: nat)
    ensures Texts(Numbered(pieces, line)) == Inked(pieces)
  {
    if pieces != [] {
      hide Newlines, LineOfInk, IsBlank;
      var p := pieces[0];
      var head := if IsBlank(p) then [] else [Statement(p, LineOfInk(p, line))];
      NumberedFilters(pieces[1..], line + Newlines(p));
      TextsConcat(head, Numbered(pieces[1..], line + Newlines(p)));
      assert Texts([]) == [];
      assert Texts(head) == if IsBlank(p) then [] else [p] by {
        if head != [] { assert head[..0] == []; }
      }
    }
  }

  /** Where a character of the uncommented text comes from: blanking moves no line. */
  lemma {:induction false} SourcePosition(src: string, i: nat, inMath: bool, p: nat) returns (q: nat)
    requires i <= |src| && p < |Uncommented(src, i, inMath)|
    ensures i <= q < |src| && Newlines(Uncommented(src, i, inMath)[..p]) == Newlines(src[i..q])
    ensures src[q] == Uncommented(src, i, inMath)[p] || Uncommented(src, i, inMath)[p] == ' '
    decreases |src| - i
  {
    var t := Uncommented(src, i, inMath);
    if p == 0 {
      q := i;
      assert src[i..q] == "" == t[..p];
    } else {
      var comment := CommentAt(src, i, inMath);
      var e, m := if comment then LineEnd(src, i + 1) else i + 1, if comment then inMath else Toggled(inMath, src[i]);
      q := SourcePosition(src, e, m, p - 1);
      assert t[..p] == [t[0]] + Uncommented(src, e, m)[..p - 1];
      NewlinesConcat([t[0]], Uncommented(src, e, m)[..p - 1]);
      assert src[i..q] == src[i..e] + src[e..q];
      NewlinesConcat(src[i..e], src[e..q]);
      if comment {
        NoNewlines(src[i..e]);
        NoNewlines(" ");
      } else {
        assert src[i..e] == [t[0]];
      }
    }
  }

  /** `q` is the source position of the statement's first non-blank character, on its line. */
  ghost predicate InkAt(src: string, s: Statement, q: nat) {
    q < |src| && FirstInk(s.text) < |s.text| && src[q] == s.text[FirstInk(s.text)] && s.line == 1 + Newlines(src[..q])
  }

  /** The reported line is the source line of the statement's first non-blank character. */
  lemma StatementLine(src: string, k: nat)
    requires k < |StatementsOf(src)|
    ensures exists q :: InkAt(src, StatementsOf(src)[k], q)
  {
    hide StatementsOf, Uncommented, Newlines;
    var s, text := StatementsOf(src)[k], Uncommented(src, 0, false);
    StatementsArePlaced(src, k);
    var b, a :| Placed(text, s, b, a);
    var ink := FirstInk(s.text);
    assert text[..|b| + ink] == b + s.text[..ink];
    assert text[|b| + ink] == s.text[ink];
    var q := SourcePosition(src, 0, false, |b| + ink);
    assert src[0..q] == src[..q];
    assert InkAt(src, s, q);
  }

  lemma {:induction false} NoNewlines(s: string)
    requires forall k :: 0 <= k < |s| ==> s[k] != '\n'
    ensures Newlines(s) == 0
  {
    if s != "" { NoNewlines(s[..|s| - 1]); }
  }
}
