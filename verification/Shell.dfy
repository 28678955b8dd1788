// The parser of 5/xv6/sh.c:264-492. Words are strings in the grammar below and spans of the
// input buffer in the parser that follows it.
module Shell {
  import opened Common

  const MAXARGS := 10

  datatype Dir = In | Out

  datatype Cmd<W> =
    | Exec(args: seq<W>)
    | Redir(cmd: Cmd<W>, dir: Dir, file: W)
    | Pipe(left: Cmd<W>, right: Cmd<W>)
    | List(left: Cmd<W>, right: Cmd<W>)
    | Back(cmd: Cmd<W>)

  datatype Result<T> = Ok(value: T, rest: string) | Fail

  predicate Space(c: char) {
    c == ' ' || c == '\t' || c == '\r' || c == '\n' || c == '\U{000B}'
  }

  predicate Symbol(c: char) {
    c == '<' || c == '|' || c == '>' || c == '&' || c == ';' || c == '(' || c == ')'
  }

  predicate WordChar(c: char) {
    !Space(c) && !Symbol(c) && c != '\0'
  }

  // ------------------------------------------------------------------- tokens

  datatype Token = End | Mark(c: char) | Append | Word(w: string)

  function Skip(r: string): (t: string)
    ensures |t| <= |r| && (t != [] ==> !Space(t[0]))
  {
    if r != [] && Space(r[0]) then Skip(r[1..]) else r
  }

  /** Length of the word at the start of r. */
  function WordLen(r: string): (n: nat)
    ensures n <= |r| && (r != [] && WordChar(r[0]) ==> n > 0)
  {
    if r != [] && WordChar(r[0]) then 1 + WordLen(r[1..]) else 0
  }

  /** gettoken: the token at the start of r, and what follows it. */
  function NextTok(r: string): (t: (Token, string))
    ensures |t.1| <= |r| && (t.0.Mark? || t.0.Append? || (t.0.Word? && t.0.w != []) ==> |t.1| < |r|)
  {
    var r1 := Skip(r);
    if r1 == [] then (End, [])
    else if r1[0] == '>' && |r1| > 1 && r1[1] == '>' then (Append, Skip(r1[2..]))
    else if Symbol(r1[0]) then (Mark(r1[0]), Skip(r1[1..]))
    else (Word(r1[..WordLen(r1)]), Skip(r1[WordLen(r1)..]))
  }

  predicate Peeks(r: string, c: char) {
    Skip(r) != [] && Skip(r)[0] == c
  }

  // ------------------------------------------------------------------ grammar

  /** Redirections around a command, the first one innermost. */
  function Wrap<W>(c: Cmd<W>, redirs: seq<(Dir, W)>): Cmd<W> {
    if redirs == [] then c
    else var n := |redirs| - 1; Redir(Wrap(c, redirs[..n]), redirs[n].0, redirs[n].1)
  }

  function RedirList(r: string): (t: Result<seq<(Dir, string)>>)
    ensures t.Ok? ==> |t.rest| <= |r|
    decreases |r|
  {
    if Peeks(r, '<') || Peeks(r, '>') then
      var (tok, r1) := NextTok(r);
      var (name, r2) := NextTok(r1);
      if !name.Word? then Fail
      else
        match RedirList(r2)
        case Fail => Fail
        case Ok(more, rest) => Ok([(if tok == Mark('<') then In else Out, name.w)] + more, rest)
    else Ok([], Skip(r))
  }

  /** The words and redirections after the n words already read. */
  function ArgList(r: string, n: nat): (t: Result<(seq<string>, seq<(Dir, string)>)>)
    ensures t.Ok? ==> |t.rest| <= |r|
    decreases |r|
  {
    if Peeks(r, '|') || Peeks(r, ')') || Peeks(r, '&') || Peeks(r, ';') then Ok(([], []), Skip(r))
    else
      var (tok, r1) := NextTok(r);
      if tok == End then Ok(([], []), r1)
      else if !tok.Word? || tok.w == [] || n + 1 >= MAXARGS then Fail
      else
        match RedirList(r1)
        case Fail => Fail
        case Ok(redirs, r2) =>
          match ArgList(r2, n + 1)
          case Fail => Fail
          case Ok(more, rest) => Ok(([tok.w] + more.0, redirs + more.1), rest)
  }

  function ParseExec(r: string): (t: Result<Cmd<string>>)
    ensures t.Ok? ==> |t.rest| <= |r|
    decreases |r|, 1
  {
    if Peeks(r, '(') then ParseBlock(r)
    else
      match RedirList(r)
      case Fail => Fail
      case Ok(redirs, r1) =>
        match ArgList(r1, 0)
        case Fail => Fail
        case Ok(more, rest) => Ok(Wrap(Exec(more.0), redirs + more.1), rest)
  }

  function ParseBlock(r: string): (t: Result<Cmd<string>>)
    requires Peeks(r, '(')
    ensures t.Ok? ==> |t.rest| <= |r|
    decreases |r|, 0
  {
    match ParseLine(NextTok(r).1)
    case Fail => Fail
    case Ok(c, r1) =>
      if !Peeks(r1, ')') then Fail
      else
        match RedirList(NextTok(r1).1)
        case Fail => Fail
        case Ok(redirs, rest) => Ok(Wrap(c, redirs), rest)
  }

  function ParsePipe(r: string): (t: Result<Cmd<string>>)
    ensures t.Ok? ==> |t.rest| <= |r|
    decreases |r|, 2
  {
    match ParseExec(r)
    case Fail => Fail
    case Ok(c, r1) =>
      if Peeks(r1, '|') then
        match ParsePipe(NextTok(r1).1)
        case Fail => Fail
        case Ok(d, rest) => Ok(Pipe(c, d), rest)
      else Ok(c, Skip(r1))
  }

  function BackLoop<W>(c: Cmd<W>, r: string): (t: (Cmd<W>, string))
    ensures |t.1| <= |r| && !Peeks(t.1, '&')
    decreases |r|
  {
    if Peeks(r, '&') then BackLoop(Back(c), NextTok(r).1) else (c, Skip(r))
  }

  function ParseLine(r: string): (t: Result<Cmd<string>>)
    ensures t.Ok? ==> |t.rest| <= |r|
    decreases |r|, 3
  {
    match ParsePipe(r)
    case Fail => Fail
    case Ok(c, r1) =>
      var (d, r2) := BackLoop(c, r1);
      if Peeks(r2, ';') then
        match ParseLine(NextTok(r2).1)
        case Fail => Fail
        case Ok(e, rest) => Ok(List(d, e), rest)
      else Ok(d, Skip(r2))
  }

  /** parsecmd: the whole input is one line. */
  function ParseCmd(s: string): Result<Cmd<string>> {
    match ParseLine(s)
    case Fail => Fail
    case Ok(c, rest) => if Skip(rest) == [] then Ok(c, []) else Fail
  }

  // ------------------------------------------------------------------ printing

  predicate LegalWord(w: string) {
    w != [] && forall k :: 0 <= k < |w| ==> WordChar(w[k])
  }

  /** Every word is one the shell can read, and no command has more words than argv can hold. */
  predicate Legal(t: Cmd<string>) {
    match t
    case Exec(args) => |args| < MAXARGS && forall k :: 0 <= k < |args| ==> LegalWord(args[k])
    case Redir(c, _, f) => LegalWord(f) && Legal(c)
    case Pipe(l, r) => Legal(l) && Legal(r)
    case List(l, r) => Legal(l) && Legal(r)
    case Back(c) => Legal(c)
  }

  function Size<W>(t: Cmd<W>): nat {
    match t
    case Exec(_) => 1
    case Redir(c, _, _) => 1 + Size(c)
    case Pipe(l, r) => 1 + Size(l) + Size(r)
    case List(l, r) => 1 + Size(l) + Size(r)
    case Back(c) => 1 + Size(c)
  }

  function Core<W>(t: Cmd<W>): (c: Cmd<W>)
    ensures !c.Redir? && Size(c) <= Size(t) && (t.Redir? ==> Size(c) < Size(t)) && (!t.Redir? ==> c == t)
  {
    if t.Redir? then Core(t.cmd) else t
  }

  function Redirs<W>(t: Cmd<W>): (rs: seq<(Dir, W)>)
    ensures Wrap(Core(t), rs) == t
  {
    if t.Redir? then
      var rs := Redirs(t.cmd);
      assert (rs + [(t.dir, t.file)])[..|rs|] == rs;
      rs + [(t.dir, t.file)]
    else []
  }

  lemma LegalParts(t: Cmd<string>)
    requires Legal(t)
    ensures Legal(Core(t)) && forall k :: 0 <= k < |Redirs(t)| ==> LegalWord(Redirs(t)[k].1)
  {
  }

  function PrintWords(ws: seq<string>): string {
    if ws == [] then "" else ws[0] + " " + PrintWords(ws[1..])
  }

  function PrintRedirs(rs: seq<(Dir, string)>): string {
    if rs == [] then ""
    else (if rs[0].0 == In then "<" else ">") + rs[0].1 + " " + PrintRedirs(rs[1..])
  }

  // Parentheses only where the grammar needs them.

  function PrintLine(t: Cmd<string>): string
    decreases Size(t), if t.Exec? || t.Redir? then 8 else 3
  {
    if t.List? then PrintBack(t.left) + ";" + PrintLine(t.right) else PrintBack(t)
  }

  function PrintBack(t: Cmd<string>): string
    decreases Size(t), if t.Back? || t.Pipe? then 2 else 7
  {
    if t.Back? then PrintBack(t.cmd) + "&" else PrintPipe(t)
  }

  function PrintPipe(t: Cmd<string>): string
    decreases Size(t), if t.Pipe? then 1 else 6
  {
    if t.Pipe? then PrintExec(t.left) + "|" + PrintPipe(t.right) else PrintExec(t)
  }

  function PrintExec(t: Cmd<string>): string
    decreases Size(t), 4
  {
    var c := Core(t);
    (if c.Exec? then PrintWords(c.args) else "(" + PrintLine(c) + ")") + PrintRedirs(Redirs(t))
  }

  // --------------------------------------------------------------- round trips

  /** r does not start with white space. */
  predicate Solid(r: string) {
    r == [] || !Space(r[0])
  }

  /** r is empty or starts with one of the characters that may follow. */
  predicate StartsIn(r: string, marks: string) {
    r == [] || r[0] in marks
  }

  lemma {:induction false} WordLenIs(w: string, r: string)
    requires (forall k :: 0 <= k < |w| ==> WordChar(w[k])) && (r == [] || !WordChar(r[0]))
    ensures WordLen(w + r) == |w|
  {
    if w == [] {
      assert w + r == r;
    } else {
      assert (w + r)[1..] == w[1..] + r;
      WordLenIs(w[1..], r);
    }
  }

  lemma WordTok(w: string, r: string)
    requires LegalWord(w) && Solid(r)
    ensures NextTok(w + " " + r) == (Word(w), r)
  {
    var x := w + " " + r;
    assert x == w + (" " + r);
    assert x[0] == w[0] && Skip(x) == x;
    WordLenIs(w, " " + r);
    assert x[..|w|] == w && x[|w|..] == " " + r;
    assert (" " + r)[1..] == r && Skip(" " + r) == Skip(r) == r;
  }

  lemma MarkTok(c: char, r: string)
    requires Symbol(c) && Solid(r) && (c == '>' ==> r == [] || r[0] != '>')
    ensures NextTok([c] + r) == (Mark(c), r)
  {
    var x := [c] + r;
    assert x[0] == c && x[1..] == r && Skip(x) == x;
    assert |x| > 1 ==> x[1] == r[0];
  }

  /** Without white space in front, peek looks at the first character. */
  lemma PeekAt(r: string)
    requires Solid(r)
    ensures Skip(r) == r && forall c :: Peeks(r, c) <==> r != [] && r[0] == c
  {
  }

  lemma RedirStep(c: char, w: string, more: string, rs: seq<(Dir, string)>, rest: string)
    requires (c == '<' || c == '>') && LegalWord(w) && Solid(more) && RedirList(more) == Ok(rs, rest)
    ensures RedirList([c] + (w + " " + more)) == Ok([(if c == '<' then In else Out, w)] + rs, rest)
  {
    var y := w + " " + more;
    assert y[0] == w[0];
    MarkTok(c, y);
    WordTok(w, more);
    PeekAt([c] + y);
    hide NextTok, Skip, Peeks, WordLen, LegalWord;
  }

  /** The two output redirections mean the same. */
  lemma AppendIsOut(w: string, more: string)
    requires LegalWord(w) && Solid(more) && RedirList(more).Ok?
    ensures RedirList(">>" + (w + " " + more)) == RedirList(">" + (w + " " + more)) ==
      Ok([(Out, w)] + RedirList(more).value, RedirList(more).rest)
  {
    var y := w + " " + more;
    var x := ">>" + y;
    assert y[0] == w[0];
    assert x[0] == x[1] == '>' && x[2..] == y;
    PeekAt(x);
    PeekAt(y);
    WordTok(w, more);
    assert NextTok(x) == (Append, y);
    RedirStep('>', w, more, RedirList(more).value, RedirList(more).rest);
    hide NextTok, Skip, Peeks, WordLen, LegalWord;
  }

  lemma PrintedRedir(rs: seq<(Dir, string)>, rest: string)
    requires rs != []
    ensures var c := if rs[0].0 == In then '<' else '>';
      PrintRedirs(rs) + rest == [c] + (rs[0].1 + " " + (PrintRedirs(rs[1..]) + rest))
  {
    var c := if rs[0].0 == In then "<" else ">";
    assert PrintRedirs(rs) == c + rs[0].1 + " " + PrintRedirs(rs[1..]);
    Regroup(c, rs[0].1, " ", PrintRedirs(rs[1..]), rest);
  }

  lemma Regroup(a: string, b: string, c: string, d: string, e: string)
    ensures a + b + c + d + e == a + (b + c + (d + e))
  {
  }

  lemma {:induction false} RedirsBack(rs: seq<(Dir, string)>, rest: string)
    requires (forall k :: 0 <= k < |rs| ==> LegalWord(rs[k].1)) && Solid(rest) && !Peeks(rest, '<') && !Peeks(rest, '>')
    ensures RedirList(PrintRedirs(rs) + rest) == Ok(rs, rest)
    ensures Solid(PrintRedirs(rs) + rest)
  {
    if rs == [] {
      PeekAt(rest);
      assert PrintRedirs(rs) + rest == rest;
    } else {
      hide RedirList, LegalWord, Peeks;
      var c := if rs[0].0 == In then '<' else '>';
      var more := PrintRedirs(rs[1..]) + rest;
      RedirsBack(rs[1..], rest);
      RedirStep(c, rs[0].1, more, rs[1..], rest);
      PrintedRedir(rs, rest);
      assert rs == [(if c == '<' then In else Out, rs[0].1)] + rs[1..];
    }
  }

  lemma NoRedirs(r: string)
    requires Solid(r) && (r == [] || (r[0] != '<' && r[0] != '>'))
    ensures RedirList(r) == Ok([], r)
  {
    PeekAt(r);
  }

  lemma ArgStep(w: string, r1: string, n: nat, redirs: seq<(Dir, string)>, r2: string, ws: seq<string>, rs: seq<(Dir, string)>, rest: string)
    requires LegalWord(w) && Solid(r1) && n + 1 < MAXARGS
    requires RedirList(r1) == Ok(redirs, r2) && ArgList(r2, n + 1) == Ok((ws, rs), rest)
    ensures ArgList(w + " " + r1, n) == Ok(([w] + ws, redirs + rs), rest)
  {
    var x := w + " " + r1;
    assert x[0] == w[0];
    WordTok(w, r1);
    PeekAt(x);
    hide NextTok, Skip, Peeks, WordLen, RedirList;
  }

  lemma {:induction false} ArgsBack(ws: seq<string>, rs: seq<(Dir, string)>, rest: string, n: nat)
    requires ws != [] && n + |ws| < MAXARGS && StartsIn(rest, "|&;)")
    requires forall k :: 0 <= k < |ws| ==> LegalWord(ws[k])
    requires forall k :: 0 <= k < |rs| ==> LegalWord(rs[k].1)
    ensures var x := PrintWords(ws) + (PrintRedirs(rs) + rest);
      ArgList(x, n) == Ok((ws, rs), rest) && x != [] && WordChar(x[0])
    decreases |ws|
  {
    hide RedirList, ArgList;
    var tail := PrintRedirs(rs) + rest;
    var x := PrintWords(ws) + tail;
    var more := PrintWords(ws[1..]) + tail;
    Regroup("", ws[0], " ", PrintWords(ws[1..]), tail);
    assert x == ws[0] + " " + more;
    assert x[0] == ws[0][0];
    assert ws == [ws[0]] + ws[1..];
    hide LegalWord;
    if |ws| == 1 {
      assert more == tail;
      ArgsEnd(rest, n + 1);
      RedirsBack(rs, rest);
      ArgStep(ws[0], tail, n, rs, rest, [], [], rest);
      assert rs + [] == rs;
    } else {
      ArgsBack(ws[1..], rs, rest, n + 1);
      NoRedirs(more);
      ArgStep(ws[0], more, n, [], more, ws[1..], rs, rest);
      assert [] + rs == rs;
    }
  }

  lemma ArgsEnd(rest: string, n: nat)
    requires StartsIn(rest, "|&;)")
    ensures Solid(rest) && !Peeks(rest, '<') && !Peeks(rest, '>') && ArgList(rest, n) == Ok(([], []), rest)
  {
    assert Solid(rest);
    PeekAt(rest);
  }

  /** A simple command: words, then redirections. */
  lemma SimpleBack(args: seq<string>, rs: seq<(Dir, string)>, rest: string)
    requires Legal(Exec(args)) && (forall k :: 0 <= k < |rs| ==> LegalWord(rs[k].1)) && StartsIn(rest, "|&;)")
    ensures ParseExec(PrintWords(args) + (PrintRedirs(rs) + rest)) == Ok(Wrap(Exec(args), rs), rest)
  {
    hide RedirList, ArgList, LegalWord, ParseBlock;
    var x := PrintWords(args) + (PrintRedirs(rs) + rest);
    ArgsEnd(rest, 0);
    if args == [] {
      assert x == PrintRedirs(rs) + rest;
      RedirsBack(rs, rest);
      RedirsStart(rs, rest);
      assert rs + [] == rs;
    } else {
      ArgsBack(args, rs, rest, 0);
      PeekAt(x);
      NoRedirs(x);
      assert [] + rs == rs;
    }
  }

  /** A command in parentheses, then redirections. */
  lemma BlockStep(c: Cmd<string>, y: string, rs: seq<(Dir, string)>, rest: string)
    requires (forall k :: 0 <= k < |rs| ==> LegalWord(rs[k].1)) && StartsIn(rest, "|&;)") && Solid(y)
    requires ParseLine(y) == Ok(c, ")" + (PrintRedirs(rs) + rest))
    ensures ParseExec("(" + y) == Ok(Wrap(c, rs), rest)
  {
    ArgsEnd(rest, 0);
    RedirsBack(rs, rest);
    var tail := PrintRedirs(rs) + rest;
    MarkTok('(', y);
    MarkTok(')', tail);
    PeekAt("(" + y);
    PeekAt(")" + tail);
    hide RedirList, ArgList, LegalWord, ParseLine, NextTok, Skip, Peeks, PrintRedirs;
  }

  lemma ExecBack(t: Cmd<string>, rest: string)
    requires Legal(t) && StartsIn(rest, "|&;)")
    ensures ParseExec(PrintExec(t) + rest) == Ok(t, rest)
    decreases Size(t), 4
  {
    hide ParseExec, ParseLine, PrintRedirs, PrintWords, LegalWord;
    LegalParts(t);
    var c, rs := Core(t), Redirs(t);
    if c.Exec? {
      SimpleBack(c.args, rs, rest);
      assert PrintExec(t) == PrintWords(c.args) + PrintRedirs(rs);
      assert PrintExec(t) + rest == PrintWords(c.args) + (PrintRedirs(rs) + rest);
    } else {
      var tail := ")" + (PrintRedirs(rs) + rest);
      LineBack(c, tail);
      LineSolid(c, tail);
      BlockStep(c, PrintLine(c) + tail, rs, rest);
      assert PrintExec(t) == "(" + PrintLine(c) + ")" + PrintRedirs(rs);
      assert PrintExec(t) + rest == "(" + (PrintLine(c) + tail);
    }
  }

  lemma RedirsStart(rs: seq<(Dir, string)>, rest: string)
    requires StartsIn(rest, "|&;)")
    ensures !Peeks(PrintRedirs(rs) + rest, '(')
  {
    if rs != [] {
      var x := PrintRedirs(rs) + rest;
      assert x[0] == '<' || x[0] == '>';
    } else {
      assert PrintRedirs(rs) + rest == rest;
    }
  }

  lemma PipeStep(x: string, c: Cmd<string>, y: string, d: Cmd<string>, rest: string)
    requires ParseExec(x) == Ok(c, "|" + y) && Solid(y) && ParsePipe(y) == Ok(d, rest)
    ensures ParsePipe(x) == Ok(Pipe(c, d), rest)
  {
    MarkTok('|', y);
    PeekAt("|" + y);
    hide ParseExec, NextTok, Skip, Peeks;
  }

  lemma PipeStop(x: string, c: Cmd<string>, rest: string)
    requires ParseExec(x) == Ok(c, rest) && StartsIn(rest, "&;)")
    ensures ParsePipe(x) == Ok(c, rest)
  {
    assert Solid(rest);
    PeekAt(rest);
    hide ParseExec, NextTok, Skip, Peeks;
  }

  lemma PipeBack(t: Cmd<string>, rest: string)
    requires Legal(t) && StartsIn(rest, "&;)")
    ensures ParsePipe(PrintPipe(t) + rest) == Ok(t, rest)
    decreases Size(t), if t.Pipe? then 1 else 6
  {
    hide ParsePipe, ParseExec, PrintExec;
    if t.Pipe? {
      var y := PrintPipe(t.right) + rest;
      ExecBack(t.left, "|" + y);
      PipeBack(t.right, rest);
      PipeSolid(t.right, rest);
      assert PrintPipe(t) + rest == PrintExec(t.left) + ("|" + y);
      PipeStep(PrintPipe(t) + rest, t.left, y, t.right, rest);
    } else {
      ExecBack(t, rest);
      PipeStop(PrintPipe(t) + rest, t, rest);
    }
  }

  lemma BackStep<W>(c: Cmd<W>, rest: string)
    requires Solid(rest)
    ensures BackLoop(c, "&" + rest) == BackLoop(Back(c), rest)
  {
    MarkTok('&', rest);
    PeekAt("&" + rest);
    hide NextTok, Skip, Peeks;
  }

  /** parsepipe and then the loop over & give back the command. */
  lemma BackBack(t: Cmd<string>, rest: string)
    requires Legal(t) && StartsIn(rest, "&;)")
    ensures var x := ParsePipe(PrintBack(t) + rest); x.Ok? && BackLoop(x.value, x.rest) == BackLoop(t, rest)
    decreases Size(t), if t.Back? || t.Pipe? then 2 else 7
  {
    hide ParsePipe, PrintPipe, BackLoop;
    if t.Back? {
      BackBack(t.cmd, "&" + rest);
      BackStep(t.cmd, rest);
      assert PrintBack(t) + rest == PrintBack(t.cmd) + ("&" + rest);
    } else {
      PipeBack(t, rest);
    }
  }

  lemma BackStop<W>(c: Cmd<W>, rest: string)
    requires StartsIn(rest, ";)")
    ensures BackLoop(c, rest) == (c, rest)
  {
    assert Solid(rest);
    PeekAt(rest);
  }

  lemma LineStep(x: string, p: Result<Cmd<string>>, c: Cmd<string>, y: string, d: Cmd<string>, rest: string)
    requires p == ParsePipe(x) && p.Ok? && BackLoop(p.value, p.rest) == (c, ";" + y) && Solid(y) && ParseLine(y) == Ok(d, rest)
    ensures ParseLine(x) == Ok(List(c, d), rest)
  {
    MarkTok(';', y);
    PeekAt(";" + y);
    hide ParsePipe, BackLoop, NextTok, Skip, Peeks;
  }

  lemma LineStop(x: string, p: Result<Cmd<string>>, c: Cmd<string>, rest: string)
    requires p == ParsePipe(x) && p.Ok? && BackLoop(p.value, p.rest) == (c, rest) && StartsIn(rest, ")")
    ensures ParseLine(x) == Ok(c, rest)
  {
    assert Solid(rest);
    PeekAt(rest);
    hide ParsePipe, BackLoop, NextTok, Skip, Peeks;
  }

  lemma LineBack(t: Cmd<string>, rest: string)
    requires Legal(t) && StartsIn(rest, ")")
    ensures ParseLine(PrintLine(t) + rest) == Ok(t, rest)
    decreases Size(t), if t.Exec? || t.Redir? then 8 else 3
  {
    hide ParseLine, ParsePipe, PrintBack, BackLoop;
    var x := PrintLine(t) + rest;
    if t.List? {
      var y := PrintLine(t.right) + rest;
      BackBack(t.left, ";" + y);
      BackStop(t.left, ";" + y);
      LineBack(t.right, rest);
      LineSolid(t.right, rest);
      assert x == PrintBack(t.left) + (";" + y);
      LineStep(x, ParsePipe(x), t.left, y, t.right, rest);
    } else {
      BackBack(t, rest);
      BackStop(t, rest);
      LineStop(x, ParsePipe(x), t, rest);
    }
  }

  /** Printed commands do not start with white space. */
  lemma ExecSolid(t: Cmd<string>, rest: string)
    requires Legal(t) && Solid(rest)
    ensures Solid(PrintExec(t) + rest)
  {
    LegalParts(t);
    var c, rs := Core(t), Redirs(t);
    var x := PrintExec(t) + rest;
    if c.Exec? && c.args != [] {
      assert x[0] == c.args[0][0];
    } else if !c.Exec? {
      assert x[0] == '(';
    } else if rs != [] {
      assert x[0] == '<' || x[0] == '>';
    } else {
      assert x == rest;
    }
  }

  lemma PipeSolid(t: Cmd<string>, rest: string)
    requires Legal(t) && Solid(rest)
    ensures Solid(PrintPipe(t) + rest)
  {
    if t.Pipe? {
      assert PrintPipe(t) + rest == PrintExec(t.left) + ("|" + PrintPipe(t.right) + rest);
      ExecSolid(t.left, "|" + PrintPipe(t.right) + rest);
    } else {
      ExecSolid(t, rest);
    }
  }

  lemma BackSolid(t: Cmd<string>, rest: string)
    requires Legal(t) && Solid(rest)
    ensures Solid(PrintBack(t) + rest)
  {
    if t.Back? {
      assert PrintBack(t) + rest == PrintBack(t.cmd) + ("&" + rest);
      BackSolid(t.cmd, "&" + rest);
    } else {
      PipeSolid(t, rest);
    }
  }

  lemma LineSolid(t: Cmd<string>, rest: string)
    requires Legal(t) && Solid(rest)
    ensures Solid(PrintLine(t) + rest)
  {
    if t.List? {
      assert PrintLine(t) + rest == PrintBack(t.left) + (";" + PrintLine(t.right) + rest);
      BackSolid(t.left, ";" + PrintLine(t.right) + rest);
    } else {
      BackSolid(t, rest);
    }
  }

  /** Every command tree survives printing and parsing. */
  lemma ParsePrint(t: Cmd<string>)
    requires Legal(t)
    ensures ParseCmd(PrintLine(t)) == Ok(t, [])
  {
    LineBack(t, []);
    assert PrintLine(t) + [] == PrintLine(t);
  }

  // ------------------------------------------------------ white space of any kind

  /** The five characters of `whitespace`, and the characters no word may contain. */
  predicate White(c: char) {
    c in [' ', '\t', '\r', '\n', '\U{000B}']
  }

  predicate Barred(c: char) {
    White(c) || c in ['<', '|', '>', '&', ';', '(', ')', '\0']
  }

  /** A tree whose words hold no such character, with at most nine words to a command. */
  predicate Tidy(t: Cmd<string>) {
    match t
    case Exec(args) => |args| <= 9 && forall k :: 0 <= k < |args| ==> TidyWord(args[k])
    case Redir(c, _, f) => TidyWord(f) && Tidy(c)
    case Pipe(l, r) => Tidy(l) && Tidy(r)
    case List(l, r) => Tidy(l) && Tidy(r)
    case Back(c) => Tidy(c)
  }

  predicate TidyWord(w: string) {
    w != [] && forall k :: 0 <= k < |w| ==> !Barred(w[k])
  }

  lemma {:induction false} TidyLegal(t: Cmd<string>)
    requires Tidy(t)
    ensures Legal(t)
  {
    match t
    case Exec(args) =>
    case Redir(c, _, _) => TidyLegal(c);
    case Pipe(l, r) => TidyLegal(l); TidyLegal(r);
    case List(l, r) => TidyLegal(l); TidyLegal(r);
    case Back(c) => TidyLegal(c);
  }

  ghost predicate AllWhite(s: string) {
    forall k :: 0 <= k < |s| ==> White(s[k])
  }

  /** r' is r with each space replaced by one or more white space characters of any kind. */
  ghost predicate Respaced(r: string, r': string)
    decreases |r|
  {
    if r == [] then r' == []
    else if r[0] == ' ' then exists n :: 1 <= n <= |r'| && AllWhite(r'[..n]) && Respaced(r[1..], r'[n..])
    else r' != [] && r'[0] == r[0] && Respaced(r[1..], r'[1..])
  }

  lemma {:induction false} SkipRun(r: string, n: nat)
    requires n <= |r| && AllWhite(r[..n])
    ensures Skip(r) == Skip(r[n..])
    decreases n
  {
    if n > 0 {
      assert White(r[..n][0]) && Space(r[0]);
      assert r[1..][..n - 1] == r[..n][1..] && r[1..][n - 1..] == r[n..];
      SkipRun(r[1..], n - 1);
    }
  }

  lemma {:induction false} SkipRespaced(r: string, r': string)
    requires Respaced(r, r')
    ensures Respaced(Skip(r), Skip(r'))
    decreases |r|
  {
    if r != [] && r[0] == ' ' {
      var n :| 1 <= n <= |r'| && AllWhite(r'[..n]) && Respaced(r[1..], r'[n..]);
      SkipRun(r', n);
      SkipRespaced(r[1..], r'[n..]);
    } else if r != [] && Space(r[0]) {
      SkipRespaced(r[1..], r'[1..]);
    }
  }

  /** What comes first is the same, unless it is white space in both. */
  lemma FirstRespaced(r: string, r': string)
    requires Respaced(r, r')
    ensures r == [] <==> r' == []
    ensures r != [] ==> if r[0] == ' ' then White(r'[0]) else r'[0] == r[0]
  {
    if r != [] && r[0] == ' ' {
      var n :| 1 <= n <= |r'| && AllWhite(r'[..n]) && Respaced(r[1..], r'[n..]);
      assert White(r'[..n][0]);
    }
  }

  lemma {:induction false} WordRespaced(r: string, r': string)
    requires Respaced(r, r')
    ensures WordLen(r') == WordLen(r) && r'[..WordLen(r)] == r[..WordLen(r)]
    ensures Respaced(r[WordLen(r)..], r'[WordLen(r)..])
    decreases |r|
  {
    FirstRespaced(r, r');
    if r != [] && WordChar(r[0]) {
      WordRespaced(r[1..], r'[1..]);
      var n := WordLen(r[1..]);
      assert r[..n + 1] == [r[0]] + r[1..][..n] && r'[..n + 1] == [r'[0]] + r'[1..][..n];
      assert r[n + 1..] == r[1..][n..] && r'[n + 1..] == r'[1..][n..];
    } else {
      assert r[0..] == r && r'[0..] == r';
    }
  }

  lemma TokRespaced(r: string, r': string)
    requires Respaced(r, r')
    ensures NextTok(r').0 == NextTok(r).0 && Respaced(NextTok(r).1, NextTok(r').1)
    ensures forall c :: Peeks(r', c) <==> Peeks(r, c)
  {
    SkipRespaced(r, r');
    var r1, r1' := Skip(r), Skip(r');
    FirstRespaced(r1, r1');
    if r1 != [] {
      WordRespaced(r1, r1');
      SkipRespaced(r1[WordLen(r1)..], r1'[WordLen(r1)..]);
      assert r1[0] != ' ';
      FirstRespaced(r1[1..], r1'[1..]);
      SkipRespaced(r1[1..], r1'[1..]);
      if |r1| > 1 && r1[1] == '>' {
        assert r1[1..][1..] == r1[2..] && r1'[1..][1..] == r1'[2..];
        SkipRespaced(r1[2..], r1'[2..]);
      }
    }
  }

  ghost predicate SameResult<T>(a: Result<T>, b: Result<T>) {
    if a.Ok? then b.Ok? && b.value == a.value && Respaced(a.rest, b.rest) else b.Fail?
  }

  lemma {:induction false} RedirsRespaced(r: string, r': string)
    requires Respaced(r, r')
    ensures SameResult(RedirList(r), RedirList(r'))
    decreases |r|
  {
    hide Respaced, NextTok, Peeks, Skip;
    TokRespaced(r, r');
    SkipRespaced(r, r');
    if Peeks(r, '<') || Peeks(r, '>') {
      var (tok, r1) := NextTok(r);
      var (_, r1') := NextTok(r');
      PeekTok(r);
      TokRespaced(r1, r1');
      if NextTok(r1).0.Word? {
        RedirsRespaced(NextTok(r1).1, NextTok(r1').1);
      }
    }
  }

  /** A symbol that is seen is a token that shortens the input. */
  lemma PeekTok(r: string)
    ensures forall c :: Peeks(r, c) && Symbol(c) ==> |NextTok(r).1| < |r|
  {
  }

  lemma {:induction false} ArgsRespaced(r: string, r': string, n: nat)
    requires Respaced(r, r')
    ensures SameResult(ArgList(r, n), ArgList(r', n))
    decreases |r|
  {
    hide Respaced, NextTok, Peeks, Skip, RedirList;
    TokRespaced(r, r');
    SkipRespaced(r, r');
    if !(Peeks(r, '|') || Peeks(r, ')') || Peeks(r, '&') || Peeks(r, ';')) {
      var (tok, r1) := NextTok(r);
      var (_, r1') := NextTok(r');
      if tok.Word? && tok.w != [] && n + 1 < MAXARGS {
        RedirsRespaced(r1, r1');
        if RedirList(r1).Ok? {
          ArgsRespaced(RedirList(r1).rest, RedirList(r1').rest, n + 1);
        }
      }
    }
  }

  lemma {:induction false} ExecRespaced(r: string, r': string)
    requires Respaced(r, r')
    ensures SameResult(ParseExec(r), ParseExec(r'))
    decreases |r|, 1
  {
    hide Respaced, NextTok, Peeks, Skip, RedirList, ArgList, ParseBlock;
    TokRespaced(r, r');
    if Peeks(r, '(') {
      BlockRespaced(r, r');
    } else {
      RedirsRespaced(r, r');
      if RedirList(r).Ok? {
        ArgsRespaced(RedirList(r).rest, RedirList(r').rest, 0);
      }
    }
  }

  lemma {:induction false} BlockRespaced(r: string, r': string)
    requires Respaced(r, r') && Peeks(r, '(') && Peeks(r', '(')
    ensures SameResult(ParseBlock(r), ParseBlock(r'))
    decreases |r|, 0
  {
    hide Respaced, NextTok, Peeks, Skip, RedirList, ParseLine;
    TokRespaced(r, r');
    PeekTok(r);
    LineRespaced(NextTok(r).1, NextTok(r').1);
    var a, b := ParseLine(NextTok(r).1), ParseLine(NextTok(r').1);
    if a.Ok? {
      TokRespaced(a.rest, b.rest);
      if Peeks(a.rest, ')') {
        RedirsRespaced(NextTok(a.rest).1, NextTok(b.rest).1);
      }
    }
  }

  lemma {:induction false} PipeRespaced(r: string, r': string)
    requires Respaced(r, r')
    ensures SameResult(ParsePipe(r), ParsePipe(r'))
    decreases |r|, 2
  {
    hide Respaced, NextTok, Peeks, Skip, ParseExec;
    ExecRespaced(r, r');
    var a, b := ParseExec(r), ParseExec(r');
    if a.Ok? {
      TokRespaced(a.rest, b.rest);
      SkipRespaced(a.rest, b.rest);
      PeekTok(a.rest);
      if Peeks(a.rest, '|') {
        PipeRespaced(NextTok(a.rest).1, NextTok(b.rest).1);
      }
    }
  }

  lemma {:induction false} BackRespaced(c: Cmd<string>, r: string, r': string)
    requires Respaced(r, r')
    ensures BackLoop(c, r').0 == BackLoop(c, r).0 && Respaced(BackLoop(c, r).1, BackLoop(c, r').1)
    decreases |r|
  {
    hide Respaced, NextTok, Peeks, Skip;
    TokRespaced(r, r');
    SkipRespaced(r, r');
    PeekTok(r);
    if Peeks(r, '&') {
      BackRespaced(Back(c), NextTok(r).1, NextTok(r').1);
    }
  }

  lemma {:induction false} LineRespaced(r: string, r': string)
    requires Respaced(r, r')
    ensures SameResult(ParseLine(r), ParseLine(r'))
    decreases |r|, 3
  {
    hide Respaced, NextTok, Peeks, Skip, ParsePipe, BackLoop;
    PipeRespaced(r, r');
    var a, b := ParsePipe(r), ParsePipe(r');
    if a.Ok? {
      BackRespaced(a.value, a.rest, b.rest);
      var s, s' := BackLoop(a.value, a.rest).1, BackLoop(a.value, b.rest).1;
      TokRespaced(s, s');
      SkipRespaced(s, s');
      PeekTok(s);
      if Peeks(s, ';') {
        LineRespaced(NextTok(s).1, NextTok(s').1);
      }
    }
  }

  lemma WordsSolid(ws: seq<string>)
    requires forall k :: 0 <= k < |ws| ==> TidyWord(ws[k])
    ensures Solid(PrintWords(ws)) && (ws != [] ==> PrintWords(ws) != [] && WordChar(PrintWords(ws)[0]))
  {
    if ws != [] {
      assert PrintWords(ws)[0] == ws[0][0];
    }
  }

  lemma {:induction false} ArgsOverflow(ws: seq<string>, n: nat)
    requires n + |ws| >= 10 && n < 10 && forall k :: 0 <= k < |ws| ==> TidyWord(ws[k])
    ensures ArgList(PrintWords(ws), n) == Fail
    decreases |ws|
  {
    var r := PrintWords(ws);
    WordsSolid(ws);
    WordsSolid(ws[1..]);
    assert Skip(r) == r;
    WordTok(ws[0], PrintWords(ws[1..]));
    if n + 1 < 10 {
      var r1 := PrintWords(ws[1..]);
      assert Skip(r1) == r1 && RedirList(r1) == Ok([], r1);
      ArgsOverflow(ws[1..], n + 1);
    }
  }

  /** A command of ten words or more is refused. */
  lemma TooManyWords(ws: seq<string>)
    requires |ws| >= 10 && forall k :: 0 <= k < |ws| ==> TidyWord(ws[k])
    ensures ParseCmd(PrintWords(ws)) == Fail
  {
    var r := PrintWords(ws);
    WordsSolid(ws);
    assert Skip(r) == r && RedirList(r) == Ok([], r);
    ArgsOverflow(ws, 0);
    assert ParseExec(r) == Fail && ParsePipe(r) == Fail && ParseLine(r) == Fail;
  }

  /** Whatever white space stands for each space of an input, the shell reads the same command or none. */
  lemma SpacesDoNotMatter(s: string, s': string)
    requires Respaced(s, s')
    ensures ParseCmd(s') == ParseCmd(s)
  {
    hide Respaced, Skip, ParseLine;
    LineRespaced(s, s');
    if ParseLine(s).Ok? {
      SkipRespaced(ParseLine(s).rest, ParseLine(s').rest);
      FirstRespaced(Skip(ParseLine(s).rest), Skip(ParseLine(s').rest));
    }
  }

  /** Every tree of words without white space, symbols and zeros, at most nine to a command, survives printing
      with any white space between the words, and parsing. */
  lemma PrintedAnyhow(t: Cmd<string>, s: string)
    requires Tidy(t) && Respaced(PrintLine(t), s)
    ensures ParseCmd(s) == Ok(t, [])
  {
    hide Respaced, ParseCmd, PrintLine, Legal;
    TidyLegal(t);
    ParsePrint(t);
    SpacesDoNotMatter(PrintLine(t), s);
  }

  // ------------------------------------------------- what the parser accepts

  predicate NoNul(s: string) {
    forall k :: 0 <= k < |s| ==> s[k] != '\0'
  }

  lemma SkipNoNul(r: string)
    requires NoNul(r)
    ensures NoNul(Skip(r))
  {
    if r != [] && Space(r[0]) {
      SkipNoNul(r[1..]);
    }
  }

  lemma {:induction false} WordIsLegal(r: string)
    requires NoNul(r)
    ensures forall k :: 0 <= k < WordLen(r) ==> WordChar(r[k])
  {
    if r != [] && WordChar(r[0]) {
      WordIsLegal(r[1..]);
      forall k | 1 <= k < WordLen(r) ensures WordChar(r[k]) {
        assert r[1..][k - 1] == r[k];
      }
    }
  }

  lemma TokLegal(r: string)
    requires NoNul(r)
    ensures NoNul(NextTok(r).1) && (NextTok(r).0.Word? ==> LegalWord(NextTok(r).0.w))
  {
    SkipNoNul(r);
    var r1 := Skip(r);
    WordIsLegal(r1);
    if |r1| > 1 { SkipNoNul(r1[2..]); }
    if r1 != [] { SkipNoNul(r1[1..]); }
    SkipNoNul(r1[WordLen(r1)..]);
  }

  ghost predicate LegalRedirs(rs: seq<(Dir, string)>) {
    forall k :: 0 <= k < |rs| ==> LegalWord(rs[k].1)
  }

  lemma {:induction false} RedirsLegal(r: string)
    requires NoNul(r) && RedirList(r).Ok?
    ensures LegalRedirs(RedirList(r).value) && NoNul(RedirList(r).rest)
    decreases |r|
  {
    SkipNoNul(r);
    TokLegal(r);
    TokLegal(NextTok(r).1);
    hide NextTok, Skip, LegalWord, NoNul;
    if Peeks(r, '<') || Peeks(r, '>') {
      RedirsLegal(NextTok(NextTok(r).1).1);
    }
  }

  lemma RedirsJoin(a: seq<(Dir, string)>, b: seq<(Dir, string)>)
    ensures LegalRedirs([]) && (LegalRedirs(a) && LegalRedirs(b) ==> LegalRedirs(a + b))
  {
  }

  lemma ArgCases(r: string, n: nat)
    requires ArgList(r, n).Ok?
    ensures var t, (tok, r1) := ArgList(r, n), NextTok(r);
      if ArgStops(r) || tok == End then t.value == ([], []) && (t.rest == Skip(r) || t.rest == r1)
      else
        && tok.Word? && n + 1 < MAXARGS && RedirList(r1).Ok? && |RedirList(r1).rest| < |r|
        && var more := ArgList(RedirList(r1).rest, n + 1);
           more.Ok? && t.value == ([tok.w] + more.value.0, RedirList(r1).value + more.value.1) && t.rest == more.rest
  {
    hide NextTok, Skip, Peeks, RedirList;
  }

  lemma {:induction false} ArgsLegal(r: string, n: nat)
    requires NoNul(r) && ArgList(r, n).Ok? && n < MAXARGS
    ensures var v := ArgList(r, n).value;
      n + |v.0| < MAXARGS && (forall k :: 0 <= k < |v.0| ==> LegalWord(v.0[k])) && LegalRedirs(v.1)
    ensures NoNul(ArgList(r, n).rest)
    decreases |r|
  {
    SkipNoNul(r);
    TokLegal(r);
    var (tok, r1) := NextTok(r);
    ArgCases(r, n);
    hide NextTok, Skip, Peeks, LegalWord, NoNul, RedirList, LegalRedirs, ArgList, ArgStops;
    if !ArgStops(r) && tok != End {
      RedirsLegal(r1);
      ArgsLegal(RedirList(r1).rest, n + 1);
      RedirsJoin(RedirList(r1).value, ArgList(RedirList(r1).rest, n + 1).value.1);
    } else {
      RedirsJoin([], []);
    }
  }

  lemma {:induction false} WrapLegal(c: Cmd<string>, rs: seq<(Dir, string)>)
    requires Legal(c) && LegalRedirs(rs)
    ensures Legal(Wrap(c, rs))
  {
    if rs != [] {
      WrapLegal(c, rs[..|rs| - 1]);
    }
  }

  lemma {:induction false} BackLegal(c: Cmd<string>, r: string)
    requires Legal(c) && NoNul(r)
    ensures Legal(BackLoop(c, r).0) && NoNul(BackLoop(c, r).1)
    decreases |r|
  {
    SkipNoNul(r);
    TokLegal(r);
    if Peeks(r, '&') {
      BackLegal(Back(c), NextTok(r).1);
    }
  }

  /** A line that parses gives a tree that can be printed. */
  lemma {:induction false} LineLegal(r: string)
    requires NoNul(r) && ParseLine(r).Ok?
    ensures Legal(ParseLine(r).value) && NoNul(ParseLine(r).rest)
    decreases |r|, 3
  {
    hide NextTok, Skip, Peeks, NoNul, ParsePipe, BackLoop;
    PipeLegal(r);
    var p := ParsePipe(r);
    BackLegal(p.value, p.rest);
    var r2 := BackLoop(p.value, p.rest).1;
    SkipNoNul(r2);
    TokLegal(r2);
    if Peeks(r2, ';') {
      PeekedToken(r2, ';');
      LineLegal(NextTok(r2).1);
    }
  }

  lemma {:induction false} PipeLegal(r: string)
    requires NoNul(r) && ParsePipe(r).Ok?
    ensures Legal(ParsePipe(r).value) && NoNul(ParsePipe(r).rest)
    decreases |r|, 2
  {
    hide NextTok, Skip, Peeks, NoNul, ParseExec;
    ExecLegal(r);
    var r1 := ParseExec(r).rest;
    SkipNoNul(r1);
    TokLegal(r1);
    if Peeks(r1, '|') {
      PeekedToken(r1, '|');
      PipeLegal(NextTok(r1).1);
    }
  }

  lemma {:induction false} ExecLegal(r: string)
    requires NoNul(r) && ParseExec(r).Ok?
    ensures Legal(ParseExec(r).value) && NoNul(ParseExec(r).rest)
    decreases |r|, 1
  {
    hide NextTok, Skip, Peeks, NoNul, RedirList, ArgList, ParseBlock, LegalWord;
    if Peeks(r, '(') {
      BlockLegal(r);
    } else {
      RedirsLegal(r);
      var rs := RedirList(r);
      ArgsLegal(rs.rest, 0);
      var v := ArgList(rs.rest, 0).value;
      WrapLegal(Exec(v.0), rs.value + v.1);
    }
  }

  lemma {:induction false} BlockLegal(r: string)
    requires NoNul(r) && Peeks(r, '(') && ParseBlock(r).Ok?
    ensures Legal(ParseBlock(r).value) && NoNul(ParseBlock(r).rest)
    decreases |r|, 0
  {
    TokLegal(r);
    PeekedToken(r, '(');
    var r0 := NextTok(r).1;
    hide NextTok, Skip, Peeks, NoNul, RedirList, ParseLine, LegalWord;
    LineLegal(r0);
    var p := ParseLine(r0);
    TokLegal(p.rest);
    RedirsLegal(NextTok(p.rest).1);
    WrapLegal(p.value, RedirList(NextTok(p.rest).1).value);
  }

  /** Whatever the shell accepts, printing its tree and parsing again gives the same tree. */
  lemma ReparseSame(s: string)
    requires NoNul(s) && ParseCmd(s).Ok?
    ensures Legal(ParseCmd(s).value) && ParseCmd(PrintLine(ParseCmd(s).value)) == ParseCmd(s)
  {
    LineLegal(s);
    ParsePrint(ParseCmd(s).value);
  }

  // --------------------------------------------------------- the parser itself

  /** A word of the input, from q up to but not including eq. */
  datatype Span = Span(q: nat, eq: nat)

  /** All of the span is word characters, and the next character is not. */
  predicate TokenSpan(s: string, w: Span) {
    && w.q < w.eq <= |s|
    && (forall k :: w.q <= k < w.eq ==> WordChar(s[k]))
    && (w.eq < |s| ==> !WordChar(s[w.eq]))
  }

  function Text(s: string, w: Span): string {
    if w.q <= w.eq <= |s| then s[w.q..w.eq] else ""
  }

  function WordTexts(s: string, ws: seq<Span>): (t: seq<string>)
    ensures |t| == |ws| && forall k :: 0 <= k < |t| ==> t[k] == Text(s, ws[k])
  {
    seq(|ws|, k requires 0 <= k < |ws| => Text(s, ws[k]))
  }

  function RedirTexts(s: string, rs: seq<(Dir, Span)>): (t: seq<(Dir, string)>)
    ensures |t| == |rs| && forall k :: 0 <= k < |t| ==> t[k] == (rs[k].0, Text(s, rs[k].1))
  {
    seq(|rs|, k requires 0 <= k < |rs| => (rs[k].0, Text(s, rs[k].1)))
  }

  /** The command with the words themselves in place of their spans. */
  function TextOf(s: string, c: Cmd<Span>): Cmd<string> {
    match c
    case Exec(args) => Exec(WordTexts(s, args))
    case Redir(d, dir, f) => Redir(TextOf(s, d), dir, Text(s, f))
    case Pipe(l, r) => Pipe(TextOf(s, l), TextOf(s, r))
    case List(l, r) => List(TextOf(s, l), TextOf(s, r))
    case Back(d) => Back(TextOf(s, d))
  }

  predicate SpansOk(s: string, c: Cmd<Span>) {
    match c
    case Exec(args) => forall k :: 0 <= k < |args| ==> TokenSpan(s, args[k])
    case Redir(d, _, f) => SpansOk(s, d) && TokenSpan(s, f)
    case Pipe(l, r) => SpansOk(s, l) && SpansOk(s, r)
    case List(l, r) => SpansOk(s, l) && SpansOk(s, r)
    case Back(d) => SpansOk(s, d)
  }

  /** What the parser returned is what the grammar says. */
  ghost predicate Agrees(s: string, spec: Result<Cmd<string>>, r: Option<Cmd<Span>>, p: nat) {
    && (r.None? <==> spec.Fail?)
    && (r.Some? ==> p <= |s| && SpansOk(s, r.value) && TextOf(s, r.value) == spec.value && s[p..] == spec.rest)
  }

  lemma SkipStep(s: string, p: nat)
    requires p < |s| && Space(s[p])
    ensures Skip(s[p..]) == Skip(s[p + 1..])
  {
    assert s[p..][1..] == s[p + 1..];
  }

  method SkipSpaces(s: string, p: nat) returns (i: nat)
    requires p <= |s|
    ensures p <= i <= |s| && s[i..] == Skip(s[p..])
  {
    i := p;
    while i < |s| && Space(s[i])
      invariant p <= i <= |s| && Skip(s[i..]) == Skip(s[p..])
    {
      SkipStep(s, i);
      i := i + 1;
    }
    assert i < |s| ==> s[i..][0] == s[i];
  }

  /** peek */
  method Peek(s: string, p: nat, toks: string) returns (hit: bool, i: nat)
    requires p <= |s|
    ensures p <= i <= |s| && s[i..] == Skip(s[p..])
    ensures hit <==> i < |s| && s[i] in toks
    ensures hit <==> exists c :: c in toks && Peeks(s[p..], c)
  {
    i := SkipSpaces(s, p);
    hit := i < |s| && s[i] in toks;
    assert i < |s| ==> s[i..][0] == s[i] && forall c :: Peeks(s[p..], c) <==> c == s[i];
  }

  /** The end of the word that starts at q. */
  method WordEnd(s: string, q: nat) returns (i: nat)
    requires q < |s| && !Space(s[q]) && !Symbol(s[q]) && NoNul(s)
    ensures TokenSpan(s, Span(q, i)) && i == q + WordLen(s[q..])
  {
    i := q;
    while i < |s| && !Space(s[i]) && !Symbol(s[i])
      invariant q <= i <= |s| && (i == q ==> WordChar(s[q]))
      invariant forall k :: q <= k < i ==> WordChar(s[k])
      invariant WordLen(s[q..]) == i - q + WordLen(s[i..])
    {
      assert s[i..][0] == s[i] && s[i..][1..] == s[i + 1..];
      i := i + 1;
    }
    assert i < |s| ==> s[i..][0] == s[i];
  }

  /** The token that gettoken reports by its character code. */
  function TokenOf(s: string, tok: char, w: Span): Token {
    if tok == '\0' then End else if tok == '+' then Append else if tok == 'a' then Word(Text(s, w)) else Mark(tok)
  }

  /** What each code stands for; no symbol is mistaken for another code. */
  lemma TokenCodes(s: string, c: char, w: Span)
    ensures TokenOf(s, '\0', w) == End && TokenOf(s, '+', w) == Append && TokenOf(s, 'a', w) == Word(Text(s, w))
    ensures Symbol(c) ==> TokenOf(s, c, w) == Mark(c)
    ensures w.q <= w.eq <= |s| ==> Text(s, w) == s[w.q..w.eq]
  {
  }

  lemma TokEnd(s: string, p: nat)
    requires p <= |s| && Skip(s[p..]) == []
    ensures NextTok(s[p..]) == (End, [])
  {
  }

  lemma TokAppend(s: string, p: nat, q: nat)
    requires p <= |s| && q + 1 < |s| && s[q..] == Skip(s[p..]) && s[q] == '>' && s[q + 1] == '>'
    ensures NextTok(s[p..]) == (Append, Skip(s[q + 2..]))
  {
    hide Skip;
    assert s[q..][0] == s[q] && s[q..][1] == s[q + 1] && s[q..][2..] == s[q + 2..];
  }

  lemma TokMark(s: string, p: nat, q: nat)
    requires p <= |s| && q < |s| && s[q..] == Skip(s[p..]) && Symbol(s[q]) && !(s[q] == '>' && q + 1 < |s| && s[q + 1] == '>')
    ensures NextTok(s[p..]) == (Mark(s[q]), Skip(s[q + 1..]))
  {
    hide Skip;
    assert s[q..][0] == s[q] && s[q..][1..] == s[q + 1..];
    assert |s[q..]| > 1 ==> s[q..][1] == s[q + 1];
  }

  lemma TokWord(s: string, p: nat, q: nat)
    requires p <= |s| && q < |s| && s[q..] == Skip(s[p..]) && !Symbol(s[q])
    ensures !Space(s[q]) && q + WordLen(s[q..]) <= |s|
    ensures var i := q + WordLen(s[q..]); NextTok(s[p..]) == (Word(s[q..i]), Skip(s[i..]))
  {
    hide WordLen;
    SkippedSolid(s[p..]);
    hide Skip;
    var i := q + WordLen(s[q..]);
    assert s[q..][0] == s[q] && s[q..][..i - q] == s[q..i] && s[q..][i - q..] == s[i..];
  }

  /** gettoken */
  method Gettoken(s: string, p: nat) returns (tok: char, w: Span, i: nat)
    requires p <= |s| && NoNul(s)
    ensures p <= i <= |s| && NextTok(s[p..]) == (TokenOf(s, tok, w), s[i..])
    ensures tok == 'a' ==> TokenSpan(s, w)
    ensures tok != '\0' ==> p < i
  {
    hide Skip, WordLen, NextTok, TokenSpan, TokenOf, Text, Symbol, WordChar, NoNul;
    var q := SkipSpaces(s, p);
    if q == |s| {
      TokEnd(s, p);
      TokenCodes(s, ' ', Span(q, q));
      return '\0', Span(q, q), q;
    }
    if s[q] == '>' && q + 1 < |s| && s[q + 1] == '>' {
      TokAppend(s, p, q);
      tok, i := '+', q + 2;
    } else if Symbol(s[q]) {
      TokMark(s, p, q);
      tok, i := s[q], q + 1;
    } else {
      TokWord(s, p, q);
      tok := 'a';
      i := WordEnd(s, q);
    }
    w := Span(q, i);
    TokenCodes(s, s[q], w);
    i := SkipSpaces(s, i);
  }

  lemma SkippedSolid(r: string)
    ensures Skip(r) != [] ==> !Space(Skip(r)[0])
  {
  }

  /** Leading white space makes no difference. */
  lemma SkipTwice(r: string)
    ensures Skip(Skip(r)) == Skip(r) && NextTok(Skip(r)) == NextTok(r) && forall c :: Peeks(Skip(r), c) <==> Peeks(r, c)
  {
    SkippedSolid(r);
    PeekAt(Skip(r));
  }

  lemma RedirsSkip(r: string)
    ensures RedirList(Skip(r)) == RedirList(r)
  {
    SkipTwice(r);
    hide NextTok, Skip, Peeks;
  }

  function PrependRedirs(rs: seq<(Dir, string)>, t: Result<seq<(Dir, string)>>): Result<seq<(Dir, string)>> {
    match t
    case Fail => Fail
    case Ok(more, rest) => Ok(rs + more, rest)
  }

  lemma PrependNothing(t: Result<seq<(Dir, string)>>)
    ensures PrependRedirs([], t) == t
  {
    assert t.Ok? ==> [] + t.value == t.value;
  }

  lemma PrependTwice(a: seq<(Dir, string)>, b: seq<(Dir, string)>, t: Result<seq<(Dir, string)>>)
    ensures PrependRedirs(a, PrependRedirs(b, t)) == PrependRedirs(a + b, t)
  {
    assert t.Ok? ==> a + (b + t.value) == a + b + t.value;
  }

  lemma RedirTextsAdd(s: string, a: seq<(Dir, Span)>, b: seq<(Dir, Span)>)
    ensures RedirTexts(s, a + b) == RedirTexts(s, a) + RedirTexts(s, b)
  {
    hide Text;
  }

  lemma RedirTextsOne(s: string, dir: Dir, f: Span)
    ensures RedirTexts(s, [(dir, f)]) == [(dir, Text(s, f))]
  {
  }

  /** One round of the loop of parseredirs. */
  lemma RedirRound(r: string, tok: Token, r1: string, name: Token, r2: string)
    requires (Peeks(r, '<') || Peeks(r, '>')) && NextTok(r) == (tok, r1) && NextTok(r1) == (name, r2)
    ensures !name.Word? ==> RedirList(r) == Fail
    ensures name.Word? ==> RedirList(r) == PrependRedirs([(if tok == Mark('<') then In else Out, name.w)], RedirList(r2))
  {
    hide NextTok, Skip, Peeks;
  }

  lemma RedirsDone(r: string)
    requires !Peeks(r, '<') && !Peeks(r, '>')
    ensures RedirList(r) == Ok([], Skip(r))
  {
  }

  /** parseredirs; the redirections are returned in the order read, each wrapping the ones before. */
  method Parseredirs(s: string, p: nat) returns (ok: bool, rs: seq<(Dir, Span)>, i: nat)
    requires p <= |s| && NoNul(s)
    ensures p <= i <= |s| && (ok <==> RedirList(s[p..]).Ok?)
    ensures ok ==> RedirList(s[p..]) == Ok(RedirTexts(s, rs), s[i..]) && forall k :: 0 <= k < |rs| ==> TokenSpan(s, rs[k].1)
  {
    hide NextTok, Skip, Peeks, TokenSpan, RedirList, PrependRedirs, RedirTexts, Text;
    rs := [];
    var hit;
    hit, i := Peek(s, p, "<>");
    SkipTwice(s[p..]);
    RedirsSkip(s[p..]);
    PrependNothing(RedirList(s[p..]));
    NoRedirTexts(s);
    while hit
      invariant p <= i <= |s| && (hit <==> Peeks(s[i..], '<') || Peeks(s[i..], '>')) && Skip(s[i..]) == s[i..]
      invariant RedirList(s[p..]) == PrependRedirs(RedirTexts(s, rs), RedirList(s[i..]))
      invariant forall k :: 0 <= k < |rs| ==> TokenSpan(s, rs[k].1)
      decreases |s| - i
    {
      var tok, w, j := Gettoken(s, i);
      var name, f, k := Gettoken(s, j);
      RedirRound(s[i..], TokenOf(s, tok, w), s[j..], TokenOf(s, name, f), s[k..]);
      if name != 'a' {
        PrependFail(RedirTexts(s, rs));
        return false, rs, i;
      }
      var dir := if tok == '<' then In else Out;
      RedirTextsAdd(s, rs, [(dir, f)]);
      RedirTextsOne(s, dir, f);
      PrependTwice(RedirTexts(s, rs), [(dir, Text(s, f))], RedirList(s[k..]));
      rs := rs + [(dir, f)];
      hit, i := Peek(s, k, "<>");
      SkipTwice(s[k..]);
      RedirsSkip(s[k..]);
    }
    RedirsDone(s[i..]);
    PrependDone(RedirTexts(s, rs), s[i..]);
    return true, rs, i;
  }

  lemma NoRedirTexts(s: string)
    ensures RedirTexts(s, []) == [] && WordTexts(s, []) == []
  {
  }

  lemma PrependFail(rs: seq<(Dir, string)>)
    ensures PrependRedirs(rs, Fail) == Fail
  {
  }

  lemma PrependDone(rs: seq<(Dir, string)>, rest: string)
    ensures PrependRedirs(rs, Ok([], rest)) == Ok(rs, rest)
  {
    assert rs + [] == rs;
  }

  function FinishExec(ws: seq<string>, rs: seq<(Dir, string)>, t: Result<(seq<string>, seq<(Dir, string)>)>): Result<Cmd<string>> {
    match t
    case Fail => Fail
    case Ok(more, rest) => Ok(Wrap(Exec(ws + more.0), rs + more.1), rest)
  }

  lemma ExecStart(r: string)
    requires !Peeks(r, '(')
    ensures RedirList(r).Fail? ==> ParseExec(r) == Fail
    ensures RedirList(r).Ok? ==> ParseExec(r) == FinishExec([], RedirList(r).value, ArgList(RedirList(r).rest, 0))
  {
    hide ArgList, RedirList;
    if RedirList(r).Ok? && ArgList(RedirList(r).rest, 0).Ok? {
      var more := ArgList(RedirList(r).rest, 0).value;
      assert [] + more.0 == more.0;
    }
  }

  predicate ArgStops(r: string) {
    Peeks(r, '|') || Peeks(r, ')') || Peeks(r, '&') || Peeks(r, ';')
  }

  /** One round of the loop of parseexec over a word. */
  lemma ArgRound(ws: seq<string>, rs: seq<(Dir, string)>, r: string, n: nat, w: string, r1: string)
    requires !ArgStops(r) && NextTok(r) == (Word(w), r1) && w != []
    ensures n + 1 >= MAXARGS ==> ArgList(r, n) == Fail
    ensures n + 1 < MAXARGS && RedirList(r1).Fail? ==> ArgList(r, n) == Fail
    ensures n + 1 < MAXARGS && RedirList(r1).Ok? ==>
      FinishExec(ws, rs, ArgList(r, n)) == FinishExec(ws + [w], rs + RedirList(r1).value, ArgList(RedirList(r1).rest, n + 1))
  {
    hide NextTok, Skip, Peeks, RedirList;
    if n + 1 < MAXARGS && RedirList(r1).Ok? {
      var t := ArgList(RedirList(r1).rest, n + 1);
      if t.Ok? {
        assert ws + ([w] + t.value.0) == ws + [w] + t.value.0;
        assert rs + (RedirList(r1).value + t.value.1) == rs + RedirList(r1).value + t.value.1;
      }
    }
  }

  lemma ArgOther(r: string, n: nat)
    requires !ArgStops(r)
    ensures NextTok(r).0 == End ==> ArgList(r, n) == Ok(([], []), NextTok(r).1)
    ensures NextTok(r).0.Mark? || NextTok(r).0.Append? ==> ArgList(r, n) == Fail
  {
    hide NextTok, Skip, Peeks;
  }

  lemma ArgsStop(r: string, n: nat)
    requires ArgStops(r)
    ensures ArgList(r, n) == Ok(([], []), Skip(r))
  {
  }

  lemma ArgsSkip(r: string, n: nat)
    ensures ArgList(Skip(r), n) == ArgList(r, n)
  {
    SkipTwice(r);
    hide NextTok, Skip, Peeks, RedirList;
  }

  lemma Finished(ws: seq<string>, rs: seq<(Dir, string)>, rest: string)
    ensures FinishExec(ws, rs, Ok(([], []), rest)) == Ok(Wrap(Exec(ws), rs), rest)
    ensures FinishExec(ws, rs, Fail) == Fail
  {
    assert ws + [] == ws && rs + [] == rs;
  }

  lemma WordTextsMore(s: string, ws: seq<Span>, w: Span)
    ensures WordTexts(s, ws + [w]) == WordTexts(s, ws) + [Text(s, w)]
  {
    hide Text;
  }

  lemma {:induction false} WrapText(s: string, c: Cmd<Span>, rs: seq<(Dir, Span)>)
    requires SpansOk(s, c) && forall k :: 0 <= k < |rs| ==> TokenSpan(s, rs[k].1)
    ensures SpansOk(s, Wrap(c, rs)) && TextOf(s, Wrap(c, rs)) == Wrap(TextOf(s, c), RedirTexts(s, rs))
  {
    if rs != [] {
      var n := |rs| - 1;
      WrapText(s, c, rs[..n]);
      assert RedirTexts(s, rs)[..n] == RedirTexts(s, rs[..n]);
    }
  }

  /** parseexec on a simple command; the execcmd is filled while the redirections wrap it. */
  method ParseSimple(s: string, p: nat) returns (r: Option<Cmd<Span>>, i: nat)
    requires p <= |s| && NoNul(s) && !Peeks(s[p..], '(')
    ensures p <= i <= |s| && Agrees(s, ParseExec(s[p..]), r, i)
  {
    hide NextTok, Skip, Peeks, TokenSpan, RedirList, ArgList, ParseExec, FinishExec, RedirTexts, WordTexts, Text, Wrap;
    var ok, redirs;
    ok, redirs, i := Parseredirs(s, p);
    ExecStart(s[p..]);
    if !ok {
      return None, i;
    }
    NoRedirTexts(s);
    var args: seq<Span> := [];
    var stop;
    ghost var j := i;
    stop, i := Peek(s, i, "|)&;");
    SkipTwice(s[j..]);
    ArgsSkip(s[j..], 0);
    while !stop
      invariant p <= i <= |s| && (stop <==> ArgStops(s[i..])) && |args| < MAXARGS && Skip(s[i..]) == s[i..]
      invariant ParseExec(s[p..]) == FinishExec(WordTexts(s, args), RedirTexts(s, redirs), ArgList(s[i..], |args|))
      invariant forall k :: 0 <= k < |args| ==> TokenSpan(s, args[k])
      invariant forall k :: 0 <= k < |redirs| ==> TokenSpan(s, redirs[k].1)
      decreases |s| - i
    {
      var tok, w, i1 := Gettoken(s, i);
      ArgOther(s[i..], |args|);
      Finished(WordTexts(s, args), RedirTexts(s, redirs), s[i1..]);
      if tok == '\0' {
        SimpleAgrees(s, args, redirs, ParseExec(s[p..]), i1);
        return Some(Wrap(Exec(args), redirs)), i1;
      }
      if tok != 'a' {
        return None, i1;
      }
      SpanText(s, w);
      ArgRound(WordTexts(s, args), RedirTexts(s, redirs), s[i..], |args|, Text(s, w), s[i1..]);
      WordTextsMore(s, args, w);
      args := args + [w];
      if |args| >= MAXARGS {
        return None, i1;
      }
      var more, i2;
      ok, more, i2 := Parseredirs(s, i1);
      if !ok {
        return None, i1;
      }
      RedirTextsAdd(s, redirs, more);
      redirs := redirs + more;
      stop, i := Peek(s, i2, "|)&;");
      SkipTwice(s[i2..]);
      ArgsSkip(s[i2..], |args|);
    }
    ArgsStop(s[i..], |args|);
    Finished(WordTexts(s, args), RedirTexts(s, redirs), s[i..]);
    SimpleAgrees(s, args, redirs, ParseExec(s[p..]), i);
    return Some(Wrap(Exec(args), redirs)), i;
  }

  lemma SpanText(s: string, w: Span)
    requires TokenSpan(s, w)
    ensures Text(s, w) != []
  {
  }

  lemma SimpleAgrees(s: string, args: seq<Span>, redirs: seq<(Dir, Span)>, spec: Result<Cmd<string>>, i: nat)
    requires i <= |s| && spec == Ok(Wrap(Exec(WordTexts(s, args)), RedirTexts(s, redirs)), s[i..])
    requires forall k :: 0 <= k < |args| ==> TokenSpan(s, args[k])
    requires forall k :: 0 <= k < |redirs| ==> TokenSpan(s, redirs[k].1)
    ensures Agrees(s, spec, Some(Wrap(Exec(args), redirs)), i)
  {
    hide Wrap, RedirTexts, WordTexts, TokenSpan;
    WrapText(s, Exec(args), redirs);
  }

  /** parseexec */
  method Parseexec(s: string, p: nat) returns (r: Option<Cmd<Span>>, i: nat)
    requires p <= |s| && NoNul(s)
    ensures p <= i <= |s| && Agrees(s, ParseExec(s[p..]), r, i)
    decreases |s| - p, 1
  {
    hide NextTok, Skip, Peeks, ParseBlock, Agrees;
    var block;
    block, i := Peek(s, p, "(");
    if block {
      ExecIsBlock(s[p..]);
      r, i := Parseblock(s, p);
    } else {
      r, i := ParseSimple(s, p);
    }
  }

  lemma ExecIsBlock(r: string)
    requires Peeks(r, '(')
    ensures ParseExec(r) == ParseBlock(r)
  {
  }

  /** parseblock */
  method Parseblock(s: string, p: nat) returns (r: Option<Cmd<Span>>, i: nat)
    requires p <= |s| && NoNul(s) && Peeks(s[p..], '(')
    ensures p <= i <= |s| && Agrees(s, ParseBlock(s[p..]), r, i)
    decreases |s| - p, 0
  {
    hide NextTok, Skip, Peeks, RedirList, ParseLine, RedirTexts, Wrap;
    var tok, w, i1 := Gettoken(s, p);
    PeekedToken(s[p..], '(');
    r, i := Parseline(s, i1);
    if r.None? {
      return;
    }
    var close, i2 := Peek(s, i, ")");
    if !close {
      return None, i;
    }
    var tok2, w2, i3 := Gettoken(s, i);
    PeekedToken(s[i..], ')');
    var ok, redirs, i4 := Parseredirs(s, i3);
    if !ok {
      return None, i3;
    }
    WrapText(s, r.value, redirs);
    return Some(Wrap(r.value, redirs)), i4;
  }

  lemma PeekedToken(r: string, c: char)
    requires Peeks(r, c) && Symbol(c)
    ensures NextTok(r).0 == Mark(c) || (c == '>' && NextTok(r).0 == Append)
  {
  }

  /** parsepipe */
  method Parsepipe(s: string, p: nat) returns (r: Option<Cmd<Span>>, i: nat)
    requires p <= |s| && NoNul(s)
    ensures p <= i <= |s| && Agrees(s, ParsePipe(s[p..]), r, i)
    decreases |s| - p, 2
  {
    hide NextTok, Skip, Peeks, ParseExec;
    r, i := Parseexec(s, p);
    if r.None? {
      return;
    }
    var left, i0 := r.value, i;
    var more;
    more, i := Peek(s, i0, "|");
    if more {
      PeekedToken(s[i0..], '|');
      SkipTwice(s[i0..]);
      var tok, w, i1 := Gettoken(s, i);
      r, i := Parsepipe(s, i1);
      if r.Some? {
        r := Some(Pipe(left, r.value));
      }
    }
  }

  /** The loop of parseline over & */
  method ParseBacks(s: string, c: Cmd<Span>, p: nat) returns (cmd: Cmd<Span>, i: nat)
    requires p <= |s| && NoNul(s) && SpansOk(s, c)
    ensures p <= i <= |s| && SpansOk(s, cmd) && BackLoop(TextOf(s, c), s[p..]) == (TextOf(s, cmd), s[i..])
  {
    hide NextTok, Skip, Peeks, BackLoop, SpansOk;
    ghost var first, r1 := TextOf(s, c), s[p..];
    cmd := c;
    var more;
    more, i := Peek(s, p, "&");
    SkipTwice(r1);
    BackSkips(first, r1);
    while more
      invariant p <= i <= |s| && SpansOk(s, cmd) && (more <==> Peeks(s[i..], '&')) && Skip(s[i..]) == s[i..]
      invariant BackLoop(TextOf(s, cmd), s[i..]) == BackLoop(first, r1)
      decreases |s| - i
    {
      PeekedToken(s[i..], '&');
      BackOnce(TextOf(s, cmd), s[i..]);
      var tok, w, i1 := Gettoken(s, i);
      BackSpans(s, cmd);
      cmd := Back(cmd);
      more, i := Peek(s, i1, "&");
      SkipTwice(s[i1..]);
      BackSkips(TextOf(s, cmd), s[i1..]);
    }
    BackEnds(TextOf(s, cmd), s[i..]);
  }

  lemma BackSpans(s: string, c: Cmd<Span>)
    requires SpansOk(s, c)
    ensures SpansOk(s, Back(c))
  {
  }

  /** parseline */
  method Parseline(s: string, p: nat) returns (r: Option<Cmd<Span>>, i: nat)
    requires p <= |s| && NoNul(s)
    ensures p <= i <= |s| && Agrees(s, ParseLine(s[p..]), r, i)
    decreases |s| - p, 3
  {
    hide NextTok, Skip, Peeks, ParsePipe, BackLoop;
    r, i := Parsepipe(s, p);
    if r.None? {
      return;
    }
    var cmd, i1 := ParseBacks(s, r.value, i);
    var list, i2 := Peek(s, i1, ";");
    SkipTwice(s[i1..]);
    if list {
      PeekedToken(s[i1..], ';');
      var tok, w, i3 := Gettoken(s, i2);
      r, i := Parseline(s, i3);
      if r.Some? {
        r := Some(List(cmd, r.value));
      }
    } else {
      r, i := Some(cmd), i2;
    }
  }

  lemma BackSkips<W>(c: Cmd<W>, r: string)
    ensures BackLoop(c, Skip(r)) == BackLoop(c, r)
  {
    SkipTwice(r);
    hide NextTok, Skip, Peeks;
  }

  lemma BackOnce<W>(c: Cmd<W>, r: string)
    requires Peeks(r, '&')
    ensures BackLoop(c, r) == BackLoop(Back(c), NextTok(r).1)
  {
  }

  lemma BackEnds<W>(c: Cmd<W>, r: string)
    requires !Peeks(r, '&')
    ensures BackLoop(c, r) == (c, Skip(r))
  {
  }

  // -------------------------------------------------------------- nulterminate

  function Elems(ws: seq<Span>): set<Span> {
    set w | w in ws
  }

  function Words(c: Cmd<Span>): set<Span> {
    match c
    case Exec(args) => Elems(args)
    case Redir(d, _, f) => Words(d) + {f}
    case Pipe(l, r) => Words(l) + Words(r)
    case List(l, r) => Words(l) + Words(r)
    case Back(d) => Words(d)
  }

  lemma WordsOk(s: string, c: Cmd<Span>)
    requires SpansOk(s, c)
    ensures forall w :: w in Words(c) ==> TokenSpan(s, w)
  {
  }

  /** The C string that starts at position q. */
  function CString(b: string, q: nat): string
    decreases |b| - q
  {
    if q < |b| && b[q] != '\0' then [b[q]] + CString(b, q + 1) else []
  }

  /** The ends of these words, and nothing else, were overwritten by zeros. */
  ghost predicate Cut(b: string, b': string, words: set<Span>) {
    && |b'| == |b|
    && (forall x :: 0 <= x < |b| ==> b'[x] == b[x] || b'[x] == '\0')
    && (forall w :: w in words && w.eq < |b| ==> b'[w.eq] == '\0')
    && (forall x :: 0 <= x < |b| && (forall w :: w in words ==> w.eq != x) ==> b'[x] == b[x])
  }

  lemma CutMore(b: string, m: string, b': string, v: set<Span>, w: set<Span>)
    requires Cut(b, m, v) && Cut(m, b', w)
    ensures Cut(b, b', v + w)
  {
    forall x | 0 <= x < |b| && (forall u :: u in v + w ==> u.eq != x) ensures b'[x] == b[x] {
      assert forall u :: u in v ==> u in v + w;
      assert forall u :: u in w ==> u in v + w;
    }
  }

  /** nulterminate */
  method Nulterminate(buf: array<char>, ghost s: string, c: Cmd<Span>)
    requires |s| < buf.Length && SpansOk(s, c)
    modifies buf
    ensures Cut(old(buf[..]), buf[..], Words(c))
    decreases c
  {
    hide Cut, TokenSpan;
    ghost var b := buf[..];
    match c {
      case Exec(args) =>
        var i := 0;
        CutNothing(b);
        while i < |args|
          invariant 0 <= i <= |args| && Cut(b, buf[..], Elems(args[..i]))
        {
          SpanEnds(s, args[i]);
          ghost var m := buf[..];
          buf[args[i].eq] := '\0';
          CutOne(m, buf[..], args[i]);
          CutMore(b, m, buf[..], Elems(args[..i]), {args[i]});
          ElemsMore(args, i);
          i := i + 1;
        }
        assert args[..i] == args;
      case Redir(d, _, f) =>
        Nulterminate(buf, s, d);
        SpanEnds(s, f);
        ghost var m := buf[..];
        buf[f.eq] := '\0';
        CutOne(m, buf[..], f);
        CutMore(b, m, buf[..], Words(d), {f});
      case Pipe(l, r) =>
        Nulterminate(buf, s, l);
        ghost var m := buf[..];
        Nulterminate(buf, s, r);
        CutMore(b, m, buf[..], Words(l), Words(r));
      case List(l, r) =>
        Nulterminate(buf, s, l);
        ghost var m := buf[..];
        Nulterminate(buf, s, r);
        CutMore(b, m, buf[..], Words(l), Words(r));
      case Back(d) =>
        Nulterminate(buf, s, d);
    }
  }

  lemma SpanEnds(s: string, w: Span)
    requires TokenSpan(s, w)
    ensures w.q <= w.eq <= |s|
  {
  }

  lemma ElemsMore(ws: seq<Span>, i: nat)
    requires i < |ws|
    ensures Elems(ws[..i + 1]) == Elems(ws[..i]) + {ws[i]}
  {
    assert ws[..i + 1] == ws[..i] + [ws[i]];
  }

  lemma CutNothing(b: string)
    ensures Cut(b, b, Elems([]))
  {
  }

  lemma CutOne(b: string, b': string, w: Span)
    requires w.eq < |b| && b' == b[w.eq := '\0']
    ensures Cut(b, b', {w})
  {
    forall x | 0 <= x < |b| && (forall u :: u in {w} ==> u.eq != x) ensures b'[x] == b[x] {
      assert w in {w};
    }
  }

  /** After the cuts every word reads as itself: no cut falls inside any word. */
  lemma {:induction false} WordReads(s: string, b: string, b': string, words: set<Span>, w: Span, q: nat)
    requires |s| < |b| && b[..|s|] == s && b[|s|] == '\0' && Cut(b, b', words)
    requires (forall u :: u in words ==> TokenSpan(s, u)) && w in words && w.q <= q <= w.eq <= |s|
    ensures CString(b', q) == s[q..w.eq]
    decreases w.eq - q
  {
    if q < w.eq {
      assert TokenSpan(s, w);
      assert WordChar(s[q]);
      assert forall u :: u in words ==> TokenSpan(s, u) && u.eq != q;
      assert b'[q] == b[q] == b[..|s|][q];
      WordReads(s, b, b', words, w, q + 1);
    }
  }

  /** strlen */
  method Strlen(buf: array<char>) returns (n: nat)
    requires '\0' in buf[..]
    ensures n < buf.Length && buf[n] == '\0' && NoNul(buf[..n])
  {
    n := 0;
    ghost var k :| 0 <= k < buf.Length && buf[k] == '\0';
    while buf[n] != '\0'
      invariant 0 <= n <= k && forall j :: 0 <= j < n ==> buf[j] != '\0'
      decreases k - n
    {
      n := n + 1;
    }
  }

  /** parsecmd: the tree of the grammar, whose words can then be read off the buffer as C strings. */
  method Parsecmd(buf: array<char>) returns (r: Option<Cmd<Span>>)
    requires '\0' in buf[..]
    modifies buf
    ensures var s := CString(old(buf[..]), 0);
      && (r.None? <==> ParseCmd(s) == Fail)
      && (r.Some? ==>
            && ParseCmd(s) == Ok(TextOf(s, r.value), [])
            && forall w :: w in Words(r.value) ==> CString(buf[..], w.q) == Text(s, w))
  {
    hide Cut, ParseLine, Skip, CString;
    var n := Strlen(buf);
    var s := buf[..n];
    PrefixReads(buf[..], n);
    var i;
    r, i := Parseline(s, 0);
    assert s[0..] == s;
    if r.None? {
      return;
    }
    var hit;
    hit, i := Peek(s, i, "");
    if i != n {
      return None;
    }
    WordsOk(s, r.value);
    ghost var b := buf[..];
    Nulterminate(buf, s, r.value);
    forall w | w in Words(r.value) ensures CString(buf[..], w.q) == Text(s, w) {
      SpanEnds(s, w);
      WordReads(s, b, buf[..], Words(r.value), w, w.q);
    }
  }

  lemma PrefixReads(b: string, n: nat)
    requires n < |b| && b[n] == '\0' && NoNul(b[..n])
    ensures CString(b, 0) == b[..n]
  {
    PrefixReadsOn(b, n, 0);
  }

  lemma {:induction false} PrefixReadsOn(b: string, n: nat, k: nat)
    requires k <= n < |b| && b[n] == '\0' && NoNul(b[..n])
    ensures CString(b, k) == b[k..n]
    decreases n - k
  {
    if k < n {
      assert b[..n][k] == b[k];
      PrefixReadsOn(b, n, k + 1);
    }
  }
}
