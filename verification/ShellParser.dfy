/** The parser of sh.c: a recursive descent over one line, and the pass that cuts the line into C
    strings by writing NULs into it. Positions stand for the pointers into the line. */
module ShellParser {

  const MAXARGS: int := 10
  const NUL: char := '\0'

  /** A scanned word, from its first character to the one after its last. */
  datatype Tok = Tok(q: int, eq: int)

  datatype Mode = ReadOnly | WriteCreate

  datatype Cmd =
    | Exec(args: seq<Tok>)
    | Redir(cmd: Cmd, file: Tok, mode: Mode, fd: int)
    | Pipe(left: Cmd, right: Cmd)
    | List(left: Cmd, right: Cmd)
    | Back(cmd: Cmd)

  predicate White(c: char)
  {
    c == ' ' || c == '\t' || c == '\r' || c == '\n' || c == '\U{0B}'
  }

  predicate Symbol(c: char)
  {
    c == '<' || c == '|' || c == '>' || c == '&' || c == ';' || c == '(' || c == ')'
  }

  predicate WordChar(c: char)
  {
    c != NUL && !White(c) && !Symbol(c)
  }

  /** A line as parsecmd gets it: characters, and a NUL at the end. */
  predicate Line(b: string)
  {
    |b| >= 1 && b[|b| - 1] == NUL && forall i :: 0 <= i < |b| - 1 ==> b[i] != NUL
  }

  // ----- Words, declaratively -----

  /** The first position from `p` on that is not white space. */
  function Skip(b: string, p: int): (r: int)
    requires 0 <= p
    ensures p <= r && (r < |b| ==> !White(b[r]))
    ensures p < |b| && !White(b[|b| - 1]) ==> r < |b|
    decreases |b| - p
  {
    if p < |b| && White(b[p]) then Skip(b, p + 1) else p
  }

  /** The end of the word that starts at `p`. */
  function WordEnd(b: string, p: int): (r: int)
    requires 0 <= p
    ensures p <= r && (r < |b| ==> !WordChar(b[r]))
    ensures p < |b| && !WordChar(b[|b| - 1]) ==> r < |b|
    decreases |b| - p
  {
    if p < |b| && WordChar(b[p]) then WordEnd(b, p + 1) else p
  }

  /** A maximal run of word characters, to its right at least. */
  predicate IsWord(b: string, t: Tok)
  {
    0 <= t.q < t.eq < |b| && !WordChar(b[t.eq]) && forall i {:trigger WordChar(b[i])} :: t.q <= i < t.eq ==>
      WordChar(b[i])
  }

  // ----- The grammar -----

  /** After white space, the symbol `c`; `p'` is past it and the white space that follows. */
  predicate SymbolAt(b: string, p: int, c: char, p': int)
  {
    0 <= p && Skip(b, p) < |b| && b[Skip(b, p)] == c && p' == Skip(b, Skip(b, p) + 1)
  }

  predicate WordAt(b: string, p: int, t: Tok, p': int)
  {
    0 <= p && t.q == Skip(b, p) && IsWord(b, t) && p' == Skip(b, t.eq)
  }

  /** A redirection: <, > or >>, and the name of a file. > and >> open the file alike. */
  predicate RedirAt(b: string, p: int, t: Tok, mode: Mode, fd: int, p': int)
  {
    0 <= p && Skip(b, p) < |b| &&
    var s := Skip(b, p);
    if b[s] == '<' then mode == ReadOnly && fd == 0 && WordAt(b, s + 1, t, p')
    else b[s] == '>' && mode == WriteCreate && fd == 1 &&
         WordAt(b, if s + 1 < |b| && b[s + 1] == '>' then s + 2 else s + 1, t, p')
  }

  /** The states that words and redirections lead through, before the last of them. */
  datatype Trail = Start | More(prev: Trail, cmd: Cmd, at: int)

  function Length(e: Trail): nat
  {
    match e
    case Start => 0
    case More(prev, _, _) => 1 + Length(prev)
  }

  /** Redirections around a command. */
  ghost predicate RedirsBy(b: string, p: int, c0: Cmd, c: Cmd, p': int, e: Trail)
    decreases e
  {
    0 <= p &&
    match e
    case Start => c == c0 && p' == Skip(b, p)
    case More(prev, c1, m) =>
      && 0 <= m && RedirsBy(b, p, c0, c1, m, prev) && c.Redir? && c.cmd == c1
      && RedirAt(b, m, c.file, c.mode, c.fd, p')
  }

  ghost predicate IsRedirs(b: string, p: int, c0: Cmd, c: Cmd, p': int)
  {
    exists e :: RedirsBy(b, p, c0, c, p', e)
  }

  /** The command with one more argument. */
  function WithArg(c: Cmd, t: Tok): Cmd
  {
    match c
    case Exec(args) => Exec(args + [t])
    case Redir(cmd, file, mode, fd) => Redir(WithArg(cmd, t), file, mode, fd)
    case _ => c
  }

  /** A simple command: words and redirections in any order, one for each step of the trail. */
  ghost predicate IsExec(b: string, p: int, c: Cmd, p': int, e: Trail)
    decreases e
  {
    0 <= p &&
    match e
    case Start => c == Exec([]) && p' == Skip(b, p)
    case More(prev, c1, m) => 0 <= m && IsExec(b, p, c1, m, prev) && ExecStep(b, c1, m, c, p')
  }

  ghost predicate ExecStep(b: string, c1: Cmd, m: int, c: Cmd, p': int)
  {
    (exists t :: WordAt(b, m, t, p') && c == WithArg(c1, t)) ||
    (c.Redir? && c.cmd == c1 && RedirAt(b, m, c.file, c.mode, c.fd, p'))
  }

  ghost predicate IsSimple(b: string, p: int, c: Cmd, p': int)
  {
    exists e :: IsExec(b, p, c, p', e)
  }

  /** What stands between two bars: a simple command, or a block in parentheses with redirections. */
  ghost predicate IsUnit(b: string, p: int, c: Cmd, p': int)
    decreases p' - p, 0
  {
    0 <= p <= p' &&
    (IsSimple(b, p, c, p') ||
     (exists inner, m, k, r :: p < m <= k < r <= p' && SymbolAt(b, p, '(', m) && IsLine(b, m, inner, k) &&
       SymbolAt(b, k, ')', r) && IsRedirs(b, r, inner, c, p')))
  }

  ghost predicate IsPipe(b: string, p: int, c: Cmd, p': int)
    decreases p' - p, 1
  {
    0 <= p <= p' &&
    (IsUnit(b, p, c, p') ||
     (c.Pipe? && exists m, k ::
        p <= m < k <= p' && IsUnit(b, p, c.left, m) && SymbolAt(b, m, '|', k) && IsPipe(b, k, c.right, p')))
  }

  ghost predicate IsBacks(b: string, p: int, c: Cmd, p': int)
    decreases p' - p, 2
  {
    0 <= p <= p' &&
    (IsPipe(b, p, c, p') || (c.Back? && exists m :: p <= m < p' && IsBacks(b, p, c.cmd, m) && SymbolAt(b, m, '&', p')))
  }

  ghost predicate IsLine(b: string, p: int, c: Cmd, p': int)
    decreases p' - p, 3
  {
    0 <= p <= p' &&
    (IsBacks(b, p, c, p') ||
     (c.List? && exists m, k ::
        p <= m < k <= p' && IsBacks(b, p, c.left, m) && SymbolAt(b, m, ';', k) && IsLine(b, k, c.right, p')))
  }

  // ----- At most one derivation -----

  /** What may follow a unit, a pipe and a line. */
  predicate UnitEnd(b: string, k: int)
  {
    0 <= k < |b| && (b[k] == '|' || PipeEnd(b, k))
  }

  predicate PipeEnd(b: string, k: int)
  {
    0 <= k < |b| && (b[k] == '&' || b[k] == ';' || LineEnd(b, k))
  }

  predicate LineEnd(b: string, k: int)
  {
    0 <= k < |b| && (b[k] == ')' || b[k] == NUL)
  }

  /** Every simple command has fewer than MAXARGS words. */
  predicate Bounded(c: Cmd)
  {
    match c
    case Exec(args) => |args| < MAXARGS
    case Redir(cmd, _, _, _) => Bounded(cmd)
    case Pipe(left, right) => Bounded(left) && Bounded(right)
    case List(left, right) => Bounded(left) && Bounded(right)
    case Back(cmd) => Bounded(cmd)
  }

  datatype Parsed = Ok(cmd: Cmd) | Panic

  /** The result is the only one a unit that begins at `p` can have, and so on. */
  ghost predicate OnlyUnit(b: string, p: int, r: Parsed, p': int)
  {
    forall c, k {:trigger IsUnit(b, p, c, k)} :: IsUnit(b, p, c, k) && UnitEnd(b, k) && Bounded(c) ==>
      r == Ok(c) && p' == k
  }

  ghost predicate OnlyPipe(b: string, p: int, r: Parsed, p': int)
  {
    forall c, k {:trigger IsPipe(b, p, c, k)} :: IsPipe(b, p, c, k) && PipeEnd(b, k) && Bounded(c) ==>
      r == Ok(c) && p' == k
  }

  ghost predicate OnlyLine(b: string, p: int, r: Parsed, p': int)
  {
    forall c, k {:trigger IsLine(b, p, c, k)} :: IsLine(b, p, c, k) && LineEnd(b, k) && Bounded(c) ==>
      r == Ok(c) && p' == k
  }

  lemma {:induction false} SkipTwice(b: string, p: int)
    requires 0 <= p
    ensures Skip(b, Skip(b, p)) == Skip(b, p)
  {
  }

  lemma {:induction false} WordOnce(b: string, p: int, t: Tok, k: int, t': Tok, k': int)
    requires WordAt(b, p, t, k) && WordAt(b, p, t', k')
    ensures t == t' && k == k' && k == Skip(b, k) && 0 <= k
  {
    SkipTwice(b, t.eq);
    assert !WordChar(b[t.eq]) && !WordChar(b[t'.eq]);
  }

  lemma {:induction false} RedirOnce(b: string, p: int, t: Tok, mode: Mode, fd: int, k: int, t': Tok, mode': Mode,
                                     fd': int, k': int)
    requires RedirAt(b, p, t, mode, fd, k) && RedirAt(b, p, t', mode', fd', k')
    ensures t == t' && mode == mode' && fd == fd' && k == k' && k == Skip(b, k) && 0 <= k
  {
    var s := Skip(b, p);
    WordOnce(b, if b[s] == '>' && s + 1 < |b| && b[s + 1] == '>' then s + 2 else s + 1, t, k, t', k');
  }

  ghost predicate RedirGoes(b: string, p: int)
  {
    exists t, mode, fd, k :: RedirAt(b, p, t, mode, fd, k)
  }

  lemma {:induction false} RedirsFacts(b: string, p: int, c0: Cmd, c: Cmd, k: int, e: Trail)
    requires RedirsBy(b, p, c0, c, k, e)
    ensures 0 <= k == Skip(b, k) && (Bounded(c) <==> Bounded(c0))
    decreases e
  {
    match e {
      case Start =>
        SkipTwice(b, p);
      case More(prev, c1, m) =>
        RedirsFacts(b, p, c0, c1, m, prev);
        RedirOnce(b, m, c.file, c.mode, c.fd, k, c.file, c.mode, c.fd, k);
    }
  }

  /** Of two numbers of redirections, the smaller one is followed by a redirection. */
  lemma {:induction false} RedirsAgree(b: string, p: int, c0: Cmd, c1: Cmd, k1: int, e1: Trail, c2: Cmd, k2: int,
                                       e2: Trail)
    requires RedirsBy(b, p, c0, c1, k1, e1) && RedirsBy(b, p, c0, c2, k2, e2) && Length(e1) <= Length(e2)
    ensures Length(e1) == Length(e2) ==> c1 == c2 && k1 == k2
    ensures Length(e1) < Length(e2) ==> RedirGoes(b, k1)
    decreases e2
  {
    if e2.More? {
      if Length(e1) < Length(e2) {
        RedirsAgree(b, p, c0, c1, k1, e1, e2.cmd, e2.at, e2.prev);
      } else {
        RedirsAgree(b, p, c0, e1.cmd, e1.at, e1.prev, e2.cmd, e2.at, e2.prev);
        RedirOnce(b, e1.at, c1.file, c1.mode, c1.fd, k1, c2.file, c2.mode, c2.fd, k2);
      }
    }
  }

  lemma {:induction false} RedirsOnly(b: string, p: int, c0: Cmd, c1: Cmd, k1: int, c: Cmd, k: int)
    requires IsRedirs(b, p, c0, c1, k1) && !RedirGoes(b, k1) && IsRedirs(b, p, c0, c, k) && !RedirGoes(b, k)
    ensures c == c1 && k == k1
  {
    var e1 :| RedirsBy(b, p, c0, c1, k1, e1);
    var e :| RedirsBy(b, p, c0, c, k, e);
    if Length(e1) <= Length(e) {
      RedirsAgree(b, p, c0, c1, k1, e1, c, k, e);
    } else {
      RedirsAgree(b, p, c0, c, k, e, c1, k1, e1);
    }
  }

  lemma {:induction false} RedirsEnd(b: string, p: int, c0: Cmd, c: Cmd, k: int)
    requires IsRedirs(b, p, c0, c, k)
    ensures 0 <= k == Skip(b, k) && (Bounded(c) <==> Bounded(c0))
  {
    var e :| RedirsBy(b, p, c0, c, k, e);
    RedirsFacts(b, p, c0, c, k, e);
  }

  ghost predicate StepGoes(b: string, k: int)
  {
    RedirGoes(b, k) || exists t, e :: WordAt(b, k, t, e)
  }

  /** No word and no redirection begins where a unit may end. */
  lemma {:induction false} NoStep(b: string, k: int)
    requires 0 <= k < |b| && k == Skip(b, k) && !WordChar(b[k])
    ensures b[k] != '<' && b[k] != '>' ==> !StepGoes(b, k)
    ensures !RedirGoes(b, k) ==> !StepGoes(b, k)
  {
  }

  lemma {:induction false} ExecFacts(b: string, p: int, c: Cmd, k: int, e: Trail)
    requires IsExec(b, p, c, k, e)
    ensures 0 <= k == Skip(b, k) && Simple(c) && (Bounded(c) <==> Args(c) < MAXARGS)
    decreases e
  {
    match e {
      case Start =>
        SkipTwice(b, p);
      case More(prev, c1, m) =>
        ExecFacts(b, p, c1, m, prev);
        StepFacts(b, c1, m, c, k);
    }
  }

  lemma {:induction false} StepFacts(b: string, d: Cmd, m: int, c: Cmd, k: int)
    requires ExecStep(b, d, m, c, k) && Simple(d) && (Bounded(d) <==> Args(d) < MAXARGS)
    ensures 0 <= k == Skip(b, k) && Simple(c) && (Bounded(c) <==> Args(c) < MAXARGS)
    ensures StepGoes(b, m) && Args(c) >= Args(d)
  {
    if c.Redir? && c.cmd == d && RedirAt(b, m, c.file, c.mode, c.fd, k) {
      RedirOnce(b, m, c.file, c.mode, c.fd, k, c.file, c.mode, c.fd, k);
    } else {
      var t :| WordAt(b, m, t, k) && c == WithArg(d, t);
      WordOnce(b, m, t, k, t, k);
      WithArgCounts(d, t);
    }
  }

  lemma {:induction false} WithArgCounts(c: Cmd, t: Tok)
    requires Simple(c)
    ensures Simple(WithArg(c, t)) && Args(WithArg(c, t)) == Args(c) + 1
    ensures Bounded(WithArg(c, t)) <==> Args(WithArg(c, t)) < MAXARGS
    decreases c
  {
    if c.Redir? {
      WithArgCounts(c.cmd, t);
    }
  }

  /** Of two numbers of words and redirections, the smaller one is followed by another. */
  lemma {:induction false} ExecAgree(b: string, p: int, c1: Cmd, k1: int, e1: Trail, c2: Cmd, k2: int, e2: Trail)
    requires IsExec(b, p, c1, k1, e1) && IsExec(b, p, c2, k2, e2) && Length(e1) <= Length(e2)
    ensures Length(e1) == Length(e2) ==> c1 == c2 && k1 == k2
    ensures Length(e1) < Length(e2) ==> StepGoes(b, k1) && Args(c1) <= Args(c2)
    decreases e2
  {
    if e2.More? {
      ExecFacts(b, p, e2.cmd, e2.at, e2.prev);
      if Length(e1) < Length(e2) {
        ExecAgree(b, p, c1, k1, e1, e2.cmd, e2.at, e2.prev);
        StepFacts(b, e2.cmd, e2.at, c2, k2);
      } else {
        ExecAgree(b, p, e1.cmd, e1.at, e1.prev, e2.cmd, e2.at, e2.prev);
        StepOnce(b, e1.cmd, e1.at, c1, k1, c2, k2);
      }
    }
  }

  /** A word and a redirection do not begin alike. */
  lemma {:induction false} StepOnce(b: string, d: Cmd, m: int, c1: Cmd, k1: int, c2: Cmd, k2: int)
    requires ExecStep(b, d, m, c1, k1) && ExecStep(b, d, m, c2, k2)
    ensures c1 == c2 && k1 == k2
  {
    if c1.Redir? && c1.cmd == d && RedirAt(b, m, c1.file, c1.mode, c1.fd, k1) {
      assert !WordChar(b[Skip(b, m)]);
      assert forall t, e :: !WordAt(b, m, t, e);
      RedirOnce(b, m, c1.file, c1.mode, c1.fd, k1, c2.file, c2.mode, c2.fd, k2);
    } else {
      var t1 :| WordAt(b, m, t1, k1) && c1 == WithArg(d, t1);
      assert WordChar(b[Skip(b, m)]);
      var t2 :| WordAt(b, m, t2, k2) && c2 == WithArg(d, t2);
      WordOnce(b, m, t1, k1, t2, k2);
    }
  }

  /** Where no step goes on, the simple command ends. */
  lemma {:induction false} ExecOnly(b: string, p: int, c1: Cmd, k1: int, c: Cmd, k: int)
    requires IsSimple(b, p, c1, k1) && !StepGoes(b, k1) && IsSimple(b, p, c, k) && !StepGoes(b, k)
    ensures c == c1 && k == k1
  {
    var e1 :| IsExec(b, p, c1, k1, e1);
    var e :| IsExec(b, p, c, k, e);
    if Length(e1) <= Length(e) {
      ExecAgree(b, p, c1, k1, e1, c, k, e);
    } else {
      ExecAgree(b, p, c, k, e, c1, k1, e1);
    }
  }

  /** A simple command that goes on with one word too many has no bounded end. */
  lemma {:induction false} TooMany(b: string, p: int, c1: Cmd, k1: int, t: Tok, k2: int, c: Cmd, k: int)
    requires IsSimple(b, p, c1, k1) && 0 <= k1 && WordAt(b, k1, t, k2) && Args(c1) + 1 >= MAXARGS &&
             IsSimple(b, p, c, k) && !StepGoes(b, k)
    ensures !Bounded(c)
  {
    var e1 :| IsExec(b, p, c1, k1, e1);
    var e :| IsExec(b, p, c, k, e);
    ExecFacts(b, p, c1, k1, e1);
    ExecFacts(b, p, c, k, e);
    WithArgCounts(c1, t);
    assert StepGoes(b, k1);
    if Length(e) <= Length(e1) {
      ExecAgree(b, p, c, k, e, c1, k1, e1);
    } else {
      assert ExecStep(b, c1, k1, WithArg(c1, t), k2);
      ExecAgree(b, p, WithArg(c1, t), k2, More(e1, c1, k1), c, k, e);
    }
  }

  lemma {:induction false} EndNoStep(b: string, k: int)
    requires UnitEnd(b, k) && k == Skip(b, k)
    ensures !StepGoes(b, k) && !RedirGoes(b, k)
  {
    NoStep(b, k);
  }

  lemma {:induction false} SimpleFacts(b: string, p: int, c: Cmd, k: int)
    requires IsSimple(b, p, c, k)
    ensures 0 <= k == Skip(b, k)
  {
    var e :| IsExec(b, p, c, k, e);
    ExecFacts(b, p, c, k, e);
  }

  /** Every end is a place without white space. */
  lemma {:induction false} UnitFacts(b: string, p: int, c: Cmd, k: int)
    requires IsUnit(b, p, c, k)
    ensures k == Skip(b, k)
  {
    if IsSimple(b, p, c, k) {
      SimpleFacts(b, p, c, k);
    } else {
      var inner, m, j, r :| p < m <= j < r <= k && SymbolAt(b, p, '(', m) && IsLine(b, m, inner, j) &&
        SymbolAt(b, j, ')', r) && IsRedirs(b, r, inner, c, k);
      RedirsEnd(b, r, inner, c, k);
    }
  }

  lemma {:induction false} PipeFacts(b: string, p: int, c: Cmd, k: int)
    requires IsPipe(b, p, c, k)
    ensures k == Skip(b, k)
    decreases k - p
  {
    if IsUnit(b, p, c, k) {
      UnitFacts(b, p, c, k);
    } else {
      var m, j :| p <= m < j <= k && IsUnit(b, p, c.left, m) && SymbolAt(b, m, '|', j) && IsPipe(b, j, c.right, k);
      PipeFacts(b, j, c.right, k);
    }
  }

  lemma {:induction false} BacksFacts(b: string, p: int, c: Cmd, k: int)
    requires IsBacks(b, p, c, k)
    ensures k == Skip(b, k)
  {
    if IsPipe(b, p, c, k) {
      PipeFacts(b, p, c, k);
    } else {
      var m :| p <= m < k && IsBacks(b, p, c.cmd, m) && SymbolAt(b, m, '&', k);
      SkipTwice(b, Skip(b, m) + 1);
    }
  }

  lemma {:induction false} LineFacts(b: string, p: int, c: Cmd, k: int)
    requires IsLine(b, p, c, k)
    ensures k == Skip(b, k)
    decreases k - p
  {
    if IsBacks(b, p, c, k) {
      BacksFacts(b, p, c, k);
    } else {
      var m, j :| p <= m < j <= k && IsBacks(b, p, c.left, m) && SymbolAt(b, m, ';', j) && IsLine(b, j, c.right, k);
      LineFacts(b, j, c.right, k);
    }
  }

  ghost predicate OnlySimple(b: string, p: int, r: Parsed, p': int)
  {
    forall c, k {:trigger IsSimple(b, p, c, k)} :: IsSimple(b, p, c, k) && UnitEnd(b, k) && Bounded(c) ==>
      r == Ok(c) && p' == k
  }

  /** A simple command has come to an end, or cannot go on. */
  lemma {:induction false} SimpleDone(b: string, p: int, c1: Cmd, k1: int, r: Parsed, p': int)
    requires IsSimple(b, p, c1, k1) && !StepGoes(b, k1)
    requires UnitEnd(b, k1) ==> r == Ok(c1) && p' == k1
    ensures OnlySimple(b, p, r, p')
  {
    forall c, k | IsSimple(b, p, c, k) && UnitEnd(b, k)
      ensures r == Ok(c) && p' == k
    {
      SimpleFacts(b, p, c, k);
      EndNoStep(b, k);
      ExecOnly(b, p, c1, k1, c, k);
    }
  }

  lemma {:induction false} SimpleStops(b: string, p: int, c1: Cmd, k1: int, r: Parsed, p': int)
    requires IsSimple(b, p, c1, k1) && 0 <= k1 < |b| && k1 == Skip(b, k1) && !WordChar(b[k1]) && b[k1] != '<' &&
             b[k1] != '>'
    requires UnitEnd(b, k1) ==> r == Ok(c1) && p' == k1
    ensures OnlySimple(b, p, r, p')
  {
    NoStep(b, k1);
    SimpleDone(b, p, c1, k1, r, p');
  }

  lemma {:induction false} SimpleTooMany(b: string, p: int, c1: Cmd, k1: int, t: Tok, k2: int, r: Parsed, p': int)
    requires IsSimple(b, p, c1, k1) && 0 <= k1 && WordAt(b, k1, t, k2) && Args(c1) + 1 >= MAXARGS
    ensures OnlySimple(b, p, r, p')
  {
    forall c, k | IsSimple(b, p, c, k) && UnitEnd(b, k)
      ensures !Bounded(c)
    {
      SimpleFacts(b, p, c, k);
      EndNoStep(b, k);
      TooMany(b, p, c1, k1, t, k2, c, k);
    }
  }

  /** A unit that does not begin with a parenthesis is a simple command. */
  lemma {:induction false} UnitIsSimple(b: string, p: int, r: Parsed, p': int)
    requires 0 <= p < |b| && p == Skip(b, p) && b[p] != '(' && OnlySimple(b, p, r, p')
    ensures OnlyUnit(b, p, r, p')
  {
  }

  lemma {:induction false} NotSimple(b: string, p: int, c: Cmd, k: int)
    requires 0 <= p < |b| && p == Skip(b, p) && b[p] == '(' && UnitEnd(b, k)
    ensures !IsSimple(b, p, c, k)
  {
    assert IsExec(b, p, Exec([]), p, Start);
    NoStep(b, p);
    if IsSimple(b, p, c, k) {
      SimpleFacts(b, p, c, k);
      EndNoStep(b, k);
      ExecOnly(b, p, Exec([]), p, c, k);
    }
  }

  lemma {:induction false} Block(b: string, p: int, c: Cmd, k: int) returns (inner: Cmd, m: int, j: int, e: int)
    requires IsUnit(b, p, c, k) && !IsSimple(b, p, c, k)
    ensures 0 <= j && SymbolAt(b, p, '(', m) && IsLine(b, m, inner, j) && SymbolAt(b, j, ')', e) &&
            IsRedirs(b, e, inner, c, k)
  {
    inner, m, j, e :| p < m <= j < e <= k && SymbolAt(b, p, '(', m) && IsLine(b, m, inner, j) &&
      SymbolAt(b, j, ')', e) && IsRedirs(b, e, inner, c, k);
  }

  /** A unit that begins with a parenthesis is a block. */
  lemma {:induction false} BlockParts(b: string, p: int, c: Cmd, k: int) returns (inner: Cmd, m: int, j: int, e: int)
    requires 0 <= p < |b| && p == Skip(b, p) && b[p] == '(' && IsUnit(b, p, c, k) && UnitEnd(b, k) && Bounded(c)
    ensures m == Skip(b, p + 1) && IsLine(b, m, inner, j) && LineEnd(b, j) && b[j] == ')' && Bounded(inner)
    ensures e == Skip(b, j + 1) && IsRedirs(b, e, inner, c, k) && !RedirGoes(b, k)
  {
    NotSimple(b, p, c, k);
    inner, m, j, e := Block(b, p, c, k);
    LineFacts(b, m, inner, j);
    RedirsEnd(b, e, inner, c, k);
    EndNoStep(b, k);
  }

  // ----- Chains of & -----

  /** Of the chains that begin at `p`, those that end by `k1` are the one given and its beginnings. */
  ghost predicate Chain(b: string, p: int, c1: Cmd, k1: int)
  {
    && (forall c, k {:trigger IsBacks(b, p, c, k)} :: IsBacks(b, p, c, k) && PipeEnd(b, k) && Bounded(c) && k <= k1 ==>
          if k == k1 then c == c1 else b[k] == '&' && Skip(b, k + 1) <= k1)
    && (forall c, k {:trigger IsPipe(b, p, c, k)} :: IsPipe(b, p, c, k) && PipeEnd(b, k) && Bounded(c) ==> k <= k1)
  }

  /** A chain begins with a pipe. */
  lemma {:induction false} Root(b: string, p: int, c: Cmd, k: int) returns (c0: Cmd, m: int)
    requires IsBacks(b, p, c, k) && PipeEnd(b, k) && Bounded(c)
    ensures m <= k && IsPipe(b, p, c0, m) && PipeEnd(b, m) && Bounded(c0) && (m == k ==> c0 == c)
    decreases k - p
  {
    if IsPipe(b, p, c, k) {
      return c, k;
    }
    var j :| p <= j < k && IsBacks(b, p, c.cmd, j) && SymbolAt(b, j, '&', k);
    BacksFacts(b, p, c.cmd, j);
    c0, m := Root(b, p, c.cmd, j);
  }

  lemma {:induction false} ChainStart(b: string, p: int, c0: Cmd, m: int)
    requires OnlyPipe(b, p, Ok(c0), m)
    ensures Chain(b, p, c0, m)
  {
    forall c, k | IsBacks(b, p, c, k) && PipeEnd(b, k) && Bounded(c) && k <= m
      ensures k == m && c == c0
    {
      var d, j := Root(b, p, c, k);
    }
  }

  /** A longer chain goes on with & where the one given ends. */
  lemma {:induction false} Beyond(b: string, p: int, c1: Cmd, k1: int, c: Cmd, k: int)
    requires Chain(b, p, c1, k1) && 0 <= k1 < |b| && IsBacks(b, p, c, k) && PipeEnd(b, k) && Bounded(c) && k > k1
    ensures b[k1] == '&' && k >= Skip(b, k1 + 1) && (k == Skip(b, k1 + 1) ==> c == Back(c1))
    decreases k
  {
    var j :| p <= j < k && IsBacks(b, p, c.cmd, j) && SymbolAt(b, j, '&', k);
    BacksFacts(b, p, c.cmd, j);
    assert SymbolAt(b, j, '&', k);
    assert j == Skip(b, j);
    assert b[j] == '&';
    assert c == Back(c.cmd);
    if j > k1 {
      Beyond(b, p, c1, k1, c.cmd, j);
    }
  }

  lemma {:induction false} ChainNext(b: string, p: int, c1: Cmd, k1: int)
    requires Chain(b, p, c1, k1) && 0 <= k1 < |b| && b[k1] == '&'
    ensures Chain(b, p, Back(c1), Skip(b, k1 + 1))
  {
    var k2 := Skip(b, k1 + 1);
    forall c, k | IsBacks(b, p, c, k) && PipeEnd(b, k) && Bounded(c) && k <= k2
      ensures if k == k2 then c == Back(c1) else b[k] == '&' && Skip(b, k + 1) <= k2
    {
      if k > k1 {
        Beyond(b, p, c1, k1, c, k);
      }
    }
  }

  /** A chain after which there is no & is the only one that does not end before an &. */
  lemma {:induction false} ChainEnd(b: string, p: int, c1: Cmd, k1: int, c: Cmd, k: int)
    requires Chain(b, p, c1, k1) && 0 <= k1 < |b| && b[k1] != '&'
    requires IsBacks(b, p, c, k) && PipeEnd(b, k) && b[k] != '&' && Bounded(c)
    ensures c == c1 && k == k1
  {
    if k > k1 {
      Beyond(b, p, c1, k1, c, k);
    }
  }

  // ----- The scanner -----

  /** The loop over white space in gettoken, and all that peek does (sh.c:326-335): peek then looks at
      the character there. */
  method SkipSpaces(b: string, p: int) returns (s: int)
    requires Line(b) && 0 <= p < |b|
    ensures s == Skip(b, p) < |b|
  {
    s := p;
    while s < |b| - 1 && White(b[s])
      invariant p <= s < |b| && Skip(b, p) == Skip(b, s)
    {
      s := s + 1;
    }
  }

  /** The loop of gettoken over a word (sh.c:312-313). */
  method ScanWord(b: string, q: int) returns (s: int)
    requires Line(b) && 0 <= q < |b| && WordChar(b[q])
    ensures s == WordEnd(b, q) && IsWord(b, Tok(q, s))
  {
    s := q;
    while s < |b| - 1 && !White(b[s]) && !Symbol(b[s])
      invariant q <= s < |b| && WordEnd(b, q) == WordEnd(b, s)
      invariant forall i :: q <= i < s ==> WordChar(b[i])
    {
      s := s + 1;
    }
  }

  /** What gettoken returns for the token at `q`. */
  predicate Token(b: string, ret: char, q: int, eq: int)
    requires 0 <= q < |b|
  {
    if b[q] == NUL then ret == NUL && eq == q
    else if b[q] == '>' then (if q + 1 < |b| && b[q + 1] == '>'
      then ret == '+' && eq == q + 2 else ret == '>' && eq == q + 1)
    else if Symbol(b[q]) then ret == b[q] && eq == q + 1
    else ret == 'a' && eq == WordEnd(b, q)
  }

  /** gettoken (sh.c:281-323). */
  method GetToken(b: string, p: int) returns (ret: char, q: int, eq: int, p': int)
    requires Line(b) && 0 <= p < |b|
    ensures q == Skip(b, p) < |b| && q <= eq < |b| && p' == Skip(b, eq) < |b| && Token(b, ret, q, eq)
    ensures ret == 'a' ==> IsWord(b, Tok(q, eq))
    ensures b[q] != NUL ==> q < eq
  {
    q := SkipSpaces(b, p);
    ret := b[q];
    eq := q;
    if b[q] == NUL {
    } else if b[q] == '>' {
      eq := q + 1;
      if b[eq] == '>' {
        ret := '+';
        eq := eq + 1;
      }
    } else if Symbol(b[q]) {
      eq := q + 1;
    } else {
      ret := 'a';
      eq := ScanWord(b, q);
    }
    p' := SkipSpaces(b, eq);
  }

  // ----- The parser -----

  lemma {:induction false} NoName(b: string, p: int, e: int)
    requires 0 <= p < |b| && p == Skip(b, p) && e == if b[p] == '>' && p + 1 < |b| && b[p + 1] == '>'
             then p + 2 else p + 1
    requires Skip(b, e) < |b| ==> !WordChar(b[Skip(b, e)])
    ensures !RedirGoes(b, p)
  {
  }

  /** gettoken where it returns a symbol of one character. */
  method TakeSymbol(b: string, p: int) returns (p': int)
    requires Line(b) && 0 <= p < |b| && p == Skip(b, p) && Symbol(b[p]) && b[p] != '>'
    ensures p < p' < |b| && p' == Skip(b, p') && p' == Skip(b, p + 1) && SymbolAt(b, p, b[p], p')
  {
    var tok, q, eq;
    tok, q, eq, p' := GetToken(b, p);
    SkipTwice(b, eq);
  }

  /** One turn of the loop of parseredirs (sh.c:395-410). */
  method OneRedir(b: string, p: int) returns (ok: bool, t: Tok, mode: Mode, fd: int, p': int)
    requires Line(b) && 0 <= p < |b| && p == Skip(b, p) && (b[p] == '<' || b[p] == '>')
    ensures p < p' < |b| && p' == Skip(b, p') && (ok ==> RedirAt(b, p, t, mode, fd, p')) && (!ok ==> !RedirGoes(b, p))
  {
    var tok, tok2, q, eq, q0, e0;
    tok, q0, e0, p' := GetToken(b, p);
    var mid := p';
    tok2, q, eq, p' := GetToken(b, p');
    SkipTwice(b, e0);
    SkipTwice(b, eq);
    t := Tok(q, eq);
    ok := tok2 == 'a';
    if !ok {
      NoName(b, p, e0);
    }
    mode, fd := if tok == '<' then ReadOnly else WriteCreate, if tok == '<' then 0 else 1;
  }

  lemma {:induction false} RedirsStep(b: string, p: int, c0: Cmd, c: Cmd, m: int, t: Tok, mode: Mode, fd: int, p': int)
    requires IsRedirs(b, p, c0, c, m) && 0 <= m && RedirAt(b, m, t, mode, fd, p')
    ensures IsRedirs(b, p, c0, Redir(c, t, mode, fd), p')
  {
    var e :| RedirsBy(b, p, c0, c, m, e);
    assert RedirsBy(b, p, c0, Redir(c, t, mode, fd), p', More(e, c, m));
  }

  /** A redirection without the name of a file. */
  ghost predicate RedirStuck(b: string, m: int)
  {
    0 <= m < |b| && m == Skip(b, m) && (b[m] == '<' || b[m] == '>') && !RedirGoes(b, m)
  }

  /** parseredirs (sh.c:390-412). */
  method ParseRedirs(b: string, c0: Cmd, p: int) returns (r: Parsed, p': int)
    requires Line(b) && 0 <= p < |b|
    ensures Skip(b, p) <= p' < |b| && p' == Skip(b, p')
    ensures r.Ok? ==> IsRedirs(b, p, c0, r.cmd, p') && b[p'] != '<' && b[p'] != '>'
    ensures r.Panic? ==> exists c, m :: IsRedirs(b, p, c0, c, m) && RedirStuck(b, m)
  {
    var c := c0;
    p' := SkipSpaces(b, p);
    SkipTwice(b, p);
    assert RedirsBy(b, p, c0, c, p', Start);
    while b[p'] == '<' || b[p'] == '>'
      invariant Skip(b, p) <= p' < |b| && p' == Skip(b, p')
      invariant IsRedirs(b, p, c0, c, p')
      decreases |b| - p'
    {
      var ok, t, mode, fd, m := false, Tok(0, 0), ReadOnly, 0, p';
      ok, t, mode, fd, p' := OneRedir(b, m);
      if !ok {
        assert RedirStuck(b, m);
        return Panic, p';
      }
      RedirsStep(b, p, c0, c, m, t, mode, fd, p');
      c := Redir(c, t, mode, fd);
    }
    return Ok(c), p';
  }

  // ----- Words in a command -----

  /** Every argument and file name is a word of the line, and the arguments fit their array. */
  ghost predicate Words(b: string, c: Cmd)
  {
    match c
    case Exec(args) => |args| < MAXARGS && forall i {:trigger args[i]} :: 0 <= i < |args| ==> IsWord(b, args[i])
    case Redir(cmd, file, _, _) => IsWord(b, file) && Words(b, cmd)
    case Pipe(left, right) => Words(b, left) && Words(b, right)
    case List(left, right) => Words(b, left) && Words(b, right)
    case Back(cmd) => Words(b, cmd)
  }

  /** Redirections keep the words and the number of arguments. */
  lemma {:induction false} RedirsKeep(b: string, p: int, c0: Cmd, c: Cmd, p': int, e: Trail)
    requires RedirsBy(b, p, c0, c, p', e) && Words(b, c0)
    ensures Words(b, c) && Args(c) == Args(c0) && (Simple(c0) ==> Simple(c))
    decreases e
  {
    if e.More? {
      RedirsKeep(b, p, c0, e.cmd, e.at, e.prev);
    }
  }

  lemma {:induction false} RedirsWords(b: string, p: int, c0: Cmd, c: Cmd, p': int)
    requires IsRedirs(b, p, c0, c, p') && Words(b, c0)
    ensures Words(b, c) && Args(c) == Args(c0) && (Simple(c0) ==> Simple(c))
  {
    var e :| RedirsBy(b, p, c0, c, p', e);
    RedirsKeep(b, p, c0, c, p', e);
  }

  lemma {:induction false} WordsBounded(b: string, c: Cmd)
    requires Words(b, c)
    ensures Bounded(c)
    decreases c
  {
    match c {
      case Exec(args) =>
      case Redir(cmd, _, _, _) => WordsBounded(b, cmd);
      case Pipe(left, right) => WordsBounded(b, left); WordsBounded(b, right);
      case List(left, right) => WordsBounded(b, left); WordsBounded(b, right);
      case Back(cmd) => WordsBounded(b, cmd);
    }
  }

  /** The number of arguments of a simple command. */
  function Args(c: Cmd): int
  {
    match c
    case Exec(args) => |args|
    case Redir(cmd, _, _, _) => Args(cmd)
    case _ => 0
  }

  ghost predicate Simple(c: Cmd)
  {
    c.Exec? || (c.Redir? && Simple(c.cmd))
  }

  lemma {:induction false} WithArgWords(b: string, c: Cmd, t: Tok)
    requires Simple(c) && Words(b, c) && IsWord(b, t) && Args(c) + 1 < MAXARGS
    ensures Simple(WithArg(c, t)) && Words(b, WithArg(c, t)) && Args(WithArg(c, t)) == Args(c) + 1
    decreases c
  {
    if c.Redir? {
      WithArgWords(b, c.cmd, t);
    }
  }

  // ----- Simple commands -----

  lemma {:induction false} TrailRedirs(b: string, p: int, c1: Cmd, m: int, e: Trail, c: Cmd, p': int, e': Trail)
    returns (all: Trail)
    requires IsExec(b, p, c1, m, e) && 0 <= m == Skip(b, m) && RedirsBy(b, m, c1, c, p', e')
    ensures IsExec(b, p, c, p', all)
    decreases e'
  {
    if e'.Start? {
      return e;
    }
    all := TrailRedirs(b, p, c1, m, e, e'.cmd, e'.at, e'.prev);
    assert ExecStep(b, e'.cmd, e'.at, c, p');
    all := More(all, e'.cmd, e'.at);
  }

  /** Redirections after part of a simple command are part of it. */
  lemma {:induction false} ExecRedirs(b: string, p: int, c1: Cmd, m: int, c: Cmd, p': int)
    requires IsSimple(b, p, c1, m) && 0 <= m == Skip(b, m) && IsRedirs(b, m, c1, c, p')
    ensures IsSimple(b, p, c, p')
  {
    var e :| IsExec(b, p, c1, m, e);
    var e' :| RedirsBy(b, m, c1, c, p', e');
    var all := TrailRedirs(b, p, c1, m, e, c, p', e');
  }

  lemma {:induction false} ExecWord(b: string, p: int, c1: Cmd, m: int, t: Tok, p': int)
    requires IsSimple(b, p, c1, m) && 0 <= p && 0 <= m && WordAt(b, m, t, p')
    ensures IsSimple(b, p, WithArg(c1, t), p')
  {
    var e :| IsExec(b, p, c1, m, e);
    assert ExecStep(b, c1, m, WithArg(c1, t), p');
    assert IsExec(b, p, WithArg(c1, t), p', More(e, c1, m));
  }

  /** A redirection without a name ends every attempt at a simple command. */
  lemma {:induction false} StuckInRedirs(b: string, p: int, c0: Cmd, k: int, c: Cmd, m: int, r: Parsed, p': int)
    requires IsSimple(b, p, c0, k) && 0 <= k == Skip(b, k) && IsRedirs(b, k, c0, c, m) && RedirStuck(b, m)
    ensures OnlySimple(b, p, r, p')
  {
    ExecRedirs(b, p, c0, k, c, m);
    NoStep(b, m);
    SimpleDone(b, p, c, m, r, p');
  }

  /** parseexec (sh.c:431-461) without the case of a block. */
  method ParseSimple(b: string, p: int) returns (r: Parsed, p': int)
    requires Line(b) && 0 <= p < |b|
    ensures p <= p' < |b| && p' == Skip(b, p')
    ensures r.Ok? ==> IsSimple(b, p, r.cmd, p') && Words(b, r.cmd)
    ensures OnlySimple(b, p, r, p')
  {
    assert IsExec(b, p, Exec([]), Skip(b, p), Start);
    SkipTwice(b, p);
    var start := SkipSpaces(b, p);
    r, p' := ParseRedirs(b, Exec([]), start);
    if r.Panic? {
      ghost var c, i :| IsRedirs(b, start, Exec([]), c, i) && RedirStuck(b, i);
      StuckInRedirs(b, p, Exec([]), start, c, i, r, p');
      return;
    }
    ExecRedirs(b, p, Exec([]), start, r.cmd, p');
    RedirsWords(b, start, Exec([]), r.cmd, p');
    var argc := 0;
    while b[p'] != '|' && b[p'] != ')' && b[p'] != '&' && b[p'] != ';'
      invariant p <= p' < |b| && p' == Skip(b, p') && r.Ok? && 0 <= argc == Args(r.cmd) < MAXARGS
      invariant IsSimple(b, p, r.cmd, p') && Words(b, r.cmd) && Simple(r.cmd) && b[p'] != '<' && b[p'] != '>'
      decreases |b| - p'
    {
      var m, c := p', r.cmd;
      var tok, q, eq;
      tok, q, eq, p' := GetToken(b, m);
      SkipTwice(b, eq);
      if tok == '\0' {
        break;
      }
      if tok != 'a' {
        SimpleStops(b, p, c, m, Panic, p');
        return Panic, p';
      }
      argc := argc + 1;
      var t := Tok(q, eq);
      if argc >= MAXARGS {
        SimpleTooMany(b, p, c, m, t, p', Panic, p');
        return Panic, p';
      }
      ExecWord(b, p, c, m, t, p');
      WithArgWords(b, c, t);
      var k, d := p', WithArg(c, t);
      r, p' := ParseRedirs(b, d, k);
      if r.Panic? {
        ghost var d', i :| IsRedirs(b, k, d, d', i) && RedirStuck(b, i);
        StuckInRedirs(b, p, d, k, d', i, r, p');
        return;
      }
      ExecRedirs(b, p, d, k, r.cmd, p');
      RedirsWords(b, k, d, r.cmd, p');
    }
    SimpleStops(b, p, r.cmd, p', r, p');
  }

  // ----- Blocks, pipes, lines -----

  /** Without a line that ends at a closing parenthesis there is no block. */
  lemma {:induction false} NoBlock(b: string, p: int, line: Parsed, k: int, r: Parsed, p': int)
    requires 0 <= p < |b| && p == Skip(b, p) && b[p] == '(' && OnlyLine(b, Skip(b, p + 1), line, k)
    requires line.Panic? || (0 <= k < |b| && b[k] != ')')
    ensures OnlyUnit(b, p, r, p')
  {
    forall c, j | IsUnit(b, p, c, j) && UnitEnd(b, j)
      ensures !Bounded(c)
    {
      if Bounded(c) {
        var inner, m, i, e := BlockParts(b, p, c, j);
      }
    }
  }

  lemma {:induction false} BlockOnly(b: string, p: int, inner: Cmd, k: int, e: int, d: Cmd, m: int, r: Parsed, p': int)
    requires 0 <= p < |b| && p == Skip(b, p) && b[p] == '(' && OnlyLine(b, Skip(b, p + 1), Ok(inner), k) &&
             0 <= k < |b| && k == Skip(b, k)
    requires e == Skip(b, k + 1) && IsRedirs(b, e, inner, d, m) && !RedirGoes(b, m) &&
             (UnitEnd(b, m) ==> r == Ok(d) && p' == m)
    ensures OnlyUnit(b, p, r, p')
  {
    forall c, j | IsUnit(b, p, c, j) && UnitEnd(b, j) && Bounded(c)
      ensures r == Ok(c) && p' == j
    {
      var inner', m', k', e' := BlockParts(b, p, c, j);
      assert inner' == inner && k' == k;
      RedirsOnly(b, e', inner', d, m, c, j);
    }
  }

  lemma {:induction false} BlockStuck(b: string, p: int, inner: Cmd, k: int, e: int, r: Parsed, p': int)
    requires 0 <= p < |b| && p == Skip(b, p) && b[p] == '(' && OnlyLine(b, Skip(b, p + 1), Ok(inner), k) &&
             0 <= k < |b| && k == Skip(b, k)
    requires e == Skip(b, k + 1) && exists c, m :: IsRedirs(b, e, inner, c, m) && RedirStuck(b, m)
    ensures OnlyUnit(b, p, r, p')
  {
    var d, m :| IsRedirs(b, e, inner, d, m) && RedirStuck(b, m);
    BlockOnly(b, p, inner, k, e, d, m, r, p');
  }

  lemma {:induction false} IsBlock(b: string, p: int, m: int, inner: Cmd, k: int, e: int, c: Cmd, p': int)
    requires 0 <= p < m <= k < e <= p' && SymbolAt(b, p, '(', m) && IsLine(b, m, inner, k) &&
             SymbolAt(b, k, ')', e) && IsRedirs(b, e, inner, c, p')
    ensures IsUnit(b, p, c, p')
  {
  }

  /** parseblock (sh.c:415-428). */
  method ParseBlock(b: string, p: int) returns (r: Parsed, p': int)
    requires Line(b) && 0 <= p < |b| && p == Skip(b, p) && b[p] == '('
    ensures p < p' < |b| && p' == Skip(b, p')
    ensures r.Ok? ==> IsUnit(b, p, r.cmd, p') && Words(b, r.cmd)
    ensures OnlyUnit(b, p, r, p')
    decreases |b| - p, 0
  {
    var m := TakeSymbol(b, p);
    r, p' := ParseLine(b, m);
    if r.Panic? || b[p'] != ')' {
      NoBlock(b, p, r, p', Panic, p');
      return Panic, p';
    }
    var inner, k := r.cmd, p';
    var e := TakeSymbol(b, k);
    r, p' := ParseRedirs(b, inner, e);
    if r.Panic? {
      BlockStuck(b, p, inner, k, e, r, p');
      return;
    }
    BlockOnly(b, p, inner, k, e, r.cmd, p', r, p');
    RedirsWords(b, e, inner, r.cmd, p');
    IsBlock(b, p, m, inner, k, e, r.cmd, p');
  }

  /** parseexec (sh.c:431-461). */
  method ParseExec(b: string, p: int) returns (r: Parsed, p': int)
    requires Line(b) && 0 <= p < |b| && p == Skip(b, p)
    ensures p <= p' < |b| && p' == Skip(b, p')
    ensures r.Ok? ==> IsUnit(b, p, r.cmd, p') && Words(b, r.cmd)
    ensures OnlyUnit(b, p, r, p')
    decreases |b| - p, 1
  {
    if b[p] == '(' {
      r, p' := ParseBlock(b, p);
    } else {
      r, p' := ParseSimple(b, p);
      UnitIsSimple(b, p, r, p');
    }
  }

  /** A unit not followed by a bar is the whole pipe. */
  lemma {:induction false} OneUnit(b: string, p: int, r: Parsed, p': int)
    requires OnlyUnit(b, p, r, p') && (r.Panic? || (0 <= p' < |b| && b[p'] != '|'))
    ensures OnlyPipe(b, p, r, p')
  {
    forall c, k | IsPipe(b, p, c, k) && PipeEnd(b, k) && Bounded(c)
      ensures r == Ok(c) && p' == k
    {
      if !IsUnit(b, p, c, k) {
        var m, j := FirstUnit(b, p, c, k);
      }
    }
  }

  lemma {:induction false} PipeParts(b: string, p: int, c: Cmd, k: int) returns (m: int, j: int)
    requires IsPipe(b, p, c, k) && !IsUnit(b, p, c, k)
    ensures c.Pipe? && 0 <= m && IsUnit(b, p, c.left, m) && SymbolAt(b, m, '|', j) && IsPipe(b, j, c.right, k)
  {
    m, j :| p <= m < j <= k && IsUnit(b, p, c.left, m) && SymbolAt(b, m, '|', j) && IsPipe(b, j, c.right, k);
  }

  lemma {:induction false} FirstUnit(b: string, p: int, c: Cmd, k: int) returns (m: int, j: int)
    requires IsPipe(b, p, c, k) && !IsUnit(b, p, c, k)
    ensures c.Pipe? && 0 <= m < |b| && b[m] == '|' && j == Skip(b, m + 1) && IsUnit(b, p, c.left, m) &&
            IsPipe(b, j, c.right, k)
  {
    m, j := PipeParts(b, p, c, k);
    UnitFacts(b, p, c.left, m);
  }

  lemma {:induction false} PipeOnly(b: string, p: int, left: Cmd, m: int, r: Parsed, p': int)
    requires OnlyUnit(b, p, Ok(left), m) && 0 <= m < |b| && b[m] == '|' && OnlyPipe(b, Skip(b, m + 1), r, p')
    ensures OnlyPipe(b, p, if r.Ok? then Ok(Pipe(left, r.cmd)) else r, p')
  {
    forall c, k | IsPipe(b, p, c, k) && PipeEnd(b, k) && Bounded(c)
      ensures r.Ok? && c == Pipe(left, r.cmd) && p' == k
    {
      if !IsUnit(b, p, c, k) {
        var i, j := FirstUnit(b, p, c, k);
      }
    }
  }

  /** parsepipe (sh.c:377-387). */
  method ParsePipe(b: string, p: int) returns (r: Parsed, p': int)
    requires Line(b) && 0 <= p < |b| && p == Skip(b, p)
    ensures p <= p' < |b| && p' == Skip(b, p')
    ensures r.Ok? ==> IsPipe(b, p, r.cmd, p') && Words(b, r.cmd)
    ensures OnlyPipe(b, p, r, p')
    decreases |b| - p, 2
  {
    r, p' := ParseExec(b, p);
    if r.Panic? || b[p'] != '|' {
      OneUnit(b, p, r, p');
      return;
    }
    var left, m := r.cmd, p';
    var k := TakeSymbol(b, m);
    r, p' := ParsePipe(b, k);
    PipeOnly(b, p, left, m, r, p');
    if r.Panic? {
      return;
    }
    r := Ok(Pipe(left, r.cmd));
  }

  lemma {:induction false} NoLine(b: string, p: int, r: Parsed, p': int)
    requires OnlyPipe(b, p, Panic, p')
    ensures OnlyLine(b, p, r, p')
  {
    forall c, k | IsLine(b, p, c, k) && LineEnd(b, k)
      ensures !Bounded(c)
    {
      if Bounded(c) {
        var left, m, i := FirstChain(b, p, c, k);
        var c0, j := Root(b, p, left, m);
      }
    }
  }

  /** A line begins with a chain, which is all of it or is followed by a semicolon. */
  lemma {:induction false} FirstChain(b: string, p: int, c: Cmd, k: int) returns (left: Cmd, m: int, j: int)
    requires IsLine(b, p, c, k) && LineEnd(b, k) && Bounded(c)
    ensures IsBacks(b, p, left, m) && PipeEnd(b, m) && b[m] != '&' && Bounded(left)
    ensures if b[m] == ';' then c.List? && left == c.left && j == Skip(b, m + 1) && IsLine(b, j, c.right, k)
            else left == c && m == k
  {
    if IsBacks(b, p, c, k) {
      return c, k, k;
    }
    m, j :| p <= m < j <= k && IsBacks(b, p, c.left, m) && SymbolAt(b, m, ';', j) && IsLine(b, j, c.right, k);
    left := c.left;
    BacksFacts(b, p, c.left, m);
  }

  lemma {:induction false} OneChain(b: string, p: int, c1: Cmd, k1: int)
    requires Chain(b, p, c1, k1) && 0 <= k1 < |b| && b[k1] != '&' && b[k1] != ';'
    ensures OnlyLine(b, p, Ok(c1), k1)
  {
    forall c, k | IsLine(b, p, c, k) && LineEnd(b, k) && Bounded(c)
      ensures c == c1 && k == k1
    {
      var left, m, i := FirstChain(b, p, c, k);
      ChainEnd(b, p, c1, k1, left, m);
    }
  }

  lemma {:induction false} LineOnly(b: string, p: int, left: Cmd, m: int, r: Parsed, p': int)
    requires Chain(b, p, left, m) && 0 <= m < |b| && b[m] == ';' && OnlyLine(b, Skip(b, m + 1), r, p')
    ensures OnlyLine(b, p, if r.Ok? then Ok(List(left, r.cmd)) else r, p')
  {
    forall c, k | IsLine(b, p, c, k) && LineEnd(b, k) && Bounded(c)
      ensures r.Ok? && c == List(left, r.cmd) && p' == k
    {
      var d, j, i := FirstChain(b, p, c, k);
      ChainEnd(b, p, left, m, d, j);
    }
  }

  /** parseline (sh.c:360-374). */
  method ParseLine(b: string, p: int) returns (r: Parsed, p': int)
    requires Line(b) && 0 <= p < |b| && p == Skip(b, p)
    ensures p <= p' < |b| && p' == Skip(b, p')
    ensures r.Ok? ==> IsLine(b, p, r.cmd, p') && Words(b, r.cmd)
    ensures OnlyLine(b, p, r, p')
    decreases |b| - p, 3
  {
    r, p' := ParsePipe(b, p);
    if r.Panic? {
      NoLine(b, p, r, p');
      return;
    }
    ChainStart(b, p, r.cmd, p');
    while b[p'] == '&'
      invariant p <= p' < |b| && p' == Skip(b, p') && r.Ok? && IsBacks(b, p, r.cmd, p') && Words(b, r.cmd)
      invariant Chain(b, p, r.cmd, p')
      decreases |b| - p'
    {
      var m := p';
      p' := TakeSymbol(b, m);
      ChainNext(b, p, r.cmd, m);
      r := Ok(Back(r.cmd));
    }
    if b[p'] != ';' {
      OneChain(b, p, r.cmd, p');
      return;
    }
    var left, m := r.cmd, p';
    var k := TakeSymbol(b, m);
    r, p' := ParseLine(b, k);
    LineOnly(b, p, left, m, r, p');
    if r.Panic? {
      return;
    }
    r := Ok(List(left, r.cmd));
  }

  // ----- Cutting the line -----

  /** The ends of the words of a command. */
  function Ends(c: Cmd): set<int>
  {
    match c
    case Exec(args) => set i | 0 <= i < |args| :: args[i].eq
    case Redir(cmd, file, _, _) => Ends(cmd) + {file.eq}
    case Pipe(left, right) => Ends(left) + Ends(right)
    case List(left, right) => Ends(left) + Ends(right)
    case Back(cmd) => Ends(cmd)
  }

  /** The words of a command. */
  function Toks(c: Cmd): set<Tok>
  {
    match c
    case Exec(args) => set i | 0 <= i < |args| :: args[i]
    case Redir(cmd, file, _, _) => Toks(cmd) + {file}
    case Pipe(left, right) => Toks(left) + Toks(right)
    case List(left, right) => Toks(left) + Toks(right)
    case Back(cmd) => Toks(cmd)
  }

  /** The line with NULs at the given places. */
  function Cut(b: string, ends: set<int>): (r: string)
    ensures |r| == |b| && forall i :: 0 <= i < |b| ==> r[i] == if i in ends then NUL else b[i]
  {
    seq(|b|, i requires 0 <= i < |b| => if i in ends then NUL else b[i])
  }

  /** nulterminate (sh.c:465-508). */
  method NulTerminate(buf: array<char>, c: Cmd, ghost b: string)
    requires |b| == buf.Length && Words(b, c)
    modifies buf
    ensures buf[..] == Cut(old(buf[..]), Ends(c))
    decreases c
  {
    match c {
      case Exec(args) =>
        var i := 0;
        while i < |args|
          invariant 0 <= i <= |args|
          invariant forall k :: 0 <= k < buf.Length ==> buf[k] == if k in (set j | 0 <= j < i :: args[j].eq)
                    then NUL else old(buf[k])
        {
          assert IsWord(b, args[i]);
          buf[args[i].eq] := NUL;
          i := i + 1;
        }
      case Redir(cmd, file, _, _) =>
        NulTerminate(buf, cmd, b);
        buf[file.eq] := NUL;
      case Pipe(left, right) =>
        NulTerminate(buf, left, b);
        NulTerminate(buf, right, b);
      case List(left, right) =>
        NulTerminate(buf, left, b);
        NulTerminate(buf, right, b);
      case Back(cmd) =>
        NulTerminate(buf, cmd, b);
    }
  }

  /** The C string at a position: what comes before the next NUL. */
  function CString(b: string, p: int): string
    requires 0 <= p
    decreases |b| - p
  {
    if p >= |b| || b[p] == NUL then [] else [b[p]] + CString(b, p + 1)
  }

  lemma {:induction false} CStringIs(b: string, p: int, e: int)
    requires 0 <= p <= e < |b| && b[e] == NUL && forall i :: p <= i < e ==> b[i] != NUL
    ensures CString(b, p) == b[p..e]
    decreases e - p
  {
    if p < e {
      CStringIs(b, p + 1, e);
      assert b[p..e] == [b[p]] + b[p + 1..e];
    }
  }

  lemma {:induction false} TokIsWord(b: string, c: Cmd, t: Tok)
    requires Words(b, c) && t in Toks(c)
    ensures IsWord(b, t) && t.eq in Ends(c)
    decreases c
  {
    match c
    case Exec(args) =>
      var i :| 0 <= i < |args| && args[i] == t;
    case Redir(cmd, file, _, _) =>
      if t != file {
        TokIsWord(b, cmd, t);
      }
    case Pipe(left, right) =>
      if t in Toks(left) {
        TokIsWord(b, left, t);
      } else {
        TokIsWord(b, right, t);
      }
    case List(left, right) =>
      if t in Toks(left) {
        TokIsWord(b, left, t);
      } else {
        TokIsWord(b, right, t);
      }
    case Back(cmd) => TokIsWord(b, cmd, t);
  }

  lemma {:induction false} EndIsNoWordChar(b: string, c: Cmd, e: int)
    requires Words(b, c) && e in Ends(c)
    ensures 0 <= e < |b| && !WordChar(b[e])
    decreases c
  {
    match c
    case Exec(args) =>
      var i :| 0 <= i < |args| && args[i].eq == e;
      assert IsWord(b, args[i]);
    case Redir(cmd, file, _, _) =>
      if e != file.eq {
        EndIsNoWordChar(b, cmd, e);
      }
    case Pipe(left, right) =>
      if e in Ends(left) {
        EndIsNoWordChar(b, left, e);
      } else {
        EndIsNoWordChar(b, right, e);
      }
    case List(left, right) =>
      if e in Ends(left) {
        EndIsNoWordChar(b, left, e);
      } else {
        EndIsNoWordChar(b, right, e);
      }
    case Back(cmd) => EndIsNoWordChar(b, cmd, e);
  }

  /** After the cutting every word of the command is, as a C string, the word that was scanned: it
      ends where it should, and no other word's NUL fell into it. */
  lemma {:induction false} WordsSurvive(b: string, c: Cmd, t: Tok)
    requires Words(b, c) && t in Toks(c)
    ensures IsWord(b, t) && CString(Cut(b, Ends(c)), t.q) == b[t.q..t.eq]
  {
    TokIsWord(b, c, t);
    var r := Cut(b, Ends(c));
    forall i | t.q <= i < t.eq
      ensures i !in Ends(c)
    {
      if i in Ends(c) {
        EndIsNoWordChar(b, c, i);
        assert false;
      }
    }
    CStringIs(r, t.q, t.eq);
    assert r[t.q..t.eq] == b[t.q..t.eq];
  }

  /** parsecmd (sh.c:343-357): it ends on every line. When it succeeds, the whole line derives the
      command, and every word of the command is a C string in the line. */
  method ParseCmd(buf: array<char>) returns (r: Parsed)
    requires Line(buf[..])
    modifies buf
    ensures r.Ok? ==> IsLine(old(buf[..]), Skip(old(buf[..]), 0), r.cmd, buf.Length - 1) && Bounded(r.cmd)
    ensures r.Ok? ==> forall t :: t in Toks(r.cmd) ==>
            IsWord(old(buf[..]), t) && CString(buf[..], t.q) == old(buf[..])[t.q..t.eq]
    ensures forall c :: IsLine(old(buf[..]), Skip(old(buf[..]), 0), c, buf.Length - 1) && Bounded(c) ==> r == Ok(c)
    ensures r.Panic? ==> buf[..] == old(buf[..])
  {
    var b := buf[..];
    var s := SkipSpaces(b, 0);
    SkipTwice(b, 0);
    r, s := ParseLine(b, s);
    if r.Panic? {
      return;
    }
    if s != buf.Length - 1 {
      return Panic;
    }
    NulTerminate(buf, r.cmd, b);
    WordsBounded(b, r.cmd);
    forall t | t in Toks(r.cmd)
      ensures IsWord(b, t) && CString(buf[..], t.q) == b[t.q..t.eq]
    {
      WordsSurvive(b, r.cmd, t);
    }
  }
}
