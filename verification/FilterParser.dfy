/** The parser as it runs: a loop over a growable stack array, with the lookahead kept in a field
    (pkg/consolegraphql/filter/parser.go:209-221 and 307-733). */
module FilterParser {
  import opened FilterSyntax
  import opened FilterTables
  import opened FilterMachine
  import opened FilterLexer

  /** Some path among the tokens does not parse. */
  predicate AnyBad(ts: seq<Token>, parses: string -> bool) { exists t :: t in ts && IsBad(t, parses) }

  /** The token that the next step reads, if it reads one. */
  function Read(m: Machine): seq<Token>
    requires 0 <= m.p < |m.slots| && IsState(Top(m))
  {
    if Asks(m) && m.input != [] then [m.input[0]] else []
  }

  class Parser {
    var lval: Sym
    var stack: array<Sym>
    var char_: int

    constructor ()
      ensures fresh(stack) && lval == ZERO_SYM && stack[..] == seq(INITIAL_STACK_SIZE, _ => ZERO_SYM)
    {
      lval, char_ := ZERO_SYM, 0;
      var s := new Sym[INITIAL_STACK_SIZE](_ => ZERO_SYM);
      stack := s;
    }

    /** Filterlex1: reads a token unless one is waiting. */
    method LookAhead(lex: Lexer, token: int, ghost m: Machine) returns (panicked: bool, t: int)
      requires lex.Valid() && char_ == LookCode(m.look) && lval == m.lval && lex.Coming() == m.input
      requires !m.look.NoLook? ==> token == Internal(m.look)
      modifies this`lval, this`char_, lex`p, lex`cs, lex`ts, lex`te, lex`act, lex`startToks, lex`failed
      ensures panicked <==> m.look.NoLook? && m.input == [] && old(lex.Broken())
      ensures !panicked ==> lex.Valid() && lex.Broken() == old(lex.Broken()) && lex.Coming() == Fetch(m).input
      ensures !panicked ==> char_ == LookCode(Fetch(m).look) && lval == Fetch(m).lval && t == Internal(Fetch(m).look)
      ensures lex.failed == (old(lex.failed) || (m.look.NoLook? && m.input != [] && IsBad(m.input[0], lex.parses)))
    {
      hide Lexer.Coming, Lexer.Broken, Lexer.Valid;
      panicked, t := false, token;
      if char_ < 0 {
        var o := lex.Lex();
        match o {
          case Panic => return true, t;
          case Zero(_) => char_ := 0;
          case Found(tok, _) => char_, lval := Code(tok), WriteValue(lval, tok);
        }
        t := Translate(char_);
      }
    }

    /** From Filternewstate to the point where the action is known, reading the lookahead only where the state needs it. */
    method ChooseAction(lex: Lexer, state: int, token: int, ghost m: Machine) returns (panicked: bool, a: Action, t: int)
      requires Valid(m) && state == Top(m)
      requires lex.Valid() && char_ == LookCode(m.look) && lval == m.lval && lex.Coming() == m.input
      requires !m.look.NoLook? ==> token == Internal(m.look)
      modifies this`lval, this`char_, lex`p, lex`cs, lex`ts, lex`te, lex`act, lex`startToks, lex`failed
      ensures panicked <==> Asks(m) && m.input == [] && old(lex.Broken())
      ensures !panicked ==> lex.Valid() && lex.Broken() == old(lex.Broken()) && lex.Coming() == Prepare(m).input
      ensures !panicked ==>
                var m1 := Prepare(m);
                && a == NextAction(m1) && char_ == LookCode(m1.look) && lval == m1.lval
                && (!m1.look.NoLook? ==> t == Internal(m1.look))
      ensures lex.failed == (old(lex.failed) || AnyBad(Read(m), lex.parses))
    {
      hide Edge, Exca, Stack, WriteValue, Act, Chk, Pact, Def, ExceptionRow, ExceptionEntry, Valid, Fetch, Internal, LookCode, Translate,
        Lexer.Coming, Lexer.Broken, Lexer.Valid, AnyBad, Read, IsBad;
      StackStates(m);
      ReadsBad(m, lex.parses);
      DefaultsKnown(state);
      FetchFacts(m);
      panicked, a, t := false, SyntaxError, token;
      var n := Pact(state);
      if n > FLAG {
        panicked, t := LookAhead(lex, t, m);
        if panicked {
          return;
        }
        n := n + t;
        if 0 <= n < LAST && Chk(Act(n)) == t {
          a := Shift(Act(n));
          return;
        }
      }
      n := Def(state);
      if n == -2 {
        panicked, t := LookAhead(lex, t, if Pact(state) > FLAG then Fetch(m) else m);
        if panicked {
          return;
        }
        n := FindException(state, t);
        if n < 0 {
          a := Accept;
          return;
        }
      }
      a := if n == 0 then SyntaxError else Reduce(n);
    }

    /** Parses the lexer's text. It panics exactly when the lexer does on a token that the machine asks for. Otherwise the
        result and what is left in the lexer are those of the machine's run on the tokens, with an error also for a path
        that does not parse; the stack grows as needed, every index is in bounds, and the loop ends. */
    method Parse(lex: Lexer) returns (panicked: bool, code: int)
      requires lval == ZERO_SYM && stack[..] == seq(INITIAL_STACK_SIZE, _ => ZERO_SYM)
      requires lex.Valid() && lex.expr == Absent && lex.orderBy == [] && !lex.failed
      modifies this`lval, this`char_, stack, lex
      ensures panicked <==> old(lex.Broken()) && Starves(Initial(old(lex.Coming())))
      ensures !panicked ==>
                var r := Parsed(old(lex.Coming()));
                && code == r.code && lex.expr == r.expr && lex.orderBy == r.orderBy
                && (lex.failed <==> r.failed || AnyBad(old(lex.Coming()), lex.parses))
    {
      hide Decide, Semantics, Goto, R1, R2, Rank, Edge, Def, Prepare, NextAction, Push, ReduceBy, Valid, Step, Run, Pending, WriteValue,
        CallsFor, Lexer.Coming, Lexer.Broken, Lexer.Valid, Starves, Asks, AnyBad, Read, IsBad, Follows, LookCode, Internal, Parsed;
      NoLookCode();
      var s, p, state, token := stack, 0, 0, -1;
      var val := ZERO_SYM;
      char_, panicked, code := -1, false, 0;
      s[0] := val.(yys := state);
      ghost var all, m, done, broken := lex.Coming(), Initial(lex.Coming()), [], lex.Broken();
      StartsFollowing(all, broken, lex.parses);
      while true
        invariant Valid(m) && Follows(m, all, done, broken) && lex.failed == AnyBad(done, lex.parses)
        invariant s[..] == m.slots && p == m.p && state == Top(m) && (s == stack || fresh(s))
        invariant char_ == LookCode(m.look) && lval == m.lval && lex.Valid() && lex.Coming() == m.input && lex.Broken() == broken
        invariant !m.look.NoLook? ==> token == Internal(m.look)
        invariant lex.expr == m.expr && lex.orderBy == m.orderBy
        decreases |Pending(m)|, 4 * m.p + Rank(Top(m))
      {
        var action;
        StackStates(m);
        panicked, action, token := Choose(lex, state, token, m, all, done);
        if panicked {
          return;
        }
        done := done + Read(m);
        if action.Accept? {
          char_ := -1;
          return false, 0;
        }
        if action.SyntaxError? {
          lex.failed := true;
          var resumed := Recover(s, p);
          assert !resumed;
          char_ := -1;
          return false, 1;
        }
        s, p, state, token := ShiftOrReduce(lex, s, p, action, token, m);
        m := Step(m).m;
      }
    }

    /** ChooseAction, and what it means for the run. */
    method Choose(lex: Lexer, state: int, token: int, ghost m: Machine, ghost all: seq<Token>, ghost done: seq<Token>)
      returns (panicked: bool, a: Action, t: int)
      requires Valid(m) && state == Top(m) && 0 <= m.p < |m.slots| && IsState(Top(m))
      requires lex.Valid() && char_ == LookCode(m.look) && lval == m.lval && lex.Coming() == m.input
      requires !m.look.NoLook? ==> token == Internal(m.look)
      requires Follows(m, all, done, lex.Broken()) && lex.failed == AnyBad(done, lex.parses)
      modifies this`lval, this`char_, lex`p, lex`cs, lex`ts, lex`te, lex`act, lex`startToks, lex`failed
      ensures panicked ==> old(lex.Broken()) && Starves(Initial(all))
      ensures !panicked ==>
                var m1 := Prepare(m);
                && lex.Valid() && lex.Broken() == old(lex.Broken()) && lex.Coming() == m1.input && char_ == LookCode(m1.look) &&
                lval == m1.lval && (!m1.look.NoLook? ==> t == Internal(m1.look)) && a == NextAction(m1)
      ensures !panicked ==> lex.failed == AnyBad(done + Read(m), lex.parses)
      ensures !panicked && (a.Shift? || a.Reduce?) ==>
                Step(m).Continue? && Step(m).m.input == Prepare(m).input && Follows(Step(m).m, all, done + Read(m), lex.Broken())
      ensures !panicked && (a.Accept? || a.SyntaxError?) ==> !(lex.Broken() && Starves(Initial(all)))
      ensures !panicked && a.Accept? ==> Parsed(all) == Result(0, m.expr, m.orderBy, false) && done + Read(m) == all
      ensures !panicked && a.SyntaxError? ==> Parsed(all) == Result(1, m.expr, m.orderBy, true)
    {
      hide Decide, Semantics, Goto, R1, R2, Rank, Edge, Def, Prepare, NextAction, Push, ReduceBy, Valid, Step, Run, Pending, WriteValue,
        CallsFor, Lexer.Coming, Lexer.Broken, Lexer.Valid, Starves, Asks, AnyBad, Read, IsBad, Follows, LookCode, Internal, Parsed;
      ghost var broken := lex.Broken();
      panicked, a, t := ChooseAction(lex, state, token, m);
      if panicked {
        StarvedNow(m, all, done, broken);
        return;
      }
      StepFacts(m);
      StepFollows(m, all, done, broken, lex.parses);
      if a.Accept? {
        AcceptsAtEnd(m);
        assert done + Read(m) + [] == done + Read(m);
      }
    }

    /** A shift or a reduction, up to Filternewstate. */
    method ShiftOrReduce(lex: Lexer, s: array<Sym>, p: int, action: Action, token: int, ghost m: Machine)
      returns (s': array<Sym>, p': int, state: int, token': int)
      requires Valid(m) && 0 <= m.p < |m.slots| && IsState(Top(m)) && action == NextAction(Prepare(m)) && Step(m).Continue?
      requires s[..] == m.slots && p == m.p && char_ == LookCode(Prepare(m).look) && lval == Prepare(m).lval
      requires !Prepare(m).look.NoLook? ==> token == Internal(Prepare(m).look)
      requires lex.expr == m.expr && lex.orderBy == m.orderBy
      modifies this`char_, s, lex`expr, lex`orderBy
      ensures var m' := Step(m).m;
              && s'[..] == m'.slots && p' == m'.p && state == Top(m') && char_ == LookCode(m'.look) && lval == m'.lval
              && (!m'.look.NoLook? ==> token' == Internal(m'.look)) && lex.expr == m'.expr && lex.orderBy == m'.orderBy
      ensures s' == s || fresh(s')
    {
      hide Decide, Semantics, Goto, R1, R2, Rank, Edge, Def, Prepare, NextAction, Push, ReduceBy, Valid, Step, Run, Pending, WriteValue,
        CallsFor, Internal, LookCode;
      StepFacts(m);
      NoLookCode();
      ghost var m1 := Prepare(m);
      if action.Shift? {
        PushFacts(m1.(look := NoLook), m1.lval, action.state);
        char_, token', state := -1, -1, action.state;
        s' := PushSlot(s, p, lval, state, m1.(look := NoLook));
        p' := p + 1;
      } else {
        ReduceKeeps(m1, action.rule);
        s', p', state := ReduceOn(lex, s, p, action.rule, m1);
        token' := token;
      }
    }
  }

  lemma ReadsBad(m: Machine, parses: string -> bool)
    requires 0 <= m.p < |m.slots| && IsState(Top(m))
    ensures AnyBad(Read(m), parses) <==> Asks(m) && m.input != [] && IsBad(m.input[0], parses)
  {
    hide IsBad, Asks;
  }

  lemma NoLookCode()
    ensures LookCode(NoLook) == -1
  {
  }

  /** The run that starts with the tokens `all` has come to `m`, with the tokens `done` read. */
  ghost predicate Follows(m: Machine, all: seq<Token>, done: seq<Token>, broken: bool)
    requires Valid(m)
  {
    && Run(m) == Parsed(all) && all == done + m.input
    && (broken ==> Starves(m) == Starves(Initial(all)))
  }

  lemma StartsFollowing(all: seq<Token>, broken: bool, parses: string -> bool)
    ensures Follows(Initial(all), all, [], broken) && !AnyBad([], parses)
  {
    hide Run, Starves;
  }

  lemma StarvedNow(m: Machine, all: seq<Token>, done: seq<Token>, broken: bool)
    requires Valid(m) && Follows(m, all, done, broken) && broken && 0 <= m.p < |m.slots| && IsState(Top(m)) && Asks(m) && m.input == []
    ensures Starves(Initial(all))
  {
    hide Step, Run, Valid;
  }

  lemma StepFollows(m: Machine, all: seq<Token>, done: seq<Token>, broken: bool, parses: string -> bool)
    requires Valid(m) && Follows(m, all, done, broken) && 0 <= m.p < |m.slots| && IsState(Top(m))
    requires !(broken && Asks(m) && m.input == [])
    requires Prepare(m).p == m.p
    ensures Step(m).Continue? ==> Step(m).m.input == Prepare(m).input && Follows(Step(m).m, all, done + Read(m), broken)
    ensures Step(m).Done? ==> Run(m) == Step(m).result == Parsed(all) && !(broken && Starves(Initial(all)))
    ensures all == done + Read(m) + Prepare(m).input
    ensures AnyBad(done + Read(m), parses) <==> AnyBad(done, parses) || AnyBad(Read(m), parses)
  {
    ReadStep(m, all, done, parses);
    StarvesStep(m);
    StepInput(m);
    hide Step, Asks, Starves, Read, AnyBad, Prepare;
  }

  lemma StepInput(m: Machine)
    requires Valid(m) && 0 <= m.p < |m.slots| && IsState(Top(m))
    ensures Step(m).Continue? ==> Step(m).m.input == Prepare(m).input
  {
    hide Decide, Semantics, Goto, R1, R2, Rank, Edge, Def, WriteValue, CallsFor, Pending;
    PrepareFacts(m);
  }

  /** What a step reads goes from what is to come to what is done. */
  lemma ReadStep(m: Machine, all: seq<Token>, done: seq<Token>, parses: string -> bool)
    requires 0 <= m.p < |m.slots| && IsState(Top(m)) && all == done + m.input
    ensures all == done + Read(m) + Prepare(m).input
    ensures AnyBad(done + Read(m), parses) <==> AnyBad(done, parses) || AnyBad(Read(m), parses)
  {
    hide IsBad;
    assert m.input != [] ==> m.input == [m.input[0]] + m.input[1..];
  }

  lemma StarvesStep(m: Machine)
    requires Valid(m) && 0 <= m.p < |m.slots| && IsState(Top(m))
    ensures Asks(m) && m.input == [] ==> Starves(m)
    ensures !(Asks(m) && m.input == []) ==> Starves(m) == (Step(m).Continue? && Starves(Step(m).m))
  {
    hide Step, Asks;
  }

  /** Only at the end of the input is a run accepted. */
  lemma AcceptsAtEnd(m: Machine)
    requires Valid(m) && 0 <= m.p < |m.slots| && IsState(Top(m)) && NextAction(Prepare(m)).Accept?
    ensures Prepare(m).look.End? && Prepare(m).input == []
  {
    hide Edge, WriteValue;
  }

  lemma FetchFacts(m: Machine)
    ensures var m1 := Fetch(m);
            !m1.look.NoLook? && Fetch(m1) == m1 && m1.p == m.p && m1.slots == m.slots && IsToken(Internal(m1.look))
    ensures !m.look.NoLook? ==> Fetch(m) == m
  {
  }

  lemma DefaultsKnown(s: int)
    requires IsState(s)
    ensures Def(s) == -2 ==> s == 1 || s == 8
  {
  }

  lemma StackStates(m: Machine)
    requires Valid(m)
    ensures 0 <= m.p < |m.slots| && forall i :: 0 <= i <= m.p ==> IsState(m.slots[i].yys)
  {
  }

  /** One step of the run, by the action chosen. */
  lemma StepFacts(m: Machine)
    requires Valid(m)
    ensures 0 <= m.p < |m.slots| && IsState(Top(m))
    ensures var m1 := Prepare(m);
            && Valid(m1) && m1.p == m.p && m1.slots == m.slots && m1.expr == m.expr && m1.orderBy == m.orderBy
            && 0 <= m1.p < |m1.slots| && IsState(Top(m1)) &&
            match NextAction(m1)
            case Accept => Step(m).Done? && Run(m) == Result(0, m.expr, m.orderBy, false)
            case SyntaxError => Step(m).Done? && Run(m) == Result(1, m.expr, m.orderBy, true)
            case Shift(n) => Step(m) == Continue(Push(m1.(look := NoLook), m1.lval, n)) && Run(Step(m).m) == Run(m)
            case Reduce(r) =>
              CallsFor(Top(m1), r) && 0 <= m1.p - R2(r) && IsState(m1.slots[m1.p - R2(r)].yys) &&
              Step(m) == Continue(ReduceBy(m1, r)) && Run(Step(m).m) == Run(m)
  {
    hide Decide, Semantics, Goto, R1, R2, Rank, Edge, Def, Push, ReduceBy, WriteValue, CallsFor, Pending;
    PrepareFacts(m);
    var m1 := Prepare(m);
    if NextAction(m1).Reduce? {
      ReduceAction(m1);
      ReduceStep(m1, NextAction(m1).rule);
    }
  }

  lemma PushFacts(m: Machine, val: Sym, state: int)
    requires 0 <= m.p < |m.slots|
    ensures var m' := Push(m, val, state);
            m'.p == m.p + 1 && Top(m') == state && m'.look == m.look && m'.lval == m.lval && m'.input == m.input &&
            m'.expr == m.expr && m'.orderBy == m.orderBy
  {
  }

  /** A reduction leaves the lookahead and the input alone. */
  lemma ReduceKeeps(m: Machine, r: int)
    requires Valid(m) && CallsFor(Top(m), r)
    ensures 1 <= r < 36 && 0 <= m.p - R2(r) && IsState(m.slots[m.p - R2(r)].yys)
    ensures var m' := ReduceBy(m, r);
            m'.look == m.look && m'.lval == m.lval && m'.input == m.input && Top(m') == Goto(m.slots[m.p - R2(r)].yys, R1(r))
  {
    hide Semantics, Goto, R1, R2, Rank, Edge, Def;
    ReduceStep(m, r);
  }

  /** Pushes a slot at Filterstack. */
  method PushSlot(s: array<Sym>, p: int, val: Sym, state: int, ghost m: Machine) returns (s': array<Sym>)
    requires -1 <= m.p < |m.slots| && 0 < |m.slots| && s[..] == m.slots && p == m.p
    modifies s
    ensures s'[..] == Push(m, val, state).slots && (s' == s || fresh(s'))
  {
    s' := EnsureRoom(s, p + 1);
    s'[p + 1] := val.(yys := state);
  }

  /** The reduction by production `n`, up to and including the push of its left-hand side. */
  method ReduceOn(lex: Lexer, s: array<Sym>, p: int, n: int, ghost m: Machine)
    returns (s': array<Sym>, p': int, state: int)
    requires 1 <= n < 36 && 0 <= m.p - R2(n) && m.p < |m.slots| && IsState(m.slots[m.p - R2(n)].yys)
    requires s[..] == m.slots && p == m.p && lex.expr == m.expr && lex.orderBy == m.orderBy
    modifies s, lex`expr, lex`orderBy
    ensures var m' := ReduceBy(m, n);
            && s'[..] == m'.slots && p' == m'.p && lex.expr == m'.expr && lex.orderBy == m'.orderBy
            && state == Goto(m.slots[m.p - R2(n)].yys, R1(n))
    ensures s' == s || fresh(s')
  {
    hide Semantics, Goto, R1, R2;
    var k := R2(n);
    var base := p - k;
    s' := EnsureRoom(s, base + 1);
    var dollar := s'[base..p + 1];
    assert dollar == Dollar(m, k);
    var val := Semantics(n, dollar, s'[base + 1]);
    state := Goto(s'[base].yys, R1(n));
    StartRules();
    if n == 1 {
      lex.expr := dollar[2].expr;
    } else if n == 2 {
      lex.orderBy := dollar[2].orderList;
    }
    s' := PushSlot(s', base, val, state, m.(slots := s'[..], p := base));
    p' := base + 1;
  }

  lemma StartRules()
    ensures R2(1) == R2(2) == 2
  {
  }

  /** Looks down the stack for a state that can shift the error token; there is none, so a syntax error is final. */
  method Recover(s: array<Sym>, p: int) returns (resumed: bool)
    requires p < s.Length && forall i :: 0 <= i <= p ==> IsState(s[i].yys)
    ensures !resumed
  {
    resumed := false;
    var i := p;
    while i >= 0 && !resumed
      invariant i <= p && !resumed
    {
      NoErrorShift(s[i].yys);
      var n := Pact(s[i].yys) + ERROR_TOKEN;
      resumed := 0 <= n < LAST && Chk(Act(n)) == ERROR_TOKEN;
      i := i - 1;
    }
  }

  /** The entry of the exception table for a state and a token. */
  method FindException(state: int, token: int) returns (n: int)
    requires (state == 1 || state == 8) && IsToken(token)
    ensures n == ExceptionEntry(token, ExceptionRow(state, 0) + 2)
  {
    var xi := 0;
    while !(Exca(xi) == -1 && Exca(xi + 1) == state)
      invariant xi == 0 || (state == 8 && 0 <= xi <= 6 && xi % 2 == 0)
      invariant ExceptionRow(state, 0) == ExceptionRow(state, xi)
      decreases 6 - xi
    {
      xi := xi + 2;
    }
    xi := xi + 2;
    while !(Exca(xi) < 0 || Exca(xi) == token)
      invariant 0 <= xi <= 16 && xi % 2 == 0
      invariant ExceptionEntry(token, ExceptionRow(state, 0) + 2) == ExceptionEntry(token, xi)
      decreases 16 - xi
    {
      xi := xi + 2;
    }
    n := Exca(xi + 1);
  }

  /** The stack array with room for index `i`: itself, or a copy of twice the length. */
  method EnsureRoom(s: array<Sym>, i: int) returns (s': array<Sym>)
    requires 0 < s.Length && 0 <= i < 2 * s.Length
    ensures s'[..] == Room(s[..], i) && i < s'.Length && (s' == s || fresh(s'))
  {
    s' := s;
    if i >= s.Length {
      s' := new Sym[2 * s.Length](_ => ZERO_SYM);
      for k := 0 to s.Length
        invariant forall j :: 0 <= j < k ==> s'[j] == s[j]
        invariant forall j :: k <= j < s'.Length ==> s'[j] == ZERO_SYM
      {
        s'[k] := s[k];
      }
      assert s'[..] == Room(s[..], i);
    }
  }
}
