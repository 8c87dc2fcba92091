/** Splitting a command line into arguments, and the quoting grammar it inverts. */
module Shell {
  import opened Wrappers
  import opened Bytes

  const BACKSLASH: byte := 92
  const QUOTE: byte := 39
  const DOUBLE_QUOTE: byte := 34
  const SPACE: byte := 32

  // ---------------------------------------------------------------- the byte automaton

  datatype State = State(args: seq<seq<byte>>, current: seq<byte>, inSingle: bool, inDouble: bool, escaped: bool)

  function Keep(word: seq<byte>): seq<seq<byte>> { if word == [] then [] else [word] }

  function Flush(st: State): State { st.(args := st.args + Keep(st.current), current := []) }

  function Step(st: State, c: byte): State
  {
    if st.escaped then st.(current := st.current + [c], escaped := false)
    else if c == BACKSLASH && !st.inSingle then st.(escaped := true)
    else if c == QUOTE && !st.inDouble then st.(inSingle := !st.inSingle)
    else if c == DOUBLE_QUOTE && !st.inSingle then st.(inDouble := !st.inDouble)
    else if c == SPACE && !st.inSingle && !st.inDouble then Flush(st)
    else st.(current := st.current + [c])
  }

  function Run(st: State, s: seq<byte>): State
    decreases |s|
  {
    if s == [] then st else Run(Step(st, s[0]), s[1..])
  }

  const START := State([], [], false, false, false)

  function Outcome(st: State): Option<seq<seq<byte>>>
  {
    if st.inSingle || st.inDouble then None else Some(Flush(st).args)
  }

  lemma {:induction false} RunAppend(st: State, s: seq<byte>, t: seq<byte>)
    ensures Run(st, s + t) == Run(Run(st, s), t)
    decreases |s|
  {
    if s == [] {
      assert s + t == t;
    } else {
      assert (s + t)[0] == s[0] && (s + t)[1..] == s[1..] + t;
      RunAppend(Step(st, s[0]), s[1..], t);
    }
  }

  // ---------------------------------------------------------------- the grammar

  datatype Item = Plain(b: byte) | Esc(b: byte)

  datatype Token =
    | Gap
    | Bare(b: byte)
    | Escaped(b: byte)
    | Single(run: seq<byte>)
    | Double(items: seq<Item>)

  predicate ItemOk(i: Item) { i.Plain? ==> i.b != DOUBLE_QUOTE && i.b != BACKSLASH }

  predicate TokenOk(t: Token)
  {
    match t
    case Bare(b) => b != BACKSLASH && b != QUOTE && b != DOUBLE_QUOTE && b != SPACE
    case Single(run) => QUOTE !in run
    case Double(items) => forall i <- items :: ItemOk(i)
    case _ => true
  }

  function ItemsText(items: seq<Item>): seq<byte>
  {
    if items == [] then []
    else (if items[0].Esc? then [BACKSLASH, items[0].b] else [items[0].b]) + ItemsText(items[1..])
  }

  function ItemsValue(items: seq<Item>): seq<byte>
  {
    if items == [] then [] else [items[0].b] + ItemsValue(items[1..])
  }

  function Text(t: Token): (s: seq<byte>)
  {
    match t
    case Gap => [SPACE]
    case Bare(b) => [b]
    case Escaped(b) => [BACKSLASH, b]
    case Single(run) => [QUOTE] + run + [QUOTE]
    case Double(items) => [DOUBLE_QUOTE] + ItemsText(items) + [DOUBLE_QUOTE]
  }

  function Value(t: Token): seq<byte>
  {
    match t
    case Gap => []
    case Bare(b) => [b]
    case Escaped(b) => [b]
    case Single(run) => run
    case Double(items) => ItemsValue(items)
  }

  function TextOf(tokens: seq<Token>): seq<byte>
  {
    if tokens == [] then [] else Text(tokens[0]) + TextOf(tokens[1..])
  }

  /** The words between gaps, each the join of its pieces; an empty word is no word. */
  function Words(current: seq<byte>, tokens: seq<Token>): seq<seq<byte>>
    decreases |tokens|
  {
    if tokens == [] then Keep(current)
    else if tokens[0].Gap? then Keep(current) + Words([], tokens[1..])
    else Words(current + Value(tokens[0]), tokens[1..])
  }

  /** The line is a sequence of well-formed tokens, then perhaps one backslash with nothing after it. */
  ghost predicate Tokenizes(s: seq<byte>, tokens: seq<Token>, tail: seq<byte>)
  {
    && (forall t <- tokens :: TokenOk(t))
    && (tail == [] || tail == [BACKSLASH])
    && s == TextOf(tokens) + tail
  }

  // ---------------------------------------------------------------- tokens through the automaton

  predicate Idle(st: State) { !st.inSingle && !st.inDouble && !st.escaped }

  lemma {:induction false} InsideSingle(st: State, run: seq<byte>)
    requires st.inSingle && !st.inDouble && !st.escaped && QUOTE !in run
    ensures Run(st, run) == st.(current := st.current + run)
    decreases |run|
  {
    if run == [] {
      assert st.current + run == st.current;
    } else {
      InsideSingle(Step(st, run[0]), run[1..]);
      assert st.current + [run[0]] + run[1..] == st.current + run;
    }
  }

  lemma RunOne(st: State, c: byte)
    ensures Run(st, [c]) == Step(st, c)
  {
    assert [c][1..] == [];
    assert Run(Step(st, c), []) == Step(st, c);
  }

  lemma RunTwo(st: State, c: byte, d: byte)
    ensures Run(st, [c, d]) == Step(Step(st, c), d)
  {
    assert [c, d] == [c] + [d];
    RunAppend(st, [c], [d]);
    RunOne(st, c);
    RunOne(Step(st, c), d);
  }

  lemma {:induction false} InsideDouble(st: State, items: seq<Item>)
    requires st.inDouble && !st.inSingle && !st.escaped && forall i <- items :: ItemOk(i)
    ensures Run(st, ItemsText(items)) == st.(current := st.current + ItemsValue(items))
    decreases |items|
  {
    if items == [] {
      assert st.current + ItemsValue(items) == st.current;
    } else {
      var first, rest := items[0], items[1..];
      assert ItemOk(first);
      var text := if first.Esc? then [BACKSLASH, first.b] else [first.b];
      RunTwo(st, BACKSLASH, first.b);
      RunOne(st, first.b);
      var next := st.(current := st.current + [first.b]);
      assert Run(st, text) == next;
      RunAppend(st, text, ItemsText(rest));
      InsideDouble(next, rest);
      Associate(st.current, [first.b], ItemsValue(rest));
    }
  }

  /** A token leaves the automaton outside quotes, with the token's value appended. */
  lemma TokenRun(st: State, t: Token)
    requires Idle(st) && TokenOk(t)
    ensures Run(st, Text(t)) == if t.Gap? then Flush(st) else st.(current := st.current + Value(t))
  {
    match t
    case Gap => RunOne(st, SPACE);
    case Bare(b) => RunOne(st, b);
    case Escaped(b) => RunTwo(st, BACKSLASH, b);
    case Single(run) =>
      RunOne(st, QUOTE);
      RunAppend(st, [QUOTE], run);
      InsideSingle(st.(inSingle := true), run);
      RunAppend(st, [QUOTE] + run, [QUOTE]);
      RunOne(st.(inSingle := true, current := st.current + run), QUOTE);
    case Double(items) =>
      RunOne(st, DOUBLE_QUOTE);
      RunAppend(st, [DOUBLE_QUOTE], ItemsText(items));
      InsideDouble(st.(inDouble := true), items);
      RunAppend(st, [DOUBLE_QUOTE] + ItemsText(items), [DOUBLE_QUOTE]);
      RunOne(st.(inDouble := true, current := st.current + ItemsValue(items)), DOUBLE_QUOTE);
  }

  lemma {:induction false} TokensRun(st: State, tokens: seq<Token>)
    requires Idle(st) && forall t <- tokens :: TokenOk(t)
    ensures Idle(Run(st, TextOf(tokens)))
    ensures Flush(Run(st, TextOf(tokens))).args == st.args + Words(st.current, tokens)
    decreases |tokens|
  {
    if tokens != [] {
      var t, rest := tokens[0], tokens[1..];
      var next := if t.Gap? then Flush(st) else st.(current := st.current + Value(t));
      TokenRun(st, t);
      RunAppend(st, Text(t), TextOf(rest));
      TokensRun(next, rest);
      Associate(st.args, Keep(st.current), Words([], rest));
    }
  }

  /** A tokenized line splits into its words. */
  lemma TokenizedSplits(s: seq<byte>, tokens: seq<Token>, tail: seq<byte>)
    requires Tokenizes(s, tokens, tail)
    ensures Outcome(Run(START, s)) == Some(Words([], tokens))
  {
    TokensRun(START, tokens);
    RunAppend(START, TextOf(tokens), tail);
    assert [] + Words([], tokens) == Words([], tokens);
    if tail == [BACKSLASH] {
      RunOne(Run(START, TextOf(tokens)), BACKSLASH);
    }
  }

  // ---------------------------------------------------------------- every accepted line is tokenized

  /** Inside single quotes: up to the closing quote, or the quote never closes. */
  lemma {:induction false} ScanSingle(st: State, s: seq<byte>) returns (n: nat)
    requires st.inSingle && !st.inDouble && !st.escaped
    ensures n <= |s| && QUOTE !in s[..n]
    ensures n < |s| ==> s[n] == QUOTE
    ensures n == |s| ==> Run(st, s).inSingle
    decreases |s|
  {
    n := 0;
    if s != [] && s[0] != QUOTE {
      var m := ScanSingle(Step(st, s[0]), s[1..]);
      n := m + 1;
      assert s[..n] == [s[0]] + s[1..][..m];
    }
  }

  /** Inside double quotes: items and the closing quote, or the quote never closes. */
  lemma {:induction false} ScanDouble(st: State, s: seq<byte>) returns (closed: bool, items: seq<Item>, rest: seq<byte>)
    requires st.inDouble && !st.inSingle && !st.escaped
    ensures closed ==> (forall i <- items :: ItemOk(i)) && s == ItemsText(items) + [DOUBLE_QUOTE] + rest
    ensures !closed ==> Run(st, s).inDouble
    decreases |s|
  {
    closed, items, rest := false, [], [];
    if s == [] {
    } else if s[0] == DOUBLE_QUOTE {
      closed, rest := true, s[1..];
      assert s == [] + [DOUBLE_QUOTE] + rest;
    } else if s[0] != BACKSLASH {
      closed, items, rest := ScanDouble(Step(st, s[0]), s[1..]);
      if closed {
        ItemInFront(Plain(s[0]), items, s, rest);
        items := [Plain(s[0])] + items;
      }
    } else if |s| == 1 {
      RunOne(st, s[0]);
      assert s == [s[0]];
    } else {
      assert s[1..][1..] == s[2..] && s[1..][0] == s[1];
      closed, items, rest := ScanDouble(Step(Step(st, s[0]), s[1]), s[2..]);
      if closed {
        ItemInFront(Esc(s[1]), items, s, rest);
        items := [Esc(s[1])] + items;
      }
    }
  }

  lemma ItemInFront(first: Item, items: seq<Item>, s: seq<byte>, rest: seq<byte>)
    requires var text := if first.Esc? then [BACKSLASH, first.b] else [first.b];
      text <= s && s[|text|..] == ItemsText(items) + [DOUBLE_QUOTE] + rest
    ensures s == ItemsText([first] + items) + [DOUBLE_QUOTE] + rest
  {
    var text := if first.Esc? then [BACKSLASH, first.b] else [first.b];
    assert ([first] + items)[1..] == items;
    assert s == text + s[|text|..];
  }

  lemma TokenInFront(s: seq<byte>, t: Token, rest: seq<byte>, tokens: seq<Token>, tail: seq<byte>)
    requires TokenOk(t) && s == Text(t) + rest && Tokenizes(rest, tokens, tail)
    ensures Tokenizes(s, [t] + tokens, tail)
  {
    assert ([t] + tokens)[1..] == tokens;
    Associate(Text(t), TextOf(tokens), tail);
  }

  /** The first token of a line, when the line does not start an unclosed quote. */
  lemma FirstToken(st: State, s: seq<byte>) returns (found: bool, t: Token, rest: seq<byte>)
    requires Idle(st) && s != [] && s != [BACKSLASH]
    ensures found ==> TokenOk(t) && s == Text(t) + rest && |rest| < |s|
    ensures !found ==> Outcome(Run(st, s)).None?
  {
    found, t, rest := true, Gap, s[1..];
    assert s == [s[0]] + s[1..];
    if s[0] == BACKSLASH {
      t, rest := Escaped(s[1]), s[2..];
      assert s == [s[0], s[1]] + s[2..];
    } else if s[0] == QUOTE {
      var n := ScanSingle(Step(st, s[0]), s[1..]);
      found := n < |s| - 1;
      if found {
        t, rest := Single(s[1..][..n]), s[1..][n + 1..];
        assert s[1..] == s[1..][..n] + [QUOTE] + rest;
      }
    } else if s[0] == DOUBLE_QUOTE {
      var items;
      found, items, rest := ScanDouble(Step(st, s[0]), s[1..]);
      if found {
        t := Double(items);
      }
    } else if s[0] != SPACE {
      t := Bare(s[0]);
    }
  }

  /** A line whose run ends outside quotes is a sequence of tokens. */
  lemma {:induction false} Tokenize(st: State, s: seq<byte>) returns (tokens: seq<Token>, tail: seq<byte>)
    requires Idle(st) && Outcome(Run(st, s)).Some?
    ensures Tokenizes(s, tokens, tail)
    decreases |s|
  {
    tokens, tail := [], [];
    if s == [BACKSLASH] {
      tail := s;
    } else if s != [] {
      var found, t, rest := FirstToken(st, s);
      assert found;
      TokenRun(st, t);
      RunAppend(st, Text(t), rest);
      tokens, tail := Tokenize(Run(st, Text(t)), rest);
      TokenInFront(s, t, rest, tokens, tail);
      tokens := [t] + tokens;
    }
  }

  /** Splits a line exactly as its tokens say; an error exactly when it has no tokens, that is, an unclosed quote. */
  method SplitShell(s: seq<byte>) returns (r: Option<seq<seq<byte>>>)
    ensures forall tokens, tail :: Tokenizes(s, tokens, tail) ==> r == Some(Words([], tokens))
    ensures r.Some? <==> exists tokens, tail :: Tokenizes(s, tokens, tail)
    ensures r == Outcome(Run(START, s))
  {
    var args, current: seq<byte> := [], [];
    var inSingle, inDouble, escaped := false, false, false;
    for i := 0 to |s|
      invariant Run(State(args, current, inSingle, inDouble, escaped), s[i..]) == Run(START, s)
    {
      var c := s[i];
      assert args + [] == args;
      assert s[i..][0] == c && s[i..][1..] == s[i + 1..];
      if escaped {
        current := current + [c];
        escaped := false;
        continue;
      }
      if c == BACKSLASH && !inSingle {
        escaped := true;
        continue;
      }
      if c == QUOTE && !inDouble {
        inSingle := !inSingle;
        continue;
      }
      if c == DOUBLE_QUOTE && !inSingle {
        inDouble := !inDouble;
        continue;
      }
      if c == SPACE && !inSingle && !inDouble {
        if |current| > 0 {
          args := args + [current];
          current := [];
        }
        continue;
      }
      current := current + [c];
    }
    assert s[|s|..] == [] && args + [] == args;
    if |current| > 0 {
      args := args + [current];
    }
    r := if inSingle || inDouble then None else Some(args);
    assert r == Outcome(Run(START, s));
    forall tokens, tail | Tokenizes(s, tokens, tail)
      ensures r == Some(Words([], tokens))
    {
      TokenizedSplits(s, tokens, tail);
    }
    if r.Some? {
      ghost var tokens, tail := Tokenize(START, s);
    }
  }

  // ---------------------------------------------------------------- quoting and back

  /** One argument, its quoting style, and the spaces after it. */
  datatype Quoted = Quoted(arg: seq<byte>, single: bool, spaces: nat)

  function Backslashed(arg: seq<byte>): seq<byte>
  {
    if arg == [] then [] else [BACKSLASH, arg[0]] + Backslashed(arg[1..])
  }

  function Spaces(n: nat): seq<byte> { seq(n, _ => SPACE) }

  function Line(qs: seq<Quoted>): seq<byte>
  {
    if qs == [] then []
    else
      var q := qs[0];
      (if q.single then [QUOTE] + q.arg + [QUOTE] else Backslashed(q.arg)) + Spaces(q.spaces) + Line(qs[1..])
  }

  function Args(qs: seq<Quoted>): seq<seq<byte>>
  {
    if qs == [] then [] else [qs[0].arg] + Args(qs[1..])
  }

  predicate Quotable(qs: seq<Quoted>)
  {
    forall i :: 0 <= i < |qs| ==>
      && qs[i].arg != []
      && (qs[i].single ==> QUOTE !in qs[i].arg)
      && (i < |qs| - 1 ==> qs[i].spaces > 0)
  }

  lemma {:induction false} BackslashedRun(st: State, arg: seq<byte>)
    requires Idle(st)
    ensures Run(st, Backslashed(arg)) == st.(current := st.current + arg)
    decreases |arg|
  {
    if arg == [] {
      assert st.current + arg == st.current;
    } else {
      RunTwo(st, BACKSLASH, arg[0]);
      RunAppend(st, [BACKSLASH, arg[0]], Backslashed(arg[1..]));
      BackslashedRun(st.(current := st.current + [arg[0]]), arg[1..]);
      assert st.current + [arg[0]] + arg[1..] == st.current + arg;
    }
  }

  lemma {:induction false} SpacesRun(st: State, n: nat)
    requires Idle(st)
    ensures Run(st, Spaces(n)) == if n == 0 then st else Flush(st)
    decreases n
  {
    if n > 0 {
      assert Spaces(n)[1..] == Spaces(n - 1);
      SpacesRun(Flush(st), n - 1);
    }
  }

  lemma {:induction false} LineRun(st: State, qs: seq<Quoted>)
    requires Idle(st) && st.current == [] && Quotable(qs)
    ensures Outcome(Run(st, Line(qs))) == Some(st.args + Args(qs))
    decreases |qs|
  {
    if qs != [] {
      var q, rest := qs[0], qs[1..];
      var text := if q.single then [QUOTE] + q.arg + [QUOTE] else Backslashed(q.arg);
      var read := st.(current := q.arg);
      assert [] + q.arg == q.arg;
      if q.single {
        TokenRun(st, Single(q.arg));
      } else {
        BackslashedRun(st, q.arg);
      }
      RunAppend(st, text, Spaces(q.spaces));
      SpacesRun(read, q.spaces);
      RunAppend(st, text + Spaces(q.spaces), Line(rest));
      if rest == [] {
        assert Args(rest) == [] && Args(qs) == [q.arg];
        assert Flush(read).args + [] == Flush(read).args == st.args + [q.arg];
      } else {
        LineRun(Flush(read), rest);
        Associate(st.args, [q.arg], Args(rest));
      }
    }
  }

  /** Quoting each argument either way and joining by spaces is undone by splitting. */
  lemma SplitUndoesQuoting(qs: seq<Quoted>)
    requires Quotable(qs)
    ensures Outcome(Run(START, Line(qs))) == Some(Args(qs))
  {
    LineRun(START, qs);
    assert [] + Args(qs) == Args(qs);
  }
}
