/** `strip_conditionals` (deploy/render-nginx-config.py): RETINA_IF / ELSE / ENDIF resolved
    by a stack machine, against recursive evaluation of the block tree they render. */
module Conditionals {
  import opened TemplateLines
  import opened Wrappers

  /** Line numbers count from 1. */
  datatype StripError =
    | UnknownFlag(lineno: nat, name: string)
    | ElseWithoutIf(lineno: nat)
    | SecondElse(lineno: nat)
    | EndifWithoutIf(lineno: nat)
    | Unclosed(blocks: nat)

  type Flags = map<string, bool>

  datatype Branch = Branch(live: bool, seenElse: bool)

  predicate AllLive(stack: seq<Branch>) {
    forall i :: 0 <= i < |stack| ==> stack[i].live
  }

  function Prepend(head: seq<Token>, r: Result<seq<Token>, StripError>): Result<seq<Token>, StripError> {
    match r
    case Ok(tail) => Ok(head + tail)
    case Err(_) => r
  }

  /** The machine from one point of the text on: `lineno` lines read, `stack` open. */
  function Strip(lines: seq<Token>, flags: Flags, lineno: nat, stack: seq<Branch>): Result<seq<Token>, StripError>
    decreases |lines|
  {
    if lines == [] then
      if stack == [] then Ok([]) else Err(Unclosed(|stack|))
    else
      var top := |stack| - 1;
      match lines[0].kind
      case If(name) =>
        if name !in flags then Err(UnknownFlag(lineno + 1, name))
        else Strip(lines[1..], flags, lineno + 1, stack + [Branch(flags[name], false)])
      case Else =>
        if stack == [] then Err(ElseWithoutIf(lineno + 1))
        else if stack[top].seenElse then Err(SecondElse(lineno + 1))
        else Strip(lines[1..], flags, lineno + 1, stack[top := Branch(!stack[top].live, true)])
      case Endif =>
        if stack == [] then Err(EndifWithoutIf(lineno + 1))
        else Strip(lines[1..], flags, lineno + 1, stack[..top])
      case _ =>
        Prepend(if AllLive(stack) then [lines[0]] else [], Strip(lines[1..], flags, lineno + 1, stack))
  }

  lemma PrependNothing(r: Result<seq<Token>, StripError>)
    ensures Prepend([], r) == r
  {
    if r.Ok? { assert [] + r.value == r.value; }
  }

  lemma PrependTwice(a: seq<Token>, b: seq<Token>, r: Result<seq<Token>, StripError>)
    ensures Prepend(a, Prepend(b, r)) == Prepend(a + b, r)
  {
    if r.Ok? { assert a + (b + r.value) == (a + b) + r.value; }
  }

  method StripConditionals(lines: seq<Token>, flags: Flags) returns (r: Result<seq<Token>, StripError>)
    ensures r == Strip(lines, flags, 0, [])
  {
    var out: seq<Token> := [];
    var stack: seq<Branch> := [];
    var i := 0;
    assert lines[0..] == lines;
    PrependNothing(Strip(lines, flags, 0, []));
    while i < |lines|
      invariant i <= |lines|
      invariant Strip(lines, flags, 0, []) == Prepend(out, Strip(lines[i..], flags, i, stack))
    {
      var line, rest := lines[i], lines[i..];
      assert rest[0] == line && rest[1..] == lines[i + 1..];
      PrependTwice(out, if AllLive(stack) then [line] else [], Strip(rest[1..], flags, i + 1, stack));
      i := i + 1;
      match line.kind
      case If(name) =>
        if name !in flags { return Err(UnknownFlag(i, name)); }
        stack := stack + [Branch(flags[name], false)];
      case Else =>
        if stack == [] { return Err(ElseWithoutIf(i)); }
        var top := |stack| - 1;
        if stack[top].seenElse { return Err(SecondElse(i)); }
        stack := stack[top := Branch(!stack[top].live, true)];
      case Endif =>
        if stack == [] { return Err(EndifWithoutIf(i)); }
        stack := stack[..|stack| - 1];
      case _ =>
        if AllLive(stack) { out := out + [line]; } else { assert out + [] == out; }
    }
    assert lines[i..] == [];
    assert out + [] == out;
    if stack != [] { return Err(Unclosed(|stack|)); }
    r := Ok(out);
  }

  // ── block trees ───────────────────────────────────────────────────────────

  datatype Blocks =
    | End
    | Plain(line: Token, rest: Blocks)
    | Cond(open: Token, body: Blocks, alt: Alternative, close: Token, rest: Blocks)

  datatype Alternative = NoElse | ElseDo(marker: Token, blocks: Blocks)

  /** The markers are markers, the other lines are not, and every flag is known. */
  predicate WellFormed(bs: Blocks, known: set<string>) {
    match bs
    case End => true
    case Plain(line, rest) => !IsConditional(line.kind) && WellFormed(rest, known)
    case Cond(open, body, alt, close, rest) =>
      && open.kind.If? && open.kind.flag in known && close.kind == Endif
      && WellFormed(body, known) && WellFormed(rest, known)
      && (alt.ElseDo? ==> alt.marker.kind == Else && WellFormed(alt.blocks, known))
  }

  /** The tree's lines, followed by `tail`. */
  function Render(bs: Blocks, tail: seq<Token>): seq<Token> {
    match bs
    case End => tail
    case Plain(line, rest) => [line] + Render(rest, tail)
    case Cond(open, body, NoElse, close, rest) => [open] + Render(body, [close] + Render(rest, tail))
    case Cond(open, body, ElseDo(marker, blocks), close, rest) =>
      [open] + Render(body, [marker] + Render(blocks, [close] + Render(rest, tail)))
  }

  function Height(bs: Blocks): nat {
    match bs
    case End => 0
    case Plain(_, rest) => 1 + Height(rest)
    case Cond(_, body, NoElse, _, rest) => 2 + Height(body) + Height(rest)
    case Cond(_, body, ElseDo(_, blocks), _, rest) => 3 + Height(body) + Height(blocks) + Height(rest)
  }

  /** The lines that survive, each conditional replaced by the branch its flag selects. */
  function Eval(bs: Blocks, flags: Flags): seq<Token>
    requires WellFormed(bs, flags.Keys)
  {
    match bs
    case End => []
    case Plain(line, rest) => [line] + Eval(rest, flags)
    case Cond(open, body, alt, close, rest) =>
      (if flags[open.kind.flag] then Eval(body, flags)
       else if alt.ElseDo? then Eval(alt.blocks, flags) else [])
      + Eval(rest, flags)
  }

  /** What a tree contributes where it stands. */
  function Contributes(bs: Blocks, flags: Flags, stack: seq<Branch>): seq<Token>
    requires WellFormed(bs, flags.Keys)
  {
    if AllLive(stack) then Eval(bs, flags) else []
  }

  lemma AllLivePush(stack: seq<Branch>, b: Branch)
    ensures AllLive(stack + [b]) == (AllLive(stack) && b.live)
  {
    if AllLive(stack + [b]) {
      assert (stack + [b])[|stack|] == b;
      assert forall i :: 0 <= i < |stack| ==> (stack + [b])[i] == stack[i];
    }
  }

  // The machine's three markers, one step each.

  lemma OpensBlock(open: Token, rest: seq<Token>, flags: Flags, lineno: nat, stack: seq<Branch>)
    requires open.kind.If? && open.kind.flag in flags
    ensures Strip([open] + rest, flags, lineno, stack)
         == Strip(rest, flags, lineno + 1, stack + [Branch(flags[open.kind.flag], false)])
  {
  }

  lemma TurnsToElse(marker: Token, rest: seq<Token>, flags: Flags, lineno: nat, stack: seq<Branch>, live: bool)
    requires marker.kind == Else
    ensures Strip([marker] + rest, flags, lineno, stack + [Branch(live, false)])
         == Strip(rest, flags, lineno + 1, stack + [Branch(!live, true)])
  {
    assert ([marker] + rest)[1..] == rest;
    assert (stack + [Branch(live, false)])[|stack| := Branch(!live, true)] == stack + [Branch(!live, true)];
  }

  lemma ClosesBlock(close: Token, rest: seq<Token>, flags: Flags, lineno: nat, stack: seq<Branch>, top: Branch)
    requires close.kind == Endif
    ensures Strip([close] + rest, flags, lineno, stack + [top]) == Strip(rest, flags, lineno + 1, stack)
  {
  }

  lemma PrependThrice(a: seq<Token>, b: seq<Token>, c: seq<Token>, r: Result<seq<Token>, StripError>)
    ensures Prepend(a, Prepend(b, Prepend(c, r))) == Prepend(a + (b + c), r)
  {
    PrependTwice(b, c, r);
    PrependTwice(a, b + c, r);
  }

  /** Wherever a tree's lines stand, the machine reads through them leaving its stack as it
      was and emitting what the tree evaluates to if that place is live. */
  lemma {:induction false} StripsTree(bs: Blocks, flags: Flags, tail: seq<Token>, lineno: nat, stack: seq<Branch>)
    requires WellFormed(bs, flags.Keys)
    ensures Strip(Render(bs, tail), flags, lineno, stack)
         == Prepend(Contributes(bs, flags, stack), Strip(tail, flags, lineno + Height(bs), stack))
    decreases bs, 1
  {
    match bs
    case End => PrependNothing(Strip(tail, flags, lineno, stack));
    case Plain(line, rest) =>
      StripsTree(rest, flags, tail, lineno + 1, stack);
      PrependTwice(if AllLive(stack) then [line] else [], Contributes(rest, flags, stack),
                   Strip(tail, flags, lineno + Height(bs), stack));
      assert Contributes(bs, flags, stack)
          == (if AllLive(stack) then [line] else []) + Contributes(rest, flags, stack);
    case Cond(open, body, alt, close, rest) =>
      if alt.NoElse? { StripsIf(bs, flags, tail, lineno, stack); } else { StripsIfElse(bs, flags, tail, lineno, stack); }
  }

  lemma {:induction false} StripsIf(bs: Blocks, flags: Flags, tail: seq<Token>, lineno: nat, stack: seq<Branch>)
    requires WellFormed(bs, flags.Keys) && bs.Cond? && bs.alt.NoElse?
    ensures Strip(Render(bs, tail), flags, lineno, stack)
         == Prepend(Contributes(bs, flags, stack), Strip(tail, flags, lineno + Height(bs), stack))
    decreases bs, 0
  {
    var Cond(open, body, _, close, rest) := bs;
    var here := Branch(flags[open.kind.flag], false);
    var one, two := Contributes(body, flags, stack + [here]), Contributes(rest, flags, stack);
    var after := [close] + Render(rest, tail);
    var end := Strip(tail, flags, lineno + Height(bs), stack);
    calc {
      Strip(Render(bs, tail), flags, lineno, stack);
    == { OpensBlock(open, Render(body, after), flags, lineno, stack); }
      Strip(Render(body, after), flags, lineno + 1, stack + [here]);
    == { StripsTree(body, flags, after, lineno + 1, stack + [here]); }
      Prepend(one, Strip(after, flags, lineno + 1 + Height(body), stack + [here]));
    == { StripsClose(close, rest, flags, tail, lineno + 1 + Height(body), stack, here); }
      Prepend(one, Prepend(two, end));
    == { PrependTwice(one, two, end); }
      Prepend(one + two, end);
    == { AllLivePush(stack, here); assert Contributes(bs, flags, stack) == one + two; }
      Prepend(Contributes(bs, flags, stack), end);
    }
  }

  lemma {:induction false} StripsIfElse(bs: Blocks, flags: Flags, tail: seq<Token>, lineno: nat, stack: seq<Branch>)
    requires WellFormed(bs, flags.Keys) && bs.Cond? && bs.alt.ElseDo?
    ensures Strip(Render(bs, tail), flags, lineno, stack)
         == Prepend(Contributes(bs, flags, stack), Strip(tail, flags, lineno + Height(bs), stack))
    decreases bs, 0, 1
  {
    var Cond(open, body, ElseDo(marker, blocks), close, rest) := bs;
    var flag := flags[open.kind.flag];
    var here, there := Branch(flag, false), Branch(!flag, true);
    var one, two := Contributes(body, flags, stack + [here]), Contributes(blocks, flags, stack + [there]);
    var three := Contributes(rest, flags, stack);
    var after := [close] + Render(rest, tail);
    var end := Strip(tail, flags, lineno + Height(bs), stack);
    var otherwise := [marker] + Render(blocks, after);
    calc {
      Strip(Render(bs, tail), flags, lineno, stack);
    == { OpensBlock(open, Render(body, otherwise), flags, lineno, stack); }
      Strip(Render(body, otherwise), flags, lineno + 1, stack + [here]);
    == { StripsTree(body, flags, otherwise, lineno + 1, stack + [here]); }
      Prepend(one, Strip(otherwise, flags, lineno + 1 + Height(body), stack + [here]));
    == { StripsElse(bs, flags, tail, lineno + 1 + Height(body), stack, flag); }
      Prepend(one, Prepend(two, Prepend(three, end)));
    == { PrependThrice(one, two, three, end); }
      Prepend(one + (two + three), end);
    == { ContributesIfElse(bs, flags, stack); }
      Prepend(Contributes(bs, flags, stack), end);
    }
  }

  /** From the else marker on: the other branch, the end marker, and the rest. */
  lemma {:induction false} StripsElse(
      bs: Blocks, flags: Flags, tail: seq<Token>, lineno: nat, stack: seq<Branch>, flag: bool)
    requires WellFormed(bs, flags.Keys) && bs.Cond? && bs.alt.ElseDo?
    ensures var blocks, after := bs.alt.blocks, [bs.close] + Render(bs.rest, tail);
            var end := Strip(tail, flags, lineno + 2 + Height(blocks) + Height(bs.rest), stack);
            var one, two := Contributes(blocks, flags, stack + [Branch(!flag, true)]), Contributes(bs.rest, flags, stack);
            Strip([bs.alt.marker] + Render(blocks, after), flags, lineno, stack + [Branch(flag, false)])
            == Prepend(one, Prepend(two, end))
    decreases bs, 0, 0
  {
    var Cond(_, _, ElseDo(marker, blocks), close, rest) := bs;
    var after, there := [close] + Render(rest, tail), Branch(!flag, true);
    TurnsToElse(marker, Render(blocks, after), flags, lineno, stack, flag);
    StripsTree(blocks, flags, after, lineno + 1, stack + [there]);
    StripsClose(close, rest, flags, tail, lineno + 1 + Height(blocks), stack, there);
  }

  lemma ContributesIfElse(bs: Blocks, flags: Flags, stack: seq<Branch>)
    requires WellFormed(bs, flags.Keys) && bs.Cond? && bs.alt.ElseDo?
    ensures var flag := flags[bs.open.kind.flag];
            var one, two := stack + [Branch(flag, false)], stack + [Branch(!flag, true)];
            Contributes(bs, flags, stack)
            == Contributes(bs.body, flags, one) + (Contributes(bs.alt.blocks, flags, two) + Contributes(bs.rest, flags, stack))
  {
    var flag := flags[bs.open.kind.flag];
    AllLivePush(stack, Branch(flag, false));
    AllLivePush(stack, Branch(!flag, true));
  }

  lemma {:induction false} StripsClose(
      close: Token, rest: Blocks, flags: Flags, tail: seq<Token>, lineno: nat, stack: seq<Branch>, top: Branch)
    requires close.kind == Endif && WellFormed(rest, flags.Keys)
    ensures Strip([close] + Render(rest, tail), flags, lineno, stack + [top])
         == Prepend(Contributes(rest, flags, stack), Strip(tail, flags, lineno + 1 + Height(rest), stack))
    decreases rest, 2
  {
    ClosesBlock(close, Render(rest, tail), flags, lineno, stack, top);
    StripsTree(rest, flags, tail, lineno + 1, stack);
  }

  /** Where the machine succeeds, the lines ahead are a tree and then, inside a block, the
      marker that ends that tree. */
  lemma {:induction false} Parses(lines: seq<Token>, flags: Flags, lineno: nat, stack: seq<Branch>)
      returns (bs: Blocks, tail: seq<Token>)
    requires Strip(lines, flags, lineno, stack).Ok?
    ensures WellFormed(bs, flags.Keys) && lines == Render(bs, tail) && |tail| + Height(bs) == |lines|
    ensures if stack == [] then tail == []
            else tail != [] && (tail[0].kind == Endif || (tail[0].kind == Else && !stack[|stack| - 1].seenElse))
    decreases |lines|, 1
  {
    if lines == [] {
      return End, [];
    }
    match lines[0].kind
    case If(name) =>
      bs, tail := ParsesConditional(lines, flags, lineno, stack);
    case Else =>
      bs, tail := End, lines;
    case Endif =>
      bs, tail := End, lines;
    case _ =>
      var rest, t := Parses(lines[1..], flags, lineno + 1, stack);
      bs, tail := Plain(lines[0], rest), t;
      assert lines == [lines[0]] + lines[1..];
  }

  lemma {:induction false} ParsesConditional(lines: seq<Token>, flags: Flags, lineno: nat, stack: seq<Branch>)
      returns (bs: Blocks, tail: seq<Token>)
    requires Strip(lines, flags, lineno, stack).Ok? && lines != [] && lines[0].kind.If?
    ensures WellFormed(bs, flags.Keys) && lines == Render(bs, tail) && |tail| + Height(bs) == |lines|
    ensures if stack == [] then tail == []
            else tail != [] && (tail[0].kind == Endif || (tail[0].kind == Else && !stack[|stack| - 1].seenElse))
    decreases |lines|, 0, 1
  {
    var live := flags[lines[0].kind.flag];
    var body, t1 := ParsesBody(lines, flags, lineno, stack, live);
    var next := lineno + 1 + Height(body);
    if t1[0].kind == Endif {
      bs, tail := ParsesIf(lines, body, t1, flags, next, stack, live);
    } else {
      bs, tail := ParsesIfElse(lines, body, t1, flags, next, stack, live);
    }
  }

  lemma {:induction false} ParsesIf(
      lines: seq<Token>, body: Blocks, t1: seq<Token>, flags: Flags, next: nat, stack: seq<Branch>, live: bool)
      returns (bs: Blocks, tail: seq<Token>)
    requires lines != [] && lines[0].kind.If? && lines[0].kind.flag in flags && t1 != [] && t1[0].kind == Endif
    requires WellFormed(body, flags.Keys) && lines == [lines[0]] + Render(body, t1)
    requires |t1| + 1 + Height(body) == |lines| && Strip(t1, flags, next, stack + [Branch(live, false)]).Ok?
    ensures WellFormed(bs, flags.Keys) && lines == Render(bs, tail) && |tail| + Height(bs) == |lines|
    ensures if stack == [] then tail == []
            else tail != [] && (tail[0].kind == Endif || (tail[0].kind == Else && !stack[|stack| - 1].seenElse))
    decreases |lines|, 0, 0
  {
    var rest, t2 := ParsesClose(t1, flags, next, stack, Branch(live, false));
    bs, tail := Cond(lines[0], body, NoElse, t1[0], rest), t2;
    RendersIf(lines[0], body, t1, rest, t2);
  }

  lemma {:induction false} ParsesIfElse(
      lines: seq<Token>, body: Blocks, t1: seq<Token>, flags: Flags, next: nat, stack: seq<Branch>, live: bool)
      returns (bs: Blocks, tail: seq<Token>)
    requires lines != [] && lines[0].kind.If? && lines[0].kind.flag in flags && t1 != [] && t1[0].kind == Else
    requires WellFormed(body, flags.Keys) && lines == [lines[0]] + Render(body, t1)
    requires |t1| + 1 + Height(body) == |lines| && Strip(t1, flags, next, stack + [Branch(live, false)]).Ok?
    ensures WellFormed(bs, flags.Keys) && lines == Render(bs, tail) && |tail| + Height(bs) == |lines|
    ensures if stack == [] then tail == []
            else tail != [] && (tail[0].kind == Endif || (tail[0].kind == Else && !stack[|stack| - 1].seenElse))
    decreases |lines|, 0, 0
  {
    var blocks, t2 := ParsesElse(t1, flags, next, stack, live);
    var rest, t3 := ParsesClose(t2, flags, next + 1 + Height(blocks), stack, Branch(!live, true));
    bs, tail := Cond(lines[0], body, ElseDo(t1[0], blocks), t2[0], rest), t3;
    RendersIfElse(lines[0], body, t1, blocks, t2, rest, t3);
  }

  lemma RendersIf(open: Token, body: Blocks, t1: seq<Token>, rest: Blocks, t2: seq<Token>)
    requires t1 != [] && t1 == [t1[0]] + Render(rest, t2)
    ensures Render(Cond(open, body, NoElse, t1[0], rest), t2) == [open] + Render(body, t1)
  {
  }

  lemma RendersIfElse(
      open: Token, body: Blocks, t1: seq<Token>, blocks: Blocks, t2: seq<Token>, rest: Blocks, t3: seq<Token>)
    requires t1 != [] && t1 == [t1[0]] + Render(blocks, t2) && t2 != [] && t2 == [t2[0]] + Render(rest, t3)
    ensures Render(Cond(open, body, ElseDo(t1[0], blocks), t2[0], rest), t3) == [open] + Render(body, t1)
  {
  }

  lemma {:induction false} ParsesBody(lines: seq<Token>, flags: Flags, lineno: nat, stack: seq<Branch>, live: bool)
      returns (body: Blocks, tail: seq<Token>)
    requires lines != [] && lines[0].kind.If? && Strip(lines, flags, lineno, stack).Ok?
    requires lines[0].kind.flag in flags && live == flags[lines[0].kind.flag]
    ensures WellFormed(body, flags.Keys) && lines == [lines[0]] + Render(body, tail)
    ensures |tail| + 1 + Height(body) == |lines| && tail != [] && (tail[0].kind == Endif || tail[0].kind == Else)
    ensures Strip(tail, flags, lineno + 1 + Height(body), stack + [Branch(live, false)]).Ok?
    decreases |lines|, 0, 0
  {
    assert lines == [lines[0]] + lines[1..];
    OpensBlock(lines[0], lines[1..], flags, lineno, stack);
    body, tail := Parses(lines[1..], flags, lineno + 1, stack + [Branch(live, false)]);
    StripsTree(body, flags, tail, lineno + 1, stack + [Branch(live, false)]);
  }

  lemma {:induction false} ParsesElse(lines: seq<Token>, flags: Flags, lineno: nat, stack: seq<Branch>, live: bool)
      returns (blocks: Blocks, tail: seq<Token>)
    requires lines != [] && lines[0].kind == Else
    requires Strip(lines, flags, lineno, stack + [Branch(live, false)]).Ok?
    ensures WellFormed(blocks, flags.Keys) && lines == [lines[0]] + Render(blocks, tail)
    ensures |tail| + 1 + Height(blocks) == |lines| && tail != [] && tail[0].kind == Endif
    ensures Strip(tail, flags, lineno + 1 + Height(blocks), stack + [Branch(!live, true)]).Ok?
    decreases |lines|, 0, 0
  {
    assert lines == [lines[0]] + lines[1..];
    TurnsToElse(lines[0], lines[1..], flags, lineno, stack, live);
    blocks, tail := Parses(lines[1..], flags, lineno + 1, stack + [Branch(!live, true)]);
    StripsTree(blocks, flags, tail, lineno + 1, stack + [Branch(!live, true)]);
  }

  lemma {:induction false} ParsesClose(lines: seq<Token>, flags: Flags, lineno: nat, stack: seq<Branch>, top: Branch)
      returns (rest: Blocks, tail: seq<Token>)
    requires lines != [] && lines[0].kind == Endif
    requires Strip(lines, flags, lineno, stack + [top]).Ok?
    ensures WellFormed(rest, flags.Keys) && lines == [lines[0]] + Render(rest, tail)
    ensures |tail| + 1 + Height(rest) == |lines|
    ensures if stack == [] then tail == []
            else tail != [] && (tail[0].kind == Endif || (tail[0].kind == Else && !stack[|stack| - 1].seenElse))
    decreases |lines|, 0, 0
  {
    assert lines == [lines[0]] + lines[1..];
    ClosesBlock(lines[0], lines[1..], flags, lineno, stack, top);
    rest, tail := Parses(lines[1..], flags, lineno + 1, stack);
  }

  // ── the claims ────────────────────────────────────────────────────────────

  /** The stack machine evaluates block trees: on the lines of any tree over known flags
      it returns exactly what evaluating the tree returns. */
  lemma StripEvaluatesTrees(bs: Blocks, flags: Flags)
    requires WellFormed(bs, flags.Keys)
    ensures Strip(Render(bs, []), flags, 0, []) == Ok(Eval(bs, flags))
  {
    StripsTree(bs, flags, [], 0, []);
    assert Eval(bs, flags) + [] == Eval(bs, flags);
  }

  /** The rendering of some tree over known flags. */
  ghost predicate Balanced(lines: seq<Token>, flags: Flags) {
    exists bs :: WellFormed(bs, flags.Keys) && Render(bs, []) == lines
  }

  /** It succeeds on nothing else: success is exactly being the rendering of some tree
      over the known flags. */
  lemma StripSucceedsExactlyOnTrees(lines: seq<Token>, flags: Flags)
    ensures Strip(lines, flags, 0, []).Ok? <==> Balanced(lines, flags)
  {
    if Strip(lines, flags, 0, []).Ok? {
      var bs, tail := Parses(lines, flags, 0, []);
      assert WellFormed(bs, flags.Keys) && Render(bs, []) == lines;
    }
    if bs :| WellFormed(bs, flags.Keys) && Render(bs, []) == lines {
      StripEvaluatesTrees(bs, flags);
    }
  }

  // ── which line is at fault ────────────────────────────────────────────────

  /** More lines could make it one. */
  ghost predicate Completable(lines: seq<Token>, flags: Flags) {
    exists more :: Balanced(lines + more, flags)
  }

  function Ends(k: nat): seq<Token> {
    if k == 0 then [] else [Token("# RETINA_ENDIF", Endif)] + Ends(k - 1)
  }

  /** The machine did not stop at a line of these. */
  predicate Survives(r: Result<seq<Token>, StripError>) {
    r.Ok? || r.error.Unclosed?
  }

  function Open(r: Result<seq<Token>, StripError>): nat
    requires Survives(r)
  {
    if r.Ok? then 0 else r.error.blocks
  }

  /** The line an error is about. */
  function LineOf(e: StripError): nat
    requires !e.Unclosed?
  {
    e.lineno
  }

  /** The stack once the first of the lines is read. */
  function Pushed(line: Token, flags: Flags, stack: seq<Branch>): seq<Branch>
    requires Survives(Strip([line], flags, 0, stack))
  {
    match line.kind
    case If(name) => stack + [Branch(flags[name], false)]
    case Else => stack[|stack| - 1 := Branch(!stack[|stack| - 1].live, true)]
    case Endif => stack[..|stack| - 1]
    case _ => stack
  }

  /** A line at a time: the machine stops at the first, or goes on with the others. */
  lemma OneLine(line: Token, rest: seq<Token>, flags: Flags, lineno: nat, stack: seq<Branch>)
    ensures Survives(Strip([line], flags, lineno, stack)) == Survives(Strip([line], flags, 0, stack))
    ensures var r := Strip([line] + rest, flags, lineno, stack);
            if Survives(Strip([line], flags, lineno, stack)) then
              var s := Strip(rest, flags, lineno + 1, Pushed(line, flags, stack));
              r.Ok? == s.Ok? && (r.Err? ==> r.error == s.error)
            else r == Strip([line], flags, lineno, stack) && LineOf(r.error) == lineno + 1
  {
    assert ([line] + rest)[1..] == rest && [line][1..] == [];
  }

  lemma {:induction false} FaultSticks(a: seq<Token>, b: seq<Token>, flags: Flags, lineno: nat, stack: seq<Branch>)
    requires !Survives(Strip(a, flags, lineno, stack))
    ensures !Survives(Strip(a + b, flags, lineno, stack))
    decreases |a|
  {
    OneLine(a[0], a[1..], flags, lineno, stack);
    OneLine(a[0], a[1..] + b, flags, lineno, stack);
    assert a == [a[0]] + a[1..] && a + b == [a[0]] + (a[1..] + b);
    if Survives(Strip([a[0]], flags, lineno, stack)) {
      FaultSticks(a[1..], b, flags, lineno + 1, Pushed(a[0], flags, stack));
    }
  }

  lemma {:induction false} EndsAlone(flags: Flags, lineno: nat, stack: seq<Branch>, k: nat)
    ensures Strip(Ends(k), flags, lineno, stack).Ok? <==> k == |stack|
    decreases k
  {
    if k > 0 && stack != [] { EndsAlone(flags, lineno + 1, stack[..|stack| - 1], k - 1); }
  }

  /** Ends close what is open, and only as many as are. */
  lemma {:induction false} EndsClose(lines: seq<Token>, flags: Flags, lineno: nat, stack: seq<Branch>, k: nat)
    requires Survives(Strip(lines, flags, lineno, stack))
    ensures Strip(lines + Ends(k), flags, lineno, stack).Ok? <==> k == Open(Strip(lines, flags, lineno, stack))
    decreases |lines|
  {
    if lines == [] {
      EndsAlone(flags, lineno, stack, k);
      assert lines + Ends(k) == Ends(k);
    } else {
      var line, rest := lines[0], lines[1..];
      assert lines == [line] + rest && lines + Ends(k) == [line] + (rest + Ends(k));
      OneLine(line, rest, flags, lineno, stack);
      OneLine(line, rest + Ends(k), flags, lineno, stack);
      EndsClose(rest, flags, lineno + 1, Pushed(line, flags, stack), k);
    }
  }

  predicate StoppedBy(lines: seq<Token>, flags: Flags, lineno: nat, stack: seq<Branch>, e: StripError)
    requires !e.Unclosed?
  {
    var n := LineOf(e) - lineno;
    && 0 < n <= |lines|
    && Survives(Strip(lines[..n - 1], flags, lineno, stack)) && !Survives(Strip(lines[..n], flags, lineno, stack))
    && match e
       case UnknownFlag(_, name) => lines[n - 1].kind == If(name) && name !in flags
       case ElseWithoutIf(_) => lines[n - 1].kind == Else && Strip(lines[..n - 1], flags, lineno, stack).Ok?
       case SecondElse(_) => lines[n - 1].kind == Else && Strip(lines[..n - 1], flags, lineno, stack).Err?
       case EndifWithoutIf(_) => lines[n - 1].kind == Endif && Strip(lines[..n - 1], flags, lineno, stack).Ok?
  }

  lemma StopsLater(line: Token, rest: seq<Token>, flags: Flags, lineno: nat, stack: seq<Branch>, e: StripError)
    requires !e.Unclosed? && Survives(Strip([line], flags, lineno, stack))
    requires Survives(Strip([line], flags, 0, stack)) && StoppedBy(rest, flags, lineno + 1, Pushed(line, flags, stack), e)
    ensures StoppedBy([line] + rest, flags, lineno, stack, e)
  {
    var lines, n := [line] + rest, LineOf(e) - lineno;
    OneLine(line, rest[..n - 2], flags, lineno, stack);
    OneLine(line, rest[..n - 1], flags, lineno, stack);
    assert lines[..n - 1] == [line] + rest[..n - 2] && lines[..n] == [line] + rest[..n - 1];
    assert lines[n - 1] == rest[n - 2];
  }

  /** Where the machine stops: it got through the lines before, and why not through that one. */
  lemma {:induction false} StopsAt(lines: seq<Token>, flags: Flags, lineno: nat, stack: seq<Branch>)
    requires !Survives(Strip(lines, flags, lineno, stack))
    ensures StoppedBy(lines, flags, lineno, stack, Strip(lines, flags, lineno, stack).error)
    decreases |lines|
  {
    var line, rest := lines[0], lines[1..];
    OneLine(line, rest, flags, lineno, stack);
    assert lines == [line] + rest;
    if Survives(Strip([line], flags, lineno, stack)) {
      StopsAt(rest, flags, lineno + 1, Pushed(line, flags, stack));
      StopsLater(line, rest, flags, lineno, stack, Strip(lines, flags, lineno, stack).error);
    } else {
      assert lines[..0] == [] && lines[..1] == [line];
    }
  }

  lemma SurvivesExactlyWhenCompletable(lines: seq<Token>, flags: Flags)
    ensures Survives(Strip(lines, flags, 0, [])) <==> Completable(lines, flags)
  {
    var r := Strip(lines, flags, 0, []);
    if Survives(r) {
      EndsClose(lines, flags, 0, [], Open(r));
      StripSucceedsExactlyOnTrees(lines + Ends(Open(r)), flags);
      assert Balanced(lines + Ends(Open(r)), flags);
    }
    if more :| Balanced(lines + more, flags) {
      StripSucceedsExactlyOnTrees(lines + more, flags);
      if !Survives(r) { FaultSticks(lines, more, flags, 0, []); }
    }
  }

  /** The error names the first line that cannot be completed, and what is wrong with it. */
  ghost predicate FirstFault(lines: seq<Token>, flags: Flags, e: StripError)
    requires !e.Unclosed?
  {
    var n := LineOf(e);
    && 0 < n <= |lines| && Completable(lines[..n - 1], flags) && !Completable(lines[..n], flags)
    && match e
       case UnknownFlag(_, name) => lines[n - 1].kind == If(name) && name !in flags
       case ElseWithoutIf(_) => lines[n - 1].kind == Else && Balanced(lines[..n - 1], flags)
       case SecondElse(_) => lines[n - 1].kind == Else && !Balanced(lines[..n - 1], flags)
       case EndifWithoutIf(_) => lines[n - 1].kind == Endif && Balanced(lines[..n - 1], flags)
  }

  /** Every error but the last kind names the first line after which nothing could be balanced any
      more: a flag nobody knows, an end with nothing open, or an else with nothing open or with
      a second else for the same block. What is reported unclosed lacks just that many ends. */
  lemma ErrorsNameTheFirstFault(lines: seq<Token>, flags: Flags)
    ensures var r := Strip(lines, flags, 0, []);
            && (r.Ok? ==> Balanced(lines, flags))
            && (r.Err? && r.error.Unclosed? ==>
                  r.error.blocks > 0 && forall k: nat :: Balanced(lines + Ends(k), flags) <==> k == r.error.blocks)
            && (r.Err? && !r.error.Unclosed? ==> FirstFault(lines, flags, r.error))
  {
    var r := Strip(lines, flags, 0, []);
    if r.Ok? {
      StripSucceedsExactlyOnTrees(lines, flags);
    } else if r.error.Unclosed? {
      UnclosedIsOpen(lines, flags, 0, []);
      forall k: nat ensures Balanced(lines + Ends(k), flags) <==> k == r.error.blocks {
        EndsClose(lines, flags, 0, [], k);
        StripSucceedsExactlyOnTrees(lines + Ends(k), flags);
      }
    } else {
      StopsAt(lines, flags, 0, []);
      var n := LineOf(r.error);
      SurvivesExactlyWhenCompletable(lines[..n - 1], flags);
      SurvivesExactlyWhenCompletable(lines[..n], flags);
      StripSucceedsExactlyOnTrees(lines[..n - 1], flags);
    }
  }

  lemma {:induction false} UnclosedIsOpen(lines: seq<Token>, flags: Flags, lineno: nat, stack: seq<Branch>)
    requires Strip(lines, flags, lineno, stack).Err? && Strip(lines, flags, lineno, stack).error.Unclosed?
    ensures Strip(lines, flags, lineno, stack).error.blocks > 0
    decreases |lines|
  {
    if lines != [] {
      OneLine(lines[0], lines[1..], flags, lineno, stack);
      assert lines == [lines[0]] + lines[1..];
      UnclosedIsOpen(lines[1..], flags, lineno + 1, Pushed(lines[0], flags, stack));
    }
  }

  predicate SameShape(a: seq<Branch>, b: seq<Branch>) {
    |a| == |b| && forall i :: 0 <= i < |a| ==> a[i].seenElse == b[i].seenElse
  }

  /** Only which flags are known decides the verdict: with other values for the same flags
      a template succeeds just the same, or fails with the very same error. */
  lemma {:induction false} VerdictIgnoresValues(
      lines: seq<Token>, f: Flags, g: Flags, lineno: nat, a: seq<Branch>, b: seq<Branch>)
    requires f.Keys == g.Keys && SameShape(a, b)
    ensures var r, s := Strip(lines, f, lineno, a), Strip(lines, g, lineno, b);
            r.Ok? == s.Ok? && (r.Err? ==> r.error == s.error)
    decreases |lines|
  {
    if lines != [] {
      var top := |a| - 1;
      match lines[0].kind
      case If(name) =>
        if name in f {
          VerdictIgnoresValues(lines[1..], f, g, lineno + 1, a + [Branch(f[name], false)], b + [Branch(g[name], false)]);
        }
      case Else =>
        if a != [] && !a[top].seenElse {
          VerdictIgnoresValues(lines[1..], f, g, lineno + 1,
            a[top := Branch(!a[top].live, true)], b[top := Branch(!b[top].live, true)]);
        }
      case Endif =>
        if a != [] { VerdictIgnoresValues(lines[1..], f, g, lineno + 1, a[..top], b[..top]); }
      case _ =>
        VerdictIgnoresValues(lines[1..], f, g, lineno + 1, a, b);
    }
  }

  /** What survives are lines of the input that are not conditional markers. */
  lemma {:induction false} NoConditionalSurvives(lines: seq<Token>, flags: Flags, lineno: nat, stack: seq<Branch>)
    requires Strip(lines, flags, lineno, stack).Ok?
    ensures forall line :: line in Strip(lines, flags, lineno, stack).value ==>
                             line in lines && !IsConditional(line.kind)
    decreases |lines|
  {
    if lines != [] {
      var top := |stack| - 1;
      match lines[0].kind
      case If(name) =>
        NoConditionalSurvives(lines[1..], flags, lineno + 1, stack + [Branch(flags[name], false)]);
      case Else =>
        NoConditionalSurvives(lines[1..], flags, lineno + 1, stack[top := Branch(!stack[top].live, true)]);
      case Endif =>
        NoConditionalSurvives(lines[1..], flags, lineno + 1, stack[..top]);
      case _ =>
        NoConditionalSurvives(lines[1..], flags, lineno + 1, stack);
    }
  }

  /** Lines with no conditional marker pass through unchanged, under any flags. */
  lemma {:induction false} PlainLinesPass(lines: seq<Token>, flags: Flags, lineno: nat)
    requires forall k :: 0 <= k < |lines| ==> !IsConditional(lines[k].kind)
    ensures Strip(lines, flags, lineno, []) == Ok(lines)
    decreases |lines|
  {
    if lines != [] {
      PlainLinesPass(lines[1..], flags, lineno + 1);
      assert [lines[0]] + lines[1..] == lines;
    }
  }
}
