/**
 The recovering parser.  It follows the plans of the grammar over a token stream that
 ends in its only end token; whatever it meets, it terminates, stays in the stream, and
 reports whatever it cannot accept.  It accepts exactly what the grammar prints.
*/
module Parser {
  import opened Wrappers
  import opened Lexer
  import opened Grammar
  import Language

  datatype Problem = Expected(span: Span) | UnsupportedItem(span: Span) | Trailing(span: Span)

  /** The stream ends in its only end token. */
  predicate Ended(tokens: seq<Token>) {
    tokens != [] && forall i | 0 <= i < |tokens| :: tokens[i].kind.End? <==> i == |tokens| - 1
  }

  function Kinds(tokens: seq<Token>): (r: seq<TokenKind>)
    ensures |r| == |tokens|
  {
    KindsOf(tokens)
  }

  /** The tokens `ks` stand in the stream from i on. */
  predicate StandsAt(kinds: seq<TokenKind>, i: nat, ks: seq<TokenKind>) {
    i + |ks| <= |kinds| && kinds[i..i + |ks|] == ks
  }

  lemma StandsApart(kinds: seq<TokenKind>, i: nat, a: seq<TokenKind>, b: seq<TokenKind>)
    ensures StandsAt(kinds, i, a + b) <==> StandsAt(kinds, i, a) && StandsAt(kinds, i + |a|, b)
  {
    var ks := a + b;
    if StandsAt(kinds, i, ks) {
      assert kinds[i..i + |a|] == kinds[i..i + |ks|][..|a|];
      assert kinds[i + |a|..i + |ks|] == kinds[i..i + |ks|][|a|..];
    }
    if StandsAt(kinds, i, a) && StandsAt(kinds, i + |a|, b) {
      assert kinds[i..i + |ks|] == kinds[i..i + |a|] + kinds[i + |a|..i + |ks|];
    }
  }

  lemma StandsFirst(kinds: seq<TokenKind>, i: nat, k: TokenKind, rest: seq<TokenKind>)
    ensures StandsAt(kinds, i, [k] + rest) <==> i < |kinds| && kinds[i] == k && StandsAt(kinds, i + 1, rest)
  {
    StandsApart(kinds, i, [k], rest);
    assert i < |kinds| ==> kinds[i..i + 1] == [kinds[i]];
  }

  /** A declaration that has been followed to its end. */
  datatype Followed = Followed(values: seq<Value>, items: seq<Node>)

  /** The plan's tokens, for the values from the n-th on, stand at i. */
  ghost predicate PlanStandsAt(kinds: seq<TokenKind>, i: nat, plan: Plan, f: Followed, n: nat) {
    var printed := PrintPlan(plan, f.values, n, f.items);
    printed.Some? && StandsAt(kinds, i, printed.value)
  }

  function PlanLength(plan: Plan, f: Followed, n: nat): nat {
    var printed := PrintPlan(plan, f.values, n, f.items);
    if printed.Some? then |printed.value| else 0
  }

  ghost predicate ItemsStandAt(kinds: seq<TokenKind>, i: nat, context: Context, items: seq<Node>) {
    var printed := PrintItems(context, items);
    printed.Some? && StandsAt(kinds, i, printed.value)
  }

  function ItemsLength(context: Context, items: seq<Node>): nat {
    var printed := PrintItems(context, items);
    if printed.Some? then |printed.value| else 0
  }

  ghost predicate NodeStandsAt(kinds: seq<TokenKind>, i: nat, context: Context, node: Node) {
    var printed := PrintNode(context, node);
    printed.Some? && StandsAt(kinds, i, printed.value)
  }

  function NodeLength(context: Context, node: Node): nat {
    var printed := PrintNode(context, node);
    if printed.Some? then |printed.value| else 0
  }

  // --- How the plans unfold over a stream --------------------------------------

  predicate Fits(part: Part, kind: TokenKind) {
    match part
    case Keyword(word) => kind == Word(word)
    case Mark(k) => kind == k && !k.End?
    case Capture(sort) => Admits(sort, kind)
  }

  /** The values once a part has been read. */
  function Extended(part: Part, values: seq<Value>, kind: TokenKind): seq<Value> {
    if part.Capture? then values + [Captured(kind)] else values
  }

  lemma ThenStands(kinds: seq<TokenKind>, i: nat, part: Part, rest: Plan, taken: seq<Value>, f: Followed)
    requires i < |kinds| && taken <= f.values
    ensures PlanStandsAt(kinds, i, Then(part, rest), f, |taken|) <==>
            && Fits(part, kinds[i]) && Extended(part, taken, kinds[i]) <= f.values
            && PlanStandsAt(kinds, i + 1, rest, f, |Extended(part, taken, kinds[i])|)
    ensures PlanStandsAt(kinds, i, Then(part, rest), f, |taken|) ==>
              PlanLength(Then(part, rest), f, |taken|) == 1 + PlanLength(rest, f, |Extended(part, taken, kinds[i])|)
  {
    var n := |taken|;
    match part {
      case Keyword(word) =>
        var printed := PrintPlan(rest, f.values, n, f.items);
        if printed.Some? {
          StandsFirst(kinds, i, Word(word), printed.value);
        }
      case Mark(kind) =>
        var printed := PrintPlan(rest, f.values, n, f.items);
        if printed.Some? {
          StandsFirst(kinds, i, kind, printed.value);
        }
      case Capture(sort) =>
        var printed := PrintPlan(rest, f.values, n + 1, f.items);
        if n < |f.values| {
          assert taken + [f.values[n]] <= f.values;
          if printed.Some? && f.values[n].Captured? {
            StandsFirst(kinds, i, f.values[n].kind, printed.value);
          }
        }
        if Extended(part, taken, kinds[i]) <= f.values {
          assert f.values[n] == Extended(part, taken, kinds[i])[n] == Captured(kinds[i]);
        }
    }
  }

  lemma {:induction false} PlansAreNotEmpty(plan: Plan, values: seq<Value>, n: nat, items: seq<Node>)
    requires PrintPlan(plan, values, n, items).Some?
    ensures PrintPlan(plan, values, n, items).value != []
    decreases plan
  {
    match plan {
      case Finish =>
      case Then(part, rest) =>
      case IfKeyword(word, yes, no) =>
      case OnValue(index, word, yes, no) =>
        if index < n <= |values| && Reads(values[index], word) {
          PlansAreNotEmpty(yes, values, n, items);
        } else {
          PlansAreNotEmpty(no, values, n, items);
        }
      case Open(context) =>
      case _ =>
    }
  }

  lemma IfStands(kinds: seq<TokenKind>, i: nat, word: string, yes: Plan, no: Plan, taken: seq<Value>, f: Followed)
    requires i < |kinds| && taken <= f.values
    ensures var hit := kinds[i] == Word(word);
            var more := taken + [Choice(hit)];
            var next, plan := if hit then i + 1 else i, if hit then yes else no;
            && (PlanStandsAt(kinds, i, IfKeyword(word, yes, no), f, |taken|) <==>
                more <= f.values && PlanStandsAt(kinds, next, plan, f, |more|))
            && (PlanStandsAt(kinds, i, IfKeyword(word, yes, no), f, |taken|) ==>
                PlanLength(IfKeyword(word, yes, no), f, |taken|) == next - i + PlanLength(plan, f, |more|))
  {
    var n := |taken|;
    var hit := kinds[i] == Word(word);
    if n < |f.values| {
      assert taken + [f.values[n]] <= f.values;
      var a, b := PrintPlan(yes, f.values, n + 1, f.items), PrintPlan(no, f.values, n + 1, f.items);
      if a.Some? {
        StandsFirst(kinds, i, Word(word), a.value);
      }
      if b.Some? {
        PlansAreNotEmpty(no, f.values, n + 1, f.items);
        StandsFirst(kinds, i, b.value[0], b.value[1..]);
        assert [b.value[0]] + b.value[1..] == b.value;
      }
    }
    if taken + [Choice(hit)] <= f.values {
      assert f.values[n] == (taken + [Choice(hit)])[n] == Choice(hit);
    }
  }

  lemma FinishStands(kinds: seq<TokenKind>, i: nat, taken: seq<Value>, f: Followed)
    requires i < |kinds| && taken <= f.values
    ensures PlanStandsAt(kinds, i, Finish, f, |taken|) <==> f == Followed(taken, []) && kinds[i] == Semicolon
    ensures PlanStandsAt(kinds, i, Finish, f, |taken|) ==> PlanLength(Finish, f, |taken|) == 1
  {
    StandsFirst(kinds, i, Semicolon, []);
    assert [Semicolon] + [] == [Semicolon];
    assert |f.values| == |taken| ==> f.values == taken;
  }

  lemma OpenStands(kinds: seq<TokenKind>, i: nat, context: Context, taken: seq<Value>, f: Followed)
    requires i < |kinds| && taken <= f.values
    ensures PlanStandsAt(kinds, i, Open(context), f, |taken|) <==>
            && f.values == taken && kinds[i] == LeftBrace && ItemsStandAt(kinds, i + 1, context, f.items)
            && StandsAt(kinds, i + 1 + ItemsLength(context, f.items), [RightBrace])
    ensures PlanStandsAt(kinds, i, Open(context), f, |taken|) ==>
              PlanLength(Open(context), f, |taken|) == ItemsLength(context, f.items) + 2
  {
    var inside := PrintItems(context, f.items);
    if inside.Some? {
      StandsFirst(kinds, i, LeftBrace, inside.value + [RightBrace]);
      StandsApart(kinds, i + 1, inside.value, [RightBrace]);
      assert [LeftBrace] + (inside.value + [RightBrace]) == [LeftBrace] + inside.value + [RightBrace];
    }
    assert |f.values| == |taken| ==> f.values == taken;
  }

  /** Items print one after the other. */
  lemma {:induction false} ItemsAppend(context: Context, items: seq<Node>, node: Node)
    ensures PrintItems(context, items + [node]).Some? <==>
            PrintItems(context, items).Some? && PrintNode(context, node).Some?
    ensures PrintItems(context, items + [node]).Some? ==>
              PrintItems(context, items + [node]).value
              == PrintItems(context, items).value + PrintNode(context, node).value
  {
    if items == [] {
      assert [] + [node] == [node] && [node][1..] == [];
    } else {
      assert (items + [node])[1..] == items[1..] + [node];
      ItemsAppend(context, items[1..], node);
    }
  }

  lemma ItemsStandAppend(kinds: seq<TokenKind>, i: nat, context: Context, items: seq<Node>, node: Node)
    ensures ItemsStandAt(kinds, i, context, items + [node]) <==>
            ItemsStandAt(kinds, i, context, items) && NodeStandsAt(kinds, i + ItemsLength(context, items), context, node)
    ensures ItemsStandAt(kinds, i, context, items + [node]) ==>
              ItemsLength(context, items + [node]) == ItemsLength(context, items) + NodeLength(context, node)
  {
    ItemsAppend(context, items, node);
    var a, b := PrintItems(context, items), PrintNode(context, node);
    if a.Some? && b.Some? {
      StandsApart(kinds, i, a.value, b.value);
    }
  }

  lemma ItemsStandFirst(kinds: seq<TokenKind>, i: nat, context: Context, items: seq<Node>)
    requires items != []
    ensures ItemsStandAt(kinds, i, context, items) <==>
            && NodeStandsAt(kinds, i, context, items[0])
            && ItemsStandAt(kinds, i + NodeLength(context, items[0]), context, items[1..])
    ensures ItemsStandAt(kinds, i, context, items) ==>
              ItemsLength(context, items) == NodeLength(context, items[0]) + ItemsLength(context, items[1..])
  {
    var a, b := PrintNode(context, items[0]), PrintItems(context, items[1..]);
    if a.Some? && b.Some? {
      StandsApart(kinds, i, a.value, b.value);
    }
  }

  lemma NoItemsStand(kinds: seq<TokenKind>, i: nat, context: Context)
    requires i <= |kinds|
    ensures ItemsStandAt(kinds, i, context, []) && ItemsLength(context, []) == 0
  {
  }

  lemma NodeStands(kinds: seq<TokenKind>, i: nat, context: Context, node: Node)
    requires i < |kinds|
    ensures NodeStandsAt(kinds, i, context, node) <==>
            && kinds[i] == Word(node.keyword) && PlanFor(context, node.keyword).Some?
            && PlanStandsAt(kinds, i + 1, PlanFor(context, node.keyword).value, Followed(node.values, node.items), 0)
    ensures NodeStandsAt(kinds, i, context, node) ==>
              NodeLength(context, node)
              == 1 + PlanLength(PlanFor(context, node.keyword).value, Followed(node.values, node.items), 0)
  {
    hide PlanFor;
    var plan := PlanFor(context, node.keyword);
    if plan.Some? {
      var printed := PrintPlan(plan.value, node.values, 0, node.items);
      if printed.Some? {
        StandsFirst(kinds, i, Word(node.keyword), printed.value);
      }
    }
  }

  // --- Recovery ---------------------------------------------------------------

  /** Opening less closing braces among the tokens from `start` up to `n`. */
  function Balance(tokens: seq<Token>, start: nat, n: nat): int
    requires start <= n <= |tokens|
  {
    if start == n then 0
    else
      Balance(tokens, start, n - 1)
      + (if tokens[n - 1].kind.LeftBrace? then 1 else if tokens[n - 1].kind.RightBrace? then -1 else 0)
  }

  /** The token at `k` ends an item that starts at `start`. */
  ghost predicate EndsItem(tokens: seq<Token>, start: nat, k: nat)
    requires start <= k < |tokens|
  {
    (tokens[k].kind.Semicolon? || tokens[k].kind.RightBrace?) && Balance(tokens, start, k + 1) == 0
  }

  ghost predicate StopsAfter(tokens: seq<Token>, start: nat, n: nat)
    requires start <= n < |tokens|
  {
    || tokens[n].kind.End?
    || (tokens[n].kind.RightBrace? && Balance(tokens, start, n) == 0)
    || (n > start && EndsItem(tokens, start, n - 1) && (tokens[n - 1].kind.RightBrace? ==> !tokens[n].kind.Semicolon?))
  }

  /** The token at `k` lies inside the item. */
  ghost predicate InsideItem(tokens: seq<Token>, start: nat, k: nat)
    requires start <= k < |tokens|
  {
    !tokens[k].kind.End? && (tokens[k].kind.RightBrace? ==> Balance(tokens, start, k) > 0) && !EndsItem(tokens, start, k)
  }

  /** The token at `k` is skipped: it closes nothing outside, and ends no item but the one skipped. */
  ghost predicate GoesOn(tokens: seq<Token>, start: nat, k: nat, n: nat)
    requires start <= k < n <= |tokens|
  {
    && !tokens[k].kind.End? && (tokens[k].kind.RightBrace? ==> Balance(tokens, start, k) > 0)
    && (EndsItem(tokens, start, k) ==>
          k + 1 == n || (k + 2 == n && tokens[k].kind.RightBrace? && tokens[k + 1].kind.Semicolon?))
  }

  lemma InsideGoesOn(tokens: seq<Token>, start: nat, m: nat, n: nat)
    requires start <= m <= n <= |tokens| && forall k | start <= k < m :: InsideItem(tokens, start, k)
    ensures forall k | start <= k < m :: GoesOn(tokens, start, k, n)
  {
    forall k | start <= k < m ensures GoesOn(tokens, start, k, n) {
      assert InsideItem(tokens, start, k);
    }
  }

  // --- The parser -------------------------------------------------------------

  class Parser {
    const tokens: seq<Token>
    var cursor: nat
    var diagnostics: seq<Problem>

    ghost predicate Valid()
      reads this
    {
      cursor < |tokens| && Ended(tokens)
    }

    constructor (stream: seq<Token>)
      requires Ended(stream)
      ensures Valid() && tokens == stream && cursor == 0 && diagnostics == []
    {
      tokens, cursor, diagnostics := stream, 0, [];
    }

    function Current(): (k: TokenKind)
      requires Valid()
      reads this
      ensures k == Kinds(tokens)[cursor] && (k.End? <==> cursor == |tokens| - 1)
    {
      tokens[cursor].kind
    }

    method Advance()
      requires Valid()
      modifies `cursor
      ensures Valid() && cursor == if old(Current()).End? then old(cursor) else old(cursor) + 1
    {
      if !Current().End? {
        cursor := cursor + 1;
      }
    }

    method ErrorExpected()
      requires Valid()
      modifies `diagnostics
      ensures Valid() && diagnostics == old(diagnostics) + [Expected(tokens[cursor].span)]
    {
      diagnostics := diagnostics + [Expected(tokens[cursor].span)];
    }

    method UnsupportedHere()
      requires Valid()
      modifies `diagnostics
      ensures Valid() && diagnostics == old(diagnostics) + [UnsupportedItem(tokens[cursor].span)]
    {
      diagnostics := diagnostics + [UnsupportedItem(tokens[cursor].span)];
    }

    /**
     Stops in front of the brace that closes the surrounding block, or after the
     semicolon or the block that ends the item, or at the end; and stops there first.
    */
    method RecoverItem()
      requires Valid()
      modifies `cursor
      ensures Valid() && old(cursor) <= cursor
      ensures !old(Current()).End? && !old(Current()).RightBrace? ==> old(cursor) < cursor
      ensures StopsAfter(tokens, old(cursor), cursor)
      ensures forall k | old(cursor) <= k < cursor :: GoesOn(tokens, old(cursor), k, cursor)
    {
      var depth: nat := 0;
      while !Current().End?
        invariant Valid() && old(cursor) <= cursor
        invariant cursor == old(cursor) ==> depth == 0
        invariant depth == Balance(tokens, old(cursor), cursor)
        invariant forall k | old(cursor) <= k < cursor :: InsideItem(tokens, old(cursor), k)
        decreases |tokens| - cursor
      {
        match Current() {
          case LeftBrace =>
            depth := depth + 1;
            Advance();
          case RightBrace =>
            if depth == 0 {
              InsideGoesOn(tokens, old(cursor), cursor, cursor);
              return;
            }
            depth := depth - 1;
            ghost var last := cursor;
            Advance();
            if depth == 0 {
              assert EndsItem(tokens, old(cursor), last);
              if Current().Semicolon? {
                Advance();
              }
              InsideGoesOn(tokens, old(cursor), last, cursor);
              assert EndsItem(tokens, old(cursor), cursor - 1);
              return;
            }
          case Semicolon =>
            Advance();
            if depth == 0 {
              InsideGoesOn(tokens, old(cursor), cursor - 1, cursor);
              assert EndsItem(tokens, old(cursor), cursor - 1);
              return;
            }
          case _ => Advance();
        }
      }
      InsideGoesOn(tokens, old(cursor), cursor, cursor);
    }

    method RecoverToEnd()
      requires Valid()
      modifies `cursor
      ensures Valid() && cursor == |tokens| - 1
    {
      while !Current().End?
        invariant Valid()
        decreases |tokens| - cursor
      {
        Advance();
      }
    }

    /** Takes one part of a plan, or reports that it is missing. */
    method Expect(part: Part, taken: seq<Value>) returns (values: Option<seq<Value>>)
      requires Valid()
      modifies `cursor, `diagnostics
      ensures Valid() && old(cursor) <= cursor
      ensures if Fits(part, old(Current())) then
                && values == Some(Extended(part, taken, old(Current())))
                && cursor == old(cursor) + 1 && diagnostics == old(diagnostics)
              else
                && values == None && cursor == old(cursor) && |diagnostics| == |old(diagnostics)| + 1
      ensures old(diagnostics) <= diagnostics
    {
      var kind := Current();
      if Fits(part, kind) {
        Advance();
        values := Some(Extended(part, taken, kind));
      } else {
        ErrorExpected();
        values := None;
      }
    }

    /**
     Follows a plan to its end.  Without a new diagnostic, the tokens consumed are what
     the result prints; and if the stream starts with what some declaration prints, that
     declaration is the result.
    */
    method Follow(plan: Plan, taken: seq<Value>, ghost goal: Option<Followed>) returns (r: Option<Followed>)
      requires Valid()
      requires goal.Some? ==>
                 taken <= goal.value.values && PlanStandsAt(Kinds(tokens), cursor, plan, goal.value, |taken|)
      modifies `cursor, `diagnostics
      ensures Valid() && old(cursor) <= cursor && old(diagnostics) <= diagnostics
      ensures r.None? ==> |old(diagnostics)| < |diagnostics|
      ensures |diagnostics| == |old(diagnostics)| ==>
                && r.Some? && taken <= r.value.values
                && PlanStandsAt(Kinds(tokens), old(cursor), plan, r.value, |taken|)
                && cursor == old(cursor) + PlanLength(plan, r.value, |taken|)
      ensures goal.Some? ==> |diagnostics| == |old(diagnostics)| && r == goal
      decreases |tokens| - cursor, 2, plan
    {
      hide PlanStandsAt, PlanLength, ItemsStandAt, ItemsLength, StandsAt, Fits, Extended, Reads, Kinds, Ended;
      ghost var kinds, start := Kinds(tokens), cursor;
      match plan {
        case Finish =>
          if goal.Some? {
            FinishStands(kinds, start, taken, goal.value);
          }
          FinishStands(kinds, start, taken, Followed(taken, []));
          if Current().Semicolon? {
            Advance();
            r := Some(Followed(taken, []));
          } else {
            ErrorExpected();
            RecoverItem();
            r := None;
          }
        case Then(part, rest) =>
          if goal.Some? {
            ThenStands(kinds, start, part, rest, taken, goal.value);
          }
          var values := Expect(part, taken);
          if values.None? {
            return None;
          }
          r := Follow(rest, values.value, goal);
          ExtendedKeeps(part, taken, kinds[start]);
          if r.Some? && taken <= r.value.values {
            ThenStands(kinds, start, part, rest, taken, r.value);
          }
        case IfKeyword(word, yes, no) =>
          if goal.Some? {
            IfStands(kinds, start, word, yes, no, taken, goal.value);
          }
          if Current() == Word(word) {
            Advance();
            r := Follow(yes, taken + [Choice(true)], goal);
          } else {
            r := Follow(no, taken + [Choice(false)], goal);
          }
          if r.Some? && taken <= r.value.values {
            IfStands(kinds, start, word, yes, no, taken, r.value);
          }
        case OnValue(index, word, yes, no) =>
          if goal.Some? {
            OnValueStands(kinds, start, index, word, yes, no, taken, goal.value);
          }
          if index < |taken| && Reads(taken[index], word) {
            r := Follow(yes, taken, goal);
          } else {
            r := Follow(no, taken, goal);
          }
          if r.Some? && taken <= r.value.values {
            OnValueStands(kinds, start, index, word, yes, no, taken, r.value);
          }
        case Reject =>
          NothingStands(kinds, start, plan, taken, goal);
          ErrorExpected();
          RecoverItem();
          r := None;
        case Unsupported =>
          NothingStands(kinds, start, plan, taken, goal);
          UnsupportedHere();
          RecoverItem();
          r := None;
        case Open(context) =>
          if goal.Some? {
            OpenStands(kinds, start, context, taken, goal.value);
          }
          if !Current().LeftBrace? {
            ErrorExpected();
            RecoverItem();
            return None;
          }
          Advance();
          var items := ParseItems(context, if goal.Some? then Some(goal.value.items) else None);
          OpenStands(kinds, start, context, taken, Followed(taken, items));
          BraceStands(kinds, cursor);
          if Current().RightBrace? {
            Advance();
            r := Some(Followed(taken, items));
          } else {
            ErrorExpected();
            r := None;
          }
      }
    }

    /**
     Items up to a closing brace or the end; a bad item is reported and skipped, and the
     loop goes on.  Every item consumes a token, so the loop never stands still.
    */
    method ParseItems(context: Context, ghost goal: Option<seq<Node>>) returns (items: seq<Node>)
      requires Valid()
      requires goal.Some? ==>
                 && ItemsStandAt(Kinds(tokens), cursor, context, goal.value)
                 && StandsAt(Kinds(tokens), cursor + ItemsLength(context, goal.value), [RightBrace])
      modifies `cursor, `diagnostics
      ensures Valid() && old(cursor) <= cursor && old(diagnostics) <= diagnostics
      ensures Current().RightBrace? || Current().End?
      ensures |diagnostics| == |old(diagnostics)| ==>
                && ItemsStandAt(Kinds(tokens), old(cursor), context, items)
                && cursor == old(cursor) + ItemsLength(context, items)
      ensures goal.Some? ==> |diagnostics| == |old(diagnostics)| && items == goal.value && Current().RightBrace?
      decreases |tokens| - cursor, 1
    {
      hide ItemsStandAt, ItemsLength, StandsAt, NodeStandsAt, NodeLength, Kinds, Ended, StillToCome;
      ghost var kinds, start := Kinds(tokens), cursor;
      if goal.Some? {
        AllComes(kinds, cursor, context, goal.value);
      }
      ghost var left := if goal.Some? then goal.value else [];
      items := [];
      NoItemsStand(kinds, start, context);
      while !Current().RightBrace? && !Current().End?
        invariant Valid() && start <= cursor && old(diagnostics) <= diagnostics
        invariant |diagnostics| == |old(diagnostics)| ==>
                    ItemsStandAt(kinds, start, context, items) && cursor == start + ItemsLength(context, items)
        invariant goal.Some? ==>
                    |diagnostics| == |old(diagnostics)| && StillToCome(kinds, cursor, context, goal.value, items, left)
        decreases |tokens| - cursor
      {
        ghost var before := cursor;
        if goal.Some? {
          OneComes(kinds, cursor, context, goal.value, items, left);
        }
        var item := ParseItem(context, if goal.Some? then Some(left[0]) else None);
        if item.Some? {
          ItemsStandAppend(kinds, start, context, items, item.value);
          items := items + [item.value];
        }
        left := if goal.Some? then left[1..] else left;
        assert before < cursor;
      }
      if goal.Some? {
        NothingComes(kinds, cursor, context, goal.value, items, left);
      }
    }

    /** One item of a context: its plan if the keyword has one, and else a report. */
    method ParseItem(context: Context, ghost goal: Option<Node>) returns (item: Option<Node>)
      requires Valid() && !Current().RightBrace? && !Current().End?
      requires goal.Some? ==> NodeStandsAt(Kinds(tokens), cursor, context, goal.value)
      modifies `cursor, `diagnostics
      ensures Valid() && old(cursor) < cursor && old(diagnostics) <= diagnostics
      ensures item.None? ==> |old(diagnostics)| < |diagnostics|
      ensures |diagnostics| == |old(diagnostics)| ==>
                && item.Some? && NodeStandsAt(Kinds(tokens), old(cursor), context, item.value)
                && cursor == old(cursor) + NodeLength(context, item.value)
      ensures goal.Some? ==> |diagnostics| == |old(diagnostics)| && item == goal
      decreases |tokens| - cursor, 0
    {
      hide NodeStandsAt, NodeLength, PlanStandsAt, PlanLength, PlanFor, Kinds, Ended;
      ghost var kinds, start := Kinds(tokens), cursor;
      if goal.Some? {
        NodeStands(kinds, start, context, goal.value);
      }
      var kind := Current();
      if kind.Word? && PlanFor(context, kind.text).Some? {
        Advance();
        var followed := Follow(PlanFor(context, kind.text).value, [],
                               if goal.Some? then Some(Followed(goal.value.values, goal.value.items)) else None);
        if followed.None? {
          return None;
        }
        var node := Node(kind.text, followed.value.values, followed.value.items);
        NodeStands(kinds, start, context, node);
        item := Some(node);
      } else {
        UnsupportedHere();
        RecoverItem();
        item := None;
      }
    }

    /** The whole design; what comes after it is reported and skipped. */
    method ParseDesign(ghost goal: Option<Design>) returns (r: Option<Design>)
      requires Valid() && cursor == 0 && diagnostics == []
      requires goal.Some? ==> DesignStands(Kinds(tokens), goal.value)
      modifies this
      ensures Valid()
      ensures r.None? ==> diagnostics != []
      ensures diagnostics == [] ==> r.Some? && DesignStands(Kinds(tokens), r.value) && cursor == |tokens| - 1
      ensures goal.Some? ==> diagnostics == [] && r == goal
    {
      hide DesignStands, ItemsStandAt, ItemsLength, StandsAt, Kinds, Ended;
      ghost var kinds := Kinds(tokens);
      if goal.Some? {
        DesignMeans(kinds, goal.value);
      }
      r := None;
      if Current() != Word("design") {
        ErrorExpected();
        RecoverToEnd();
        return;
      }
      Advance();
      var name := Current();
      if !Admits(Name, name) {
        ErrorExpected();
        return;
      }
      Advance();
      if !Current().LeftBrace? {
        ErrorExpected();
        RecoverToEnd();
        return;
      }
      Advance();
      var declarations := ParseItems(DesignItems, if goal.Some? then Some(goal.value.declarations) else None);
      BraceStands(kinds, cursor);
      if Current().RightBrace? {
        Advance();
      } else {
        ErrorExpected();
      }
      if !Current().End? {
        diagnostics := diagnostics + [Trailing(tokens[cursor].span)];
        RecoverToEnd();
      }
      r := Some(Design(name, declarations));
      if diagnostics == [] {
        DesignMeans(kinds, r.value);
      }
    }
  }

  /** The stream is what the design prints, and the end. */
  ghost predicate DesignStands(kinds: seq<TokenKind>, design: Design) {
    var printed := PrintDesign(design);
    printed.Some? && kinds == printed.value + [End]
  }

  lemma DesignMeans(kinds: seq<TokenKind>, design: Design)
    requires |kinds| >= 1
    ensures var n := 3 + ItemsLength(DesignItems, design.declarations);
            DesignStands(kinds, design) <==>
              && |kinds| == n + 2 && kinds[0] == Word("design") && kinds[1] == design.name && Admits(Name, design.name)
              && kinds[2] == LeftBrace && ItemsStandAt(kinds, 3, DesignItems, design.declarations)
              && StandsAt(kinds, n, [RightBrace]) && kinds[n] == RightBrace && kinds[n + 1] == End
  {
    var inside := PrintItems(DesignItems, design.declarations);
    if inside.Some? {
      var n := 3 + |inside.value|;
      var front := [Word("design"), design.name, LeftBrace];
      var all := front + inside.value + [RightBrace] + [End];
      if |kinds| == n + 2 {
        assert kinds == kinds[..3] + kinds[3..n] + [kinds[n]] + [kinds[n + 1]];
        assert kinds[..3] == [kinds[0], kinds[1], kinds[2]];
        BraceStands(kinds, n);
      }
      assert all[..3] == front && all[3..n] == inside.value && all[n] == RightBrace && all[n + 1] == End;
    }
  }

  lemma ExtendedKeeps(part: Part, taken: seq<Value>, kind: TokenKind)
    ensures taken <= Extended(part, taken, kind)
  {
  }

  lemma OnValueStands(kinds: seq<TokenKind>, i: nat, index: nat, word: string, yes: Plan, no: Plan, taken: seq<Value>,
                      f: Followed)
    requires taken <= f.values
    ensures var plan := if index < |taken| && Reads(taken[index], word) then yes else no;
            && (PlanStandsAt(kinds, i, OnValue(index, word, yes, no), f, |taken|) <==>
                PlanStandsAt(kinds, i, plan, f, |taken|))
            && PlanLength(OnValue(index, word, yes, no), f, |taken|) == PlanLength(plan, f, |taken|)
  {
    assert index < |taken| ==> f.values[index] == taken[index];
  }

  lemma NothingStands(kinds: seq<TokenKind>, i: nat, plan: Plan, taken: seq<Value>, goal: Option<Followed>)
    requires plan.Reject? || plan.Unsupported?
    requires goal.Some? ==> PlanStandsAt(kinds, i, plan, goal.value, |taken|)
    ensures goal.None?
  {
  }

  lemma BraceStands(kinds: seq<TokenKind>, i: nat)
    requires i < |kinds|
    ensures StandsAt(kinds, i, [RightBrace]) <==> kinds[i] == RightBrace
  {
    assert kinds[i..i + 1] == [kinds[i]];
  }

  /** Of the wanted items, `items` have been read and `left` stand in the stream, with a brace behind them. */
  ghost predicate StillToCome(kinds: seq<TokenKind>, i: nat, context: Context, wanted: seq<Node>, items: seq<Node>,
                              left: seq<Node>) {
    && wanted == items + left
    && ItemsStandAt(kinds, i, context, left) && StandsAt(kinds, i + ItemsLength(context, left), [RightBrace])
  }

  lemma AllComes(kinds: seq<TokenKind>, i: nat, context: Context, wanted: seq<Node>)
    requires ItemsStandAt(kinds, i, context, wanted) && StandsAt(kinds, i + ItemsLength(context, wanted), [RightBrace])
    ensures StillToCome(kinds, i, context, wanted, [], wanted)
  {
  }

  /** While the stream is not at the brace, there is an item left. */
  lemma OneComes(kinds: seq<TokenKind>, i: nat, context: Context, wanted: seq<Node>, items: seq<Node>, left: seq<Node>)
    requires i < |kinds| && kinds[i] != RightBrace && StillToCome(kinds, i, context, wanted, items, left)
    ensures left != [] && NodeStandsAt(kinds, i, context, left[0])
    ensures StillToCome(kinds, i + NodeLength(context, left[0]), context, wanted, items + [left[0]], left[1..])
  {
    hide ItemsStandAt, StandsAt, NodeStandsAt, NodeLength, ItemsLength;
    if left == [] {
      NoItemsStand(kinds, i, context);
      BraceStands(kinds, i);
    } else {
      ItemsStandFirst(kinds, i, context, left);
      assert items + left == items + [left[0]] + left[1..];
    }
  }

  /** At the brace, no item is left; at the end, the brace would still have to come. */
  lemma NothingComes(kinds: seq<TokenKind>, i: nat, context: Context, wanted: seq<Node>, items: seq<Node>,
                     left: seq<Node>)
    requires i < |kinds| && (kinds[i] == RightBrace || kinds[i] == End)
    requires StillToCome(kinds, i, context, wanted, items, left)
    ensures items == wanted && kinds[i] == RightBrace
  {
    hide StandsAt, NodeStandsAt, NodeLength, ItemsLength, ItemsStandAt;
    if left != [] {
      ItemsStandFirst(kinds, i, context, left);
      NodeStands(kinds, i, context, left[0]);
    } else {
      NoItemsStand(kinds, i, context);
      BraceStands(kinds, i);
    }
  }

  // --- Acceptance -------------------------------------------------------------

  /**
   Parsing a token stream: it succeeds exactly for the streams that some design prints,
   and every failure is reported.
  */
  method ParseTokens(tokens: seq<Token>) returns (r: Result<Design, seq<Problem>>)
    requires Ended(tokens)
    ensures r.Success? <==> exists d :: DesignStands(Kinds(tokens), d)
    ensures r.Success? <==> Language.IsSource(Kinds(tokens[..|tokens| - 1]))
    ensures r.Success? ==> DesignStands(Kinds(tokens), r.value)
    ensures r.Failure? ==> r.error != []
  {
    hide DesignStands, Language.IsSource;
    StreamIsSource(tokens);
    ghost var goal: Option<Design> := None;
    if exists d :: DesignStands(Kinds(tokens), d) {
      ghost var d :| DesignStands(Kinds(tokens), d);
      goal := Some(d);
    }
    var parser := new Parser(tokens);
    var design := parser.ParseDesign(goal);
    if design.Some? && parser.diagnostics == [] {
      r := Success(design.value);
    } else {
      r := Failure(parser.diagnostics);
    }
  }

  /** The text is the design, printed, with a blank behind every token. */
  ghost predicate IsTextOf(text: string, d: Design) {
    var printed := PrintDesign(d);
    && printed.Some? && (forall i | 0 <= i < |printed.value| :: Spellable(printed.value[i]))
    && text == TextOf(Spelling(printed.value))
  }

  lemma PrintedStands(kinds: seq<TokenKind>, d: Design)
    ensures DesignStands(kinds + [End], d) <==> PrintDesign(d) == Some(kinds)
  {
    var printed := PrintDesign(d);
    if printed.Some? && kinds + [End] == printed.value + [End] {
      assert kinds == (kinds + [End])[..|kinds|] == (printed.value + [End])[..|printed.value|] == printed.value;
    }
  }

  lemma TextMeans(text: string)
    ensures forall chunks | ChunksFit(chunks) && text == TextOf(chunks) ::
              && KindsOf(TokensOf(Pieces(text, 0))) == KindsOf(ChunksTokens(chunks, 0))
              && DiagnosticsOf(Pieces(text, 0)) == ChunksProblems(chunks, 0)
    ensures forall d :: DesignStands(KindsOf(TokensOf(Pieces(text, 0))) + [End], d) <==>
                        PrintDesign(d) == Some(KindsOf(TokensOf(Pieces(text, 0))))
    ensures forall d | IsTextOf(text, d) ::
              && DiagnosticsOf(Pieces(text, 0)) == []
              && PrintDesign(d) == Some(KindsOf(TokensOf(Pieces(text, 0))))
  {
    hide DesignStands, PrintDesign, ChunksFit, TextOf;
    assert text[0..] == text;
    forall chunks | ChunksFit(chunks) && text == TextOf(chunks)
      ensures KindsOf(TokensOf(Pieces(text, 0))) == KindsOf(ChunksTokens(chunks, 0))
      ensures DiagnosticsOf(Pieces(text, 0)) == ChunksProblems(chunks, 0)
    {
      ChunksFound(text, 0, chunks);
    }
    forall d ensures DesignStands(KindsOf(TokensOf(Pieces(text, 0))) + [End], d) <==>
                     PrintDesign(d) == Some(KindsOf(TokensOf(Pieces(text, 0))))
    {
      PrintedStands(KindsOf(TokensOf(Pieces(text, 0))), d);
    }
    forall d | IsTextOf(text, d)
      ensures DiagnosticsOf(Pieces(text, 0)) == []
      ensures PrintDesign(d) == Some(KindsOf(TokensOf(Pieces(text, 0))))
    {
      SpellingIsFound(PrintDesign(d).value, 0);
      ChunksFound(text, 0, Spelling(PrintDesign(d).value));
    }
  }

  lemma StreamIsSource(tokens: seq<Token>)
    requires Ended(tokens)
    ensures (exists d :: DesignStands(Kinds(tokens), d)) <==> Language.IsSource(Kinds(tokens[..|tokens| - 1]))
  {
    hide DesignStands, Language.IsSource;
    var front := tokens[..|tokens| - 1];
    assert Kinds(tokens) == Kinds(front) + [End];
    forall d ensures DesignStands(Kinds(tokens), d) <==> PrintDesign(d) == Some(Kinds(front)) {
      PrintedStands(Kinds(front), d);
    }
    Language.SourcesArePrinted(Kinds(front));
  }

  datatype SourceProblem = Lexical(diagnostic: Diagnostic) | Syntactic(problem: Problem)

  /** Lexing and parsing together. */
  method Parse(text: string) returns (r: Result<Design, seq<SourceProblem>>)
    ensures r.Success? <==>
            && DiagnosticsOf(Pieces(text, 0)) == []
            && exists d :: DesignStands(Kinds(TokensOf(Pieces(text, 0))) + [End], d)
    ensures r.Success? ==> DesignStands(Kinds(TokensOf(Pieces(text, 0))) + [End], r.value)
    ensures r.Failure? ==> r.error != []
    ensures forall chunks | ChunksFit(chunks) && text == TextOf(chunks) ::
              r.Success? <==>
                ChunksProblems(chunks, 0) == [] && Language.IsSource(KindsOf(ChunksTokens(chunks, 0)))
    ensures forall chunks | ChunksFit(chunks) && text == TextOf(chunks) ::
              r.Success? ==> PrintDesign(r.value) == Some(KindsOf(ChunksTokens(chunks, 0)))
    ensures forall d | IsTextOf(text, d) :: r == Success(d)
  {
    hide DesignStands, ChunksFit, TextOf, PrintDesign, IsTextOf, Language.IsSource;
    TextMeans(text);
    Language.SourcesArePrinted(KindsOf(TokensOf(Pieces(text, 0))));
    var tokens, lexical := Lex(text);
    assert Kinds(tokens) == Kinds(TokensOf(Pieces(text, 0))) + [End];
    var parsed := ParseTokens(tokens);
    var problems := seq(|lexical|, i requires 0 <= i < |lexical| => Lexical(lexical[i]));
    match parsed {
      case Success(design) =>
        r := if lexical == [] then Success(design) else Failure(problems);
      case Failure(found) =>
        r := Failure(problems + seq(|found|, i requires 0 <= i < |found| => Syntactic(found[i])));
    }
    forall d | IsTextOf(text, d) ensures r == Success(d) {
      DesignIsUnique(Kinds(TokensOf(Pieces(text, 0))) + [End], d, r.value);
    }
  }

  // --- No stream stands for two designs ---------------------------------------

  lemma {:induction false} FollowedIsUnique(kinds: seq<TokenKind>, i: nat, plan: Plan, taken: seq<Value>, f: Followed,
                                            g: Followed)
    requires i < |kinds| && taken <= f.values && taken <= g.values
    requires PlanStandsAt(kinds, i, plan, f, |taken|) && PlanStandsAt(kinds, i, plan, g, |taken|)
    ensures f == g
    decreases |kinds| - i, 2, plan
  {
    hide PlanStandsAt, PlanLength, ItemsStandAt, ItemsLength, StandsAt, Fits, Extended, Reads;
    match plan {
      case Finish =>
        FinishStands(kinds, i, taken, f);
        FinishStands(kinds, i, taken, g);
      case Then(part, rest) =>
        ThenStands(kinds, i, part, rest, taken, f);
        ThenStands(kinds, i, part, rest, taken, g);
        RestIsInside(kinds, i + 1, rest, f, |Extended(part, taken, kinds[i])|);
        FollowedIsUnique(kinds, i + 1, rest, Extended(part, taken, kinds[i]), f, g);
      case IfKeyword(word, yes, no) =>
        IfStands(kinds, i, word, yes, no, taken, f);
        IfStands(kinds, i, word, yes, no, taken, g);
        if kinds[i] == Word(word) {
          RestIsInside(kinds, i + 1, yes, f, |taken + [Choice(true)]|);
          FollowedIsUnique(kinds, i + 1, yes, taken + [Choice(true)], f, g);
        } else {
          FollowedIsUnique(kinds, i, no, taken + [Choice(false)], f, g);
        }
      case OnValue(index, word, yes, no) =>
        OnValueStands(kinds, i, index, word, yes, no, taken, f);
        OnValueStands(kinds, i, index, word, yes, no, taken, g);
        FollowedIsUnique(kinds, i, if index < |taken| && Reads(taken[index], word) then yes else no, taken, f, g);
      case Open(context) =>
        OpenStands(kinds, i, context, taken, f);
        OpenStands(kinds, i, context, taken, g);
        ItemsAreUnique(kinds, i + 1, context, f.items, g.items);
      case _ =>
        NothingStands(kinds, i, plan, taken, Some(f));
    }
  }

  lemma RestIsInside(kinds: seq<TokenKind>, i: nat, plan: Plan, f: Followed, n: nat)
    requires PlanStandsAt(kinds, i, plan, f, n)
    ensures i < |kinds|
  {
    PlansAreNotEmpty(plan, f.values, n, f.items);
  }

  lemma {:induction false} ItemsAreUnique(kinds: seq<TokenKind>, i: nat, context: Context, a: seq<Node>, b: seq<Node>)
    requires ItemsStandAt(kinds, i, context, a) && StandsAt(kinds, i + ItemsLength(context, a), [RightBrace])
    requires ItemsStandAt(kinds, i, context, b) && StandsAt(kinds, i + ItemsLength(context, b), [RightBrace])
    ensures a == b
    decreases |kinds| - i, 1, Finish
  {
    hide StandsAt, ItemsStandAt, NodeStandsAt, ItemsLength, NodeLength;
    ItemsAreInside(kinds, i, context, a);
    if kinds[i] == RightBrace {
      BraceComes(kinds, i, context, a);
      BraceComes(kinds, i, context, b);
    } else {
      AllComes(kinds, i, context, a);
      AllComes(kinds, i, context, b);
      OneComes(kinds, i, context, a, [], a);
      OneComes(kinds, i, context, b, [], b);
      NodeIsUnique(kinds, i, context, a[0], b[0]);
      NodesAreNotEmpty(context, a[0]);
      ItemsAreUnique(kinds, i + NodeLength(context, a[0]), context, a[1..], b[1..]);
      assert a == [a[0]] + a[1..] && b == [b[0]] + b[1..];
    }
  }

  lemma BraceComes(kinds: seq<TokenKind>, i: nat, context: Context, items: seq<Node>)
    requires i < |kinds| && kinds[i] == RightBrace && ItemsStandAt(kinds, i, context, items)
    ensures items == []
  {
    if items != [] {
      ItemsStandFirst(kinds, i, context, items);
      NodeStands(kinds, i, context, items[0]);
    }
  }

  lemma ItemsAreInside(kinds: seq<TokenKind>, i: nat, context: Context, items: seq<Node>)
    requires StandsAt(kinds, i + ItemsLength(context, items), [RightBrace])
    ensures i < |kinds|
  {
  }

  lemma NodesAreNotEmpty(context: Context, node: Node)
    requires PrintNode(context, node).Some?
    ensures NodeLength(context, node) >= 1
  {
  }

  lemma {:induction false} NodeIsUnique(kinds: seq<TokenKind>, i: nat, context: Context, a: Node, b: Node)
    requires i < |kinds| && NodeStandsAt(kinds, i, context, a) && NodeStandsAt(kinds, i, context, b)
    ensures a == b && PrintNode(context, a).Some?
    decreases |kinds| - i, 0, Finish
  {
    hide PlanStandsAt, PlanFor;
    NodeStands(kinds, i, context, a);
    NodeStands(kinds, i, context, b);
    var plan := PlanFor(context, a.keyword).value;
    RestIsInside(kinds, i + 1, plan, Followed(a.values, a.items), 0);
    FollowedIsUnique(kinds, i + 1, plan, [], Followed(a.values, a.items), Followed(b.values, b.items));
  }

  /** The grammar is unambiguous: a stream stands for at most one design. */
  lemma DesignIsUnique(kinds: seq<TokenKind>, a: Design, b: Design)
    requires DesignStands(kinds, a) && DesignStands(kinds, b)
    ensures a == b
  {
    hide PrintDesign, ItemsStandAt, ItemsLength, StandsAt;
    DesignMeans(kinds, a);
    DesignMeans(kinds, b);
    ItemsAreUnique(kinds, 3, DesignItems, a.declarations, b.declarations);
  }
}
