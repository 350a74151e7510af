/**
 The grammar of docs/language.md, production by production, as lists of symbols.  What
 the grammar prints, and hence what the parser accepts, is exactly the language that the
 productions describe.  Directions, electrical types, layers, units and other names
 with a fixed set of values are names here; they are checked after parsing.
*/
module Language {
  import opened Wrappers
  import opened Lexer
  import opened Grammar

  /** A literal word, any token of a sort, a name that must be this one, or a punctuation mark. */
  datatype Sign = K(word: string) | A(sort: Sort) | W(word: string) | G(kind: TokenKind)

  /** What follows a keyword: signs, and then a semicolon or a block of items. */
  datatype Production = Production(signs: seq<Sign>, block: Option<Context>)

  const NAME: seq<Sign> := [A(Name)]
  const NUMBER: seq<Sign> := [A(Num)]
  const TEXT: seq<Sign> := [A(Text)]
  const QUANTITY: seq<Sign> := [A(Num), A(Name)]
  const POINT: seq<Sign> :=
    [G(LeftParen), A(Num), A(Name), G(Comma), A(Num), A(Name), G(RightParen)]

  function Line(signs: seq<Sign>): seq<Production> {
    [Production(signs, None)]
  }

  function Block(signs: seq<Sign>, context: Context): seq<Production> {
    [Production(signs, Some(context))]
  }

  const PRODUCT: seq<Sign> := [K("manufacturer")] + TEXT + [K("number")] + TEXT + [K("package")] + TEXT

  const TOLERANCES: seq<Sign> :=
    [K("expected")] + QUANTITY + [K("absolute_tolerance")] + QUANTITY + [K("relative_tolerance")] + QUANTITY

  const ASSERTED: seq<Sign> := [K("net_voltage")] + NAME + [K("analysis")] + NAME + [K("net")] + NAME + [K("sample")]

  function Declarations(keyword: string): seq<Production> {
    match keyword
    case "net" => Line(NAME)
    case "ground" => Line(NAME)
    case "module" => Block(NAME, ModuleItems)
    case "resistor" => Block(NAME + NAME, ComponentItems)
    case "dc_source" => Block(NAME + NAME, ComponentItems)
    case "analysis" =>
      Line([W("dc_operating_point")] + NAME)
      + Line([W("ac_linear_sweep")] + NAME + [K("source")] + NAME + [K("points")] + NUMBER
             + [K("start_frequency")] + QUANTITY + [K("stop_frequency")] + QUANTITY
             + [K("magnitude")] + QUANTITY + [K("phase")] + QUANTITY)
      + Line([W("transient")] + NAME + [K("step")] + QUANTITY + [K("stop")] + QUANTITY + [K("start")] + QUANTITY
             + [K("uic")] + NAME)
    case "assert" =>
      Line(ASSERTED + [W("scalar")] + TOLERANCES)
      + Line(ASSERTED + [W("frequency")] + QUANTITY + TOLERANCES)
      + Line(ASSERTED + [W("time")] + QUANTITY + TOLERANCES)
    case "catalog_snapshot" => Line(TEXT + [K("sha256")] + TEXT + [K("evaluated_on")] + TEXT)
    case "variant" => Block(NAME + [K("build_quantity")] + NUMBER, VariantItems)
    case "manufacturability" =>
      Block(NAME + [K("adapter")] + TEXT + [K("version")] + TEXT, ManufacturabilityItems)
    case "board" => Block([], BoardItems)
    case _ => []
  }

  function ComponentLines(keyword: string): seq<Production> {
    match keyword
    case "part" => Line(TEXT + [K("virtual")]) + Line(TEXT + PRODUCT)
    case "lifecycle" => Line(NAME)
    case "sourcing" =>
      Line([K("minimum_available")] + NUMBER + [K("maximum_lead_time_days")] + NUMBER + [K("region")] + TEXT)
    case "substitute" => Line(PRODUCT)
    case "symbol" => Block(TEXT, SymbolItems)
    case "model" => Line(TEXT)
    case "schematic" => Line([K("at")] + POINT + [K("rotation")] + NUMBER + [K("deg")])
    case "resistance" => Line(QUANTITY)
    case "voltage" => Line(QUANTITY)
    case "terminals" => Line(NAME + NAME)
    case "connect" => Line(NAME + NAME)
    case "no_connect" => Line(NAME)
    case "footprint" => Block(TEXT, FootprintItems)
    case _ => []
  }

  function VariantLines(keyword: string): seq<Production> {
    match keyword
    case "fit" => Line(NAME)
    case "not_fitted" => Line(NAME)
    case "alternate" => Line(NAME + PRODUCT)
    case "configure" => Line(NAME + TEXT)
    case _ => []
  }

  function BoardLines(keyword: string): seq<Production> {
    match keyword
    case "rectangle" => Line([K("at")] + POINT + [K("size")] + POINT)
    case "place" =>
      Line(NAME + [K("at")] + POINT + [K("rotation")] + NUMBER + [K("deg"), K("layer")] + NAME)
    case "route" =>
      Line(NAME + [K("net")] + NAME + [K("from")] + POINT + [K("to")] + POINT + [K("width")] + QUANTITY
           + [K("layer")] + NAME)
    case "autoroute" =>
      Line(NAME + [K("net")] + NAME + [K("width")] + QUANTITY + [K("clearance")] + QUANTITY
           + [K("grid")] + QUANTITY + [K("layer")] + NAME)
    case _ => []
  }

  /** The productions for a keyword in a block. */
  function Productions(context: Context, keyword: string): seq<Production> {
    match context
    case DesignItems => Declarations(keyword)
    case ModuleItems =>
      if keyword == "port" then
        Line(NAME + NAME + NAME + [K("connect")] + NAME) + Line(NAME + NAME + NAME + [K("no_connect")])
      else []
    case ComponentItems => ComponentLines(keyword)
    case SymbolItems => if keyword == "bind" then Line(NAME + NAME + NAME) else []
    case FootprintItems => if keyword == "bind" then Line(NAME + NAME) else []
    case VariantItems => VariantLines(keyword)
    case ManufacturabilityItems => if keyword == "assert" then Line(NAME + [K("capability")] + NAME) else []
    case BoardItems => BoardLines(keyword)
  }

  // --- The language --------------------------------------------------------------

  /** A token of the sort: a name may be written like a number, a number may not be anything else. */
  predicate OfSort(sort: Sort, kind: TokenKind) {
    match sort
    case Name => kind.Word? || kind.Number?
    case Num => kind.Number?
    case Text => kind.String?
  }

  predicate Stands(sign: Sign, kind: TokenKind) {
    match sign
    case K(word) => kind == Word(word)
    case A(sort) => OfSort(sort, kind)
    case W(word) => kind == Word(word) || kind == Number(word)
    case G(mark) => kind == mark
  }

  predicate AllStand(signs: seq<Sign>, kinds: seq<TokenKind>) {
    |signs| == |kinds| && forall i | 0 <= i < |signs| :: Stands(signs[i], kinds[i])
  }

  /** The tokens are what the production says. */
  ghost predicate Follows(p: Production, kinds: seq<TokenKind>)
    decreases |kinds|, 0
  {
    var n := |p.signs|;
    && n < |kinds| && AllStand(p.signs, kinds[..n])
    && match p.block
       case None => kinds[n..] == [Semicolon]
       case Some(context) =>
         && n + 2 <= |kinds| && kinds[n] == LeftBrace && kinds[|kinds| - 1] == RightBrace
         && AreItems(context, kinds[n + 1..|kinds| - 1])
  }

  ghost predicate IsItem(context: Context, kinds: seq<TokenKind>)
    decreases |kinds|, 1
  {
    && kinds != [] && kinds[0].Word?
    && exists p :: p in Productions(context, kinds[0].text) && Follows(p, kinds[1..])
  }

  ghost predicate AreItems(context: Context, kinds: seq<TokenKind>)
    decreases |kinds|, 2
  {
    || kinds == []
    || exists n :: 0 < n <= |kinds| && IsItem(context, kinds[..n]) && AreItems(context, kinds[n..])
  }

  /** A source text, as tokens. */
  ghost predicate IsSource(kinds: seq<TokenKind>) {
    && |kinds| >= 4 && kinds[0] == Word("design") && OfSort(Name, kinds[1])
    && kinds[2] == LeftBrace && kinds[|kinds| - 1] == RightBrace
    && AreItems(DesignItems, kinds[3..|kinds| - 1])
  }

  // --- What a plan prints ----------------------------------------------------------

  /** Some values and items, starting with what has been taken, print as these tokens. */
  ghost predicate Prints(plan: Plan, taken: seq<Value>, kinds: seq<TokenKind>) {
    exists values, items :: taken <= values && PrintPlan(plan, values, |taken|, items) == Some(kinds)
  }

  ghost predicate ItemsPrint(context: Context, kinds: seq<TokenKind>) {
    exists items :: PrintItems(context, items) == Some(kinds)
  }

  ghost predicate NodePrints(context: Context, kinds: seq<TokenKind>) {
    exists node :: PrintNode(context, node) == Some(kinds)
  }

  function SignOf(part: Part): Sign {
    match part
    case Keyword(word) => K(word)
    case Capture(sort) => A(sort)
    case Mark(kind) => G(kind)
  }

  /** What has been taken once a part has been read. */
  function Taken(part: Part, taken: seq<Value>, kind: TokenKind): seq<Value> {
    if part.Capture? then taken + [Captured(kind)] else taken
  }

  predicate IsMark(part: Part) {
    part.Mark? ==> !part.kind.End?
  }

  lemma ThenPrints(part: Part, rest: Plan, taken: seq<Value>, kinds: seq<TokenKind>)
    requires IsMark(part)
    ensures Prints(Then(part, rest), taken, kinds) <==>
            kinds != [] && Stands(SignOf(part), kinds[0]) && Prints(rest, Taken(part, taken, kinds[0]), kinds[1..])
  {
    var plan := Then(part, rest);
    if Prints(plan, taken, kinds) {
      var values: seq<Value>, items :| taken <= values && PrintPlan(plan, values, |taken|, items) == Some(kinds);
      var n := if part.Capture? then |taken| + 1 else |taken|;
      var printed := PrintPlan(rest, values, n, items);
      assert printed.Some? && kinds == [kinds[0]] + printed.value;
      assert kinds[1..] == printed.value;
      assert Taken(part, taken, kinds[0]) <= values && |Taken(part, taken, kinds[0])| == n;
    }
    if kinds != [] && Stands(SignOf(part), kinds[0]) && Prints(rest, Taken(part, taken, kinds[0]), kinds[1..]) {
      var more := Taken(part, taken, kinds[0]);
      var values: seq<Value>, items :| more <= values && PrintPlan(rest, values, |more|, items) == Some(kinds[1..]);
      assert part.Capture? ==> values[|taken|] == more[|taken|];
      assert taken <= more <= values;
      assert [kinds[0]] + kinds[1..] == kinds;
      assert PrintPlan(plan, values, |taken|, items) == Some(kinds);
    }
  }

  lemma FinishPrints(taken: seq<Value>, kinds: seq<TokenKind>)
    ensures Prints(Finish, taken, kinds) <==> kinds == [Semicolon]
  {
    if kinds == [Semicolon] {
      assert PrintPlan(Finish, taken, |taken|, []) == Some(kinds);
    }
  }

  lemma OpenPrints(context: Context, taken: seq<Value>, kinds: seq<TokenKind>)
    ensures Prints(Open(context), taken, kinds) <==>
            && |kinds| >= 2 && kinds[0] == LeftBrace && kinds[|kinds| - 1] == RightBrace
            && ItemsPrint(context, kinds[1..|kinds| - 1])
  {
    if Prints(Open(context), taken, kinds) {
      var values: seq<Value>, items :| taken <= values && PrintPlan(Open(context), values, |taken|, items) == Some(kinds);
      var inside := PrintItems(context, items);
      assert kinds == [LeftBrace] + inside.value + [RightBrace];
      assert kinds[1..|kinds| - 1] == inside.value;
    }
    if |kinds| >= 2 && kinds[0] == LeftBrace && kinds[|kinds| - 1] == RightBrace
       && ItemsPrint(context, kinds[1..|kinds| - 1]) {
      var items :| PrintItems(context, items) == Some(kinds[1..|kinds| - 1]);
      assert kinds == [LeftBrace] + kinds[1..|kinds| - 1] + [RightBrace];
      assert PrintPlan(Open(context), taken, |taken|, items) == Some(kinds);
    }
  }

  lemma IfPrints(word: string, yes: Plan, no: Plan, taken: seq<Value>, kinds: seq<TokenKind>)
    ensures Prints(IfKeyword(word, yes, no), taken, kinds) <==>
            if kinds != [] && kinds[0] == Word(word) then Prints(yes, taken + [Choice(true)], kinds[1..])
            else kinds != [] && Prints(no, taken + [Choice(false)], kinds)
  {
    hide Prints;
    if Prints(IfKeyword(word, yes, no), taken, kinds) {
      IfPrinted(word, yes, no, taken, kinds);
    }
    if kinds != [] && kinds[0] == Word(word) && Prints(yes, taken + [Choice(true)], kinds[1..]) {
      IfTaken(word, yes, no, taken, kinds);
    }
    if kinds != [] && kinds[0] != Word(word) && Prints(no, taken + [Choice(false)], kinds) {
      IfNotTaken(word, yes, no, taken, kinds);
    }
  }

  lemma IfPrinted(word: string, yes: Plan, no: Plan, taken: seq<Value>, kinds: seq<TokenKind>)
    requires Prints(IfKeyword(word, yes, no), taken, kinds)
    ensures kinds != []
    ensures if kinds[0] == Word(word) then Prints(yes, taken + [Choice(true)], kinds[1..])
            else Prints(no, taken + [Choice(false)], kinds)
  {
    var plan, n := IfKeyword(word, yes, no), |taken|;
    var values: seq<Value>, items :| taken <= values && PrintPlan(plan, values, n, items) == Some(kinds);
    assert values[n].Choice?;
    var more := taken + [values[n]];
    assert more <= values && |more| == n + 1;
    if values[n].taken {
      var printed := PrintPlan(yes, values, n + 1, items);
      assert kinds == [Word(word)] + printed.value;
      assert kinds[1..] == printed.value;
      assert PrintPlan(yes, values, |more|, items) == Some(kinds[1..]);
    } else {
      assert PrintPlan(no, values, |more|, items) == Some(kinds);
    }
  }

  lemma IfTaken(word: string, yes: Plan, no: Plan, taken: seq<Value>, kinds: seq<TokenKind>)
    requires kinds != [] && kinds[0] == Word(word) && Prints(yes, taken + [Choice(true)], kinds[1..])
    ensures Prints(IfKeyword(word, yes, no), taken, kinds)
  {
    var more, n := taken + [Choice(true)], |taken|;
    var values: seq<Value>, items :| more <= values && PrintPlan(yes, values, |more|, items) == Some(kinds[1..]);
    assert values[n] == more[n];
    assert [kinds[0]] + kinds[1..] == kinds;
    assert taken <= more <= values && PrintPlan(IfKeyword(word, yes, no), values, n, items) == Some(kinds);
  }

  lemma IfNotTaken(word: string, yes: Plan, no: Plan, taken: seq<Value>, kinds: seq<TokenKind>)
    requires kinds != [] && kinds[0] != Word(word) && Prints(no, taken + [Choice(false)], kinds)
    ensures Prints(IfKeyword(word, yes, no), taken, kinds)
  {
    var more, n := taken + [Choice(false)], |taken|;
    var values: seq<Value>, items :| more <= values && PrintPlan(no, values, |more|, items) == Some(kinds);
    assert values[n] == more[n];
    assert taken <= more <= values && PrintPlan(IfKeyword(word, yes, no), values, n, items) == Some(kinds);
  }

  lemma OnValuePrints(index: nat, word: string, yes: Plan, no: Plan, taken: seq<Value>, kinds: seq<TokenKind>)
    requires index < |taken|
    ensures Prints(OnValue(index, word, yes, no), taken, kinds) <==>
            Prints(if Reads(taken[index], word) then yes else no, taken, kinds)
  {
    var plan := OnValue(index, word, yes, no);
    var next := if Reads(taken[index], word) then yes else no;
    if Prints(plan, taken, kinds) {
      var values: seq<Value>, items :| taken <= values && PrintPlan(plan, values, |taken|, items) == Some(kinds);
      assert values[index] == taken[index];
      assert PrintPlan(next, values, |taken|, items) == Some(kinds);
    }
    if Prints(next, taken, kinds) {
      var values: seq<Value>, items :| taken <= values && PrintPlan(next, values, |taken|, items) == Some(kinds);
      assert values[index] == taken[index];
      assert PrintPlan(plan, values, |taken|, items) == Some(kinds);
    }
  }

  lemma NothingPrints(taken: seq<Value>, kinds: seq<TokenKind>)
    ensures !Prints(Reject, taken, kinds) && !Prints(Unsupported, taken, kinds)
  {
  }

  // --- Plans without branches --------------------------------------------------------

  predicate Straight(plan: Plan) {
    match plan
    case Finish => true
    case Open(_) => true
    case Then(part, rest) => IsMark(part) && Straight(rest)
    case _ => false
  }

  function Signs(plan: Plan): seq<Sign> {
    match plan
    case Then(part, rest) => [SignOf(part)] + Signs(rest)
    case _ => []
  }

  function BlockOf(plan: Plan): Option<Context> {
    match plan
    case Open(context) => Some(context)
    case Then(_, rest) => BlockOf(rest)
    case _ => None
  }

  /** The production, with a block of whatever items print. */
  ghost predicate PrintsAs(p: Production, kinds: seq<TokenKind>) {
    var n := |p.signs|;
    && n < |kinds| && AllStand(p.signs, kinds[..n])
    && match p.block
       case None => kinds[n..] == [Semicolon]
       case Some(context) =>
         && n + 2 <= |kinds| && kinds[n] == LeftBrace && kinds[|kinds| - 1] == RightBrace
         && ItemsPrint(context, kinds[n + 1..|kinds| - 1])
  }

  lemma PrintsAsFirst(sign: Sign, signs: seq<Sign>, block: Option<Context>, kinds: seq<TokenKind>)
    ensures PrintsAs(Production([sign] + signs, block), kinds) <==>
            kinds != [] && Stands(sign, kinds[0]) && PrintsAs(Production(signs, block), kinds[1..])
  {
    var all, n := [sign] + signs, |signs|;
    if n + 1 < |kinds| {
      assert kinds[..n + 1] == [kinds[0]] + kinds[1..][..n];
      assert kinds[n + 1..] == kinds[1..][n..];
      assert AllStand(all, kinds[..n + 1]) <==> Stands(sign, kinds[0]) && AllStand(signs, kinds[1..][..n]) by {
        StandFirst(sign, signs, kinds[0], kinds[1..][..n]);
      }
      if n + 3 <= |kinds| {
        assert kinds[n + 2..|kinds| - 1] == kinds[1..][n + 1..|kinds[1..]| - 1];
      }
    }
  }

  lemma StandFirst(sign: Sign, signs: seq<Sign>, kind: TokenKind, kinds: seq<TokenKind>)
    ensures AllStand([sign] + signs, [kind] + kinds) <==> Stands(sign, kind) && AllStand(signs, kinds)
  {
    var a, b := [sign] + signs, [kind] + kinds;
    assert forall i | 0 <= i < |signs| :: a[i + 1] == signs[i];
    assert forall i | 0 <= i < |kinds| :: b[i + 1] == kinds[i];
    assert a[0] == sign && b[0] == kind;
  }

  lemma {:induction false} StraightPrints(plan: Plan, taken: seq<Value>, kinds: seq<TokenKind>)
    requires Straight(plan)
    ensures Prints(plan, taken, kinds) <==> PrintsAs(Production(Signs(plan), BlockOf(plan)), kinds)
    decreases plan
  {
    hide Prints, Stands;
    match plan {
      case Finish =>
        FinishPrints(taken, kinds);
        assert kinds[..0] == [] && kinds[0..] == kinds;
      case Open(context) =>
        OpenPrints(context, taken, kinds);
        assert kinds[..0] == [];
      case Then(part, rest) =>
        hide PrintsAs;
        ThenPrints(part, rest, taken, kinds);
        PrintsAsFirst(SignOf(part), Signs(rest), BlockOf(rest), kinds);
        if kinds != [] {
          StraightPrints(rest, Taken(part, taken, kinds[0]), kinds[1..]);
        }
    }
  }

  // --- The plan of a keyword prints its productions -------------------------------------

  ghost predicate SomePrints(ps: seq<Production>, kinds: seq<TokenKind>) {
    exists p :: p in ps && PrintsAs(p, kinds)
  }

  ghost predicate PlanPrints(context: Context, keyword: string, kinds: seq<TokenKind>) {
    PlanFor(context, keyword).Some? && Prints(PlanFor(context, keyword).value, [], kinds)
  }

  /** A plan without branches is one production. */
  lemma OneProduction(plan: Plan, p: Production, kinds: seq<TokenKind>)
    requires Straight(plan) && p == Production(Signs(plan), BlockOf(plan))
    ensures Prints(plan, [], kinds) <==> SomePrints([p], kinds)
  {
    StraightPrints(plan, [], kinds);
    hide PrintsAs, Prints;
    assert p in [p];
  }

  lemma TwoPrint(p: Production, q: Production, kinds: seq<TokenKind>)
    ensures SomePrints([p] + [q], kinds) <==> PrintsAs(p, kinds) || PrintsAs(q, kinds)
  {
    hide PrintsAs;
    assert p in [p] + [q] && q in [p] + [q];
  }

  lemma ThreePrint(p: Production, q: Production, r: Production, kinds: seq<TokenKind>)
    ensures SomePrints([p] + [q] + [r], kinds) <==> PrintsAs(p, kinds) || PrintsAs(q, kinds) || PrintsAs(r, kinds)
  {
    hide PrintsAs;
    var all := [p] + [q] + [r];
    assert p in all && q in all && r in all;
  }

  lemma NoProduction(kinds: seq<TokenKind>)
    ensures !SomePrints([], kinds)
  {
  }

  lemma ProductIsStraight()
    ensures Straight(ManufacturerNumberPackage()) && Signs(ManufacturerNumberPackage()) == PRODUCT
    ensures BlockOf(ManufacturerNumberPackage()) == None
  {
  }

  lemma PartPrints(kinds: seq<TokenKind>)
    ensures PlanPrints(ComponentItems, "part", kinds) <==> SomePrints(Productions(ComponentItems, "part"), kinds)
  {
    hide Prints, PrintsAs, SomePrints;
    var product := ManufacturerNumberPackage();
    var plan := TheText(IfKeyword("virtual", Finish, product));
    assert PlanFor(ComponentItems, "part") == Some(plan);
    ThenPrints(Capture(Text), IfKeyword("virtual", Finish, product), [], kinds);
    TwoPrint(Production(TEXT + [K("virtual")], None), Production(TEXT + PRODUCT, None), kinds);
    PrintsAsFirst(A(Text), [K("virtual")], None, kinds);
    PrintsAsFirst(A(Text), PRODUCT, None, kinds);
    ProductIsStraight();
    if kinds != [] {
      var taken, rest := [Captured(kinds[0])], kinds[1..];
      assert Taken(Capture(Text), [], kinds[0]) == taken;
      IfPrints("virtual", Finish, product, taken, rest);
      PrintsAsFirst(K("virtual"), [], None, rest);
      assert [K("virtual")] + [] == [K("virtual")];
      StraightPrints(product, taken + [Choice(false)], rest);
      if rest != [] {
        StraightPrints(Finish, taken + [Choice(true)], rest[1..]);
      }
      ProductStarts(rest);
    }
  }

  lemma ProductStarts(kinds: seq<TokenKind>)
    ensures PrintsAs(Production(PRODUCT, None), kinds) ==> kinds != [] && kinds[0] == Word("manufacturer")
  {
    var signs := TEXT + [K("number")] + TEXT + [K("package")] + TEXT;
    assert PRODUCT == [K("manufacturer")] + signs;
    PrintsAsFirst(K("manufacturer"), signs, None, kinds);
  }

  lemma PortPrints(kinds: seq<TokenKind>)
    ensures PlanPrints(ModuleItems, "port", kinds) <==> SomePrints(Productions(ModuleItems, "port"), kinds)
  {
    hide Prints, PrintsAs, SomePrints;
    var closed := IfKeyword("no_connect", Finish, Reject);
    var branch := IfKeyword("connect", TheName(Finish), closed);
    assert PlanFor(ModuleItems, "port") == Some(TheName(TheName(TheName(branch))));
    var connected, open := [K("connect"), A(Name)], [K("no_connect")];
    assert NAME + NAME + NAME + [K("connect")] + NAME == NAME + (NAME + (NAME + connected));
    assert NAME + NAME + NAME + open == NAME + (NAME + (NAME + open));
    assert Productions(ModuleItems, "port")
        == [Production(NAME + (NAME + (NAME + connected)), None)] + [Production(NAME + (NAME + (NAME + open)), None)];
    TwoPrint(Production(NAME + (NAME + (NAME + connected)), None), Production(NAME + (NAME + (NAME + open)), None), kinds);
    NamePrints(TheName(TheName(branch)), [], kinds);
    PrintsAsFirst(A(Name), NAME + (NAME + connected), None, kinds);
    PrintsAsFirst(A(Name), NAME + (NAME + open), None, kinds);
    if kinds != [] && OfSort(Name, kinds[0]) {
      var first, rest := [Captured(kinds[0])], kinds[1..];
      assert [] + [Captured(kinds[0])] == first;
      NamePrints(TheName(branch), first, rest);
      PrintsAsFirst(A(Name), NAME + connected, None, rest);
      PrintsAsFirst(A(Name), NAME + open, None, rest);
      if rest != [] && OfSort(Name, rest[0]) {
        var second, more := first + [Captured(rest[0])], rest[1..];
        NamePrints(branch, second, more);
        PrintsAsFirst(A(Name), connected, None, more);
        PrintsAsFirst(A(Name), open, None, more);
        if more != [] {
          ConnectionPrints(second + [Captured(more[0])], more[1..]);
        }
      }
    }
  }

  lemma NamePrints(rest: Plan, taken: seq<Value>, kinds: seq<TokenKind>)
    ensures Prints(TheName(rest), taken, kinds) <==>
            kinds != [] && OfSort(Name, kinds[0]) && Prints(rest, taken + [Captured(kinds[0])], kinds[1..])
  {
    hide Prints;
    ThenPrints(Capture(Name), rest, taken, kinds);
  }

  lemma ConnectionPrints(taken: seq<Value>, kinds: seq<TokenKind>)
    ensures var closed := IfKeyword("no_connect", Finish, Reject);
            Prints(IfKeyword("connect", TheName(Finish), closed), taken, kinds) <==>
              || PrintsAs(Production([K("connect"), A(Name)], None), kinds)
              || PrintsAs(Production([K("no_connect")], None), kinds)
  {
    hide Prints, PrintsAs;
    var closed := IfKeyword("no_connect", Finish, Reject);
    IfPrints("connect", TheName(Finish), closed, taken, kinds);
    IfPrints("no_connect", Finish, Reject, taken + [Choice(false)], kinds);
    NothingPrints(taken + [Choice(false)] + [Choice(false)], kinds);
    PrintsAsFirst(K("connect"), [A(Name)], None, kinds);
    PrintsAsFirst(K("no_connect"), [], None, kinds);
    assert [K("connect")] + [A(Name)] == [K("connect"), A(Name)] && [K("no_connect")] + [] == [K("no_connect")];
    if kinds != [] {
      StraightPrints(TheName(Finish), taken + [Choice(true)], kinds[1..]);
      assert Signs(TheName(Finish)) == [A(Name)];
      StraightPrints(Finish, taken + [Choice(false)] + [Choice(true)], kinds[1..]);
    }
  }

  /** A name that has been taken, as the sign for one particular name. */
  lemma NameReads(kind: TokenKind, word: string)
    ensures OfSort(Name, kind) && Reads(Captured(kind), word) <==> Stands(W(word), kind)
  {
  }

  // --- Reading the productions off the plans ---------------------------------------------

  /** The plan of a keyword is one production without a branch; without a plan there is none. */
  ghost predicate IsOne(plan: Option<Plan>, ps: seq<Production>) {
    match plan
    case None => ps == []
    case Some(plan) => Straight(plan) && ps == [Production(Signs(plan), BlockOf(plan))]
  }

  lemma KeywordSigns(word: string, rest: Plan)
    ensures Straight(rest) ==> Straight(Kw(word, rest))
    ensures Signs(Kw(word, rest)) == [K(word)] + Signs(rest) && BlockOf(Kw(word, rest)) == BlockOf(rest)
  {
  }

  lemma NameSigns(rest: Plan)
    ensures Straight(rest) ==> Straight(TheName(rest))
    ensures Signs(TheName(rest)) == NAME + Signs(rest) && BlockOf(TheName(rest)) == BlockOf(rest)
  {
  }

  lemma QuantitySigns(rest: Plan)
    ensures Straight(rest) ==> Straight(Quantity(rest))
    ensures Signs(Quantity(rest)) == QUANTITY + Signs(rest) && BlockOf(Quantity(rest)) == BlockOf(rest)
  {
  }

  lemma PointSigns(rest: Plan)
    ensures Straight(rest) ==> Straight(Point(rest))
    ensures Signs(Point(rest)) == POINT + Signs(rest) && BlockOf(Point(rest)) == BlockOf(rest)
  {
    hide Quantity;
    var close := Then(Mark(RightParen), rest);
    var second := Then(Mark(Comma), Quantity(close));
    QuantitySigns(close);
    QuantitySigns(second);
    assert Point(rest) == Then(Mark(LeftParen), Quantity(second));
    assert Signs(Point(rest))
        == [G(LeftParen)] + (QUANTITY + ([G(Comma)] + (QUANTITY + ([G(RightParen)] + Signs(rest)))));
    hide Signs, BlockOf, Straight, Point;
    PointRegrouped(Signs(rest));
  }

  lemma PointRegrouped(rest: seq<Sign>)
    ensures [G(LeftParen)] + (QUANTITY + ([G(Comma)] + (QUANTITY + ([G(RightParen)] + rest)))) == POINT + rest
  {
    assert POINT == [G(LeftParen)] + QUANTITY + [G(Comma)] + QUANTITY + [G(RightParen)];
  }

  lemma DeclarationsAreOne(keyword: string)
    requires keyword != "analysis" && keyword != "assert"
    ensures IsOne(DesignPlan(keyword), Declarations(keyword))
  {
    hide IsOne;
    match keyword {
      case "resistor" => ComponentIsOne(keyword);
      case "dc_source" => ComponentIsOne(keyword);
      case "catalog_snapshot" => CatalogIsOne();
      case "variant" => VariantIsOne();
      case "manufacturability" => ManufacturabilityIsOne();
      case _ => ShortDeclarationsAreOne(keyword);
    }
  }

  lemma ShortDeclarationsAreOne(keyword: string)
    requires keyword !in
               ["analysis", "assert", "resistor", "dc_source", "catalog_snapshot", "variant", "manufacturability"]
    ensures IsOne(DesignPlan(keyword), Declarations(keyword))
  {
    assert Signs(TheName(Finish)) == NAME && Signs(TheName(Open(ModuleItems))) == NAME;
  }

  lemma ComponentIsOne(keyword: string)
    requires keyword == "resistor" || keyword == "dc_source"
    ensures IsOne(DesignPlan(keyword), Declarations(keyword))
  {
    assert Signs(TheName(TheName(Open(ComponentItems)))) == NAME + NAME;
  }

  lemma CatalogIsOne()
    ensures IsOne(DesignPlan("catalog_snapshot"), Declarations("catalog_snapshot"))
  {
    var plan := TheText(Kw("sha256", TheText(Kw("evaluated_on", TheText(Finish)))));
    assert Signs(plan) == TEXT + [K("sha256")] + TEXT + [K("evaluated_on")] + TEXT;
  }

  lemma VariantIsOne()
    ensures IsOne(DesignPlan("variant"), Declarations("variant"))
  {
    var plan := TheName(Kw("build_quantity", TheNumber(Open(VariantItems))));
    assert Signs(plan) == NAME + [K("build_quantity")] + NUMBER;
  }

  lemma ManufacturabilityIsOne()
    ensures IsOne(DesignPlan("manufacturability"), Declarations("manufacturability"))
  {
    var plan := TheName(Kw("adapter", TheText(Kw("version", TheText(Open(ManufacturabilityItems))))));
    assert Signs(plan) == NAME + [K("adapter")] + TEXT + [K("version")] + TEXT;
  }

  lemma ComponentLinesAreOne(keyword: string)
    requires keyword != "part"
    ensures IsOne(ComponentPlan(keyword), ComponentLines(keyword))
  {
    hide IsOne;
    match keyword {
      case "schematic" => SchematicIsOne();
      case "substitute" => SubstituteIsOne();
      case "sourcing" => SourcingIsOne();
      case "resistance" => ValueIsOne(keyword);
      case "voltage" => ValueIsOne(keyword);
      case "terminals" => PairIsOne(keyword);
      case "connect" => PairIsOne(keyword);
      case _ => ShortLinesAreOne(keyword);
    }
  }

  lemma ShortLinesAreOne(keyword: string)
    requires keyword !in
               ["part", "schematic", "substitute", "sourcing", "resistance", "voltage", "terminals", "connect"]
    ensures IsOne(ComponentPlan(keyword), ComponentLines(keyword))
  {
    assert Signs(TheName(Finish)) == NAME && Signs(TheText(Finish)) == TEXT;
    assert Signs(TheText(Open(SymbolItems))) == TEXT && Signs(TheText(Open(FootprintItems))) == TEXT;
  }

  lemma SchematicIsOne()
    ensures IsOne(ComponentPlan("schematic"), ComponentLines("schematic"))
  {
    var turned := Kw("rotation", TheNumber(Kw("deg", Finish)));
    PointSigns(turned);
    KeywordSigns("at", Point(turned));
    assert Signs(turned) == [K("rotation"), A(Num), K("deg")];
    assert [K("at")] + (POINT + Signs(turned)) == [K("at")] + POINT + [K("rotation")] + NUMBER + [K("deg")];
  }

  lemma SubstituteIsOne()
    ensures IsOne(ComponentPlan("substitute"), ComponentLines("substitute"))
  {
    ProductIsStraight();
  }

  lemma SourcingIsOne()
    ensures IsOne(ComponentPlan("sourcing"), ComponentLines("sourcing"))
  {
    var plan :=
      Kw("minimum_available", TheNumber(Kw("maximum_lead_time_days", TheNumber(Kw("region", TheText(Finish))))));
    assert Signs(plan)
        == [K("minimum_available")] + NUMBER + [K("maximum_lead_time_days")] + NUMBER + [K("region")] + TEXT;
  }

  lemma ValueIsOne(keyword: string)
    requires keyword == "resistance" || keyword == "voltage"
    ensures IsOne(ComponentPlan(keyword), ComponentLines(keyword))
  {
    assert Signs(Quantity(Finish)) == QUANTITY;
  }

  lemma PairIsOne(keyword: string)
    requires keyword == "terminals" || keyword == "connect"
    ensures IsOne(ComponentPlan(keyword), ComponentLines(keyword))
  {
    assert Signs(TheName(TheName(Finish))) == NAME + NAME;
  }

  lemma VariantLinesAreOne(keyword: string)
    ensures IsOne(VariantPlan(keyword), VariantLines(keyword))
  {
    assert Signs(TheName(Finish)) == NAME;
    if keyword == "alternate" {
      ProductIsStraight();
      NameSigns(ManufacturerNumberPackage());
    } else if keyword == "configure" {
      assert Signs(TheName(TheText(Finish))) == NAME + TEXT;
    }
  }

  lemma RectangleIsOne()
    ensures IsOne(BoardPlan("rectangle"), BoardLines("rectangle"))
  {
    var sized := Kw("size", Point(Finish));
    PointSigns(Finish);
    KeywordSigns("size", Point(Finish));
    PointSigns(sized);
    KeywordSigns("at", Point(sized));
    assert POINT + [] == POINT;
    assert [K("at")] + (POINT + ([K("size")] + POINT)) == [K("at")] + POINT + [K("size")] + POINT;
  }

  lemma TurnedSigns()
    ensures var turned := Kw("rotation", TheNumber(Kw("deg", Kw("layer", TheName(Finish)))));
            Straight(turned) && BlockOf(turned) == None
            && Signs(turned) == [K("rotation")] + NUMBER + [K("deg"), K("layer")] + NAME
  {
    var turned := Kw("rotation", TheNumber(Kw("deg", Kw("layer", TheName(Finish)))));
    assert Signs(turned) == [K("rotation"), A(Num), K("deg"), K("layer"), A(Name)];
  }

  lemma PlaceIsOne()
    ensures IsOne(BoardPlan("place"), BoardLines("place"))
  {
    hide Signs, BlockOf, Straight, Point;
    var turned := Kw("rotation", TheNumber(Kw("deg", Kw("layer", TheName(Finish)))));
    TurnedSigns();
    PointSigns(turned);
    KeywordSigns("at", Point(turned));
    NameSigns(Kw("at", Point(turned)));
    assert BoardPlan("place") == Some(TheName(Kw("at", Point(turned))));
    assert NAME + ([K("at")] + (POINT + ([K("rotation")] + NUMBER + [K("deg"), K("layer")] + NAME)))
        == NAME + [K("at")] + POINT + [K("rotation")] + NUMBER + [K("deg"), K("layer")] + NAME;
  }

  lemma RouteIsOne()
    ensures IsOne(BoardPlan("route"), BoardLines("route"))
  {
    hide Signs, BlockOf, Straight, Point;
    var wide := Kw("width", Quantity(Kw("layer", TheName(Finish))));
    WideSigns();
    PointSigns(wide);
    var to := Kw("to", Point(wide));
    KeywordSigns("to", Point(wide));
    PointSigns(to);
    var from := Kw("from", Point(to));
    KeywordSigns("from", Point(to));
    NameSigns(from);
    KeywordSigns("net", TheName(from));
    NameSigns(Kw("net", TheName(from)));
    assert BoardPlan("route") == Some(TheName(Kw("net", TheName(from))));
    assert NAME + ([K("net")] + (NAME + ([K("from")] + (POINT + ([K("to")] + (POINT
                   + ([K("width")] + QUANTITY + [K("layer")] + NAME)))))))
        == NAME + [K("net")] + NAME + [K("from")] + POINT + [K("to")] + POINT + [K("width")] + QUANTITY
           + [K("layer")] + NAME;
  }

  lemma WideSigns()
    ensures var wide := Kw("width", Quantity(Kw("layer", TheName(Finish))));
            Straight(wide) && BlockOf(wide) == None && Signs(wide) == [K("width")] + QUANTITY + [K("layer")] + NAME
  {
  }

  lemma GriddedSigns()
    ensures var gridded := Kw("grid", Quantity(Kw("layer", TheName(Finish))));
            && Straight(gridded) && BlockOf(gridded) == None
            && Signs(gridded) == [K("grid")] + QUANTITY + [K("layer")] + NAME
  {
    var gridded := Kw("grid", Quantity(Kw("layer", TheName(Finish))));
    assert Signs(gridded) == [K("grid"), A(Num), A(Name), K("layer"), A(Name)];
  }

  lemma AutorouteIsOne()
    ensures IsOne(BoardPlan("autoroute"), BoardLines("autoroute"))
  {
    hide Signs, BlockOf, Straight, Quantity;
    var gridded := Kw("grid", Quantity(Kw("layer", TheName(Finish))));
    GriddedSigns();
    QuantitySigns(gridded);
    KeywordSigns("clearance", Quantity(gridded));
    var clear := Kw("clearance", Quantity(gridded));
    QuantitySigns(clear);
    KeywordSigns("width", Quantity(clear));
    var wide := Kw("width", Quantity(clear));
    NameSigns(wide);
    KeywordSigns("net", TheName(wide));
    NameSigns(Kw("net", TheName(wide)));
    assert BoardPlan("autoroute") == Some(TheName(Kw("net", TheName(wide))));
    AutorouteRegrouped();
  }

  lemma AutorouteRegrouped()
    ensures NAME + ([K("net")] + (NAME + ([K("width")] + (QUANTITY + ([K("clearance")] + (QUANTITY
                    + ([K("grid")] + QUANTITY + [K("layer")] + NAME)))))))
         == NAME + [K("net")] + NAME + [K("width")] + QUANTITY + [K("clearance")] + QUANTITY
            + [K("grid")] + QUANTITY + [K("layer")] + NAME
  {
  }

  lemma BoardLinesAreOne(keyword: string)
    ensures IsOne(BoardPlan(keyword), BoardLines(keyword))
  {
    RectangleIsOne();
    PlaceIsOne();
    RouteIsOne();
    AutorouteIsOne();
  }

  // --- Analyses and assertions -------------------------------------------------------------

  lemma AnalysisPrints(kinds: seq<TokenKind>)
    ensures PlanPrints(DesignItems, "analysis", kinds) <==> SomePrints(Productions(DesignItems, "analysis"), kinds)
  {
    hide Prints, PrintsAs, SomePrints;
    var sweep := SweepPlan();
    var transient := TransientPlan();
    var last := OnValue(0, "transient", transient, Unsupported);
    var middle := OnValue(0, "ac_linear_sweep", sweep, last);
    var branch := OnValue(0, "dc_operating_point", Finish, middle);
    assert Analysis() == TheName(TheName(branch));
    SweepSigns();
    TransientSigns();
    var a, b, c := NAME, NAME + Signs(sweep), NAME + Signs(transient);
    AnalysisProductions();
    ThreePrint(Production([W("dc_operating_point")] + a, None), Production([W("ac_linear_sweep")] + b, None),
               Production([W("transient")] + c, None), kinds);
    PrintsAsFirst(W("dc_operating_point"), a, None, kinds);
    PrintsAsFirst(W("ac_linear_sweep"), b, None, kinds);
    PrintsAsFirst(W("transient"), c, None, kinds);
    NamePrints(TheName(branch), [], kinds);
    if kinds != [] && OfSort(Name, kinds[0]) {
      var first, rest := [Captured(kinds[0])], kinds[1..];
      assert [] + [Captured(kinds[0])] == first;
      NameReads(kinds[0], "dc_operating_point");
      NameReads(kinds[0], "ac_linear_sweep");
      NameReads(kinds[0], "transient");
      NamePrints(branch, first, rest);
      PrintsAsFirst(A(Name), [], None, rest);
      PrintsAsFirst(A(Name), Signs(sweep), None, rest);
      PrintsAsFirst(A(Name), Signs(transient), None, rest);
      assert [A(Name)] + [] == NAME;
      if rest != [] {
        var both, more := first + [Captured(rest[0])], rest[1..];
        assert both[0] == first[0];
        OnValuePrints(0, "dc_operating_point", Finish, middle, both, more);
        OnValuePrints(0, "ac_linear_sweep", sweep, last, both, more);
        OnValuePrints(0, "transient", transient, Unsupported, both, more);
        StraightPrints(Finish, both, more);
        StraightPrints(sweep, both, more);
        StraightPrints(transient, both, more);
        NothingPrints(both, more);
      }
    }
  }

  function SweepPlan(): Plan {
    Kw("source", TheName(Kw("points", TheNumber(Kw("start_frequency", Quantity(Kw("stop_frequency", Quantity(
    Kw("magnitude", Quantity(Kw("phase", Quantity(Finish))))))))))))
  }

  function TransientPlan(): Plan {
    Kw("step", Quantity(Kw("stop", Quantity(Kw("start", Quantity(Kw("uic", TheName(Finish))))))))
  }

  lemma SweepSigns()
    ensures Straight(SweepPlan()) && BlockOf(SweepPlan()) == None
    ensures Signs(SweepPlan())
         == [K("source")] + NAME + [K("points")] + NUMBER + [K("start_frequency")] + QUANTITY
            + [K("stop_frequency")] + QUANTITY + [K("magnitude")] + QUANTITY + [K("phase")] + QUANTITY
  {
    var phase := Kw("phase", Quantity(Finish));
    assert Signs(phase) == [K("phase")] + QUANTITY;
    QuantitySigns(phase);
    KeywordSigns("magnitude", Quantity(phase));
    var magnitude := Kw("magnitude", Quantity(phase));
    QuantitySigns(magnitude);
    KeywordSigns("stop_frequency", Quantity(magnitude));
    var stop := Kw("stop_frequency", Quantity(magnitude));
    QuantitySigns(stop);
    KeywordSigns("start_frequency", Quantity(stop));
    var start := Kw("start_frequency", Quantity(stop));
    assert Signs(SweepPlan()) == [K("source")] + (NAME + ([K("points")] + (NUMBER + Signs(start))));
  }

  lemma TransientSigns()
    ensures Straight(TransientPlan()) && BlockOf(TransientPlan()) == None
    ensures Signs(TransientPlan())
         == [K("step")] + QUANTITY + [K("stop")] + QUANTITY + [K("start")] + QUANTITY + [K("uic")] + NAME
  {
    var uic := Kw("uic", TheName(Finish));
    assert Signs(uic) == [K("uic")] + NAME;
    QuantitySigns(uic);
    KeywordSigns("start", Quantity(uic));
    var start := Kw("start", Quantity(uic));
    QuantitySigns(start);
    KeywordSigns("stop", Quantity(start));
    var stop := Kw("stop", Quantity(start));
    QuantitySigns(stop);
    KeywordSigns("step", Quantity(stop));
  }

  lemma AnalysisProductions()
    ensures Productions(DesignItems, "analysis")
         == [Production([W("dc_operating_point")] + NAME, None)]
            + [Production([W("ac_linear_sweep")] + (NAME + Signs(SweepPlan())), None)]
            + [Production([W("transient")] + (NAME + Signs(TransientPlan())), None)]
  {
    hide Signs, SweepPlan, TransientPlan;
    SweepSigns();
    TransientSigns();
    SweepRegrouped();
    TransientRegrouped();
  }

  lemma SweepRegrouped()
    ensures [W("ac_linear_sweep")] + (NAME + ([K("source")] + NAME + [K("points")] + NUMBER
            + [K("start_frequency")] + QUANTITY + [K("stop_frequency")] + QUANTITY
            + [K("magnitude")] + QUANTITY + [K("phase")] + QUANTITY))
         == [W("ac_linear_sweep")] + NAME + [K("source")] + NAME + [K("points")] + NUMBER
            + [K("start_frequency")] + QUANTITY + [K("stop_frequency")] + QUANTITY
            + [K("magnitude")] + QUANTITY + [K("phase")] + QUANTITY
  {
  }

  lemma TransientRegrouped()
    ensures [W("transient")] + (NAME + ([K("step")] + QUANTITY + [K("stop")] + QUANTITY + [K("start")] + QUANTITY
            + [K("uic")] + NAME))
         == [W("transient")] + NAME + [K("step")] + QUANTITY + [K("stop")] + QUANTITY + [K("start")] + QUANTITY
            + [K("uic")] + NAME
  {
  }

  lemma TolerancesSigns()
    ensures Straight(Tolerances()) && BlockOf(Tolerances()) == None && Signs(Tolerances()) == TOLERANCES
  {
    var relative := Kw("relative_tolerance", Quantity(Finish));
    assert Signs(relative) == [K("relative_tolerance")] + QUANTITY;
    QuantitySigns(relative);
    KeywordSigns("absolute_tolerance", Quantity(relative));
    var absolute := Kw("absolute_tolerance", Quantity(relative));
    QuantitySigns(absolute);
    KeywordSigns("expected", Quantity(absolute));
  }

  /** One sign after another, in front of a branch. */
  lemma KeywordPrints(word: string, rest: Plan, taken: seq<Value>, kinds: seq<TokenKind>)
    ensures Prints(Kw(word, rest), taken, kinds) <==>
            kinds != [] && kinds[0] == Word(word) && Prints(rest, taken, kinds[1..])
  {
    hide Prints;
    ThenPrints(Keyword(word), rest, taken, kinds);
  }

  /** A keyword and a name in front of a plan whose productions are known. */
  lemma KeywordAndName(word: string, rest: Plan, taken: seq<Value>, kinds: seq<TokenKind>, a: seq<Sign>, b: seq<Sign>,
                       c: seq<Sign>)
    requires |kinds| >= 2 && OfSort(Name, kinds[1]) ==>
               (Prints(rest, taken + [Captured(kinds[1])], kinds[2..]) <==>
                || PrintsAs(Production(a, None), kinds[2..]) || PrintsAs(Production(b, None), kinds[2..])
                || PrintsAs(Production(c, None), kinds[2..]))
    ensures Prints(Kw(word, TheName(rest)), taken, kinds) <==>
            || PrintsAs(Production([K(word)] + (NAME + a), None), kinds)
            || PrintsAs(Production([K(word)] + (NAME + b), None), kinds)
            || PrintsAs(Production([K(word)] + (NAME + c), None), kinds)
  {
    hide Prints, PrintsAs;
    KeywordPrints(word, TheName(rest), taken, kinds);
    PrintsAsFirst(K(word), NAME + a, None, kinds);
    PrintsAsFirst(K(word), NAME + b, None, kinds);
    PrintsAsFirst(K(word), NAME + c, None, kinds);
    if kinds != [] {
      NamePrints(rest, taken, kinds[1..]);
      PrintsAsFirst(A(Name), a, None, kinds[1..]);
      PrintsAsFirst(A(Name), b, None, kinds[1..]);
      PrintsAsFirst(A(Name), c, None, kinds[1..]);
      if |kinds| >= 2 {
        assert kinds[1..][1..] == kinds[2..];
      }
    }
  }

  function SamplePlan(): Plan {
    OnValue(3, "scalar", Tolerances(),
    OnValue(3, "frequency", Quantity(Tolerances()),
    OnValue(3, "time", Quantity(Tolerances()), Unsupported)))
  }

  lemma SamplePrints(taken: seq<Value>, kind: TokenKind, kinds: seq<TokenKind>)
    requires |taken| == 4 && taken[3] == Captured(kind) && OfSort(Name, kind)
    ensures Prints(SamplePlan(), taken, kinds) <==>
            || (Stands(W("scalar"), kind) && PrintsAs(Production(TOLERANCES, None), kinds))
            || (Stands(W("frequency"), kind) && PrintsAs(Production(QUANTITY + TOLERANCES, None), kinds))
            || (Stands(W("time"), kind) && PrintsAs(Production(QUANTITY + TOLERANCES, None), kinds))
  {
    hide Prints, PrintsAs;
    TolerancesSigns();
    QuantitySigns(Tolerances());
    var last := OnValue(3, "time", Quantity(Tolerances()), Unsupported);
    var middle := OnValue(3, "frequency", Quantity(Tolerances()), last);
    OnValuePrints(3, "scalar", Tolerances(), middle, taken, kinds);
    OnValuePrints(3, "frequency", Quantity(Tolerances()), last, taken, kinds);
    OnValuePrints(3, "time", Quantity(Tolerances()), Unsupported, taken, kinds);
    NameReads(kind, "scalar");
    NameReads(kind, "frequency");
    NameReads(kind, "time");
    StraightPrints(Tolerances(), taken, kinds);
    StraightPrints(Quantity(Tolerances()), taken, kinds);
    NothingPrints(taken, kinds);
  }

  lemma SampledPrints(taken: seq<Value>, kinds: seq<TokenKind>)
    requires |taken| == 3
    ensures Prints(Kw("sample", TheName(SamplePlan())), taken, kinds) <==>
            || PrintsAs(Production([K("sample")] + ([W("scalar")] + TOLERANCES), None), kinds)
            || PrintsAs(Production([K("sample")] + ([W("frequency")] + (QUANTITY + TOLERANCES)), None), kinds)
            || PrintsAs(Production([K("sample")] + ([W("time")] + (QUANTITY + TOLERANCES)), None), kinds)
  {
    hide Prints, PrintsAs, SamplePlan;
    KeywordPrints("sample", TheName(SamplePlan()), taken, kinds);
    PrintsAsFirst(K("sample"), [W("scalar")] + TOLERANCES, None, kinds);
    PrintsAsFirst(K("sample"), [W("frequency")] + (QUANTITY + TOLERANCES), None, kinds);
    PrintsAsFirst(K("sample"), [W("time")] + (QUANTITY + TOLERANCES), None, kinds);
    if kinds != [] {
      NamePrints(SamplePlan(), taken, kinds[1..]);
      PrintsAsFirst(W("scalar"), TOLERANCES, None, kinds[1..]);
      PrintsAsFirst(W("frequency"), QUANTITY + TOLERANCES, None, kinds[1..]);
      PrintsAsFirst(W("time"), QUANTITY + TOLERANCES, None, kinds[1..]);
      if |kinds| >= 2 && OfSort(Name, kinds[1]) {
        SamplePrints(taken + [Captured(kinds[1])], kinds[1], kinds[1..][1..]);
      }
    }
  }

  lemma AssertionPrints(kinds: seq<TokenKind>)
    ensures PlanPrints(DesignItems, "assert", kinds) <==> SomePrints(Productions(DesignItems, "assert"), kinds)
  {
    hide Prints, PrintsAs, SomePrints, SamplePlan;
    var sampled := Kw("sample", TheName(SamplePlan()));
    var a, b, c := [K("sample")] + ([W("scalar")] + TOLERANCES),
                   [K("sample")] + ([W("frequency")] + (QUANTITY + TOLERANCES)),
                   [K("sample")] + ([W("time")] + (QUANTITY + TOLERANCES));
    AssertionPlan();
    AssertionProductions(a, b, c);
    var outer := (s: seq<Sign>) => [K("net_voltage")] + (NAME + ([K("analysis")] + (NAME + ([K("net")] + (NAME + s)))));
    ThreePrint(Production(outer(a), None), Production(outer(b), None), Production(outer(c), None), kinds);
    var net := Kw("net", TheName(sampled));
    var analysis := Kw("analysis", TheName(net));
    if |kinds| >= 2 {
      var k1, r1 := [Captured(kinds[1])], kinds[2..];
      if |r1| >= 2 {
        var k2, r2 := k1 + [Captured(r1[1])], r1[2..];
        if |r2| >= 2 {
          SampledPrints(k2 + [Captured(r2[1])], r2[2..]);
        }
        KeywordAndName("net", sampled, k2, r2, a, b, c);
      }
      KeywordAndName("analysis", net, k1, r1, [K("net")] + (NAME + a), [K("net")] + (NAME + b), [K("net")] + (NAME + c));
      assert [] + [Captured(kinds[1])] == k1;
    }
    KeywordAndName("net_voltage", analysis, [], kinds, [K("analysis")] + (NAME + ([K("net")] + (NAME + a))),
                   [K("analysis")] + (NAME + ([K("net")] + (NAME + b))),
                   [K("analysis")] + (NAME + ([K("net")] + (NAME + c))));
  }

  lemma AssertionPlan()
    ensures PlanFor(DesignItems, "assert")
         == Some(Kw("net_voltage", TheName(Kw("analysis", TheName(Kw("net", TheName(
              Kw("sample", TheName(SamplePlan())))))))))
  {
  }

  lemma AssertionProductions(a: seq<Sign>, b: seq<Sign>, c: seq<Sign>)
    requires a == [K("sample")] + ([W("scalar")] + TOLERANCES)
    requires b == [K("sample")] + ([W("frequency")] + (QUANTITY + TOLERANCES))
    requires c == [K("sample")] + ([W("time")] + (QUANTITY + TOLERANCES))
    ensures var outer :=
              (s: seq<Sign>) => [K("net_voltage")] + (NAME + ([K("analysis")] + (NAME + ([K("net")] + (NAME + s)))));
            Productions(DesignItems, "assert")
              == [Production(outer(a), None)] + [Production(outer(b), None)] + [Production(outer(c), None)]
  {
    var outer := (s: seq<Sign>) => [K("net_voltage")] + (NAME + ([K("analysis")] + (NAME + ([K("net")] + (NAME + s)))));
    AssertedRegrouped([W("scalar")] + TOLERANCES);
    AssertedRegrouped([W("frequency")] + (QUANTITY + TOLERANCES));
    AssertedRegrouped([W("time")] + (QUANTITY + TOLERANCES));
    SampleRegrouped([W("scalar")], [], TOLERANCES);
    SampleRegrouped([W("frequency")], QUANTITY, TOLERANCES);
    SampleRegrouped([W("time")], QUANTITY, TOLERANCES);
  }

  lemma AssertedRegrouped(sample: seq<Sign>)
    ensures [K("net_voltage")] + (NAME + ([K("analysis")] + (NAME + ([K("net")] + (NAME + ([K("sample")] + sample))))))
         == ASSERTED + sample
  {
  }

  lemma SampleRegrouped(kind: seq<Sign>, value: seq<Sign>, rest: seq<Sign>)
    ensures ASSERTED + (kind + (value + rest)) == ASSERTED + kind + value + rest
    ensures ASSERTED + (kind + rest) == ASSERTED + kind + rest
  {
  }

  /** Whatever the keyword, its plan prints exactly its productions. */
  lemma PlansPrintProductions(context: Context, keyword: string, kinds: seq<TokenKind>)
    ensures PlanPrints(context, keyword, kinds) <==> SomePrints(Productions(context, keyword), kinds)
  {
    if context == DesignItems && keyword == "analysis" {
      AnalysisPrints(kinds);
    } else if context == DesignItems && keyword == "assert" {
      AssertionPrints(kinds);
    } else if context == ComponentItems && keyword == "part" {
      PartPrints(kinds);
    } else if context == ModuleItems && keyword == "port" {
      PortPrints(kinds);
    } else {
      PlanIsOne(context, keyword);
      hide Productions, PlanFor, Prints, PrintsAs, SomePrints;
      if PlanFor(context, keyword).Some? {
        var plan := PlanFor(context, keyword).value;
        OneProduction(plan, Production(Signs(plan), BlockOf(plan)), kinds);
      } else {
        NoProduction(kinds);
      }
    }
  }

  lemma PlanIsOne(context: Context, keyword: string)
    requires context == DesignItems ==> keyword != "analysis" && keyword != "assert"
    requires context == ComponentItems ==> keyword != "part"
    requires context == ModuleItems ==> keyword != "port"
    ensures IsOne(PlanFor(context, keyword), Productions(context, keyword))
  {
    hide IsOne;
    match context {
      case DesignItems => DeclarationsAreOne(keyword);
      case ModuleItems => NoPlanIsOne();
      case ComponentItems => ComponentLinesAreOne(keyword);
      case SymbolItems =>
        NoPlanIsOne();
        BindingsAreOne();
      case FootprintItems =>
        NoPlanIsOne();
        BindingsAreOne();
      case VariantItems => VariantLinesAreOne(keyword);
      case ManufacturabilityItems =>
        NoPlanIsOne();
        BindingsAreOne();
      case BoardItems => BoardLinesAreOne(keyword);
    }
  }

  lemma NoPlanIsOne()
    ensures IsOne(None, [])
  {
  }

  lemma BindingsAreOne()
    ensures IsOne(PlanFor(SymbolItems, "bind"), Productions(SymbolItems, "bind"))
    ensures IsOne(PlanFor(FootprintItems, "bind"), Productions(FootprintItems, "bind"))
    ensures IsOne(PlanFor(ManufacturabilityItems, "assert"), Productions(ManufacturabilityItems, "assert"))
  {
    assert Signs(TheName(TheName(TheName(Finish)))) == NAME + NAME + NAME;
    assert Signs(TheName(TheName(Finish))) == NAME + NAME;
    assert Signs(TheName(Kw("capability", TheName(Finish)))) == NAME + [K("capability")] + NAME;
  }

  // --- The grammar prints the language ---------------------------------------------------------

  lemma NodePrintsPlan(context: Context, kinds: seq<TokenKind>)
    ensures NodePrints(context, kinds) <==>
            kinds != [] && kinds[0].Word? && PlanPrints(context, kinds[0].text, kinds[1..])
  {
    hide PlanFor;
    if NodePrints(context, kinds) {
      var node :| PrintNode(context, node) == Some(kinds);
      var plan := PlanFor(context, node.keyword).value;
      var printed := PrintPlan(plan, node.values, 0, node.items);
      assert kinds == [Word(node.keyword)] + printed.value;
      assert kinds[1..] == printed.value;
      assert PrintPlan(plan, node.values, 0, node.items) == Some(kinds[1..]);
    }
    if kinds != [] && kinds[0].Word? && PlanPrints(context, kinds[0].text, kinds[1..]) {
      var plan := PlanFor(context, kinds[0].text).value;
      var values: seq<Value>, items :| PrintPlan(plan, values, 0, items) == Some(kinds[1..]);
      assert [kinds[0]] + kinds[1..] == kinds;
      assert PrintNode(context, Node(kinds[0].text, values, items)) == Some(kinds);
    }
  }

  /** A production with items that print is a production with items of the language. */
  lemma {:induction false} ProductionIff(p: Production, kinds: seq<TokenKind>)
    ensures PrintsAs(p, kinds) <==> Follows(p, kinds)
    decreases |kinds|, 0
  {
    hide ItemsPrint, AreItems, AllStand;
    var n := |p.signs|;
    if p.block.Some? && n + 2 <= |kinds| {
      ItemsIff(p.block.value, kinds[n + 1..|kinds| - 1]);
    }
  }

  lemma {:induction false} ItemIff(context: Context, kinds: seq<TokenKind>)
    ensures NodePrints(context, kinds) <==> IsItem(context, kinds)
    decreases |kinds|, 1
  {
    NodePrintsPlan(context, kinds);
    if kinds != [] && kinds[0].Word? {
      PlansPrintProductions(context, kinds[0].text, kinds[1..]);
      hide PlanPrints, PrintsAs, Follows, Productions, NodePrints;
      forall p | p in Productions(context, kinds[0].text)
        ensures PrintsAs(p, kinds[1..]) <==> Follows(p, kinds[1..])
      {
        ProductionIff(p, kinds[1..]);
      }
    }
  }

  lemma {:induction false} ItemsIff(context: Context, kinds: seq<TokenKind>)
    ensures ItemsPrint(context, kinds) <==> AreItems(context, kinds)
    decreases |kinds|, 2
  {
    hide IsItem, PrintNode, NodePrints;
    if ItemsPrint(context, kinds) {
      var items :| PrintItems(context, items) == Some(kinds);
      if items != [] {
        var first, rest := PrintNode(context, items[0]).value, PrintItems(context, items[1..]).value;
        NodeHasTokens(context, items[0], first);
        var n := |first|;
        assert kinds == first + rest && kinds[..n] == first && kinds[n..] == rest;
        NodeDoesPrint(context, items[0], first);
        ItemIff(context, kinds[..n]);
        ItemsIff(context, kinds[n..]);
      }
    }
    if AreItems(context, kinds) {
      if kinds == [] {
        assert PrintItems(context, []) == Some(kinds);
      } else {
        var n :| 0 < n <= |kinds| && IsItem(context, kinds[..n]) && AreItems(context, kinds[n..]);
        ItemIff(context, kinds[..n]);
        ItemsIff(context, kinds[n..]);
        var node := NodeThatPrints(context, kinds[..n]);
        var items :| PrintItems(context, items) == Some(kinds[n..]);
        assert ([node] + items)[1..] == items;
        assert kinds[..n] + kinds[n..] == kinds;
        assert PrintItems(context, [node] + items) == Some(kinds);
      }
    }
  }

  lemma NodeThatPrints(context: Context, kinds: seq<TokenKind>) returns (node: Node)
    requires NodePrints(context, kinds)
    ensures PrintNode(context, node) == Some(kinds)
  {
    node :| PrintNode(context, node) == Some(kinds);
  }

  lemma NodeDoesPrint(context: Context, node: Node, kinds: seq<TokenKind>)
    requires PrintNode(context, node) == Some(kinds)
    ensures NodePrints(context, kinds)
  {
  }

  lemma NodeHasTokens(context: Context, node: Node, kinds: seq<TokenKind>)
    requires PrintNode(context, node) == Some(kinds)
    ensures kinds != []
  {
    hide PlanFor;
  }

  /** The streams that some design prints are exactly the sources of the language. */
  lemma SourcesArePrinted(kinds: seq<TokenKind>)
    ensures IsSource(kinds) <==> exists d :: PrintDesign(d) == Some(kinds)
  {
    hide AreItems, PrintItems;
    if d :| PrintDesign(d) == Some(kinds) {
      var inside := PrintItems(DesignItems, d.declarations).value;
      assert kinds == [Word("design"), d.name, LeftBrace] + inside + [RightBrace];
      assert kinds[3..|kinds| - 1] == inside;
      ItemsIff(DesignItems, inside);
    }
    if IsSource(kinds) {
      var inside := kinds[3..|kinds| - 1];
      ItemsIff(DesignItems, inside);
      var items :| PrintItems(DesignItems, items) == Some(inside);
      assert kinds == [Word("design"), kinds[1], LeftBrace] + inside + [RightBrace];
      assert PrintDesign(Design(kinds[1], items)) == Some(kinds);
    }
  }
}
