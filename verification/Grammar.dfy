/**
 The grammar of the source language as data, and the printer that goes with it.

 A plan says what a declaration consists of, token by token, and where it branches.
 `Print` turns a tree back into the tokens that it stands for; it knows nothing of
 parsing.
*/
module Grammar {
  import opened Wrappers
  import opened Lexer

  // --- Trees ------------------------------------------------------------------

  /** What a declaration captured: a token's text, or which way it branched. */
  datatype Value = Captured(kind: TokenKind) | Choice(taken: bool)

  datatype Node = Node(keyword: string, values: seq<Value>, items: seq<Node>)

  datatype Design = Design(name: TokenKind, declarations: seq<Node>)

  // --- Plans ------------------------------------------------------------------

  /** A name may be a word or a number; a number and a text may not be anything else. */
  datatype Sort = Name | Num | Text

  datatype Part = Keyword(word: string) | Capture(sort: Sort) | Mark(kind: TokenKind)

  datatype Context =
    | DesignItems | ModuleItems | ComponentItems | SymbolItems | FootprintItems | VariantItems
    | ManufacturabilityItems | BoardItems

  datatype Plan =
    | Finish                                                   // the closing semicolon
    | Then(part: Part, rest: Plan)
    | IfKeyword(word: string, yes: Plan, no: Plan)             // takes the keyword if it is there
    | OnValue(index: nat, word: string, yes: Plan, no: Plan)   // branches on what was captured before
    | Reject                                                   // nothing here can go on
    | Unsupported                                              // a kind that the language does not have
    | Open(context: Context)                                   // items in braces

  predicate Admits(sort: Sort, kind: TokenKind) {
    match sort
    case Name => kind.Word? || kind.Number?
    case Num => kind.Number?
    case Text => kind.String?
  }

  predicate Reads(value: Value, word: string) {
    value.Captured? && (value.kind.Word? || value.kind.Number?) && value.kind.text == word
  }

  function Kw(word: string, rest: Plan): Plan {
    Then(Keyword(word), rest)
  }

  function TheName(rest: Plan): Plan {
    Then(Capture(Name), rest)
  }

  function TheText(rest: Plan): Plan {
    Then(Capture(Text), rest)
  }

  function TheNumber(rest: Plan): Plan {
    Then(Capture(Num), rest)
  }

  function Quantity(rest: Plan): Plan {
    TheNumber(TheName(rest))
  }

  function Point(rest: Plan): Plan {
    Then(Mark(LeftParen), Quantity(Then(Mark(Comma), Quantity(Then(Mark(RightParen), rest)))))
  }

  function Analysis(): Plan {
    TheName(TheName(
      OnValue(0, "dc_operating_point", Finish,
      OnValue(0, "ac_linear_sweep",
        Kw("source", TheName(Kw("points", TheNumber(Kw("start_frequency", Quantity(Kw("stop_frequency", Quantity(
        Kw("magnitude", Quantity(Kw("phase", Quantity(Finish)))))))))))),
      OnValue(0, "transient",
        Kw("step", Quantity(Kw("stop", Quantity(Kw("start", Quantity(Kw("uic", TheName(Finish)))))))),
        Unsupported)))))
  }

  function Tolerances(): Plan {
    Kw("expected", Quantity(Kw("absolute_tolerance", Quantity(Kw("relative_tolerance", Quantity(Finish))))))
  }

  function Assertion(): Plan {
    Kw("net_voltage", TheName(Kw("analysis", TheName(Kw("net", TheName(Kw("sample", TheName(
      OnValue(3, "scalar", Tolerances(),
      OnValue(3, "frequency", Quantity(Tolerances()),
      OnValue(3, "time", Quantity(Tolerances()),
      Unsupported)))))))))))
  }

  function ManufacturerNumberPackage(): Plan {
    Kw("manufacturer", TheText(Kw("number", TheText(Kw("package", TheText(Finish))))))
  }

  function DesignPlan(word: string): Option<Plan> {
    if word == "net" || word == "ground" then Some(TheName(Finish))
    else if word == "module" then Some(TheName(Open(ModuleItems)))
    else if word == "resistor" || word == "dc_source" then Some(TheName(TheName(Open(ComponentItems))))
    else if word == "catalog_snapshot" then
      Some(TheText(Kw("sha256", TheText(Kw("evaluated_on", TheText(Finish))))))
    else if word == "variant" then Some(TheName(Kw("build_quantity", TheNumber(Open(VariantItems)))))
    else if word == "manufacturability" then
      Some(TheName(Kw("adapter", TheText(Kw("version", TheText(Open(ManufacturabilityItems)))))))
    else if word == "analysis" then Some(Analysis())
    else if word == "assert" then Some(Assertion())
    else if word == "board" then Some(Open(BoardItems))
    else None
  }

  function ComponentPlan(word: string): Option<Plan> {
    if word == "part" then Some(TheText(IfKeyword("virtual", Finish, ManufacturerNumberPackage())))
    else if word == "lifecycle" then Some(TheName(Finish))
    else if word == "sourcing" then
      Some(Kw("minimum_available", TheNumber(Kw("maximum_lead_time_days", TheNumber(Kw("region", TheText(Finish)))))))
    else if word == "substitute" then Some(ManufacturerNumberPackage())
    else if word == "symbol" then Some(TheText(Open(SymbolItems)))
    else if word == "model" then Some(TheText(Finish))
    else if word == "schematic" then Some(Kw("at", Point(Kw("rotation", TheNumber(Kw("deg", Finish))))))
    else if word == "resistance" || word == "voltage" then Some(Quantity(Finish))
    else if word == "terminals" || word == "connect" then Some(TheName(TheName(Finish)))
    else if word == "no_connect" then Some(TheName(Finish))
    else if word == "footprint" then Some(TheText(Open(FootprintItems)))
    else None
  }

  function VariantPlan(word: string): Option<Plan> {
    if word == "fit" || word == "not_fitted" then Some(TheName(Finish))
    else if word == "alternate" then Some(TheName(ManufacturerNumberPackage()))
    else if word == "configure" then Some(TheName(TheText(Finish)))
    else None
  }

  function BoardPlan(word: string): Option<Plan> {
    if word == "rectangle" then Some(Kw("at", Point(Kw("size", Point(Finish)))))
    else if word == "place" then
      Some(TheName(Kw("at", Point(Kw("rotation", TheNumber(Kw("deg", Kw("layer", TheName(Finish)))))))))
    else if word == "route" then
      Some(TheName(Kw("net", TheName(Kw("from", Point(Kw("to", Point(
           Kw("width", Quantity(Kw("layer", TheName(Finish))))))))))))
    else if word == "autoroute" then
      Some(TheName(Kw("net", TheName(Kw("width", Quantity(Kw("clearance", Quantity(Kw("grid", Quantity(
           Kw("layer", TheName(Finish))))))))))))
    else None
  }

  /** What may follow a keyword in a context. */
  function PlanFor(context: Context, word: string): Option<Plan> {
    match context
    case DesignItems => DesignPlan(word)
    case ModuleItems =>
      if word == "port" then
        Some(TheName(TheName(TheName(
             IfKeyword("connect", TheName(Finish), IfKeyword("no_connect", Finish, Reject))))))
      else None
    case ComponentItems => ComponentPlan(word)
    case SymbolItems => if word == "bind" then Some(TheName(TheName(TheName(Finish)))) else None
    case FootprintItems => if word == "bind" then Some(TheName(TheName(Finish))) else None
    case VariantItems => VariantPlan(word)
    case ManufacturabilityItems =>
      if word == "assert" then Some(TheName(Kw("capability", TheName(Finish)))) else None
    case BoardItems => BoardPlan(word)
  }

  // --- Printing ---------------------------------------------------------------

  type Printed = Option<seq<TokenKind>>

  function Prepend(kind: TokenKind, rest: Printed): Printed {
    if rest.Some? then Some([kind] + rest.value) else None
  }

  /** The tokens of a plan for the values from the n-th on; nothing, if they do not fit. */
  function PrintPlan(plan: Plan, values: seq<Value>, n: nat, items: seq<Node>): Printed
    decreases items, 1, plan
  {
    match plan
    case Finish => if n == |values| && items == [] then Some([Semicolon]) else None
    case Then(Keyword(word), rest) => Prepend(Word(word), PrintPlan(rest, values, n, items))
    case Then(Mark(kind), rest) => if kind.End? then None else Prepend(kind, PrintPlan(rest, values, n, items))
    case Then(Capture(sort), rest) =>
      if n < |values| && values[n].Captured? && Admits(sort, values[n].kind)
      then Prepend(values[n].kind, PrintPlan(rest, values, n + 1, items))
      else None
    case IfKeyword(word, yes, no) =>
      if !(n < |values| && values[n].Choice?) then None
      else if values[n].taken then Prepend(Word(word), PrintPlan(yes, values, n + 1, items))
      else
        var other := PrintPlan(no, values, n + 1, items);
        if other.Some? && other.value != [] && other.value[0] != Word(word) then other else None
    case OnValue(index, word, yes, no) =>
      if index < n <= |values| && Reads(values[index], word) then PrintPlan(yes, values, n, items)
      else PrintPlan(no, values, n, items)
    case Reject => None
    case Unsupported => None
    case Open(context) =>
      var inside := PrintItems(context, items);
      if n == |values| && inside.Some? then Some([LeftBrace] + inside.value + [RightBrace]) else None
  }

  function PrintNode(context: Context, node: Node): Printed
    decreases node.items, 2
  {
    var plan := PlanFor(context, node.keyword);
    if plan.None? then None
    else Prepend(Word(node.keyword), PrintPlan(plan.value, node.values, 0, node.items))
  }

  function PrintItems(context: Context, items: seq<Node>): Printed
    decreases items, 0
  {
    if items == [] then Some([])
    else
      var first, rest := PrintNode(context, items[0]), PrintItems(context, items[1..]);
      if first.Some? && rest.Some? then Some(first.value + rest.value) else None
  }

  function PrintDesign(design: Design): Printed {
    var inside := PrintItems(DesignItems, design.declarations);
    if Admits(Name, design.name) && inside.Some?
    then Some([Word("design"), design.name, LeftBrace] + inside.value + [RightBrace])
    else None
  }
}
