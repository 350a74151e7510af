/**
 The SPICE netlist of a design: which nets and components it has, its lines, and the
 text, read back line by line and word by word.
*/
module Netlist {
  import opened Wrappers
  import opened DecimalDigits
  import opened Literals
  import opened Quantities
  import opened Reading
  import opened EngineeringNotation
  import opened Sorting
  import opened Words
  import opened Circuits
  import opened Spice

  /** What is simulated; an AC sweep excites one source. */
  datatype Analysis =
    | OperatingPoint
    | AcLinearSweep(source: string, points: nat, startFrequency: Quantity, stopFrequency: Quantity,
                    magnitude: Quantity, phase: Quantity)
    | Transient(step: Quantity, stop: Quantity, start: Quantity, uic: bool)

  datatype DeviceLine = DeviceLine(device: string, positive: string, negative: string, kind: string, value: string,
                                   excitation: string)
  {
    function Text(): string {
      device + " " + positive + " " + negative + kind + " " + value + excitation
    }
  }

  datatype NameMap = NameMap(nets: seq<NetMapping>, components: seq<DeviceMapping>)

  predicate IsSimulated(c: Component) {
    c.simulation.Some?
  }

  /** The components of the netlist, in the order of their lines. */
  function Instances(design: Design): seq<Component> {
    SortBy(Filter(design.components, IsSimulated), ComponentPath)
  }

  predicate Emitted(components: seq<Component>, net: string) {
    exists c | c in components ::
      c.simulation.Some? && (c.NetForPin(c.simulation.value.positivePin) == Some(net)
                             || c.NetForPin(c.simulation.value.negativePin) == Some(net))
  }

  /** The nets at which some device of the netlist ends. */
  method EmittedNets(components: seq<Component>) returns (emitted: set<string>)
    ensures forall net :: net in emitted <==> Emitted(components, net)
  {
    emitted := {};
    for index := 0 to |components|
      invariant forall net :: net in emitted <==> Emitted(components[..index], net)
    {
      var c := components[index];
      ghost var before, after := components[..index], components[..index + 1];
      assert after == before + [c];
      if c.simulation.Some? {
        var positive := c.NetForPin(c.simulation.value.positivePin);
        var negative := c.NetForPin(c.simulation.value.negativePin);
        if positive.Some? {
          emitted := emitted + {positive.value};
        }
        if negative.Some? {
          emitted := emitted + {negative.value};
        }
      }
      EmittedByOneMore(before, c);
    }
    assert components[..|components|] == components;
  }

  lemma EmittedByOneMore(components: seq<Component>, c: Component)
    ensures forall net :: Emitted(components + [c], net) <==> Emitted(components, net) || Emitted([c], net)
  {
    forall net | Emitted(components, net) || Emitted([c], net) ensures Emitted(components + [c], net) {
      if Emitted(components, net) {
        var d :| d in components && d.simulation.Some? && (d.NetForPin(d.simulation.value.positivePin) == Some(net)
                             || d.NetForPin(d.simulation.value.negativePin) == Some(net));
        assert d in components + [c];
      } else {
        assert c in components + [c];
      }
    }
  }

  // --- The design has what lowering looks up ----------------------------------

  /** The net at a terminal, as validation saw it: by the last connection of the pin. */
  ghost predicate TerminalAt(c: Component, pin: string, net: string) {
    pin in LastStates(c.connections) && LastStates(c.connections)[pin] == Connected(net)
  }

  /** Every terminal resolves, and the first match that lowering takes is the net that validation saw. */
  lemma TerminalsResolve(design: Design, c: Component, pin: string)
    requires WellFormed(design) && c in design.components && c.simulation.Some?
    requires pin == c.simulation.value.positivePin || pin == c.simulation.value.negativePin
    ensures c.NetForPin(pin).Some? && c.NetForPin(pin).value in NetNames(design.nets)
    ensures TerminalAt(c, pin, c.NetForPin(pin).value)
  {
    hide SemanticPathIsValid, TokenIsValid, GroundCount;
    assert ComponentWellFormed(c, NetNames(design.nets));
    ConnectedPins(c.connections, pin, LogicalPins(c.pins), NetNames(design.nets));
    FirstIsLast(c.connections, pin);
    LastStatesCover(c.connections, pin);
  }

  lemma InstancesAreInstantiable(design: Design, c: Component)
    requires WellFormed(design) && c in design.components && c.simulation.Some?
    ensures Instantiable(c)
  {
    assert ComponentWellFormed(c, NetNames(design.nets));
    ValidPathsAreAscii(c.path);
    TokensAreAscii(c.reference);
  }

  lemma {:induction false} AtMostOneGround(nets: seq<Net>, i: nat, j: nat)
    requires i < j < |nets| && nets[i].isGround && nets[j].isGround
    ensures GroundCount(nets) >= 2
  {
    var front := nets[..|nets| - 1];
    if j == |nets| - 1 {
      OneGround(front, i);
    } else {
      AtMostOneGround(front, i, j);
    }
  }

  lemma {:induction false} OneGround(nets: seq<Net>, i: nat)
    requires i < |nets| && nets[i].isGround
    ensures GroundCount(nets) >= 1
  {
    if i < |nets| - 1 {
      OneGround(nets[..|nets| - 1], i);
    }
  }

  /** The emitted nets of a well-formed design can be named. */
  lemma SelectedNetsAreNameable(design: Design, keep: Net -> bool)
    requires NetsWellFormed(design.nets) && GroundCount(design.nets) <= 1
    ensures Nameable(SortBy(Filter(design.nets, keep), NetName))
  {
    hide GroundCount, TokenIsValid, SortBy, Filter;
    var chosen := Filter(design.nets, keep);
    var nets := SortBy(chosen, NetName);
    assert DistinctBy(design.nets, NetName);
    FilterKeepsDistinctness(design.nets, keep, NetName);
    SortKeepsDistinctness(chosen, NetName);
    SortKeepsElements(chosen, NetName);
    forall i | 0 <= i < |nets| ensures TokenIsValid(nets[i].name) {
      assert nets[i] in nets && nets[i] in design.nets;
    }
    forall i, j | 0 <= i < j < |nets| ensures !(nets[i].isGround && nets[j].isGround) {
      assert nets[i] in nets && nets[j] in nets;
      var a :| 0 <= a < |design.nets| && design.nets[a] == nets[i];
      var b :| 0 <= b < |design.nets| && design.nets[b] == nets[j];
      assert NetName(nets[i]) != NetName(nets[j]);
      if nets[i].isGround && nets[j].isGround {
        AtMostOneGround(design.nets, if a < b then a else b, if a < b then b else a);
      }
    }
  }

  /** Looks every name up by its net; the nets are distinct, so nothing is overwritten. */
  method NodesByNet(mappings: seq<NetMapping>) returns (nodes: map<string, string>)
    requires forall i, j | 0 <= i < j < |mappings| :: mappings[i].net != mappings[j].net
    ensures nodes.Keys == set m | m in mappings :: m.net
    ensures forall i | 0 <= i < |mappings| :: mappings[i].net in nodes && nodes[mappings[i].net] == mappings[i].node
  {
    nodes := map[];
    for index := 0 to |mappings|
      invariant nodes.Keys == set m | m in mappings[..index] :: m.net
      invariant forall i | 0 <= i < index :: mappings[i].net in nodes && nodes[mappings[i].net] == mappings[i].node
    {
      assert mappings[..index + 1] == mappings[..index] + [mappings[index]];
      nodes := nodes[mappings[index].net := mappings[index].node];
    }
    assert mappings[..|mappings|] == mappings;
  }

  method DevicesByPath(mappings: seq<DeviceMapping>) returns (devices: map<string, string>)
    requires forall i, j | 0 <= i < j < |mappings| :: mappings[i].path != mappings[j].path
    ensures forall i | 0 <= i < |mappings| ::
              mappings[i].path in devices && devices[mappings[i].path] == mappings[i].device
  {
    devices := map[];
    for index := 0 to |mappings|
      invariant forall i | 0 <= i < index ::
                  mappings[i].path in devices && devices[mappings[i].path] == mappings[i].device
    {
      devices := devices[mappings[index].path := mappings[index].device];
    }
  }

  // --- The line of a device ---------------------------------------------------

  function Kind(model: SimulationModel): string {
    match model
    case Resistor(_, _) => ""
    case DcVoltageSource(_, _) => " DC"
  }

  function ExcitationText(c: Component, analysis: Option<Analysis>): string {
    if c.simulation.Some? && c.simulation.value.DcVoltageSource? && analysis.Some? && analysis.value.AcLinearSweep?
       && analysis.value.source == c.path
    then " AC " + SpiceLiteral(analysis.value.magnitude) + " " + SpiceLiteral(analysis.value.phase)
    else ""
  }

  /** The line of a component, given the nodes of the nets. */
  ghost predicate LineFor(c: Component, line: DeviceLine, device: string, nodes: map<string, string>,
                          analysis: Option<Analysis>) {
    && c.simulation.Some? && line.device == device
    && (var net := c.NetForPin(c.simulation.value.positivePin);
        net.Some? && net.value in nodes && line.positive == nodes[net.value])
    && (var net := c.NetForPin(c.simulation.value.negativePin);
        net.Some? && net.value in nodes && line.negative == nodes[net.value])
    && line.kind == Kind(c.simulation.value) && line.value == SpiceLiteral(c.value)
    && line.excitation == ExcitationText(c, analysis)
  }

  /** A word that reads as a number with the value of the quantity. */
  ghost predicate Denotes(word: string, q: Quantity) {
    && IsScientific(word)
    && SameValue(Scientific(word).coefficient, Scientific(word).exponent, q.coefficient, q.exponent)
  }

  /** What a line says of its component besides its name and its nodes. */
  ghost predicate SaysValue(words: seq<string>, c: Component, analysis: Option<Analysis>)
    requires c.simulation.Some?
  {
    match c.simulation.value
    case Resistor(_, _) => |words| == 4 && Denotes(words[3], c.value)
    case DcVoltageSource(_, _) =>
      && |words| >= 5 && words[3] == "DC" && Denotes(words[4], c.value)
      && if analysis.Some? && analysis.value.AcLinearSweep? && analysis.value.source == c.path
         then |words| == 8 && words[5] == "AC" && Denotes(words[6], analysis.value.magnitude)
              && Denotes(words[7], analysis.value.phase)
         else |words| == 5
  }

  /** What the line of a device says, as words. */
  ghost function LineWords(c: Component, line: DeviceLine, analysis: Option<Analysis>): seq<string>
    requires c.simulation.Some?
  {
    [line.device, line.positive, line.negative]
    + (if c.simulation.value.DcVoltageSource? then ["DC"] else [])
    + [line.value]
    + (if ExcitationText(c, analysis) == "" then []
       else ["AC", SpiceLiteral(analysis.value.magnitude), SpiceLiteral(analysis.value.phase)])
  }

  lemma LiteralsAreWords(q: Quantity)
    ensures IsWord(SpiceLiteral(q))
  {
    hide Print;
    var (c, e) := EngineeringParts(q);
    NumbersAreWords(c);
    NumbersAreWords(e);
  }

  lemma NumbersAreWords(i: int)
    ensures IsWord(SignedText(i))
  {
    hide Print;
    var digits := DigitText(Print(if i < 0 then -i else i));
    assert forall k | 0 <= k < |digits| :: IsDigit(digits[k]);
  }

  lemma NamesAreWords(s: string)
    requires Supported(s) || s == "0"
    ensures IsWord(s)
  {
  }

  /** The words of a line are these, in this order. */
  lemma LineIsCut(c: Component, line: DeviceLine, nodes: map<string, string>, analysis: Option<Analysis>)
    requires LineFor(c, line, line.device, nodes, analysis)
    ensures line.Text() == Joined(LineWords(c, line, analysis), ' ')
  {
    hide SpiceLiteral, Joined, ExcitationText;
    var front := [line.device, line.positive, line.negative] + (if line.kind == "" then [] else ["DC"]) + [line.value];
    var text := line.device + " " + line.positive + " " + line.negative + line.kind + " " + line.value;
    FrontIsCut(line);
    if ExcitationText(c, analysis) == "" {
      assert LineWords(c, line, analysis) == front && line.Text() == text;
    } else {
      ExcitationIsCut(c, analysis, front, text);
    }
  }

  lemma FrontIsCut(line: DeviceLine)
    requires line.kind == "" || line.kind == " DC"
    ensures line.device + " " + line.positive + " " + line.negative + line.kind + " " + line.value
         == Joined([line.device, line.positive, line.negative] + (if line.kind == "" then [] else ["DC"]) + [line.value],
                   ' ')
  {
    var words := [line.device];
    JoinedAppend(words, line.positive, ' ');
    JoinedAppend(words + [line.positive], line.negative, ' ');
    words := words + [line.positive] + [line.negative];
    var text := line.device + " " + line.positive + " " + line.negative;
    assert Joined(words, ' ') == text;
    hide Joined;
    if line.kind != "" {
      JoinedAppend(words, "DC", ' ');
      words := words + ["DC"];
      assert text + " DC" == text + " " + "DC";
      text := text + " DC";
    }
    JoinedAppend(words, line.value, ' ');
    assert words == [line.device, line.positive, line.negative] + (if line.kind == "" then [] else ["DC"]);
    assert text == line.device + " " + line.positive + " " + line.negative + line.kind;
  }

  lemma ExcitationIsCut(c: Component, analysis: Option<Analysis>, front: seq<string>, text: string)
    requires ExcitationText(c, analysis) != "" && front != [] && text == Joined(front, ' ')
    ensures text + ExcitationText(c, analysis)
         == Joined(front + ["AC", SpiceLiteral(analysis.value.magnitude), SpiceLiteral(analysis.value.phase)], ' ')
  {
    hide SpiceLiteral, Joined;
    var m, p := SpiceLiteral(analysis.value.magnitude), SpiceLiteral(analysis.value.phase);
    JoinedAppend(front, "AC", ' ');
    JoinedAppend(front + ["AC"], m, ' ');
    JoinedAppend(front + ["AC"] + [m], p, ' ');
    assert text + " " + "AC" + " " + m + " " + p == text + (" AC " + m + " " + p);
    assert front + ["AC"] + [m] + [p] == front + ["AC", m, p];
  }

  lemma LineSays(c: Component, line: DeviceLine, nodes: map<string, string>, analysis: Option<Analysis>)
    requires LineFor(c, line, line.device, nodes, analysis)
    requires Supported(line.device) && (forall p | p in nodes :: Supported(nodes[p]) || nodes[p] == "0")
    ensures var words := LineWords(c, line, analysis);
            && IsSentence(words) && |words| >= 4 && SaysValue(words, c, analysis)
            && words[0] == line.device && words[1] == line.positive && words[2] == line.negative
  {
    hide SpiceLiteral, SameValue, IsScientific, Scientific, Supported;
    LiteralsAreWords(c.value);
    SpiceLiteralIsExact(c.value);
    NamesAreWords(line.device);
    NamesAreWords(line.positive);
    NamesAreWords(line.negative);
    if ExcitationText(c, analysis) != "" {
      LiteralsAreWords(analysis.value.magnitude);
      SpiceLiteralIsExact(analysis.value.magnitude);
      LiteralsAreWords(analysis.value.phase);
      SpiceLiteralIsExact(analysis.value.phase);
    }
  }

  // --- Connectivity is preserved ----------------------------------------------

  /** A node for every emitted net: nodes differ without regard to case, and node 0 is exactly ground. */
  ghost predicate FaithfulNodes(design: Design, nodes: map<string, string>) {
    && (forall a, b | a in nodes && b in nodes && a != b :: !SameLetters(nodes[a], nodes[b]))
    && (forall n | n in design.nets && n.name in nodes :: StandsFor(nodes[n.name], n))
  }

  /**
   A terminal of the component is on the net, and the line, read as words, has the node
   at that terminal's place: the positive one behind the name, then the negative one.
  */
  ghost predicate EndsAt(c: Component, line: seq<string>, net: string, node: string) {
    && c.simulation.Some? && |line| >= 3
    && ((Connection(c.simulation.value.positivePin, Connected(net)) in c.connections && node == line[1])
        || (Connection(c.simulation.value.negativePin, Connected(net)) in c.connections && node == line[2]))
  }

  /** Terminals share a node, read without regard to case, exactly when they are on one net. */
  ghost predicate SameCircuit(components: seq<Component>, lines: seq<seq<string>>) {
    && |lines| == |components|
    && forall i, j, a, b, x, y
         | 0 <= i < |lines| && 0 <= j < |lines| && EndsAt(components[i], lines[i], a, x)
           && EndsAt(components[j], lines[j], b, y) ::
         SameLetters(x, y) <==> a == b
  }

  /** Node 0 stands for the ground net and no other, and no other node reads as ground. */
  ghost predicate StandsFor(node: string, n: Net) {
    (node == "0" <==> n.isGround) && (!n.isGround ==> IsPlainName(node) && !SameLetters(node, "GND"))
  }

  /** A terminal is at node 0 exactly when its net is the ground net. */
  ghost predicate GroundIsZero(design: Design, components: seq<Component>, lines: seq<seq<string>>) {
    && |lines| == |components|
    && forall i, n, x | 0 <= i < |lines| && n in design.nets && EndsAt(components[i], lines[i], n.name, x) ::
         StandsFor(x, n)
  }

  /** The name map gives the node of every net at a terminal. */
  ghost predicate NamesTerminals(components: seq<Component>, lines: seq<seq<string>>, mappings: seq<NetMapping>) {
    && |lines| == |components|
    && forall i, a, x | 0 <= i < |lines| && EndsAt(components[i], lines[i], a, x) :: NetMapping(a, x) in mappings
  }

  /** No net has two entries, and no two nets have nodes that read alike. */
  ghost predicate NamesOnce(mappings: seq<NetMapping>) {
    forall i, j | 0 <= i < j < |mappings| ::
      mappings[i].net != mappings[j].net && !SameLetters(mappings[i].node, mappings[j].node)
  }

  /** The words of a line stand for a component at these nodes. */
  ghost predicate Represents(c: Component, line: seq<string>, nodes: map<string, string>) {
    && c.simulation.Some? && |line| >= 3
    && (var net := c.NetForPin(c.simulation.value.positivePin);
        net.Some? && net.value in nodes && line[1] == nodes[net.value])
    && (var net := c.NetForPin(c.simulation.value.negativePin);
        net.Some? && net.value in nodes && line[2] == nodes[net.value])
  }

  lemma LinesAreFaithful(design: Design, components: seq<Component>, lines: seq<seq<string>>,
                         nodes: map<string, string>)
    requires WellFormed(design) && FaithfulNodes(design, nodes) && |lines| == |components|
    requires forall i | 0 <= i < |components| ::
               components[i] in design.components && Represents(components[i], lines[i], nodes)
    ensures SameCircuit(components, lines) && GroundIsZero(design, components, lines)
  {
    hide WellFormed, SameLetters, IsPlainName, EndsAt, Represents;
    forall i, j, a, b, x, y
      | 0 <= i < |lines| && 0 <= j < |lines| && EndsAt(components[i], lines[i], a, x)
        && EndsAt(components[j], lines[j], b, y)
      ensures SameLetters(x, y) <==> a == b
    {
      EndNode(design, components[i], lines[i], nodes, a, x);
      EndNode(design, components[j], lines[j], nodes, b, y);
      SameName(x);
    }
    forall i, n: Net, x | 0 <= i < |lines| && n in design.nets && EndsAt(components[i], lines[i], n.name, x)
      ensures StandsFor(x, n)
    {
      EndNode(design, components[i], lines[i], nodes, n.name, x);
    }
  }

  lemma SameName(s: string)
    ensures SameLetters(s, s)
  {
  }

  /** The node of a terminal is that of the net which the design connects it to. */
  lemma EndNode(design: Design, c: Component, line: seq<string>, nodes: map<string, string>, net: string, node: string)
    requires WellFormed(design) && c in design.components && Represents(c, line, nodes) && EndsAt(c, line, net, node)
    ensures net in nodes && node == nodes[net]
  {
    hide WellFormed;
    var model := c.simulation.value;
    if Connection(model.positivePin, Connected(net)) in c.connections && node == line[1] {
      PinIsOn(design, c, model.positivePin, net);
    } else {
      PinIsOn(design, c, model.negativePin, net);
    }
  }

  /** The net of the only connection of a pin is the one that lowering looks up. */
  lemma PinIsOn(design: Design, c: Component, pin: string, net: string)
    requires WellFormed(design) && c in design.components && c.simulation.Some?
    requires pin == c.simulation.value.positivePin || pin == c.simulation.value.negativePin
    requires Connection(pin, Connected(net)) in c.connections
    ensures c.NetForPin(pin) == Some(net)
  {
    hide SemanticPathIsValid, TokenIsValid, GroundCount, LastStates;
    assert ComponentWellFormed(c, NetNames(design.nets));
    var i :| 0 <= i < |c.connections| && c.connections[i] == Connection(pin, Connected(net));
    FirstNetAt(c.connections, i);
  }

  // --- Putting it together ----------------------------------------------------

  /** What naming the nets of a well-formed design gives. */
  lemma NamingIsFaithful(design: Design, nets: seq<Net>, mappings: seq<NetMapping>, nodes: map<string, string>)
    requires WellFormed(design) && |mappings| == |nets| && forall n | n in nets :: n in design.nets
    requires forall i | 0 <= i < |nets| :: mappings[i].net == nets[i].name && NodeFor(nets, i, mappings[i].node)
    requires forall i, j | 0 <= i < j < |nets| :: CaseKey(mappings[i].node) != CaseKey(mappings[j].node)
    requires nodes.Keys == set m | m in mappings :: m.net
    requires forall i | 0 <= i < |mappings| :: mappings[i].net in nodes && nodes[mappings[i].net] == mappings[i].node
    ensures FaithfulNodes(design, nodes)
    ensures forall p | p in nodes :: Supported(nodes[p]) || nodes[p] == "0"
  {
    hide CaseKey, NodePreservable, GroundCount, ComponentsWellFormed, TokenIsValid, SameLetters, IsPlainName,
         ArtifactNameIsValid;
    forall a, b | a in nodes && b in nodes && a != b ensures !SameLetters(nodes[a], nodes[b]) {
      var i :| 0 <= i < |mappings| && mappings[i].net == a;
      var j :| 0 <= j < |mappings| && mappings[j].net == b;
      assert i != j;
      CaseKeyIs(nodes[a], nodes[b]);
    }
    forall p | p in nodes ensures Supported(nodes[p]) || nodes[p] == "0" {
      var i :| 0 <= i < |mappings| && mappings[i].net == p;
      assert NodeFor(nets, i, mappings[i].node);
    }
    forall n | n in design.nets && n.name in nodes
      ensures StandsFor(nodes[n.name], n)
    {
      var i :| 0 <= i < |mappings| && mappings[i].net == n.name;
      assert nets[i] in nets;
      SameNet(design.nets, n, nets[i]);
      assert NodeFor(nets, i, mappings[i].node);
      SupportedIs(nodes[n.name]);
    }
  }

  lemma SameNet(nets: seq<Net>, a: Net, b: Net)
    requires NetsWellFormed(nets) && a in nets && b in nets && a.name == b.name
    ensures a == b
  {
    var i :| 0 <= i < |nets| && nets[i] == a;
    var j :| 0 <= j < |nets| && nets[j] == b;
  }

  lemma InstancesMeans(design: Design)
    requires WellFormed(design)
    ensures DistinctBy(Instances(design), ComponentPath) && SortedBy(Instances(design), ComponentPath)
    ensures forall c :: c in Instances(design) <==> c in design.components && c.simulation.Some?
    ensures forall i | 0 <= i < |Instances(design)| :: Instantiable(Instances(design)[i])
  {
    hide GroundCount, TokenIsValid, SortBy, Filter, NetsWellFormed, ComponentWellFormed, Instantiable,
         ArtifactNameIsValid;
    var chosen := Filter(design.components, IsSimulated);
    assert DistinctBy(design.components, ComponentPath);
    FilterKeepsDistinctness(design.components, IsSimulated, ComponentPath);
    SortKeepsDistinctness(chosen, ComponentPath);
    SortKeepsElements(chosen, ComponentPath);
    SortSorts(chosen, ComponentPath);
    forall i | 0 <= i < |Instances(design)| ensures Instantiable(Instances(design)[i]) {
      assert Instances(design)[i] in Instances(design);
      InstancesAreInstantiable(design, Instances(design)[i]);
    }
  }

  /** Every terminal's net is one that was named. */
  lemma TerminalsAreNamed(design: Design, nets: seq<Net>, nodes: map<string, string>, c: Component, pin: string)
    requires WellFormed(design) && c in design.components && c.simulation.Some?
    requires pin == c.simulation.value.positivePin || pin == c.simulation.value.negativePin
    requires forall n | n in design.nets && Emitted(design.components, n.name) :: n in nets
    requires forall n | n in nets :: n.name in nodes
    ensures c.NetForPin(pin).Some? && c.NetForPin(pin).value in nodes
  {
    hide WellFormed;
    TerminalsResolve(design, c, pin);
    var net := c.NetForPin(pin).value;
    assert Emitted(design.components, net);
    var n :| n in design.nets && n.name == net;
    assert n in nets;
  }

  /** Exactly the nets that are needed, in order, each with a node of its own. */
  ghost predicate NetsNamed(design: Design, nets: seq<Net>, mappings: seq<NetMapping>, nodes: map<string, string>) {
    && FaithfulNodes(design, nodes) && (forall p | p in nodes :: Supported(nodes[p]) || nodes[p] == "0")
    && nodes.Keys == (set m | m in mappings :: m.net)
    && SortedBy(nets, NetName) && DistinctBy(nets, NetName) && |mappings| == |nets|
    && (forall n :: n in nets <==> n in design.nets && (n.isGround || Emitted(design.components, n.name)))
    && (forall i | 0 <= i < |nets| ::
          && mappings[i].net == nets[i].name && NodeFor(nets, i, mappings[i].node)
          && nets[i].name in nodes && nodes[nets[i].name] == mappings[i].node)
    && forall i, j | 0 <= i < j < |mappings| :: CaseKey(mappings[i].node) != CaseKey(mappings[j].node)
  }

  /** Every component has a device of its own. */
  ghost predicate DevicesNamed(components: seq<Component>, devices: seq<DeviceMapping>) {
    && |devices| == |components|
    && (forall i | 0 <= i < |devices| ::
          && Instantiable(components[i])
          && devices[i].path == components[i].path && devices[i].reference == components[i].reference
          && DeviceFor(components, i, devices[i].device))
    && forall i, j | 0 <= i < j < |devices| :: CaseKey(devices[i].device) != CaseKey(devices[j].device)
  }

  /** The nets that the netlist mentions, and the ground net, in order. */
  method SelectNets(design: Design) returns (nets: seq<Net>)
    requires WellFormed(design)
    ensures Nameable(nets) && SortedBy(nets, NetName) && DistinctBy(nets, NetName)
    ensures forall n :: n in nets <==> n in design.nets && (n.isGround || Emitted(design.components, n.name))
  {
    hide GroundCount, ComponentsWellFormed, TokenIsValid, SortBy, Filter, Emitted, ArtifactNameIsValid, Nameable, AtMost;
    var emitted := EmittedNets(design.components);
    var keep := (n: Net) => n.isGround || n.name in emitted;
    nets := SortBy(Filter(design.nets, keep), NetName);
    SelectedNetsAreNameable(design, keep);
    SortKeepsElements(Filter(design.nets, keep), NetName);
    SortSorts(Filter(design.nets, keep), NetName);
    NameableDiffer(nets);
  }

  lemma NameableDiffer(nets: seq<Net>)
    requires Nameable(nets)
    ensures DistinctBy(nets, NetName)
  {
  }

  /** Names the nets that the netlist mentions, and the ground net, and every component. */
  method LowerNames(design: Design)
    returns (nets: seq<Net>, mappings: seq<NetMapping>, nodes: map<string, string>, devices: seq<DeviceMapping>)
    requires WellFormed(design)
    ensures NetsNamed(design, nets, mappings, nodes) && DevicesNamed(Instances(design), devices)
  {
    hide WellFormed, CaseKey, Nameable, NodeFor, DeviceFor, Instantiable, FaithfulNodes, Emitted, Instances, Supported,
         SortedBy;
    nets := SelectNets(design);
    mappings := LowerNets(nets);
    assert forall i, j | 0 <= i < j < |nets| :: NetName(nets[i]) != NetName(nets[j]);
    nodes := NodesByNet(mappings);
    NamingIsFaithful(design, nets, mappings, nodes);
    InstancesMeans(design);
    devices := LowerDevices(Instances(design));
  }

  /** A component can be written: its terminals are at nets that have nodes. */
  ghost predicate Writable(c: Component, nodes: map<string, string>) {
    && c.simulation.Some?
    && c.NetForPin(c.simulation.value.positivePin).Some?
    && c.NetForPin(c.simulation.value.positivePin).value in nodes
    && c.NetForPin(c.simulation.value.negativePin).Some?
    && c.NetForPin(c.simulation.value.negativePin).value in nodes
  }

  method BuildLine(c: Component, device: string, nodes: map<string, string>, analysis: Option<Analysis>)
    returns (line: DeviceLine)
    requires Writable(c, nodes)
    ensures LineFor(c, line, device, nodes, analysis)
  {
    var positivePin, negativePin := "", "";
    match c.simulation.value {
      case Resistor(positive, negative) => positivePin, negativePin := positive, negative;
      case DcVoltageSource(positive, negative) => positivePin, negativePin := positive, negative;
    }
    var positive, negative := c.NetForPin(positivePin).value, c.NetForPin(negativePin).value;
    line := DeviceLine(device, nodes[positive], nodes[negative], Kind(c.simulation.value), SpiceLiteral(c.value),
                       ExcitationText(c, analysis));
  }

  lemma PathsDiffer(components: seq<Component>, devices: seq<DeviceMapping>)
    requires DistinctBy(components, ComponentPath) && |devices| == |components|
    requires forall i | 0 <= i < |devices| :: devices[i].path == components[i].path
    ensures forall i, j | 0 <= i < j < |devices| :: devices[i].path != devices[j].path
  {
    assert forall i | 0 <= i < |devices| :: devices[i].path == ComponentPath(components[i]);
  }

  // --- The text ---------------------------------------------------------------

  /** The text says exactly this, line by line and word by word. */
  ghost predicate Says(text: string, said: seq<seq<string>>) {
    text == TextOf(said) && forall i | 0 <= i < |said| :: IsSentence(said[i])
  }

  lemma SaysMore(text: string, said: seq<seq<string>>, words: seq<string>, line: string)
    requires Says(text, said) && IsSentence(words) && line == Joined(words, ' ')
    ensures Says(text + line + "\n", said + [words])
  {
    hide IsSentence, Joined, TextOf;
    TextAppend(said, words);
  }

  lemma SaysNothing()
    ensures Says("", [])
  {
  }

  lemma SaidIsRead(text: string, said: seq<seq<string>>)
    requires Says(text, said)
    ensures Sentences(text) == said
  {
    SentencesOfText(said);
  }

  ghost function HeaderSentence(name: string): seq<string> {
    ["*", "Generated", "by", "CircuitC", "from", name]
  }

  ghost function NetSentence(m: NetMapping): seq<string>
    requires IsAscii(m.net)
  {
    ["*", "@circuitc-net", HexOfName(m.net), m.node]
  }

  ghost function DeviceSentence(m: DeviceMapping): seq<string>
    requires IsAscii(m.path) && IsAscii(m.reference)
  {
    ["*", "@circuitc-device", HexOfName(m.path), HexOfName(m.reference), m.device]
  }

  ghost function NetSentences(mappings: seq<NetMapping>): (r: seq<seq<string>>)
    requires forall m | m in mappings :: IsAscii(m.net)
    ensures |r| == |mappings|
  {
    seq(|mappings|, i requires 0 <= i < |mappings| => NetSentence(mappings[i]))
  }

  ghost function DeviceSentences(mappings: seq<DeviceMapping>): (r: seq<seq<string>>)
    requires forall m | m in mappings :: IsAscii(m.path) && IsAscii(m.reference)
    ensures |r| == |mappings|
  {
    seq(|mappings|, i requires 0 <= i < |mappings| => DeviceSentence(mappings[i]))
  }

  lemma HexIsWord(s: string)
    requires IsAscii(s)
    ensures IsWord(HexOfName(s))
  {
    hide HexEncoded;
    HexLength(AsciiBytes(s));
  }

  lemma ArtifactNamesAreWords(s: string)
    requires ArtifactNameIsValid(s)
    ensures IsWord(s)
  {
    ArtifactNamesAre(s);
  }

  lemma Four(a: string, b: string, c: string, d: string)
    ensures Joined([a, b, c, d], ' ') == a + " " + b + " " + c + " " + d
  {
    JoinedAppend([a], b, ' ');
    JoinedAppend([a] + [b], c, ' ');
    JoinedAppend([a] + [b] + [c], d, ' ');
    assert [a] + [b] + [c] + [d] == [a, b, c, d];
  }

  lemma Five(a: string, b: string, c: string, d: string, e: string)
    ensures Joined([a, b, c, d, e], ' ') == a + " " + b + " " + c + " " + d + " " + e
  {
    Four(a, b, c, d);
    JoinedAppend([a, b, c, d], e, ' ');
    assert [a, b, c, d] + [e] == [a, b, c, d, e];
  }

  lemma Six(a: string, b: string, c: string, d: string, e: string, f: string)
    ensures Joined([a, b, c, d, e, f], ' ') == a + " " + b + " " + c + " " + d + " " + e + " " + f
  {
    Five(a, b, c, d, e);
    JoinedAppend([a, b, c, d, e], f, ' ');
    assert [a, b, c, d, e] + [f] == [a, b, c, d, e, f];
  }

  lemma FixedWords()
    ensures IsWord("*") && IsWord("Generated") && IsWord("by") && IsWord("CircuitC") && IsWord("from")
    ensures IsWord("@circuitc-net") && IsWord("@circuitc-device")
    ensures IsWord(".AC") && IsWord("LIN") && IsWord(".TRAN") && IsWord("UIC") && IsWord(".OP") && IsWord(".END")
  {
  }

  lemma HeaderIsSaid(name: string, line: string)
    requires ArtifactNameIsValid(name) && line == "* Generated by CircuitC from " + name
    ensures Says(line + "\n", [HeaderSentence(name)])
  {
    ArtifactNamesAreWords(name);
    hide ArtifactNameIsValid, Joined, Says, IsWord;
    Six("*", "Generated", "by", "CircuitC", "from", name);
    assert "*" + " " + "Generated" + " " + "by" + " " + "CircuitC" + " " + "from" + " "
        == "* Generated by CircuitC from ";
    FixedWords();
    SaysNothing();
    SaysMore("", [], HeaderSentence(name), line);
    assert [] + [HeaderSentence(name)] == [HeaderSentence(name)];
    assert "" + line + "\n" == line + "\n";
  }

  method WriteNets(before: string, mappings: seq<NetMapping>, ghost said: seq<seq<string>>) returns (text: string)
    requires Says(before, said)
    requires forall m | m in mappings :: IsAscii(m.net) && IsWord(m.node)
    ensures Says(text, said + NetSentences(mappings))
  {
    hide Says, IsAscii, IsWord, Joined;
    text := before;
    ghost var sentences := NetSentences(mappings);
    assert said + sentences[..0] == said;
    for index := 0 to |mappings|
      invariant Says(text, said + sentences[..index])
    {
      var m := mappings[index];
      assert m in mappings;
      var line := "* @circuitc-net " + HexOfName(m.net) + " " + m.node;
      NetIsSaid(m, line);
      SaysMore(text, said + sentences[..index], NetSentence(m), line);
      assert said + sentences[..index] + [NetSentence(m)] == said + sentences[..index + 1];
      text := text + line + "\n";
    }
    assert sentences[..|mappings|] == sentences;
  }

  lemma NetIsSaid(m: NetMapping, line: string)
    requires IsAscii(m.net) && IsWord(m.node) && line == "* @circuitc-net " + HexOfName(m.net) + " " + m.node
    ensures IsSentence(NetSentence(m)) && line == Joined(NetSentence(m), ' ')
  {
    HexIsWord(m.net);
    hide IsAscii, IsWord, HexOfName, Joined;
    FixedWords();
    Four("*", "@circuitc-net", HexOfName(m.net), m.node);
    assert "*" + " " + "@circuitc-net" + " " == "* @circuitc-net ";
  }

  method WriteDevices(before: string, mappings: seq<DeviceMapping>, ghost said: seq<seq<string>>)
    returns (text: string)
    requires Says(before, said)
    requires forall m | m in mappings :: IsAscii(m.path) && IsAscii(m.reference) && IsWord(m.device)
    ensures Says(text, said + DeviceSentences(mappings))
  {
    hide Says, IsAscii, IsWord, Joined;
    text := before;
    ghost var sentences := DeviceSentences(mappings);
    assert said + sentences[..0] == said;
    for index := 0 to |mappings|
      invariant Says(text, said + sentences[..index])
    {
      var m := mappings[index];
      assert m in mappings;
      var line := "* @circuitc-device " + HexOfName(m.path) + " " + HexOfName(m.reference) + " " + m.device;
      DeviceIsSaid(m, line);
      SaysMore(text, said + sentences[..index], DeviceSentence(m), line);
      assert said + sentences[..index] + [DeviceSentence(m)] == said + sentences[..index + 1];
      text := text + line + "\n";
    }
    assert sentences[..|mappings|] == sentences;
  }

  lemma DeviceIsSaid(m: DeviceMapping, line: string)
    requires IsAscii(m.path) && IsAscii(m.reference) && IsWord(m.device)
    requires line == "* @circuitc-device " + HexOfName(m.path) + " " + HexOfName(m.reference) + " " + m.device
    ensures IsSentence(DeviceSentence(m)) && line == Joined(DeviceSentence(m), ' ')
  {
    HexIsWord(m.path);
    HexIsWord(m.reference);
    hide IsAscii, IsWord, HexOfName, Joined;
    FixedWords();
    Five("*", "@circuitc-device", HexOfName(m.path), HexOfName(m.reference), m.device);
    assert "*" + " " + "@circuitc-device" + " " == "* @circuitc-device ";
  }

  /** The words of a line, and what they say of the component. */
  ghost predicate LineMeans(c: Component, words: seq<string>, device: string, nodes: map<string, string>,
                            analysis: Option<Analysis>) {
    && Represents(c, words, nodes) && words[0] == device && |words| >= 4 && SaysValue(words, c, analysis)
  }

  method WriteLines(before: string, components: seq<Component>, devices: map<string, string>,
                    nodes: map<string, string>, analysis: Option<Analysis>, ghost said: seq<seq<string>>)
    returns (text: string, ghost lines: seq<seq<string>>)
    requires Says(before, said)
    requires forall i | 0 <= i < |components| ::
               && Writable(components[i], nodes) && components[i].path in devices
               && Supported(devices[components[i].path])
    requires forall p | p in nodes :: Supported(nodes[p]) || nodes[p] == "0"
    ensures Says(text, said + lines) && |lines| == |components|
    ensures forall i | 0 <= i < |components| ::
              LineMeans(components[i], lines[i], devices[components[i].path], nodes, analysis)
  {
    hide Says, Writable, Supported, LineMeans, LineFor, IsSentence, LineWords, DeviceLine.Text, Represents;
    text, lines := before, [];
    assert said + lines == said;
    for index := 0 to |components|
      invariant |lines| == index && Says(text, said + lines)
      invariant forall i | 0 <= i < index ::
                  LineMeans(components[i], lines[i], devices[components[i].path], nodes, analysis)
    {
      var c := components[index];
      var line := BuildLine(c, devices[c.path], nodes, analysis);
      LineIsSaid(c, line, devices[c.path], nodes, analysis);
      ghost var words := LineWords(c, line, analysis);
      SaysMore(text, said + lines, words, line.Text());
      assert said + lines + [words] == said + (lines + [words]);
      text := text + line.Text() + "\n";
      lines := lines + [words];
    }
  }

  lemma LineIsSaid(c: Component, line: DeviceLine, device: string, nodes: map<string, string>,
                   analysis: Option<Analysis>)
    requires LineFor(c, line, device, nodes, analysis) && Supported(device)
    requires forall p | p in nodes :: Supported(nodes[p]) || nodes[p] == "0"
    ensures c.simulation.Some?
    ensures var words := LineWords(c, line, analysis);
            IsSentence(words) && line.Text() == Joined(words, ' ') && LineMeans(c, words, device, nodes, analysis)
  {
    hide Supported, SaysValue, LineWords, IsSentence, Joined, DeviceLine.Text, ExcitationText, SpiceLiteral, Kind;
    LineIsCut(c, line, nodes, analysis);
    LineSays(c, line, nodes, analysis);
  }

  /** The line that starts the simulation. */
  ghost predicate IsDirective(said: seq<seq<string>>, analysis: Option<Analysis>) {
    match analysis
    case None => said == []
    case Some(OperatingPoint) => said == [[".OP"]]
    case Some(AcLinearSweep(_, points, start, stop, _, _)) =>
      && |said| == 1 && |said[0]| == 5 && said[0][0] == ".AC" && said[0][1] == "LIN"
      && IsNatural(said[0][2]) && Natural(said[0][2]) == points
      && Denotes(said[0][3], start) && Denotes(said[0][4], stop)
    case Some(Transient(step, stop, start, uic)) =>
      && |said| == 1 && |said[0]| == (if uic then 5 else 4) && said[0][0] == ".TRAN"
      && Denotes(said[0][1], step) && Denotes(said[0][2], stop) && Denotes(said[0][3], start)
      && (uic ==> said[0][4] == "UIC")
  }

  method WriteDirective(before: string, analysis: Option<Analysis>, ghost said: seq<seq<string>>)
    returns (text: string, ghost directive: seq<seq<string>>)
    requires Says(before, said)
    ensures Says(text, said + directive) && IsDirective(directive, analysis)
  {
    hide Says, IsSentence, Joined, SpiceLiteral, Denotes;
    text, directive := before, [];
    assert said + [] == said;
    match analysis {
      case None =>
      case Some(OperatingPoint) =>
        directive := [[".OP"]];
        WordIsSaid(".OP");
        SaysMore(text, said, [".OP"], ".OP");
        text := text + ".OP" + "\n";
      case Some(AcLinearSweep(source, points, start, stop, magnitude, phase)) =>
        var line := ".AC LIN " + DigitText(Print(points)) + " " + SpiceLiteral(start) + " " + SpiceLiteral(stop);
        ghost var words := SweepIsSaid(points, start, stop, line);
        directive := [words];
        SaysMore(text, said, words, line);
        text := text + line + "\n";
      case Some(Transient(step, stop, start, uic)) =>
        var line := ".TRAN " + SpiceLiteral(step) + " " + SpiceLiteral(stop) + " " + SpiceLiteral(start);
        if uic {
          line := line + " UIC";
        }
        ghost var words := TransientIsSaid(step, stop, start, uic, line);
        directive := [words];
        SaysMore(text, said, words, line);
        text := text + line + "\n";
    }
  }

  lemma WordIsSaid(word: string)
    requires IsWord(word)
    ensures IsSentence([word]) && word == Joined([word], ' ')
  {
  }

  lemma SweepIsSaid(points: nat, start: Quantity, stop: Quantity, line: string) returns (words: seq<string>)
    requires line == ".AC LIN " + DigitText(Print(points)) + " " + SpiceLiteral(start) + " " + SpiceLiteral(stop)
    ensures IsSentence(words) && line == Joined(words, ' ')
    ensures |words| == 5 && words[0] == ".AC" && words[1] == "LIN"
    ensures IsNatural(words[2]) && Natural(words[2]) == points && Denotes(words[3], start) && Denotes(words[4], stop)
  {
    hide SpiceLiteral, Joined, IsWord, Denotes;
    var count := DigitText(Print(points));
    DigitTextReads(Print(points));
    CountIsWord(count);
    LiteralDenotes(start);
    LiteralDenotes(stop);
    FixedWords();
    words := [".AC", "LIN", count, SpiceLiteral(start), SpiceLiteral(stop)];
    Five(".AC", "LIN", count, SpiceLiteral(start), SpiceLiteral(stop));
    assert ".AC" + " " + "LIN" + " " == ".AC LIN ";
  }

  lemma CountIsWord(s: string)
    requires IsNatural(s)
    ensures IsWord(s)
  {
  }

  lemma LiteralDenotes(q: Quantity)
    ensures Denotes(SpiceLiteral(q), q) && IsWord(SpiceLiteral(q))
  {
    LiteralsAreWords(q);
    SpiceLiteralIsExact(q);
  }

  lemma TransientIsSaid(step: Quantity, stop: Quantity, start: Quantity, uic: bool, line: string)
    returns (words: seq<string>)
    requires var front := ".TRAN " + SpiceLiteral(step) + " " + SpiceLiteral(stop) + " " + SpiceLiteral(start);
             line == if uic then front + " UIC" else front
    ensures IsSentence(words) && line == Joined(words, ' ')
    ensures |words| == (if uic then 5 else 4) && words[0] == ".TRAN" && (uic ==> words[4] == "UIC")
    ensures Denotes(words[1], step) && Denotes(words[2], stop) && Denotes(words[3], start)
  {
    hide SpiceLiteral, Joined, IsWord, Denotes;
    LiteralDenotes(step);
    LiteralDenotes(stop);
    LiteralDenotes(start);
    FixedWords();
    var a, b, c := SpiceLiteral(step), SpiceLiteral(stop), SpiceLiteral(start);
    Four(".TRAN", a, b, c);
    assert ".TRAN" + " " == ".TRAN ";
    words := [".TRAN", a, b, c];
    if uic {
      Five(".TRAN", a, b, c, "UIC");
      words := [".TRAN", a, b, c, "UIC"];
      assert ".TRAN " + a + " " + b + " " + c + " " + "UIC" == ".TRAN " + a + " " + b + " " + c + " UIC";
    }
  }

  // --- Which names are kept ----------------------------------------------------

  /** The letters by which the simulator knows a device. */
  ghost function Letters(model: SimulationModel): set<char> {
    match model
    case Resistor(_, _) => {'R', 'r'}
    case DcVoltageSource(_, _) => {'V', 'v'}
  }

  /** The device is the reference if that is plain, starts with the letter and is shared with no other one. */
  ghost predicate DeviceKept(components: seq<Component>, i: nat, device: string)
    requires i < |components| && components[i].simulation.Some?
  {
    var reference, letters := components[i].reference, Letters(components[i].simulation.value);
    && IsPlainName(device) && device[0] in letters
    && if IsPlainName(reference) && reference[0] in letters
          && forall j | 0 <= j < |components| && j != i :: !SameLetters(components[j].reference, reference)
       then device == reference
       else (if components[i].simulation.value.Resistor? then "RCC_" else "VCC_") <= device
  }

  lemma DeviceIsKept(components: seq<Component>, i: nat, device: string)
    requires i < |components| && Instantiable(components[i]) && DeviceFor(components, i, device)
    ensures DeviceKept(components, i, device)
  {
    var c := components[i];
    SupportedIs(device);
    SupportedIs(c.reference);
    forall j | 0 <= j < |components|
      ensures CaseKey(components[j].reference) == CaseKey(c.reference) <==>
              SameLetters(components[j].reference, c.reference)
    {
      CaseKeyIs(components[j].reference, c.reference);
    }
    AloneByLetters(components, i);
    hide SameLetters, CaseKey, Supported, IsPlainName, IsAscii, Alone, Mangled;
    if !ReferencePreservable(components, i) {
      var used :| Mangled(Prefix(c.simulation.value), AsciiBytes(MangleSource(c)), used, device);
      MangledStarts(Prefix(c.simulation.value), AsciiBytes(MangleSource(c)), used, device);
    }
  }

  lemma AloneByLetters(components: seq<Component>, i: nat)
    requires i < |components|
    ensures Alone(References(components), All(|components|), i) <==>
            forall j | 0 <= j < |components| && j != i :: !SameLetters(components[j].reference, components[i].reference)
  {
    hide SameLetters, CaseKey;
    forall j | 0 <= j < |components|
      ensures CaseKey(components[j].reference) == CaseKey(components[i].reference) <==>
              SameLetters(components[j].reference, components[i].reference)
    {
      CaseKeyIs(components[j].reference, components[i].reference);
    }
    assert forall j | 0 <= j < |components| :: References(components)[j] == components[j].reference;
  }

  lemma MangledStarts(prefix: string, source: seq<Byte>, used: set<string>, name: string)
    requires Supported(prefix) && Mangled(prefix, source, used, name)
    ensures prefix + "_" <= name
  {
    hide Candidate, HexEncoded, Supported, CaseKey;
    var n: nat :| name == Candidate(prefix + "_" + HexEncoded(source), n);
    CandidateIsSupported(prefix, source, n);
  }

  ghost predicate AtTerminal(design: Design, net: string) {
    exists c :: c in design.components && c.simulation.Some?
                && (Connection(c.simulation.value.positivePin, Connected(net)) in c.connections
                    || Connection(c.simulation.value.negativePin, Connected(net)) in c.connections)
  }

  ghost predicate IsGround(design: Design, net: string) {
    exists n :: n in design.nets && n.name == net && n.isGround
  }

  /** The node is the net's name if that is plain, does not read as ground and is shared with no other named net. */
  ghost predicate NetKept(design: Design, mappings: seq<NetMapping>, i: nat)
    requires i < |mappings|
  {
    var net, node := mappings[i].net, mappings[i].node;
    if IsGround(design, net) then node == "0"
    else if IsPlainName(net) && net != "0" && !SameLetters(net, "GND")
            && forall j | 0 <= j < |mappings| && j != i && !IsGround(design, mappings[j].net) ::
                 !SameLetters(mappings[j].net, net)
         then node == net
    else "CCN_" <= node
  }

  /** Exactly the ground net and the nets at terminals have an entry, and each keeps its name if that is safe. */
  ghost predicate NetsKept(design: Design, mappings: seq<NetMapping>) {
    && (forall i | 0 <= i < |mappings| :: NetKept(design, mappings, i))
    && (forall n | n in design.nets ::
          (exists m :: m in mappings && m.net == n.name) <==> n.isGround || AtTerminal(design, n.name))
  }

  /** A net is emitted exactly when some terminal is connected to it. */
  lemma EmittedAtTerminal(design: Design, net: string)
    requires WellFormed(design)
    ensures Emitted(design.components, net) <==> AtTerminal(design, net)
  {
    hide WellFormed, LastStates, Component.NetForPin;
    if Emitted(design.components, net) {
      var c :| c in design.components && c.simulation.Some?
               && (c.NetForPin(c.simulation.value.positivePin) == Some(net)
                   || c.NetForPin(c.simulation.value.negativePin) == Some(net));
      var model := c.simulation.value;
      var pin := if c.NetForPin(model.positivePin) == Some(net) then model.positivePin else model.negativePin;
      TerminalsResolve(design, c, pin);
      TerminalIsConnected(c, pin, net);
    }
    if AtTerminal(design, net) {
      var c :| c in design.components && c.simulation.Some?
               && (Connection(c.simulation.value.positivePin, Connected(net)) in c.connections
                   || Connection(c.simulation.value.negativePin, Connected(net)) in c.connections);
      var model := c.simulation.value;
      var pin := if Connection(model.positivePin, Connected(net)) in c.connections then model.positivePin
                 else model.negativePin;
      PinIsOn(design, c, pin, net);
    }
  }

  lemma TerminalIsConnected(c: Component, pin: string, net: string)
    requires TerminalAt(c, pin, net)
    ensures Connection(pin, Connected(net)) in c.connections
  {
    LastStatesCover(c.connections, pin);
    var i :| 0 <= i < |c.connections| && c.connections[i].pin == pin
             && c.connections[i].state == LastStates(c.connections)[pin];
    assert c.connections[i] in c.connections;
  }

  lemma NetIsKept(design: Design, nets: seq<Net>, mappings: seq<NetMapping>, i: nat)
    requires NetsWellFormed(design.nets) && |mappings| == |nets| && i < |nets| && forall n | n in nets :: n in design.nets
    requires forall k | 0 <= k < |nets| :: mappings[k].net == nets[k].name && NodeFor(nets, k, mappings[k].node)
    ensures NetKept(design, mappings, i)
  {
    var net, node := nets[i].name, mappings[i].node;
    forall k | 0 <= k < |nets| ensures IsGround(design, mappings[k].net) <==> nets[k].isGround {
      assert nets[k] in nets;
      if IsGround(design, nets[k].name) {
        var n :| n in design.nets && n.name == nets[k].name && n.isGround;
        SameNet(design.nets, n, nets[k]);
      }
    }
    SupportedIs(net);
    NodesAloneByLetters(nets, i);
    hide SameLetters, CaseKey, IsPlainName, Alone, Mangled, Supported, NodeReserved, NetsWellFormed, IsGround, IsAscii;
    assert NodeFor(nets, i, node);
    if !nets[i].isGround && !NodePreservable(nets, i) {
      var used :| Mangled("CCN", AsciiBytes(net), used, node);
      CcnIsSupported();
      MangledStarts("CCN", AsciiBytes(net), used, node);
      assert "CCN" + "_" == "CCN_";
    }
  }

  lemma CcnIsSupported()
    ensures Supported("CCN")
  {
  }

  lemma NodesAloneByLetters(nets: seq<Net>, i: nat)
    requires i < |nets|
    ensures Alone(Names(nets), Nonground(nets), i) <==>
            forall j | 0 <= j < |nets| && j != i && !nets[j].isGround :: !SameLetters(nets[j].name, nets[i].name)
  {
    hide SameLetters, CaseKey;
    forall j | 0 <= j < |nets|
      ensures CaseKey(nets[j].name) == CaseKey(nets[i].name) <==> SameLetters(nets[j].name, nets[i].name)
    {
      CaseKeyIs(nets[j].name, nets[i].name);
    }
    assert forall j | 0 <= j < |nets| :: Names(nets)[j] == nets[j].name;
  }

  lemma AllNetsKept(design: Design, nets: seq<Net>, mappings: seq<NetMapping>)
    requires WellFormed(design) && |mappings| == |nets|
    requires forall n :: n in nets <==> n in design.nets && (n.isGround || Emitted(design.components, n.name))
    requires forall k | 0 <= k < |nets| :: mappings[k].net == nets[k].name && NodeFor(nets, k, mappings[k].node)
    ensures NetsKept(design, mappings)
  {
    hide NetKept, NodeFor, Emitted, AtTerminal, NetsWellFormed, ComponentsWellFormed, ArtifactNameIsValid, GroundCount;
    forall i | 0 <= i < |mappings| ensures NetKept(design, mappings, i) {
      NetIsKept(design, nets, mappings, i);
    }
    forall n | n in design.nets
      ensures (exists m :: m in mappings && m.net == n.name) <==> n.isGround || AtTerminal(design, n.name)
    {
      EmittedAtTerminal(design, n.name);
      if n in nets {
        var i :| 0 <= i < |nets| && nets[i] == n;
        assert mappings[i] in mappings;
      }
      if m :| m in mappings && m.net == n.name {
        var i :| 0 <= i < |mappings| && mappings[i] == m;
        assert nets[i] in nets;
        SameNet(design.nets, n, nets[i]);
      }
    }
  }

  // --- The whole ----------------------------------------------------------------

  /** Every name can be written: nodes and devices are words, names of nets and components are plain text. */
  lemma NamesCanBeWritten(design: Design, nets: seq<Net>, mappings: seq<NetMapping>, nodes: map<string, string>,
                          devices: seq<DeviceMapping>)
    requires WellFormed(design) && |mappings| == |nets| && forall n | n in nets :: n in design.nets
    requires forall p | p in nodes :: Supported(nodes[p]) || nodes[p] == "0"
    requires forall i | 0 <= i < |nets| ::
               mappings[i].net == nets[i].name && nets[i].name in nodes && nodes[nets[i].name] == mappings[i].node
    requires |devices| == |Instances(design)|
    requires forall i | 0 <= i < |devices| ::
               && Instantiable(Instances(design)[i]) && DeviceFor(Instances(design), i, devices[i].device)
               && devices[i].path == Instances(design)[i].path
               && devices[i].reference == Instances(design)[i].reference
    ensures forall m | m in mappings :: IsAscii(m.net) && IsWord(m.node)
    ensures forall m | m in devices :: IsAscii(m.path) && IsAscii(m.reference) && IsWord(m.device) && Supported(m.device)
  {
    hide Supported, IsAscii, IsWord, TokenIsValid, Instances, ComponentsWellFormed, GroundCount;
    forall m | m in mappings ensures IsAscii(m.net) && IsWord(m.node) {
      var i :| 0 <= i < |mappings| && mappings[i] == m;
      assert nets[i] in nets;
      TokensAreAscii(m.net);
      NamesAreWords(m.node);
    }
    forall m | m in devices ensures IsAscii(m.path) && IsAscii(m.reference) && IsWord(m.device) && Supported(m.device) {
      var i :| 0 <= i < |devices| && devices[i] == m;
      NamesAreWords(m.device);
    }
  }

  lemma InstancesAreWritable(design: Design, nets: seq<Net>, nodes: map<string, string>)
    requires WellFormed(design)
    requires forall n | n in design.nets && Emitted(design.components, n.name) :: n in nets
    requires forall n | n in nets :: n.name in nodes
    ensures forall c | c in Instances(design) :: c in design.components && Writable(c, nodes)
  {
    hide WellFormed, Emitted, Instances, Component.NetForPin;
    InstancesMeans(design);
    forall c | c in Instances(design) ensures c in design.components && Writable(c, nodes) {
      TerminalsAreNamed(design, nets, nodes, c, c.simulation.value.positivePin);
      TerminalsAreNamed(design, nets, nodes, c, c.simulation.value.negativePin);
    }
  }

  /** The name map gives the node of every net at a terminal, and no net has two entries. */
  lemma MapNamesTerminals(design: Design, components: seq<Component>, lines: seq<seq<string>>,
                          nodes: map<string, string>, nets: seq<Net>, mappings: seq<NetMapping>)
    requires WellFormed(design) && |lines| == |components| && |mappings| == |nets|
    requires forall i | 0 <= i < |components| ::
               components[i] in design.components && Represents(components[i], lines[i], nodes)
    requires forall p | p in nodes :: exists i | 0 <= i < |nets| :: nets[i].name == p
    requires forall i | 0 <= i < |nets| ::
               mappings[i].net == nets[i].name && nets[i].name in nodes && nodes[nets[i].name] == mappings[i].node
    ensures NamesTerminals(components, lines, mappings)
  {
    hide WellFormed, Represents, EndsAt;
    forall i, a, x | 0 <= i < |lines| && EndsAt(components[i], lines[i], a, x) ensures NetMapping(a, x) in mappings {
      EndNode(design, components[i], lines[i], nodes, a, x);
      var j :| 0 <= j < |nets| && nets[j].name == a;
      assert mappings[j] == NetMapping(a, x);
    }
  }

  lemma EachNetOnce(nets: seq<Net>, mappings: seq<NetMapping>)
    requires |mappings| == |nets| && DistinctBy(nets, NetName)
    requires forall i | 0 <= i < |nets| :: mappings[i].net == nets[i].name
    requires forall i, j | 0 <= i < j < |mappings| :: CaseKey(mappings[i].node) != CaseKey(mappings[j].node)
    ensures NamesOnce(mappings)
  {
    hide CaseKey, SameLetters;
    forall i, j | 0 <= i < j < |mappings|
      ensures mappings[i].net != mappings[j].net && !SameLetters(mappings[i].node, mappings[j].node)
    {
      assert NetName(nets[i]) != NetName(nets[j]);
      CaseKeyIs(mappings[i].node, mappings[j].node);
    }
  }

  /** Each device has its name, of its own letter and unlike every other one. */
  lemma DevicesAreKept(components: seq<Component>, devices: seq<DeviceMapping>)
    requires |devices| == |components|
    requires forall i | 0 <= i < |devices| ::
               Instantiable(components[i]) && DeviceFor(components, i, devices[i].device)
    requires forall i, j | 0 <= i < j < |devices| :: CaseKey(devices[i].device) != CaseKey(devices[j].device)
    ensures forall i | 0 <= i < |devices| ::
              components[i].simulation.Some? && DeviceKept(components, i, devices[i].device)
    ensures forall i, j | 0 <= i < j < |devices| :: !SameLetters(devices[i].device, devices[j].device)
  {
    hide DeviceFor, DeviceKept, CaseKey, SameLetters, IsAscii;
    forall i | 0 <= i < |devices| ensures components[i].simulation.Some? && DeviceKept(components, i, devices[i].device) {
      DeviceIsKept(components, i, devices[i].device);
    }
    forall i, j | 0 <= i < j < |devices| ensures !SameLetters(devices[i].device, devices[j].device) {
      CaseKeyIs(devices[i].device, devices[j].device);
    }
  }

  lemma NameIsArtifact(design: Design)
    requires WellFormed(design)
    ensures ArtifactNameIsValid(design.name)
  {
  }

  lemma EndIsSaid(text: string, said: seq<seq<string>>)
    requires Says(text, said)
    ensures Sentences(text + ".END" + "\n") == said + [[".END"]]
  {
    hide Says, IsWord, Joined, IsSentence;
    FixedWords();
    WordIsSaid(".END");
    SaysMore(text, said, [".END"], ".END");
    SaidIsRead(text + ".END" + "\n", said + [[".END"]]);
  }

  /** Looked up by its path, every component has its device. */
  ghost predicate DevicesFound(components: seq<Component>, mappings: seq<DeviceMapping>, devices: map<string, string>) {
    && |mappings| == |components|
    && forall i | 0 <= i < |components| ::
         components[i].path in devices && devices[components[i].path] == mappings[i].device
  }

  lemma DevicesAreFound(components: seq<Component>, mappings: seq<DeviceMapping>, devices: map<string, string>)
    requires DevicesNamed(components, mappings)
    requires forall i | 0 <= i < |mappings| ::
               mappings[i].path in devices && devices[mappings[i].path] == mappings[i].device
    ensures DevicesFound(components, mappings, devices)
  {
    hide Instantiable, DeviceFor, CaseKey;
  }

  lemma DevicesCanBeWritten(components: seq<Component>, mappings: seq<DeviceMapping>, devices: map<string, string>)
    requires DevicesFound(components, mappings, devices)
    requires forall m | m in mappings :: Supported(m.device)
    ensures forall i | 0 <= i < |components| ::
              components[i].path in devices && Supported(devices[components[i].path])
  {
    hide Supported;
    assert forall i | 0 <= i < |mappings| :: mappings[i] in mappings;
  }

  lemma LinesAreRepresented(components: seq<Component>, lines: seq<seq<string>>, devices: map<string, string>,
                            nodes: map<string, string>, analysis: Option<Analysis>)
    requires |lines| == |components| && forall i | 0 <= i < |components| :: components[i].path in devices
    requires forall i | 0 <= i < |components| ::
               LineMeans(components[i], lines[i], devices[components[i].path], nodes, analysis)
    ensures forall i | 0 <= i < |components| :: Represents(components[i], lines[i], nodes)
  {
    hide Represents, SaysValue;
  }

  lemma NodesAreOfNets(nets: seq<Net>, mappings: seq<NetMapping>, nodes: map<string, string>)
    requires |mappings| == |nets| && nodes.Keys == set m | m in mappings :: m.net
    requires forall i | 0 <= i < |nets| :: mappings[i].net == nets[i].name
    ensures forall p | p in nodes :: exists i | 0 <= i < |nets| :: nets[i].name == p
  {
    forall p | p in nodes ensures exists i | 0 <= i < |nets| :: nets[i].name == p {
      var m :| m in mappings && m.net == p;
      var i :| 0 <= i < |mappings| && mappings[i] == m;
      assert nets[i].name == p;
    }
  }

  lemma ComponentsAreInOrder(components: seq<Component>)
    requires SortedBy(components, ComponentPath) && DistinctBy(components, ComponentPath)
    ensures forall i, j | 0 <= i < j < |components| :: Precedes(components[i].path, components[j].path)
  {
    hide Precedes;
    SortedAscends(components, ComponentPath);
    assert forall i | 0 <= i < |components| :: ComponentPath(components[i]) == components[i].path;
  }

  lemma NetsAreInOrder(nets: seq<Net>, mappings: seq<NetMapping>)
    requires SortedBy(nets, NetName) && DistinctBy(nets, NetName) && |mappings| == |nets|
    requires forall i | 0 <= i < |nets| :: mappings[i].net == nets[i].name
    ensures forall i, j | 0 <= i < j < |mappings| :: Precedes(mappings[i].net, mappings[j].net)
  {
    hide Precedes;
    SortedAscends(nets, NetName);
    assert forall i | 0 <= i < |nets| :: NetName(nets[i]) == mappings[i].net;
  }

  /** What the name map and the lines of the devices are, with the names that the map gives them. */
  ghost predicate Lowered(design: Design, analysis: Option<Analysis>, nameMap: NameMap, lines: seq<seq<string>>) {
    var components := Instances(design);
    && |nameMap.components| == |lines| == |components|
    && (forall i | 0 <= i < |components| ::
          && components[i].simulation.Some? && |lines[i]| >= 4
          && nameMap.components[i] == DeviceMapping(components[i].path, components[i].reference, lines[i][0])
          && DeviceKept(components, i, lines[i][0]) && SaysValue(lines[i], components[i], analysis))
    && (forall i, j | 0 <= i < j < |lines| :: !SameLetters(lines[i][0], lines[j][0]))
  }

  lemma LinesAreLowered(design: Design, analysis: Option<Analysis>, nameMap: NameMap, lines: seq<seq<string>>,
                        nodes: map<string, string>)
    requires |nameMap.components| == |lines| == |Instances(design)|
    requires forall i | 0 <= i < |lines| ::
               && LineMeans(Instances(design)[i], lines[i], nameMap.components[i].device, nodes, analysis)
               && nameMap.components[i].path == Instances(design)[i].path
               && nameMap.components[i].reference == Instances(design)[i].reference
               && Instances(design)[i].simulation.Some? && DeviceKept(Instances(design), i, nameMap.components[i].device)
    requires forall i, j | 0 <= i < j < |lines| ::
               !SameLetters(nameMap.components[i].device, nameMap.components[j].device)
    ensures Lowered(design, analysis, nameMap, lines)
  {
    hide Instances, DeviceKept, SaysValue, SameLetters;
    var components := Instances(design);
    forall i | 0 <= i < |components|
      ensures components[i].simulation.Some? && |lines[i]| >= 4 && SaysValue(lines[i], components[i], analysis)
      ensures nameMap.components[i] == DeviceMapping(components[i].path, components[i].reference, lines[i][0])
    {
      assert LineMeans(components[i], lines[i], nameMap.components[i].device, nodes, analysis);
    }
  }

  /** The lines are the circuit, and the name map says which node stands for which net. */
  lemma CircuitIsKept(design: Design, components: seq<Component>, lines: seq<seq<string>>, nodes: map<string, string>,
                      nets: seq<Net>, mappings: seq<NetMapping>)
    requires WellFormed(design) && FaithfulNodes(design, nodes) && |lines| == |components|
    requires forall i | 0 <= i < |components| ::
               components[i] in design.components && Represents(components[i], lines[i], nodes)
    requires |mappings| == |nets| && DistinctBy(nets, NetName) && nodes.Keys == set m | m in mappings :: m.net
    requires forall i | 0 <= i < |nets| ::
               mappings[i].net == nets[i].name && nets[i].name in nodes && nodes[nets[i].name] == mappings[i].node
    requires forall i, j | 0 <= i < j < |mappings| :: CaseKey(mappings[i].node) != CaseKey(mappings[j].node)
    ensures SameCircuit(components, lines) && GroundIsZero(design, components, lines)
    ensures NamesTerminals(components, lines, mappings) && NamesOnce(mappings)
  {
    hide WellFormed, CaseKey, FaithfulNodes, DistinctBy, SameCircuit, GroundIsZero, NamesTerminals, NamesOnce, Represents;
    LinesAreFaithful(design, components, lines, nodes);
    NodesAreOfNets(nets, mappings, nodes);
    MapNamesTerminals(design, components, lines, nodes, nets, mappings);
    EachNetOnce(nets, mappings);
  }

  /** The names can be written, in order. */
  lemma NamesAreReady(design: Design, nets: seq<Net>, mappings: seq<NetMapping>, nodes: map<string, string>,
                      devices: seq<DeviceMapping>)
    requires WellFormed(design) && NetsNamed(design, nets, mappings, nodes)
    requires DevicesNamed(Instances(design), devices)
    ensures forall i, j | 0 <= i < j < |Instances(design)| ::
              Precedes(Instances(design)[i].path, Instances(design)[j].path)
    ensures forall c :: c in Instances(design) <==> c in design.components && c.simulation.Some?
    ensures forall i, j | 0 <= i < j < |mappings| :: Precedes(mappings[i].net, mappings[j].net)
    ensures forall i, j | 0 <= i < j < |devices| :: devices[i].path != devices[j].path
    ensures forall m | m in mappings :: IsAscii(m.net) && IsWord(m.node)
    ensures forall m | m in devices :: IsAscii(m.path) && IsAscii(m.reference) && IsWord(m.device) && Supported(m.device)
    ensures forall i | 0 <= i < |Instances(design)| :: Writable(Instances(design)[i], nodes)
    ensures forall p | p in nodes :: Supported(nodes[p]) || nodes[p] == "0"
  {
    hide WellFormed, CaseKey, Supported, NodeFor, DeviceFor, Instantiable, FaithfulNodes, Emitted, SortedBy, DistinctBy,
         Instances, Writable, IsAscii, IsWord, Precedes;
    InstancesMeans(design);
    NetsAreInOrder(nets, mappings);
    ComponentsAreInOrder(Instances(design));
    InstancesAreWritable(design, nets, nodes);
    NamesCanBeWritten(design, nets, mappings, nodes, devices);
    PathsDiffer(Instances(design), devices);
    assert forall i | 0 <= i < |Instances(design)| :: Instances(design)[i] in Instances(design);
  }

  /** Lines with the meaning that they are given make up the netlist of the design. */
  lemma NetlistIsLowered(design: Design, analysis: Option<Analysis>, nameMap: NameMap, nets: seq<Net>,
                         nodes: map<string, string>, devices: map<string, string>, lines: seq<seq<string>>)
    requires WellFormed(design) && NetsNamed(design, nets, nameMap.nets, nodes)
    requires DevicesNamed(Instances(design), nameMap.components) && |lines| == |Instances(design)|
    requires DevicesFound(Instances(design), nameMap.components, devices)
    requires forall i | 0 <= i < |lines| ::
               LineMeans(Instances(design)[i], lines[i], devices[Instances(design)[i].path], nodes, analysis)
    ensures Lowered(design, analysis, nameMap, lines)
    ensures SameCircuit(Instances(design), lines) && GroundIsZero(design, Instances(design), lines)
    ensures NamesTerminals(Instances(design), lines, nameMap.nets) && NamesOnce(nameMap.nets)
    ensures NetsKept(design, nameMap.nets)
  {
    hide WellFormed, CaseKey, SameLetters, NodeFor, DeviceFor, Instantiable, FaithfulNodes, Emitted, SortedBy, DistinctBy,
         Instances, LineMeans, DeviceKept, Lowered, SameCircuit, GroundIsZero, NamesTerminals, NamesOnce, NetsKept,
         Represents;
    var components := Instances(design);
    InstancesMeans(design);
    assert forall i | 0 <= i < |components| :: components[i] in components;
    DevicesAreKept(components, nameMap.components);
    LinesAreLowered(design, analysis, nameMap, lines, nodes);
    LinesAreRepresented(components, lines, devices, nodes, analysis);
    CircuitIsKept(design, components, lines, nodes, nets, nameMap.nets);
    AllNetsKept(design, nets, nameMap.nets);
  }

  /** The text: header, comments with the names, lines, directive, end. */
  method WriteNetlist(name: string, nameMap: NameMap, components: seq<Component>, devices: map<string, string>,
                      nodes: map<string, string>, analysis: Option<Analysis>)
    returns (netlist: string, ghost lines: seq<seq<string>>, ghost directive: seq<seq<string>>)
    requires ArtifactNameIsValid(name)
    requires forall m | m in nameMap.nets :: IsAscii(m.net) && IsWord(m.node)
    requires forall m | m in nameMap.components :: IsAscii(m.path) && IsAscii(m.reference) && IsWord(m.device)
    requires forall i | 0 <= i < |components| ::
               && Writable(components[i], nodes) && components[i].path in devices
               && Supported(devices[components[i].path])
    requires forall p | p in nodes :: Supported(nodes[p]) || nodes[p] == "0"
    ensures Sentences(netlist)
         == [HeaderSentence(name)] + NetSentences(nameMap.nets) + DeviceSentences(nameMap.components) + lines
            + directive + [[".END"]]
    ensures |lines| == |components| && IsDirective(directive, analysis)
    ensures forall i | 0 <= i < |components| ::
              LineMeans(components[i], lines[i], devices[components[i].path], nodes, analysis)
  {
    hide Supported, Says, LineMeans, IsDirective, Writable, IsAscii, IsWord, ArtifactNameIsValid;
    var line := "* Generated by CircuitC from " + name;
    HeaderIsSaid(name, line);
    netlist := line + "\n";
    ghost var said := [HeaderSentence(name)];
    netlist := WriteNets(netlist, nameMap.nets, said);
    said := said + NetSentences(nameMap.nets);
    netlist := WriteDevices(netlist, nameMap.components, said);
    said := said + DeviceSentences(nameMap.components);
    netlist, lines := WriteLines(netlist, components, devices, nodes, analysis, said);
    said := said + lines;
    netlist, directive := WriteDirective(netlist, analysis, said);
    said := said + directive;
    EndIsSaid(netlist, said);
    netlist := netlist + ".END" + "\n";
  }

  /**
   The netlist of a well-formed design.  Read back line by line and word by word, it is
   a header, one comment for every entry of the name map, one line for every simulated
   component in the order of their paths, and the directive of the analysis.  The lines
   describe the same circuit: terminals share a node exactly when they share a net.
  */
  method LowerNetlist(design: Design, analysis: Option<Analysis>)
    returns (netlist: string, nameMap: NameMap, ghost lines: seq<seq<string>>, ghost directive: seq<seq<string>>)
    requires WellFormed(design)
    ensures forall i, j | 0 <= i < j < |Instances(design)| ::
              Precedes(Instances(design)[i].path, Instances(design)[j].path)
    ensures forall c :: c in Instances(design) <==> c in design.components && c.simulation.Some?
    ensures forall i, j | 0 <= i < j < |nameMap.nets| :: Precedes(nameMap.nets[i].net, nameMap.nets[j].net)
    ensures forall m | m in nameMap.nets :: IsAscii(m.net)
    ensures forall m | m in nameMap.components :: IsAscii(m.path) && IsAscii(m.reference)
    ensures Sentences(netlist)
         == [HeaderSentence(design.name)] + NetSentences(nameMap.nets) + DeviceSentences(nameMap.components) + lines
            + directive + [[".END"]]
    ensures Lowered(design, analysis, nameMap, lines) && IsDirective(directive, analysis)
    ensures SameCircuit(Instances(design), lines) && GroundIsZero(design, Instances(design), lines)
    ensures NamesTerminals(Instances(design), lines, nameMap.nets) && NamesOnce(nameMap.nets)
    ensures NetsKept(design, nameMap.nets)
  {
    hide WellFormed, SameLetters, Supported, NetsNamed, DevicesNamed, Instances, LineMeans, Lowered, IsDirective,
         SameCircuit, GroundIsZero, NamesTerminals, NamesOnce, NetsKept, Writable, IsAscii, IsWord, Precedes, Sentences, NetSentences,
         DeviceSentences, HeaderSentence, ArtifactNameIsValid, DevicesFound;
    var nets, mappings, nodes, deviceMappings := LowerNames(design);
    var components := Instances(design);
    NamesAreReady(design, nets, mappings, nodes, deviceMappings);
    var devices := DevicesByPath(deviceMappings);
    nameMap := NameMap(mappings, deviceMappings);
    NameIsArtifact(design);
    DevicesAreFound(components, deviceMappings, devices);
    DevicesCanBeWritten(components, deviceMappings, devices);
    netlist, lines, directive := WriteNetlist(design.name, nameMap, components, devices, nodes, analysis);
    NetlistIsLowered(design, analysis, nameMap, nets, nodes, devices, lines);
  }
}
