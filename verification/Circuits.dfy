/**
 Designs, as far as SPICE lowering reads them, and the checks that it relies on.

 `Validate` collects diagnostics in loops over the design.  It reports nothing exactly
 when the design is `WellFormed`, which states the same demands without any loop.
*/
module Circuits {
  import opened Wrappers
  import opened Quantities
  import opened Words

  datatype Net = Net(name: string, isGround: bool)

  datatype ConnectionState = Connected(net: string) | NoConnect

  datatype Connection = Connection(pin: string, state: ConnectionState)

  datatype PinBinding = PinBinding(pin: string, symbolPin: string)

  datatype SimulationModel =
    | Resistor(positivePin: string, negativePin: string)
    | DcVoltageSource(positivePin: string, negativePin: string)

  datatype Component = Component(
    path: string, reference: string, pins: seq<PinBinding>, connections: seq<Connection>,
    simulation: Option<SimulationModel>, value: Quantity)
  {
    /** The net at a pin, by the first connection that names the pin. */
    function NetForPin(pin: string): Option<string> {
      FirstNet(connections, pin)
    }
  }

  datatype Design = Design(name: string, nets: seq<Net>, components: seq<Component>, analyses: nat)

  /** Diagnostic codes CC-IR-002, CC-NET-001 and so on. */
  datatype Code =
    | Ir002
    | Net001 | Net002 | Net003
    | Comp001 | Comp002 | Comp003 | Comp004
    | Symbol004
    | Pin001 | Pin002 | Pin003 | Pin004 | Pin005
    | Sim001 | Sim003 | Sim008

  datatype Diagnostic = Diagnostic(code: Code, path: string)

  function FirstNet(connections: seq<Connection>, pin: string): Option<string> {
    if connections == [] then None
    else if connections[0].pin == pin then
      match connections[0].state
      case Connected(net) => Some(net)
      case NoConnect => None
    else FirstNet(connections[1..], pin)
  }

  // --- Tokens and paths -------------------------------------------------------

  predicate IsAlphanumeric(c: char) {
    '0' <= c <= '9' || 'A' <= c <= 'Z' || 'a' <= c <= 'z'
  }

  predicate IsTokenChar(c: char) {
    IsAlphanumeric(c) || c == '_' || c == '+' || c == '-' || c == '.' || c == '/'
  }

  predicate TokenIsValid(s: string) {
    s != [] && forall c | c in s :: IsTokenChar(c)
  }

  predicate SemanticPathIsValid(s: string) {
    && s != []
    && (forall part | part in Cut(s, '.') :: TokenIsValid(part))
    && s[0] != '.' && s[|s| - 1] != '.'
  }

  predicate IsAscii(s: string) {
    forall i | 0 <= i < |s| :: s[i] as int < 128
  }

  lemma ValidPathsAreAscii(s: string)
    requires SemanticPathIsValid(s)
    ensures IsAscii(s)
  {
    PathsAre(s);
  }

  /** The name of a design, which is also the stem of its files. */
  predicate ArtifactNameIsValid(s: string) {
    && s != [] && ('A' <= s[0] <= 'Z' || 'a' <= s[0] <= 'z' || s[0] == '_')
    && forall c | c in s :: IsAlphanumeric(c) || c == '_' || c == '-'
  }

  /** Tokens by the codes of their characters. */
  lemma TokensAre(s: string)
    ensures TokenIsValid(s) <==>
            s != [] && forall i | 0 <= i < |s| ::
              var u := s[i] as int;
              48 <= u <= 57 || 65 <= u <= 90 || 97 <= u <= 122 || u == 95 || u == 43 || 45 <= u <= 47
  {
    assert forall i | 0 <= i < |s| :: s[i] in s;
  }

  /** Artifact names by the codes of their characters: a digit or a hyphen does not come first. */
  lemma ArtifactNamesAre(s: string)
    ensures ArtifactNameIsValid(s) <==>
            s != [] && forall i | 0 <= i < |s| ::
              var u := s[i] as int;
              65 <= u <= 90 || 97 <= u <= 122 || u == 95 || (i > 0 && (48 <= u <= 57 || u == 45))
  {
    assert forall i | 0 <= i < |s| :: s[i] in s;
    if s != [] && forall i | 0 <= i < |s| ::
         var u := s[i] as int;
         65 <= u <= 90 || 97 <= u <= 122 || u == 95 || (i > 0 && (48 <= u <= 57 || u == 45)) {
      var u := s[0] as int;
      assert 65 <= u <= 90 || 97 <= u <= 122 || u == 95;
    }
  }

  /** Paths by their characters: tokens' characters, and no dot at an end or next to another one. */
  lemma PathsAre(s: string)
    ensures SemanticPathIsValid(s) <==>
            && s != [] && s[0] != '.' && s[|s| - 1] != '.'
            && (forall i | 0 <= i < |s| - 1 :: s[i] != '.' || s[i + 1] != '.')
            && (forall i | 0 <= i < |s| :: IsTokenChar(s[i]))
  {
    hide IsTokenChar;
    PartsAreNotEmpty(s);
    PartsAreOfTokenChars(s);
  }

  predicate NoneIsEmpty(parts: seq<string>) {
    forall part | part in parts :: part != []
  }

  predicate OfTokenChars(parts: seq<string>) {
    forall part | part in parts :: forall c | c in part :: IsTokenChar(c)
  }

  lemma {:induction false} PartsAreNotEmpty(s: string)
    ensures NoneIsEmpty(Cut(s, '.')[1..]) <==>
            (s == [] || s[|s| - 1] != '.') && forall i | 0 <= i < |s| - 1 :: s[i] != '.' || s[i + 1] != '.'
    ensures NoneIsEmpty(Cut(s, '.')) <==> NoneIsEmpty(Cut(s, '.')[1..]) && s != [] && s[0] != '.'
  {
    var parts := Cut(s, '.');
    FirstAndRest(parts);
    if s != [] {
      var rest := Cut(s[1..], '.');
      PartsAreNotEmpty(s[1..]);
      assert rest == [rest[0]] + rest[1..];
      assert parts[1..] == if s[0] == '.' then rest else rest[1..];
      FirstAndRest(rest);
      assert forall i | 0 < i < |s| :: s[1..][i - 1] == s[i];
      assert (forall i | 0 <= i < |s| - 1 :: s[i] != '.' || s[i + 1] != '.') <==>
             (|s| == 1 || s[0] != '.' || s[1] != '.')
             && forall i | 0 <= i < |s[1..]| - 1 :: s[1..][i] != '.' || s[1..][i + 1] != '.' by {
        DotsApart(s);
      }
    }
  }

  lemma FirstAndRest(parts: seq<string>)
    requires parts != []
    ensures NoneIsEmpty(parts) <==> parts[0] != [] && NoneIsEmpty(parts[1..])
  {
    assert parts[0] in parts;
    forall part | part in parts ensures part == parts[0] || part in parts[1..] {
      var i :| 0 <= i < |parts| && parts[i] == part;
      assert i > 0 ==> parts[1..][i - 1] == part;
    }
    assert forall part | part in parts[1..] :: part in parts;
  }

  lemma DotsApart(s: string)
    requires s != []
    ensures (forall i | 0 <= i < |s| - 1 :: s[i] != '.' || s[i + 1] != '.') <==>
            (|s| == 1 || s[0] != '.' || s[1] != '.')
            && forall i | 0 <= i < |s[1..]| - 1 :: s[1..][i] != '.' || s[1..][i + 1] != '.'
  {
    var t := s[1..];
    if (|s| == 1 || s[0] != '.' || s[1] != '.') && forall i | 0 <= i < |t| - 1 :: t[i] != '.' || t[i + 1] != '.' {
      forall i | 0 <= i < |s| - 1 ensures s[i] != '.' || s[i + 1] != '.' {
        assert i > 0 ==> t[i - 1] == s[i] && t[i] == s[i + 1];
      }
    }
  }

  lemma {:induction false} PartsAreOfTokenChars(s: string)
    ensures OfTokenChars(Cut(s, '.')) <==> forall i | 0 <= i < |s| :: IsTokenChar(s[i])
  {
    if s == [] {
      assert Cut(s, '.') == [[]];
    } else {
      var parts, rest := Cut(s, '.'), Cut(s[1..], '.');
      PartsAreOfTokenChars(s[1..]);
      assert forall i | 0 < i < |s| :: s[1..][i - 1] == s[i];
      assert rest == [rest[0]] + rest[1..];
      if s[0] == '.' {
        assert parts == [[]] + rest;
        DotIsTokenChar();
      } else {
        assert parts == [[s[0]] + rest[0]] + rest[1..];
        assert forall c :: c in [s[0]] + rest[0] <==> c == s[0] || c in rest[0];
      }
      PartsSplit(s, parts, rest);
    }
  }

  lemma DotIsTokenChar()
    ensures IsTokenChar('.')
  {
  }

  lemma PartsSplit(s: string, parts: seq<string>, rest: seq<string>)
    requires s != [] && rest != []
    requires parts == if s[0] == '.' then [[]] + rest else [[s[0]] + rest[0]] + rest[1..]
    requires IsTokenChar('.')
    ensures OfTokenChars(parts) <==> OfTokenChars(rest) && IsTokenChar(s[0])
  {
    hide IsTokenChar;
    assert rest == [rest[0]] + rest[1..];
    if OfTokenChars(parts) {
      if s[0] != '.' {
        assert parts[0] in parts && s[0] in parts[0];
      }
      forall part | part in rest ensures forall c | c in part :: IsTokenChar(c) {
        if s[0] == '.' {
          assert part in parts;
        } else if part == rest[0] {
          assert parts[0] in parts;
          assert forall c | c in part :: c in parts[0];
        } else {
          assert part in parts;
        }
      }
    }
    if OfTokenChars(rest) && IsTokenChar(s[0]) {
      forall part | part in parts ensures forall c | c in part :: IsTokenChar(c) {
        if s[0] != '.' && part == parts[0] {
          assert rest[0] in rest;
          assert forall c | c in part :: c == s[0] || c in rest[0];
        } else if part != [] {
          assert part in rest;
        }
      }
    }
  }

  lemma TokensAreAscii(s: string)
    requires TokenIsValid(s)
    ensures IsAscii(s)
  {
    assert forall i | 0 <= i < |s| :: s[i] in s;
  }

  // --- What a design must satisfy ---------------------------------------------

  function GroundCount(nets: seq<Net>): nat {
    if nets == [] then 0 else GroundCount(nets[..|nets| - 1]) + (if nets[|nets| - 1].isGround then 1 else 0)
  }

  predicate Simulated(design: Design) {
    design.analyses > 0 || exists i | 0 <= i < |design.components| :: design.components[i].simulation.Some?
  }

  predicate NetsWellFormed(nets: seq<Net>) {
    && (forall i | 0 <= i < |nets| :: TokenIsValid(nets[i].name))
    && (forall i, j | 0 <= i < j < |nets| :: nets[i].name != nets[j].name)
  }

  predicate PinsWellFormed(pins: seq<PinBinding>) {
    forall i, j | 0 <= i < j < |pins| :: pins[i].pin != pins[j].pin
  }

  function LogicalPins(pins: seq<PinBinding>): set<string> {
    set p | p in pins :: p.pin
  }

  function NetNames(nets: seq<Net>): set<string> {
    set n | n in nets :: n.name
  }

  predicate StateKnown(state: ConnectionState, netNames: set<string>) {
    state.Connected? ==> state.net in netNames
  }

  predicate ConnectionsWellFormed(connections: seq<Connection>, logical: set<string>, netNames: set<string>) {
    && (forall i | 0 <= i < |connections| ::
          TokenIsValid(connections[i].pin) && connections[i].pin in logical
          && StateKnown(connections[i].state, netNames))
    && (forall i, j | 0 <= i < j < |connections| :: connections[i].pin != connections[j].pin)
  }

  predicate PinConnected(connections: seq<Connection>, pin: string) {
    exists i | 0 <= i < |connections| :: connections[i].pin == pin && connections[i].state.Connected?
  }

  predicate SimulationWellFormed(model: SimulationModel, connections: seq<Connection>) {
    && model.positivePin != model.negativePin
    && PinConnected(connections, model.positivePin) && PinConnected(connections, model.negativePin)
  }

  predicate ComponentWellFormed(c: Component, netNames: set<string>) {
    && SemanticPathIsValid(c.path) && TokenIsValid(c.reference)
    && PinsWellFormed(c.pins)
    && ConnectionsWellFormed(c.connections, LogicalPins(c.pins), netNames)
    && (forall p | p in c.pins :: exists i | 0 <= i < |c.connections| :: c.connections[i].pin == p.pin)
    && (c.simulation.Some? ==> SimulationWellFormed(c.simulation.value, c.connections))
  }

  predicate ComponentsWellFormed(components: seq<Component>, netNames: set<string>) {
    && (forall i | 0 <= i < |components| :: ComponentWellFormed(components[i], netNames))
    && (forall i, j | 0 <= i < j < |components| ::
          components[i].path != components[j].path && components[i].reference != components[j].reference)
  }

  predicate WellFormed(design: Design) {
    && ArtifactNameIsValid(design.name)
    && NetsWellFormed(design.nets)
    && GroundCount(design.nets) <= 1
    && (Simulated(design) ==> GroundCount(design.nets) == 1)
    && ComponentsWellFormed(design.components, NetNames(design.nets))
  }

  // --- What is reported -------------------------------------------------------

  ghost predicate Reports(diagnostics: seq<Diagnostic>, code: Code) {
    exists d :: d in diagnostics && d.code == code
  }

  /** One check: a diagnostic if the condition holds. */
  function Checked(diagnostics: seq<Diagnostic>, fails: bool, code: Code, path: string): (r: seq<Diagnostic>)
    ensures forall c :: Reports(r, c) <==> Reports(diagnostics, c) || (fails && c == code)
    ensures r == [] <==> diagnostics == [] && !fails
  {
    if fails then
      var d := Diagnostic(code, path);
      assert forall e :: e in diagnostics + [d] <==> e in diagnostics || e == d;
      assert d in diagnostics + [d];
      diagnostics + [d]
    else diagnostics
  }

  lemma ReportsJoin(a: seq<Diagnostic>, b: seq<Diagnostic>)
    ensures forall c :: Reports(a + b, c) <==> Reports(a, c) || Reports(b, c)
  {
    assert forall d :: d in a + b <==> d in a || d in b;
  }

  ghost predicate NetDefect(nets: seq<Net>, code: Code) {
    || (code == Net001 && exists i | 0 <= i < |nets| :: !TokenIsValid(nets[i].name))
    || (code == Net002 && exists i, j | 0 <= i < j < |nets| :: nets[i].name == nets[j].name)
  }

  ghost predicate PinDefect(pins: seq<PinBinding>, code: Code) {
    code == Symbol004 && exists i, j | 0 <= i < j < |pins| :: pins[i].pin == pins[j].pin
  }

  ghost predicate ConnectionDefect(connections: seq<Connection>, logical: set<string>, netNames: set<string>,
                                   code: Code) {
    || (code == Pin001 && exists i | 0 <= i < |connections| :: !TokenIsValid(connections[i].pin))
    || (code == Pin002 && exists i, j | 0 <= i < j < |connections| :: connections[i].pin == connections[j].pin)
    || (code == Pin003 && exists i | 0 <= i < |connections| :: connections[i].pin !in logical)
    || (code == Pin004 && exists i | 0 <= i < |connections| ::
                            connections[i].state.Connected? && connections[i].state.net !in netNames)
  }

  ghost predicate CoverageDefect(pins: seq<PinBinding>, states: map<string, ConnectionState>, code: Code) {
    code == Pin005 && exists i | 0 <= i < |pins| :: pins[i].pin !in states
  }

  predicate IsConnected(states: map<string, ConnectionState>, pin: string) {
    pin in states && states[pin].Connected?
  }

  ghost predicate SimulationDefect(model: SimulationModel, states: map<string, ConnectionState>, code: Code) {
    || (code == Sim008 && model.positivePin == model.negativePin)
    || (code == Sim003 && !(IsConnected(states, model.positivePin) && IsConnected(states, model.negativePin)))
  }

  ghost predicate ComponentDefect(c: Component, netNames: set<string>, code: Code) {
    || (code == Comp001 && !SemanticPathIsValid(c.path))
    || (code == Comp003 && !TokenIsValid(c.reference))
    || PinDefect(c.pins, code)
    || ConnectionDefect(c.connections, LogicalPins(c.pins), netNames, code)
    || CoverageDefect(c.pins, LastStates(c.connections), code)
    || (c.simulation.Some? && SimulationDefect(c.simulation.value, LastStates(c.connections), code))
  }

  ghost predicate ComponentsDefect(components: seq<Component>, netNames: set<string>, code: Code) {
    || (exists i | 0 <= i < |components| :: ComponentDefect(components[i], netNames, code))
    || (code == Comp002 && exists i, j | 0 <= i < j < |components| :: components[i].path == components[j].path)
    || (code == Comp004 &&
        exists i, j | 0 <= i < j < |components| :: components[i].reference == components[j].reference)
  }

  /** What is wrong with a design, code by code. */
  ghost predicate DesignDefect(design: Design, code: Code) {
    || (code == Ir002 && !ArtifactNameIsValid(design.name))
    || NetDefect(design.nets, code)
    || (code == Net003 && GroundCount(design.nets) > 1)
    || (code == Sim001 && GroundCount(design.nets) != 1
        && (design.analyses > 0 || exists c :: c in design.components && c.simulation.Some?))
    || ComponentsDefect(design.components, NetNames(design.nets), code)
  }

  // --- The checks -------------------------------------------------------------

  method ValidateNets(nets: seq<Net>)
    returns (diagnostics: seq<Diagnostic>, netNames: set<string>, groundCount: nat)
    ensures diagnostics == [] <==> NetsWellFormed(nets)
    ensures forall c :: Reports(diagnostics, c) <==> NetDefect(nets, c)
    ensures netNames == NetNames(nets) && groundCount == GroundCount(nets)
  {
    hide NetsWellFormed, NetDefect, TokenIsValid, Reports, NetNames, GroundCount;
    diagnostics, netNames, groundCount := [], {}, 0;
    NoNetsAreWellFormed();
    for index := 0 to |nets|
      invariant diagnostics == [] <==> NetsWellFormed(nets[..index])
      invariant forall c :: Reports(diagnostics, c) <==> NetDefect(nets[..index], c)
      invariant netNames == NetNames(nets[..index]) && groundCount == GroundCount(nets[..index])
    {
      var net := nets[index];
      ghost var before := nets[..index];
      assert nets[..index + 1] == before + [net];
      diagnostics := Checked(diagnostics, !TokenIsValid(net.name), Net001, net.name);
      diagnostics := Checked(diagnostics, net.name in netNames, Net002, net.name);
      netNames := netNames + {net.name};
      if net.isGround {
        groundCount := groundCount + 1;
      }
      NetAppended(before, net);
      NetDefectAppended(before, net);
    }
    assert nets[..|nets|] == nets;
  }

  lemma NetAppended(nets: seq<Net>, net: Net)
    ensures NetsWellFormed(nets + [net]) <==>
            NetsWellFormed(nets) && TokenIsValid(net.name) && net.name !in NetNames(nets)
    ensures NetNames(nets + [net]) == NetNames(nets) + {net.name}
    ensures GroundCount(nets + [net]) == GroundCount(nets) + if net.isGround then 1 else 0
  {
    var all := nets + [net];
    assert all[..|nets|] == nets;
    if NetsWellFormed(all) {
      assert forall i | 0 <= i < |nets| :: nets[i] == all[i];
      assert all[|nets|] == net;
    }
    assert forall i | 0 <= i < |nets| :: nets[i].name in NetNames(nets);
    assert NetNames(all) == NetNames(nets) + {net.name};
  }

  lemma NoNetsAreWellFormed()
    ensures NetsWellFormed([]) && (forall c :: !NetDefect([], c)) && forall c :: !Reports([], c)
    ensures NetNames([]) == {} && GroundCount([]) == 0
  {
  }

  lemma NetDefectAppended(nets: seq<Net>, net: Net)
    ensures forall c :: NetDefect(nets + [net], c) <==>
              || NetDefect(nets, c) || (c == Net001 && !TokenIsValid(net.name))
              || (c == Net002 && net.name in NetNames(nets))
  {
    hide TokenIsValid;
    var all := nets + [net];
    assert all[|nets|] == net;
    assert forall i | 0 <= i < |nets| :: nets[i] == all[i];
    if net.name in NetNames(nets) {
      var i :| 0 <= i < |nets| && nets[i].name == net.name;
      assert all[i].name == all[|nets|].name;
    }
    if exists i, j | 0 <= i < j < |all| :: all[i].name == all[j].name {
      var i, j :| 0 <= i < j < |all| && all[i].name == all[j].name;
      assert nets[i].name in NetNames(nets);
      assert j < |nets| ==> nets[i].name == nets[j].name;
    }
  }

  method ValidatePins(pins: seq<PinBinding>, path: string) returns (diagnostics: seq<Diagnostic>, logical: set<string>)
    ensures diagnostics == [] <==> PinsWellFormed(pins)
    ensures forall c :: Reports(diagnostics, c) <==> PinDefect(pins, c)
    ensures logical == LogicalPins(pins)
  {
    diagnostics, logical := [], {};
    for index := 0 to |pins|
      invariant diagnostics == [] <==> PinsWellFormed(pins[..index])
      invariant forall c :: Reports(diagnostics, c) <==> PinDefect(pins[..index], c)
      invariant logical == LogicalPins(pins[..index])
    {
      ghost var before, after := pins[..index], pins[..index + 1];
      assert after == before + [pins[index]];
      assert pins[index].pin in logical <==> exists i | 0 <= i < index :: before[i].pin == pins[index].pin;
      PinDefectAppended(before, pins[index]);
      diagnostics := Checked(diagnostics, pins[index].pin in logical, Symbol004, path);
      logical := logical + {pins[index].pin};
    }
    assert pins[..|pins|] == pins;
  }

  lemma PinDefectAppended(pins: seq<PinBinding>, pin: PinBinding)
    ensures forall c :: PinDefect(pins + [pin], c) <==>
              PinDefect(pins, c) || (c == Symbol004 && pin.pin in LogicalPins(pins))
  {
    var all := pins + [pin];
    assert all[|pins|] == pin;
    assert forall i | 0 <= i < |pins| :: pins[i] == all[i];
    if pin.pin in LogicalPins(pins) {
      var i :| 0 <= i < |pins| && pins[i].pin == pin.pin;
      assert all[i].pin == all[|pins|].pin;
    }
    if exists i, j | 0 <= i < j < |all| :: all[i].pin == all[j].pin {
      var i, j :| 0 <= i < j < |all| && all[i].pin == all[j].pin;
      assert pins[i].pin in LogicalPins(pins);
      assert j < |pins| ==> pins[i].pin == pins[j].pin;
    }
  }

  /** The state that the last connection of each pin gives it. */
  function LastStates(connections: seq<Connection>): map<string, ConnectionState> {
    if connections == [] then map[]
    else
      var last := connections[|connections| - 1];
      LastStates(connections[..|connections| - 1])[last.pin := last.state]
  }

  lemma {:induction false} LastStatesCover(connections: seq<Connection>, pin: string)
    ensures pin in LastStates(connections) <==> exists i | 0 <= i < |connections| :: connections[i].pin == pin
    ensures pin in LastStates(connections) ==>
              exists i | 0 <= i < |connections| ::
                connections[i].pin == pin && connections[i].state == LastStates(connections)[pin]
  {
    if connections != [] {
      var front, last := connections[..|connections| - 1], connections[|connections| - 1];
      LastStatesCover(front, pin);
      if last.pin != pin && pin in LastStates(front) {
        var i :| 0 <= i < |front| && front[i].pin == pin && front[i].state == LastStates(front)[pin];
        assert connections[i] == front[i];
      }
      if exists i | 0 <= i < |connections| :: connections[i].pin == pin {
        var i :| 0 <= i < |connections| && connections[i].pin == pin;
        assert i < |front| ==> front[i] == connections[i];
      }
    }
  }

  /** When no pin is connected twice, the first connection of a pin is also its last. */
  lemma {:induction false} FirstIsLast(connections: seq<Connection>, pin: string)
    requires forall i, j | 0 <= i < j < |connections| :: connections[i].pin != connections[j].pin
    ensures FirstNet(connections, pin)
         == if pin in LastStates(connections) && LastStates(connections)[pin].Connected?
            then Some(LastStates(connections)[pin].net) else None
  {
    forall i | 0 <= i < |connections| && connections[i].pin == pin
      ensures FirstNet(connections, pin)
           == if connections[i].state.Connected? then Some(connections[i].state.net) else None
    {
      FirstNetAt(connections, i);
    }
    LastStatesCover(connections, pin);
    if pin !in LastStates(connections) {
      NoNet(connections, pin);
    }
  }

  lemma {:induction false} FirstNetAt(connections: seq<Connection>, i: nat)
    requires i < |connections| && forall j | 0 <= j < i :: connections[j].pin != connections[i].pin
    ensures FirstNet(connections, connections[i].pin)
         == if connections[i].state.Connected? then Some(connections[i].state.net) else None
  {
    if i > 0 {
      assert connections[0].pin != connections[i].pin;
      FirstNetAt(connections[1..], i - 1);
    }
  }

  lemma {:induction false} NoNet(connections: seq<Connection>, pin: string)
    requires forall i | 0 <= i < |connections| :: connections[i].pin != pin
    ensures FirstNet(connections, pin) == None
  {
    if connections != [] {
      NoNet(connections[1..], pin);
    }
  }

  method ValidateConnections(connections: seq<Connection>, logical: set<string>, netNames: set<string>, path: string)
    returns (diagnostics: seq<Diagnostic>, states: map<string, ConnectionState>)
    ensures diagnostics == [] <==> ConnectionsWellFormed(connections, logical, netNames)
    ensures forall d :: Reports(diagnostics, d) <==> ConnectionDefect(connections, logical, netNames, d)
    ensures states == LastStates(connections)
  {
    hide TokenIsValid, ConnectionsWellFormed, LastStates, StateKnown, ConnectionDefect, Reports;
    diagnostics, states := [], map[];
    NoConnections(logical, netNames);
    NothingReported();
    for index := 0 to |connections|
      invariant diagnostics == [] <==> ConnectionsWellFormed(connections[..index], logical, netNames)
      invariant forall d :: Reports(diagnostics, d) <==> ConnectionDefect(connections[..index], logical, netNames, d)
      invariant states == LastStates(connections[..index])
    {
      var c := connections[index];
      ghost var before, after := connections[..index], connections[..index + 1];
      assert after == before + [c];
      LastStatesCover(before, c.pin);
      diagnostics := Checked(diagnostics, !TokenIsValid(c.pin), Pin001, path);
      diagnostics := Checked(diagnostics, c.pin in states, Pin002, path);
      states := states[c.pin := c.state];
      diagnostics := Checked(diagnostics, c.pin !in logical, Pin003, path);
      diagnostics := Checked(diagnostics, !StateKnown(c.state, netNames), Pin004, path);
      ConnectionAppended(before, c, logical, netNames);
      ConnectionDefectAppended(before, c, logical, netNames);
    }
    assert connections[..|connections|] == connections;
  }

  lemma NothingReported()
    ensures forall c :: !Reports([], c)
  {
  }

  lemma ConnectionDefectAppended(connections: seq<Connection>, c: Connection, logical: set<string>,
                                 netNames: set<string>)
    ensures forall d :: ConnectionDefect(connections + [c], logical, netNames, d) <==>
              || ConnectionDefect(connections, logical, netNames, d)
              || (d == Pin001 && !TokenIsValid(c.pin))
              || (d == Pin002 && exists i | 0 <= i < |connections| :: connections[i].pin == c.pin)
              || (d == Pin003 && c.pin !in logical)
              || (d == Pin004 && !StateKnown(c.state, netNames))
  {
    hide TokenIsValid;
    var all := connections + [c];
    assert all[|connections|] == c;
    assert forall i | 0 <= i < |connections| :: all[i] == connections[i];
    if exists i | 0 <= i < |connections| :: connections[i].pin == c.pin {
      var i :| 0 <= i < |connections| && connections[i].pin == c.pin;
      assert all[i].pin == all[|connections|].pin;
    }
    if exists i, j | 0 <= i < j < |all| :: all[i].pin == all[j].pin {
      var i, j :| 0 <= i < j < |all| && all[i].pin == all[j].pin;
      assert connections[i].pin == if j < |connections| then connections[j].pin else c.pin;
    }
  }

  lemma NoConnections(logical: set<string>, netNames: set<string>)
    ensures ConnectionsWellFormed([], logical, netNames) && LastStates([]) == map[]
    ensures forall d :: !ConnectionDefect([], logical, netNames, d)
  {
  }

  lemma ConnectionAppended(connections: seq<Connection>, c: Connection, logical: set<string>, netNames: set<string>)
    ensures ConnectionsWellFormed(connections + [c], logical, netNames) <==>
            && ConnectionsWellFormed(connections, logical, netNames)
            && TokenIsValid(c.pin) && c.pin in logical && StateKnown(c.state, netNames)
            && !(exists i | 0 <= i < |connections| :: connections[i].pin == c.pin)
    ensures LastStates(connections + [c]) == LastStates(connections)[c.pin := c.state]
  {
    hide TokenIsValid;
    var all := connections + [c];
    assert all[|connections|] == c && all[..|connections|] == connections;
    assert forall i | 0 <= i < |connections| :: all[i] == connections[i];
  }

  method ValidateComponent(c: Component, netNames: set<string>, paths: set<string>, references: set<string>)
    returns (diagnostics: seq<Diagnostic>)
    ensures diagnostics == [] <==>
            ComponentWellFormed(c, netNames) && c.path !in paths && c.reference !in references
    ensures forall d :: Reports(diagnostics, d) <==>
              || ComponentDefect(c, netNames, d)
              || (d == Comp002 && c.path in paths) || (d == Comp004 && c.reference in references)
  {
    hide SemanticPathIsValid, TokenIsValid, ConnectionsWellFormed, PinsWellFormed, LastStates, Reports, PinDefect,
         ConnectionDefect, CoverageDefect, SimulationDefect;
    NothingReported();
    diagnostics := [];
    diagnostics := Checked(diagnostics, !SemanticPathIsValid(c.path), Comp001, c.path);
    diagnostics := Checked(diagnostics, c.path in paths, Comp002, c.path);
    diagnostics := Checked(diagnostics, !TokenIsValid(c.reference), Comp003, c.path);
    diagnostics := Checked(diagnostics, c.reference in references, Comp004, c.path);
    var pinDiagnostics, logical := ValidatePins(c.pins, c.path);
    var connectionDiagnostics, states := ValidateConnections(c.connections, logical, netNames, c.path);
    var missing := ValidateCoverage(c.pins, states, c.path);
    var simulation := [];
    if c.simulation.Some? {
      simulation := ValidateSimulation(c.simulation.value, states, c.path);
      if ConnectionsWellFormed(c.connections, logical, netNames) {
        ConnectedPins(c.connections, c.simulation.value.positivePin, logical, netNames);
        ConnectedPins(c.connections, c.simulation.value.negativePin, logical, netNames);
      }
    }
    forall p | p in c.pins
      ensures p.pin in states <==> exists i | 0 <= i < |c.connections| :: c.connections[i].pin == p.pin
    {
      LastStatesCover(c.connections, p.pin);
    }
    ReportsJoin(diagnostics, pinDiagnostics);
    ReportsJoin(diagnostics + pinDiagnostics, connectionDiagnostics);
    ReportsJoin(diagnostics + pinDiagnostics + connectionDiagnostics, missing);
    ReportsJoin(diagnostics + pinDiagnostics + connectionDiagnostics + missing, simulation);
    diagnostics := diagnostics + pinDiagnostics + connectionDiagnostics + missing + simulation;
  }

  lemma ConnectedPins(connections: seq<Connection>, pin: string, logical: set<string>, netNames: set<string>)
    requires ConnectionsWellFormed(connections, logical, netNames)
    ensures PinConnected(connections, pin) <==>
            pin in LastStates(connections) && LastStates(connections)[pin].Connected?
  {
    LastStatesCover(connections, pin);
    if PinConnected(connections, pin) {
      var i :| 0 <= i < |connections| && connections[i].pin == pin && connections[i].state.Connected?;
      assert forall j | 0 <= j < |connections| && connections[j].pin == pin :: j == i;
    }
  }

  method ValidateCoverage(pins: seq<PinBinding>, states: map<string, ConnectionState>, path: string)
    returns (diagnostics: seq<Diagnostic>)
    ensures diagnostics == [] <==> forall p | p in pins :: p.pin in states
    ensures forall c :: Reports(diagnostics, c) <==> CoverageDefect(pins, states, c)
  {
    diagnostics := [];
    for index := 0 to |pins|
      invariant diagnostics == [] <==> forall i | 0 <= i < index :: pins[i].pin in states
      invariant forall c :: Reports(diagnostics, c) <==> CoverageDefect(pins[..index], states, c)
    {
      diagnostics := Checked(diagnostics, pins[index].pin !in states, Pin005, path);
    }
  }

  method ValidateSimulation(model: SimulationModel, states: map<string, ConnectionState>, path: string)
    returns (diagnostics: seq<Diagnostic>)
    ensures diagnostics == [] <==>
            && model.positivePin != model.negativePin
            && model.positivePin in states && states[model.positivePin].Connected?
            && model.negativePin in states && states[model.negativePin].Connected?
    ensures forall c :: Reports(diagnostics, c) <==> SimulationDefect(model, states, c)
  {
    diagnostics := [];
    diagnostics := Checked(diagnostics, model.positivePin == model.negativePin, Sim008, path);
    diagnostics :=
      Checked(diagnostics, !(model.positivePin in states && states[model.positivePin].Connected?), Sim003, path);
    diagnostics :=
      Checked(diagnostics, !(model.negativePin in states && states[model.negativePin].Connected?), Sim003, path);
  }

  method ValidateComponents(components: seq<Component>, netNames: set<string>) returns (diagnostics: seq<Diagnostic>)
    ensures diagnostics == [] <==> ComponentsWellFormed(components, netNames)
    ensures forall d :: Reports(diagnostics, d) <==> ComponentsDefect(components, netNames, d)
  {
    hide Reports, ComponentsWellFormed, ComponentWellFormed, ComponentsDefect, ComponentDefect;
    NothingReported();
    NoComponents(netNames);
    diagnostics := [];
    var paths, references: set<string> := {}, {};
    for index := 0 to |components|
      invariant paths == set c | c in components[..index] :: c.path
      invariant references == set c | c in components[..index] :: c.reference
      invariant diagnostics == [] <==> ComponentsWellFormed(components[..index], netNames)
      invariant forall d :: Reports(diagnostics, d) <==> ComponentsDefect(components[..index], netNames, d)
    {
      var c := components[index];
      var found := ValidateComponent(c, netNames, paths, references);
      ReportsJoin(diagnostics, found);
      diagnostics := diagnostics + found;
      ComponentAppended(components[..index], c, netNames);
      ComponentsDefectAppended(components[..index], c, netNames);
      assert components[..index + 1] == components[..index] + [c];
      paths, references := paths + {c.path}, references + {c.reference};
    }
    assert components[..|components|] == components;
  }

  lemma ComponentAppended(components: seq<Component>, c: Component, netNames: set<string>)
    ensures ComponentsWellFormed(components + [c], netNames) <==>
            && ComponentsWellFormed(components, netNames) && ComponentWellFormed(c, netNames)
            && c.path !in (set d | d in components :: d.path)
            && c.reference !in (set d | d in components :: d.reference)
  {
    hide ComponentWellFormed;
    var all := components + [c];
    assert all[|components|] == c;
    assert forall i | 0 <= i < |components| :: all[i] == components[i] && components[i] in components;
    if ComponentsWellFormed(all, netNames) {
      forall d | d in components ensures d.path != c.path && d.reference != c.reference {
        var i :| 0 <= i < |components| && components[i] == d;
        assert all[i] == d;
      }
    }
  }

  lemma NoComponents(netNames: set<string>)
    ensures ComponentsWellFormed([], netNames) && forall d :: !ComponentsDefect([], netNames, d)
  {
  }

  lemma ComponentsDefectAppended(components: seq<Component>, c: Component, netNames: set<string>)
    ensures forall d :: ComponentsDefect(components + [c], netNames, d) <==>
              || ComponentsDefect(components, netNames, d) || ComponentDefect(c, netNames, d)
              || (d == Comp002 && c.path in (set e | e in components :: e.path))
              || (d == Comp004 && c.reference in (set e | e in components :: e.reference))
  {
    hide ComponentDefect;
    var all := components + [c];
    assert all[|components|] == c;
    assert forall i | 0 <= i < |components| :: all[i] == components[i];
    PathRepeats(components, c);
    ReferenceRepeats(components, c);
  }

  lemma PathRepeats(components: seq<Component>, c: Component)
    ensures var all := components + [c];
            (exists i, j | 0 <= i < j < |all| :: all[i].path == all[j].path) <==>
              || (exists i, j | 0 <= i < j < |components| :: components[i].path == components[j].path)
              || c.path in (set e | e in components :: e.path)
  {
    var all := components + [c];
    assert all[|components|] == c;
    assert forall i | 0 <= i < |components| :: all[i] == components[i];
    if c.path in (set e | e in components :: e.path) {
      var i :| 0 <= i < |components| && components[i].path == c.path;
      assert all[i].path == all[|components|].path;
    }
    if i, j :| 0 <= i < j < |all| && all[i].path == all[j].path {
      assert components[i] in components;
      assert components[i].path == if j < |components| then components[j].path else c.path;
    }
  }

  lemma ReferenceRepeats(components: seq<Component>, c: Component)
    ensures var all := components + [c];
            (exists i, j | 0 <= i < j < |all| :: all[i].reference == all[j].reference) <==>
              || (exists i, j | 0 <= i < j < |components| :: components[i].reference == components[j].reference)
              || c.reference in (set e | e in components :: e.reference)
  {
    var all := components + [c];
    assert all[|components|] == c;
    assert forall i | 0 <= i < |components| :: all[i] == components[i];
    if c.reference in (set e | e in components :: e.reference) {
      var i :| 0 <= i < |components| && components[i].reference == c.reference;
      assert all[i].reference == all[|components|].reference;
    }
    if i, j :| 0 <= i < j < |all| && all[i].reference == all[j].reference {
      assert components[i] in components;
      assert components[i].reference == if j < |components| then components[j].reference else c.reference;
    }
  }

  /** Reports nothing exactly for well-formed designs, and each code exactly for its defect. */
  method Validate(design: Design) returns (diagnostics: seq<Diagnostic>)
    ensures diagnostics == [] <==> WellFormed(design)
    ensures forall c :: Reports(diagnostics, c) <==> DesignDefect(design, c)
  {
    hide Reports, NetDefect, ComponentsDefect, NetsWellFormed, ComponentsWellFormed, ArtifactNameIsValid;
    NothingReported();
    diagnostics := Checked([], !ArtifactNameIsValid(design.name), Ir002, "design.name");
    var netDiagnostics, netNames, groundCount := ValidateNets(design.nets);
    ReportsJoin(diagnostics, netDiagnostics);
    diagnostics := diagnostics + netDiagnostics;
    diagnostics := Checked(diagnostics, groundCount > 1, Net003, "design.nets");
    diagnostics := Checked(diagnostics, Simulated(design) && groundCount != 1, Sim001, "design.nets");
    var componentDiagnostics := ValidateComponents(design.components, netNames);
    ReportsJoin(diagnostics, componentDiagnostics);
    diagnostics := diagnostics + componentDiagnostics;
  }
}
