/** Helpers shared by the builder: port sides and ordering, net-name and
    constant-node naming, slice/concat port labels, module lookup by path and
    the hiding of a node's children. */
module YosysUtils {
  import opened Outcomes
  import opened Text
  import opened Netlist
  import opened Graph

  // ---------------------------------------------------------------------
  // Port sides

  /** `getPortSide`: the select input "S" of a node named MUX goes south,
      outputs east and other inputs west; any other direction is an error. */
  function PortSide(portName: string, direction: string, nodeName: string): (r: Result<Side>)
    ensures r == Ok(SOUTH) <==> direction == "input" && nodeName == "MUX" && portName == "S"
    ensures r == Ok(EAST) <==> direction == "output"
    ensures r == Ok(WEST) <==> direction == "input" && !(nodeName == "MUX" && portName == "S")
    ensures r.Err? <==> direction != "input" && direction != "output"
  {
    if direction == "input" && nodeName == "MUX" && portName == "S" then Ok(SOUTH)
    else if direction == "output" then Ok(EAST)
    else if direction == "input" then Ok(WEST)
    else Err("Unknown direction " + direction)
  }

  // ---------------------------------------------------------------------
  // Clock and reset ordering of flip-flop ports

  /** The slot `orderPorts` sends the port at `index` to: the last one for
      CLK, the one before it for ARST, its own slot otherwise. */
  function OrderTarget(name: string, len: nat, index: nat): int
  {
    if name == "CLK" then len - 1 else if name == "ARST" then len - 2 else index
  }

  /** Exchange the ports at `i` and `j` together with their index values:
      the moved port takes index `j`, the displaced one takes the moved
      port's old index. */
  function SwapPorts(ps: seq<Port>, i: nat, j: nat): (r: seq<Port>)
    requires i < |ps| && j < |ps| && i != j
    ensures |r| == |ps|
    ensures r[j] == ps[i].(index := j) && r[i] == ps[j].(index := ps[i].index)
    ensures forall k | 0 <= k < |ps| && k != i && k != j :: r[k] == ps[k]
  {
    ps[j := ps[i].(index := j)][i := ps[j].(index := ps[i].index)]
  }

  /** The loop of `orderPorts` from position `index` on: each position is
      visited once, reading whatever port sits there at that moment. A
      destination before the start of the list (ARST on a one-port node)
      makes the source fail on the missing port. */
  function OrderPortsFrom(ps: seq<Port>, index: nat): Result<seq<Port>>
    decreases |ps| - index
  {
    if index >= |ps| then Ok(ps)
    else
      var dst := OrderTarget(ps[index].name, |ps|, index);
      if dst < 0 then Err("Cannot read properties of undefined")
      else if dst == index then OrderPortsFrom(ps, index + 1)
      else OrderPortsFrom(SwapPorts(ps, index, dst), index + 1)
  }

  /** `orderPorts`, in place on the port list of a node. */
  method OrderPorts(ports: seq<Port>) returns (r: Result<seq<Port>>)
    ensures r == OrderPortsFrom(ports, 0)
  {
    var ps := ports;
    var index := 0;
    while index < |ps|
      invariant 0 <= index <= |ps| == |ports|
      invariant OrderPortsFrom(ps, index) == OrderPortsFrom(ports, 0)
    {
      var dst := OrderTarget(ps[index].name, |ps|, index);
      if dst < 0 {
        return Err("Cannot read properties of undefined");
      }
      if dst != index {
        var other := ps[dst];
        var port := ps[index];
        ps := ps[dst := port.(index := dst)][index := other.(index := port.index)];
      }
      index := index + 1;
    }
    return Ok(ps);
  }

  /** A port without its index value. */
  function Unindexed(p: Port): Port
  {
    p.(index := 0)
  }

  function UnindexedAll(ps: seq<Port>): seq<Port>
  {
    seq(|ps|, k requires 0 <= k < |ps| => Unindexed(ps[k]))
  }

  function IndexValues(ps: seq<Port>): seq<int>
  {
    seq(|ps|, k requires 0 <= k < |ps| => ps[k].index)
  }

  lemma SwapPermutes(ps: seq<Port>, i: nat, j: nat)
    requires i < |ps| && j < |ps| && i != j
    ensures multiset(UnindexedAll(SwapPorts(ps, i, j))) == multiset(UnindexedAll(ps))
    ensures multiset(IndexValues(SwapPorts(ps, i, j))) == multiset(IndexValues(ps)) - multiset{ps[j].index} + multiset{j}
  {
    var r := SwapPorts(ps, i, j);
    assert UnindexedAll(r) == UnindexedAll(ps)[i := Unindexed(ps[j])][j := Unindexed(ps[i])];
    assert IndexValues(r) == IndexValues(ps)[i := ps[i].index][j := j][i := ps[i].index];
    assert IndexValues(r) == IndexValues(ps)[j := j];
  }

  /** `orderPorts` only exchanges slots: the ports are the same up to their
      index values, the list keeps its length, and it fails exactly for a
      lone port named ARST. */
  lemma {:induction false} OrderPortsPermutes(ps: seq<Port>, index: nat)
    requires index <= |ps|
    ensures OrderPortsFrom(ps, index).Ok? ==>
      |OrderPortsFrom(ps, index).value| == |ps| &&
      multiset(UnindexedAll(OrderPortsFrom(ps, index).value)) == multiset(UnindexedAll(ps))
    ensures OrderPortsFrom(ps, index).Err? <==> |ps| == 1 && index == 0 && ps[0].name == "ARST"
    decreases |ps| - index
  {
    if index < |ps| {
      var dst := OrderTarget(ps[index].name, |ps|, index);
      if dst >= 0 && dst != index {
        SwapPermutes(ps, index, dst);
        OrderPortsPermutes(SwapPorts(ps, index, dst), index + 1);
      } else if dst == index {
        OrderPortsPermutes(ps, index + 1);
      }
    }
  }

  /** `orderClkAndRstPorts`: only Operator nodes whose name starts with "FF"
      get their clock and reset ports reordered. */
  method OrderClkAndRstPorts(child: Node) returns (r: Result<Node>)
    ensures !(child.cls == "Operator" && StartsWith(child.name, "FF")) ==> r == Ok(child)
    ensures child.cls == "Operator" && StartsWith(child.name, "FF") ==>
      r == (var o := OrderPortsFrom(child.ports, 0); if o.Ok? then Ok(child.(ports := o.value)) else Err(o.msg))
  {
    if child.cls == "Operator" && StartsWith(child.name, "FF") {
      var o := OrderPorts(child.ports);
      if o.Err? {
        return Err(o.msg);
      }
      return Ok(child.(ports := o.value));
    }
    return Ok(child);
  }

  // ---------------------------------------------------------------------
  // Net names

  /** `getNetNamesDict`: maps every net number named in `netnames` to the
      name of the last entry that lists it; constant bits are skipped. */
  method GetNetNamesDict(netnames: Entries<NetName>) returns (r: map<int, string>)
    ensures forall b :: b in r <==> exists i | 0 <= i < |netnames| :: Net(b) in netnames[i].1.bits
    ensures forall b | b in r :: exists i | 0 <= i < |netnames| ::
      Net(b) in netnames[i].1.bits && r[b] == netnames[i].0 &&
      forall j | i < j < |netnames| :: Net(b) !in netnames[j].1.bits
  {
    r := map[];
    var i := 0;
    while i < |netnames|
      invariant 0 <= i <= |netnames|
      invariant forall b :: b in r <==> exists i' | 0 <= i' < i :: Net(b) in netnames[i'].1.bits
      invariant forall b | b in r :: exists i' | 0 <= i' < i ::
        Net(b) in netnames[i'].1.bits && r[b] == netnames[i'].0 &&
        forall j | i' < j < i :: Net(b) !in netnames[j].1.bits
    {
      var (name, net) := netnames[i];
      var j := 0;
      ghost var before := r;
      while j < |net.bits|
        invariant 0 <= j <= |net.bits|
        invariant forall b :: b in r <==> b in before || Net(b) in net.bits[..j]
        invariant forall b | b in r :: if Net(b) in net.bits[..j] then r[b] == name else r[b] == before[b]
      {
        if net.bits[j].Net? {
          r := r[net.bits[j].net := name];
        }
        assert net.bits[..j + 1] == net.bits[..j] + [net.bits[j]];
        j := j + 1;
      }
      assert net.bits[..j] == net.bits;
      forall b | b in r
        ensures exists i' | 0 <= i' < i + 1 ::
          Net(b) in netnames[i'].1.bits && r[b] == netnames[i'].0 &&
          forall j' | i' < j' < i + 1 :: Net(b) !in netnames[j'].1.bits
      {
        if Net(b) in net.bits {
          assert Net(b) in netnames[i].1.bits && r[b] == netnames[i].0;
        } else {
          var i' :| 0 <= i' < i && Net(b) in netnames[i'].1.bits && before[b] == netnames[i'].0 &&
            forall j' | i' < j' < i :: Net(b) !in netnames[j'].1.bits;
          assert r[b] == netnames[i'].0;
        }
      }
      i := i + 1;
    }
  }

  // ---------------------------------------------------------------------
  // Constant nodes

  predicate IsHexString(s: string)
  {
    forall k | 0 <= k < |s| :: IsHexDigit(s[k])
  }

  /** `getConstNodeName`: the constant bits (least significant first) are
      reversed and joined; a pure 0/1 run becomes "0x" and its value in
      shortest lower-case hexadecimal, anything else stays "0b" followed by
      the joined bits. */
  function ConstNodeName(nameArray: seq<string>): (r: string)
  {
    var bits := Concat(Reverse(nameArray));
    if IsBinary(bits) && bits != [] then "0x" + NatToHex(BinValue(bits)) else "0b" + bits
  }

  /** A constant node is named "0x" and the shortest hexadecimal digits of
      the value when its bits are all binary, and "0b" and the joined bits
      otherwise (at least three characters unless there are no bits). */
  lemma ConstNodeNameIs(nameArray: seq<string>)
    ensures var r := ConstNodeName(nameArray);
      && (|r| >= 3 || (r == "0b" && Concat(Reverse(nameArray)) == ""))
      && (r[..2] == "0x" <==> IsBinary(Concat(Reverse(nameArray))) && Concat(Reverse(nameArray)) != "")
      && (r[..2] == "0x" ==> IsHexString(r[2..]) && HexValue(r[2..]) == BinValue(Concat(Reverse(nameArray))))
      && (r[..2] == "0x" ==> |r| == 3 || r[2] != '0')
      && (r[..2] != "0x" ==> r == "0b" + Concat(Reverse(nameArray)))
  {
    var bits := Concat(Reverse(nameArray));
    if IsBinary(bits) && bits != [] {
      HexRoundTrip(BinValue(bits));
      NatToHexShape(BinValue(bits));
      var h := NatToHex(BinValue(bits));
      assert ("0x" + h)[2..] == h;
    }
  }

  // ---------------------------------------------------------------------
  // Slice and concat port labels

  /** A parameter as JavaScript code sees it: missing (`undefined`), a
      number, a string, or the `NaN` an arithmetic on them can give. */
  datatype JsValue = JsUndefined | Number(n: int) | JsString(s: string) | NaN

  function JsOf(p: Option<Param>): (r: JsValue)
    ensures p.None? <==> r.JsUndefined?
  {
    match p
    case None => JsUndefined
    case Some(PInt(i)) => Number(i)
    case Some(PStr(s)) => JsString(s)
  }

  /** The value rendered by a template literal or by string concatenation. */
  function JsText(v: JsValue): string
  {
    match v
    case JsUndefined => "undefined"
    case Number(n) => IntToDecimal(n)
    case JsString(s) => s
    case NaN => "NaN"
  }

  /** The number a comparison converts the value to; None stands for
      `NaN`. A string counts when it is empty (zero) or all decimal
      digits; any other string reads as `NaN`. */
  function JsToNumber(v: JsValue): (r: Option<int>)
    ensures v.Number? ==> r == Some(v.n)
    ensures v.JsUndefined? || v.NaN? ==> r.None?
  {
    match v
    case Number(n) => Some(n)
    case JsString(s) => if IsDecimal(s) then Some(DecimalValue(s)) else None
    case _ => None
  }

  /** JavaScript's `a + b`: string concatenation as soon as either side is
      a string, the sum of two numbers, `NaN` otherwise. */
  function JsAdd(a: JsValue, b: JsValue): (r: JsValue)
    ensures a.JsString? || b.JsString? ==> r == JsString(JsText(a) + JsText(b))
    ensures a.Number? && b.Number? ==> r == Number(a.n + b.n)
  {
    if a.JsString? || b.JsString? then JsString(JsText(a) + JsText(b))
    else if a.Number? && b.Number? then Number(a.n + b.n)
    else NaN
  }

  /** `width === 1 || width > 1` in `getPortNameSplice`. */
  predicate SpliceWidthOk(width: JsValue)
  {
    width == Number(1) || (JsToNumber(width).Some? && JsToNumber(width).value > 1)
  }

  /** `getPortNameSplice`: "[start]" for a width that is the number one,
      "[start+width:start]" for a width that compares above one, an error
      naming the width for anything else. The parts are rendered as
      JavaScript renders them, so a width given as a string makes the
      upper bound a concatenation. */
  function PortNameSplice(start: JsValue, width: JsValue): (r: Result<string>)
    ensures r.Ok? <==> SpliceWidthOk(width)
    ensures r.Ok? ==> |r.value| >= 2 && r.value[0] == '[' && r.value[|r.value| - 1] == ']'
    ensures width == Number(1) ==> r == Ok("[" + JsText(start) + "]")
    ensures r.Ok? && width != Number(1) ==> r == Ok("[" + JsText(JsAdd(start, width)) + ":" + JsText(start) + "]")
    ensures r.Err? ==> r.msg == "Incorrect width" + JsText(width)
  {
    if width == Number(1) then
      Ok("[" + JsText(start) + "]")
    else if JsToNumber(width).Some? && JsToNumber(width).value > 1 then
      Ok("[" + JsText(JsAdd(start, width)) + ":" + JsText(start) + "]")
    else
      Err("Incorrect width" + JsText(width))
  }

  /** With numbers, one bit is labelled by its index alone and a wider
      range by its two bounds, which read back as the numbers. */
  lemma PortNameSpliceNumbers(start: nat, width: int)
    requires width >= 1
    ensures var r := PortNameSplice(Number(start), Number(width));
      && r.Ok? && (':' in r.value <==> width > 1)
      && (width == 1 ==> IsDecimal(r.value[1..|r.value| - 1]) && DecimalValue(r.value[1..|r.value| - 1]) == start)
  {
    var r := PortNameSplice(Number(start), Number(width)).value;
    IntToDecimalNoColon(start);
    IntToDecimalDigits(start);
    if width == 1 {
      assert r == "[" + IntToDecimal(start) + "]";
      assert r[1..|r| - 1] == IntToDecimal(start);
      assert ':' !in r by {
        forall k | 0 <= k < |r| ensures r[k] != ':' {
          if 0 < k < |r| - 1 {
            assert r[k] == IntToDecimal(start)[k - 1];
          }
        }
      }
    } else {
      assert r == "[" + IntToDecimal(start + width) + ":" + IntToDecimal(start) + "]";
      assert r[|IntToDecimal(start + width)| + 1] == ':';
    }
  }

  lemma IntToDecimalNoColon(i: int)
    ensures ':' !in IntToDecimal(i) && ']' !in IntToDecimal(i)
  {
    var s := IntToDecimal(i);
    IntToDecimalDigits(i);
    if i >= 0 {
      assert forall k | 0 <= k < |s| :: '0' <= s[k] <= '9';
    } else {
      assert forall k | 1 <= k < |s| :: s[k] == s[1..][k - 1];
    }
  }

  /** Different numeric bit ranges of a non-negative start get different
      labels. */
  lemma PortNameSpliceInjective(s1: nat, w1: int, s2: nat, w2: int)
    requires PortNameSplice(Number(s1), Number(w1)).Ok? && PortNameSplice(Number(s2), Number(w2)).Ok?
    requires PortNameSplice(Number(s1), Number(w1)) == PortNameSplice(Number(s2), Number(w2))
    ensures s1 == s2 && w1 == w2
  {
    var r := PortNameSplice(Number(s1), Number(w1)).value;
    PortNameSpliceNumbers(s1, w1);
    PortNameSpliceNumbers(s2, w2);
    if w1 == 1 {
      assert w2 == 1;
      assert r == "[" + IntToDecimal(s1) + "]" == "[" + IntToDecimal(s2) + "]";
      SingleBitInjective(s1, s2);
    } else {
      assert w2 > 1;
      assert r == "[" + IntToDecimal(s1 + w1) + ":" + IntToDecimal(s1) + "]"
               == "[" + IntToDecimal(s2 + w2) + ":" + IntToDecimal(s2) + "]";
      RangeInjective(s1, w1, s2, w2);
    }
  }

  lemma SingleBitInjective(s1: nat, s2: nat)
    requires "[" + IntToDecimal(s1) + "]" == "[" + IntToDecimal(s2) + "]"
    ensures s1 == s2
  {
    var r := "[" + IntToDecimal(s1) + "]";
    assert IntToDecimal(s1) == r[1..|r| - 1] == IntToDecimal(s2);
    DecimalInjective(s1, s2);
  }

  lemma RangeInjective(s1: nat, w1: int, s2: nat, w2: int)
    requires w1 > 1 && w2 > 1
    requires "[" + IntToDecimal(s1 + w1) + ":" + IntToDecimal(s1) + "]"
             == "[" + IntToDecimal(s2 + w2) + ":" + IntToDecimal(s2) + "]"
    ensures s1 == s2 && w1 == w2
  {
    IntToDecimalNoColon(s1 + w1);
    IntToDecimalNoColon(s2 + w2);
    ColonSplit(IntToDecimal(s1 + w1), IntToDecimal(s1), IntToDecimal(s2 + w2), IntToDecimal(s2));
    DecimalInjective(s1, s2);
    DecimalInjective(s1 + w1, s2 + w2);
  }

  lemma DecimalInjective(a: nat, b: nat)
    requires IntToDecimal(a) == IntToDecimal(b)
    ensures a == b
  {
    DecimalRoundTrip(a);
    DecimalRoundTrip(b);
  }

  lemma ColonSplit(a1: string, b1: string, a2: string, b2: string)
    requires ':' !in a1 && ':' !in a2
    requires "[" + a1 + ":" + b1 + "]" == "[" + a2 + ":" + b2 + "]"
    ensures a1 == a2 && b1 == b2
  {
    var r := "[" + a1 + ":" + b1 + "]";
    var r2 := "[" + a2 + ":" + b2 + "]";
    assert r[|a1| + 1] == ':' && r2[|a2| + 1] == ':';
    assert |a1| == |a2|;
    assert a1 == r[1..|a1| + 1];
    assert a2 == r2[1..|a2| + 1];
    assert b1 == r[|a1| + 2..|r| - 1] == b2;
  }

  /** `getPortName`: inside a slice the input "A" is unlabelled and the
      output "Y" is labelled with the bit range OFFSET and Y_WIDTH give;
      inside a concat the output "Y" is unlabelled and the inputs "A" and
      "B" get the ranges A_WIDTH and B_WIDTH fill. Any other port keeps its
      own name. The parameters are used as JavaScript finds them: missing,
      numbers or strings. */
  function GetPortName(isSlice: bool, isConcat: bool, portName: string, cell: Cell): (r: Result<string>)
    ensures !(isSlice && portName in {"A", "Y"}) && !(!isSlice && isConcat && portName in {"A", "B", "Y"}) ==> r == Ok(portName)
    ensures isSlice && portName == "A" ==> r == Ok("")
    ensures !isSlice && isConcat && portName == "Y" ==> r == Ok("")
    ensures isSlice && portName == "Y" ==>
              r == PortNameSplice(JsOf(Lookup(cell.parameters, "OFFSET")), JsOf(Lookup(cell.parameters, "Y_WIDTH")))
    ensures !isSlice && isConcat && portName == "A" ==> r == PortNameSplice(Number(0), JsOf(Lookup(cell.parameters, "A_WIDTH")))
    ensures !isSlice && isConcat && portName == "B" ==>
              r == PortNameSplice(JsOf(Lookup(cell.parameters, "A_WIDTH")), JsOf(Lookup(cell.parameters, "B_WIDTH")))
  {
    if isSlice && portName == "A" then Ok("")
    else if isSlice && portName == "Y" then
      PortNameSplice(JsOf(Lookup(cell.parameters, "OFFSET")), JsOf(Lookup(cell.parameters, "Y_WIDTH")))
    else if !isSlice && isConcat && portName == "Y" then Ok("")
    else if !isSlice && isConcat && portName == "A" then
      PortNameSplice(Number(0), JsOf(Lookup(cell.parameters, "A_WIDTH")))
    else if !isSlice && isConcat && portName == "B" then
      PortNameSplice(JsOf(Lookup(cell.parameters, "A_WIDTH")), JsOf(Lookup(cell.parameters, "B_WIDTH")))
    else Ok(portName)
  }

  /** A slice of a bit string: Yosys's default form for a parameter
      makes the upper bound of the label a concatenation, not a sum. */
  lemma StringWidthConcatenates()
    ensures PortNameSplice(Number(0), JsString("10")) == Ok("[010:0]")
  {
    DecimalDigitsOf10();
    assert NatToDecimal(0) == "0";
    assert JsText(Number(0)) == "0";
    assert JsToNumber(JsString("10")) == Some(10);
    assert JsAdd(Number(0), JsString("10")) == JsString("010");
    assert "[" + "010" + ":" + "0" + "]" == "[010:0]";
  }

  lemma DecimalDigitsOf10()
    ensures IsDecimal("10") && DecimalValue("10") == 10
  {
    assert "10"[..1] == "1";
    assert "1"[..0] == "";
  }

  // ---------------------------------------------------------------------
  // Clockwise port numbering

  /** A port tree with every index value erased: what numbering leaves alone. */
  function Shape(p: Port): Port
  {
    p.(index := 0, children := Shapes(p.children))
  }

  function Shapes(ps: seq<Port>): seq<Port>
  {
    if ps == [] then [] else [Shape(ps[0])] + Shapes(ps[1..])
  }

  /** The number of ports in a forest, nested ones included. */
  function PortCount(ps: seq<Port>): nat
  {
    if ps == [] then 0 else 1 + PortCount(ps[0].children) + PortCount(ps[1..])
  }

  /** The index values of a forest in the order `updatePortIndices` hands
      them out: a SOUTH or WEST port after the ports under it, a NORTH or
      EAST port before them. */
  function NumberingOrder(ps: seq<Port>): seq<int>
  {
    if ps == [] then []
    else
      var p := ps[0];
      (if p.side == SOUTH || p.side == WEST then NumberingOrder(p.children) + [p.index]
       else [p.index] + NumberingOrder(p.children))
      + NumberingOrder(ps[1..])
  }

  /** `from, from + 1, ..., from + n - 1`. */
  function Consecutive(from: int, n: nat): (r: seq<int>)
    ensures |r| == n && forall k | 0 <= k < n :: r[k] == from + k
  {
    seq(n, k requires 0 <= k < n => from + k)
  }

  lemma ConsecutiveSplit(from: int, m: nat, n: nat)
    ensures Consecutive(from, m) + Consecutive(from + m, n) == Consecutive(from, m + n)
  {
  }

  /** Shapes, port counts and numbering orders distribute over forest concatenation. */
  lemma ShapesAppend(a: seq<Port>, b: seq<Port>)
    ensures Shapes(a + b) == Shapes(a) + Shapes(b)
    ensures PortCount(a + b) == PortCount(a) + PortCount(b)
    ensures NumberingOrder(a + b) == NumberingOrder(a) + NumberingOrder(b)
  {
    ShapesDistribute(a, b);
    PortCountDistributes(a, b);
    NumberingOrderDistributes(a, b);
  }

  lemma {:induction false} ShapesDistribute(a: seq<Port>, b: seq<Port>)
    ensures Shapes(a + b) == Shapes(a) + Shapes(b)
  {
    if a == [] {
      assert a + b == b;
    } else {
      var c := a + b;
      assert c[0] == a[0] && c[1..] == a[1..] + b;
      ShapesDistribute(a[1..], b);
    }
  }

  lemma {:induction false} PortCountDistributes(a: seq<Port>, b: seq<Port>)
    ensures PortCount(a + b) == PortCount(a) + PortCount(b)
  {
    if a == [] {
      assert a + b == b;
    } else {
      var c := a + b;
      assert c[0] == a[0] && c[1..] == a[1..] + b;
      PortCountDistributes(a[1..], b);
    }
  }

  lemma {:induction false} NumberingOrderDistributes(a: seq<Port>, b: seq<Port>)
    ensures NumberingOrder(a + b) == NumberingOrder(a) + NumberingOrder(b)
  {
    if a == [] {
      assert a + b == b;
    } else {
      var c := a + b;
      assert c[0] == a[0] && c[1..] == a[1..] + b;
      var p := a[0];
      var h := if p.side == SOUTH || p.side == WEST then NumberingOrder(p.children) + [p.index]
               else [p.index] + NumberingOrder(p.children);
      assert NumberingOrder(a) == h + NumberingOrder(a[1..]);
      assert NumberingOrder(c) == h + NumberingOrder(a[1..] + b);
      NumberingOrderDistributes(a[1..], b);
      assert h + (NumberingOrder(a[1..]) + NumberingOrder(b)) == (h + NumberingOrder(a[1..])) + NumberingOrder(b);
    }
  }

  lemma SingletonForest(p: Port)
    ensures Shapes([p]) == [Shape(p)]
    ensures PortCount([p]) == 1 + PortCount(p.children)
    ensures NumberingOrder([p]) == if p.side == SOUTH || p.side == WEST then NumberingOrder(p.children) + [p.index]
                                   else [p.index] + NumberingOrder(p.children)
  {
    assert [p][1..] == [];
  }

  /** The forest `updatePortIndices` leaves: the ports numbered in turn
      from `index`, each port with the ports under it. */
  function Numbering(ports: seq<Port>, index: int): seq<Port>
    decreases ports, 1
  {
    if ports == [] then []
    else [PortNumbering(ports[0], index)] + Numbering(ports[1..], index + PortCount([ports[0]]))
  }

  /** One port numbered from `index`: a SOUTH or WEST port after the ports
      under it, a NORTH or EAST port before them. */
  function PortNumbering(port: Port, index: int): Port
    decreases port, 0
  {
    if port.side == SOUTH || port.side == WEST then
      port.(children := Numbering(port.children, index), index := index + PortCount(port.children))
    else port.(children := Numbering(port.children, index + 1), index := index)
  }

  /** `updatePortIndices`: numbers every port of the forest exactly once with
      consecutive values from `index` in clockwise order (children of a SOUTH
      or WEST port first, children of a NORTH or EAST port after it) and
      returns the next free value; nothing but the index values changes. */
  method UpdatePortIndices(ports: seq<Port>, index: int) returns (r: seq<Port>, next: int)
    decreases ports, 1
    ensures Shapes(r) == Shapes(ports)
    ensures next == index + PortCount(ports)
    ensures NumberingOrder(r) == Consecutive(index, PortCount(ports))
    ensures r == Numbering(ports, index)
  {
    r := [];
    next := index;
    var i := 0;
    while i < |ports|
      invariant 0 <= i <= |ports|
      invariant Shapes(r) == Shapes(ports[..i])
      invariant next == index + PortCount(ports[..i])
      invariant NumberingOrder(r) == Consecutive(index, PortCount(ports[..i]))
      invariant r + Numbering(ports[i..], next) == Numbering(ports, index)
    {
      var p, after := UpdatePortIndex(ports[i], next);
      assert ports[i..][1..] == ports[i + 1..];
      NumberingStep(r, ports[..i], ports[i], p, index, next);
      assert ports[..i + 1] == ports[..i] + [ports[i]];
      r := r + [p];
      next := after;
      i := i + 1;
    }
    assert ports[..i] == ports;
  }

  lemma NumberingStep(r: seq<Port>, done: seq<Port>, p: Port, q: Port, index: int, next: int)
    requires Shapes(r) == Shapes(done) && next == index + PortCount(done)
    requires NumberingOrder(r) == Consecutive(index, PortCount(done))
    requires Shapes([q]) == Shapes([p]) && NumberingOrder([q]) == Consecutive(next, PortCount([p]))
    ensures Shapes(r + [q]) == Shapes(done + [p])
    ensures next + PortCount([p]) == index + PortCount(done + [p])
    ensures NumberingOrder(r + [q]) == Consecutive(index, PortCount(done + [p]))
  {
    ShapesAppend(r, [q]);
    ShapesAppend(done, [p]);
    ConsecutiveSplit(index, PortCount(done), PortCount([p]));
  }

  /** One step of `updatePortIndices`: a port and the ports under it. */
  method UpdatePortIndex(port: Port, index: int) returns (r: Port, next: int)
    decreases port, 0
    ensures Shapes([r]) == Shapes([port])
    ensures next == index + PortCount([port])
    ensures NumberingOrder([r]) == Consecutive(index, PortCount([port]))
    ensures r == PortNumbering(port, index)
  {
    SingletonForest(port);
    var kids, after;
    if port.side == SOUTH || port.side == WEST {
      kids, after := UpdatePortIndices(port.children, index);
      r := port.(children := kids, index := after);
      next := after + 1;
      ConsecutiveSplit(index, PortCount(port.children), 1);
    } else {
      kids, after := UpdatePortIndices(port.children, index + 1);
      r := port.(children := kids, index := index);
      next := after;
      ConsecutiveSplit(index, 1, PortCount(port.children));
    }
    SingletonForest(r);
  }

  /** `updatePortIndicesNoHierarchy`: the top-level ports are numbered by
      their position. */
  method UpdatePortIndicesNoHierarchy(ports: seq<Port>) returns (r: seq<Port>)
    ensures |r| == |ports|
    ensures forall k | 0 <= k < |r| :: r[k] == ports[k].(index := k)
  {
    r := [];
    var i := 0;
    while i < |ports|
      invariant 0 <= i <= |ports| && |r| == i
      invariant forall k | 0 <= k < i :: r[k] == ports[k].(index := k)
    {
      r := r + [ports[i].(index := i)];
      i := i + 1;
    }
  }

  /** The top-level ports on one side, in their order. */
  function OnSide(ps: seq<Port>, side: Side): (r: seq<Port>)
    ensures forall k | 0 <= k < |r| :: r[k].side == side
  {
    if ps == [] then []
    else if ps[|ps| - 1].side == side then
      OnSide(ps[..|ps| - 1], side) + [ps[|ps| - 1]]
    else
      assert ps == ps[..|ps| - 1] + [ps[|ps| - 1]];
      OnSide(ps[..|ps| - 1], side)
  }

  /** `dividePorts`: splits the top-level ports by side, keeping their order. */
  method DividePorts(ports: seq<Port>) returns (north: seq<Port>, east: seq<Port>, south: seq<Port>, west: seq<Port>)
    ensures north == OnSide(ports, NORTH) && east == OnSide(ports, EAST)
    ensures south == OnSide(ports, SOUTH) && west == OnSide(ports, WEST)
  {
    north, east, south, west := [], [], [], [];
    var i := 0;
    while i < |ports|
      invariant 0 <= i <= |ports|
      invariant north == OnSide(ports[..i], NORTH) && east == OnSide(ports[..i], EAST)
      invariant south == OnSide(ports[..i], SOUTH) && west == OnSide(ports[..i], WEST)
    {
      var p := ports[i];
      assert ports[..i + 1][..i] == ports[..i];
      if p.side == NORTH {
        north := north + [p];
      } else if p.side == EAST {
        east := east + [p];
      } else if p.side == SOUTH {
        south := south + [p];
      } else {
        west := west + [p];
      }
      i := i + 1;
    }
    assert ports[..i] == ports;
  }

  /** The clockwise order of the layout engine: north and east ports as they
      come, then south and west ports reversed. */
  function ElkOrder(ps: seq<Port>): seq<Port>
  {
    OnSide(ps, NORTH) + OnSide(ps, EAST) + Reverse(OnSide(ps, SOUTH)) + Reverse(OnSide(ps, WEST))
  }

  lemma ReversePermutes<T>(s: seq<T>)
    ensures multiset(Reverse(s)) == multiset(s)
  {
    if s != [] {
      ReversePermutes(s[1..]);
      assert s == [s[0]] + s[1..];
    }
  }

  lemma {:induction false} OnSidesPartition(ps: seq<Port>)
    ensures multiset(OnSide(ps, NORTH)) + multiset(OnSide(ps, EAST)) + multiset(OnSide(ps, SOUTH)) + multiset(OnSide(ps, WEST)) == multiset(ps)
  {
    if ps != [] {
      var init, last := ps[..|ps| - 1], ps[|ps| - 1];
      OnSidesPartition(init);
      assert ps == init + [last];
      assert multiset(ps) == multiset(init) + multiset{last};
      OnSideSnoc(ps, NORTH);
      OnSideSnoc(ps, EAST);
      OnSideSnoc(ps, SOUTH);
      OnSideSnoc(ps, WEST);
      SumAddOne(multiset(OnSide(init, NORTH)), multiset(OnSide(init, EAST)), multiset(OnSide(init, SOUTH)),
                multiset(OnSide(init, WEST)), multiset(ps), last);
    }
  }

  /** The last port lands on its own side's list and on no other. */
  lemma OnSideSnoc(ps: seq<Port>, side: Side)
    requires ps != []
    ensures ps[|ps| - 1].side == side ==> multiset(OnSide(ps, side)) == multiset(OnSide(ps[..|ps| - 1], side)) + multiset{ps[|ps| - 1]}
    ensures ps[|ps| - 1].side != side ==> OnSide(ps, side) == OnSide(ps[..|ps| - 1], side)
  {
  }

  lemma SumAddOne(n: multiset<Port>, e: multiset<Port>, s: multiset<Port>, w: multiset<Port>, all: multiset<Port>, x: Port)
    requires all == n + e + s + w + multiset{x}
    ensures x.side == NORTH ==> (n + multiset{x}) + e + s + w == all
    ensures x.side == EAST ==> n + (e + multiset{x}) + s + w == all
    ensures x.side == SOUTH ==> n + e + (s + multiset{x}) + w == all
    ensures x.side == WEST ==> n + e + s + (w + multiset{x}) == all
  {
  }

  /** The clockwise order is a permutation of the top-level ports. */
  lemma ElkOrderPermutes(ps: seq<Port>)
    ensures multiset(ElkOrder(ps)) == multiset(ps)
  {
    ReversePermutes(OnSide(ps, SOUTH));
    ReversePermutes(OnSide(ps, WEST));
    OnSidesPartition(ps);
  }

  /** `convertPortOrderingFromYosysToElk`: the ports are put into clockwise
      order and the whole forest is renumbered from 0. */
  method ConvertPortOrderingFromYosysToElk(ports: seq<Port>) returns (r: seq<Port>)
    ensures Shapes(r) == Shapes(ElkOrder(ports))
    ensures NumberingOrder(r) == Consecutive(0, PortCount(ElkOrder(ports)))
  {
    var north, east, south, west := DividePorts(ports);
    var ordered := north + east + Reverse(south) + Reverse(west);
    var next;
    r, next := UpdatePortIndices(ordered, 0);
  }

  // ---------------------------------------------------------------------
  // Module lookup

  /** `getTopModule`: the first module whose `top` attribute is truthy. */
  function GetTopModule(design: Design): (r: Result<(string, Module)>)
    ensures r.Err? <==> forall k | 0 <= k < |design.modules| :: !Truthy(Lookup(design.modules[k].1.attributes, "top"))
    ensures r.Ok? ==> exists k | 0 <= k < |design.modules| :: (design.modules[k] == r.value &&
      Truthy(Lookup(design.modules[k].1.attributes, "top")) &&
      forall j | 0 <= j < k :: !Truthy(Lookup(design.modules[j].1.attributes, "top")))
  {
    TopFrom(design.modules, 0)
  }

  function TopFrom(ms: Entries<Module>, i: nat): (r: Result<(string, Module)>)
    requires i <= |ms|
    requires forall j | 0 <= j < i :: !Truthy(Lookup(ms[j].1.attributes, "top"))
    ensures r.Err? <==> forall k | 0 <= k < |ms| :: !Truthy(Lookup(ms[k].1.attributes, "top"))
    ensures r.Ok? ==> exists k | 0 <= k < |ms| :: (ms[k] == r.value &&
      Truthy(Lookup(ms[k].1.attributes, "top")) &&
      forall j | 0 <= j < k :: !Truthy(Lookup(ms[j].1.attributes, "top")))
    decreases |ms| - i
  {
    if i == |ms| then Err("Cannot find top")
    else if Truthy(Lookup(ms[i].1.attributes, "top")) then Ok(ms[i])
    else TopFrom(ms, i + 1)
  }

  /** What `yosysGetModuleByPath` yields: the pair `[null, null]` when a name
      is not a cell of the current module, or a (name, module) pair in which
      either part may be undefined (an empty path; a cell whose type is not a
      module of the design). */
  datatype PathTarget = NotACell | Located(name: Option<string>, found: Option<Module>)

  /** The walk below the top module: each further name must be a cell of the
      current module, and its type becomes the next module. Reading the
      cells of an undefined module is an error. */
  function WalkCells(design: Design, rest: seq<string>, name: string, m: Module): Result<PathTarget>
    decreases |rest|
  {
    if rest == [] then Ok(Located(Some(name), Some(m)))
    else
      var cell := Lookup(m.cells, rest[0]);
      if cell.None? then Ok(NotACell)
      else
        var next := Lookup(design.modules, cell.value.cellType);
        if next.Some? then WalkCells(design, rest[1..], rest[0], next.value)
        else if |rest| == 1 then Ok(Located(Some(rest[0]), None))
        else Err("Cannot read properties of undefined (reading 'cells')")
  }

  /** The module a path of instance names denotes: the first name stands for
      the top module whatever it is, the others are walked as cells. */
  function ModuleByPath(design: Design, path: seq<string>): Result<PathTarget>
  {
    if path == [] then Ok(Located(None, None))
    else
      var top := GetTopModule(design);
      if top.Err? then Err(top.msg) else WalkCells(design, path[1..], top.value.0, top.value.1)
  }

  /** Only the later names of a path matter: the first always selects the top. */
  lemma ModuleByPathIgnoresFirstName(design: Design, a: string, b: string, rest: seq<string>)
    ensures ModuleByPath(design, [a] + rest) == ModuleByPath(design, [b] + rest)
  {
    assert ([a] + rest)[1..] == rest == ([b] + rest)[1..];
  }

  /** The state of the loop in `yosysGetModuleByPath`: `null` before the
      first name, then a module or `undefined`. */
  datatype Current = Start | At(m: Module) | Undefined

  /** `yosysGetModuleByPath`. */
  method YosysGetModuleByPath(design: Design, path: seq<string>) returns (r: Result<PathTarget>)
    ensures r == ModuleByPath(design, path)
  {
    var name: Option<string> := None;
    var cur := Start;
    var i := 0;
    while i < |path|
      invariant 0 <= i <= |path|
      invariant i == 0 <==> cur.Start?
      invariant i > 0 ==> GetTopModule(design).Ok? && name.Some?
      invariant i > 0 && cur.At? ==> ModuleByPath(design, path) == WalkCells(design, path[i..], name.value, cur.m)
      invariant i > 0 && cur.Undefined? ==>
        ModuleByPath(design, path) == (if i == |path| then Ok(Located(name, None)) else Err("Cannot read properties of undefined (reading 'cells')"))
    {
      if cur.Start? {
        var top := GetTopModule(design);
        if top.Err? {
          return Err(top.msg);
        }
        name, cur := Some(top.value.0), At(top.value.1);
        i := i + 1;
        continue;
      }
      if cur.Undefined? {
        return Err("Cannot read properties of undefined (reading 'cells')");
      }
      var cell := Lookup(cur.m.cells, path[i]);
      if cell.None? {
        return Ok(NotACell);
      }
      assert path[i..][1..] == path[i + 1..];
      name := Some(path[i]);
      var next := Lookup(design.modules, cell.value.cellType);
      cur := if next.Some? then At(next.value) else Undefined;
      i := i + 1;
    }
    if cur.Start? {
      return Ok(Located(None, None));
    } else if cur.At? {
      return Ok(Located(name, Some(cur.m)));
    }
    return Ok(Located(name, None));
  }

  /** The walk of `elkGetModuleByPath` over the visible graph: for each name
      the first node with that name among the current children is entered
      (its visible or hidden children become the current list); a name
      without a match is skipped. Scanning an undefined child list is an
      error. */
  function ElkWalk(children: Option<seq<Node>>, output: Node, objectPath: seq<Node>, path: seq<string>): Result<(Node, seq<Node>)>
    decreases |path|
  {
    if path == [] then Ok((output, objectPath))
    else if children.None? then Err("children is not iterable")
    else
      var k := FirstNamed(children.value, path[0]);
      if k.None? then ElkWalk(children, output, objectPath, path[1..])
      else
        var child := children.value[k.value];
        ElkWalk(if child.childrenAt.Absent? then None else Some(child.children), child, objectPath + [child], path[1..])
  }

  /** The position of the first node named `name`. */
  function FirstNamed(nodes: seq<Node>, name: string): (r: Option<nat>)
    ensures r.Some? ==> r.value < |nodes| && nodes[r.value].name == name
    ensures r.Some? ==> forall j | 0 <= j < r.value :: nodes[j].name != name
    ensures r.None? ==> forall j | 0 <= j < |nodes| :: nodes[j].name != name
  {
    if nodes == [] then None
    else if nodes[0].name == name then Some(0)
    else
      var r := FirstNamed(nodes[1..], name);
      if r.Some? then Some(r.value + 1) else None
  }

  /** The walk starts at the root's visible children. */
  function ElkModuleByPath(root: Node, path: seq<string>): Result<(Node, seq<Node>)>
  {
    ElkWalk(if root.childrenAt.Shown? then Some(root.children) else None, root, [root], path)
  }

  /** Each node on the returned object path is a child of the one before it,
      the path starts at the root, ends at the returned node, and is at most
      one longer than the name path. */
  lemma {:induction false} ElkWalkIsChain(children: Option<seq<Node>>, output: Node, objectPath: seq<Node>, path: seq<string>)
    requires |objectPath| >= 1 && objectPath[|objectPath| - 1] == output
    requires children.Some? ==> children.value == Kids(output)
    requires forall k | 0 <= k < |objectPath| - 1 :: objectPath[k + 1] in Kids(objectPath[k])
    ensures ElkWalk(children, output, objectPath, path).Ok? ==>
      var (out, op) := ElkWalk(children, output, objectPath, path).value;
      |op| >= |objectPath| && op[..|objectPath|] == objectPath && op[|op| - 1] == out &&
      |op| <= |objectPath| + |path| &&
      (forall k | 0 <= k < |op| - 1 :: op[k + 1] in Kids(op[k]))
    decreases |path|
  {
    if path != [] && children.Some? {
      var k := FirstNamed(children.value, path[0]);
      if k.None? {
        ElkWalkIsChain(children, output, objectPath, path[1..]);
      } else {
        var child := children.value[k.value];
        var next := if child.childrenAt.Absent? then None else Some(child.children);
        assert child in Kids(output);
        ElkWalkIsChain(next, child, objectPath + [child], path[1..]);
      }
    }
  }

  /** `elkGetModuleByPath`. */
  method ElkGetModuleByPath(root: Node, path: seq<string>) returns (r: Result<(Node, seq<Node>)>)
    ensures r == ElkModuleByPath(root, path)
  {
    var children: Option<seq<Node>> := if root.childrenAt.Shown? then Some(root.children) else None;
    var output := root;
    var objectPath := [root];
    var i := 0;
    while i < |path|
      invariant 0 <= i <= |path|
      invariant ElkWalk(children, output, objectPath, path[i..]) == ElkModuleByPath(root, path)
    {
      if children.None? {
        return Err("children is not iterable");
      }
      var j := 0;
      while j < |children.value|
        invariant 0 <= j <= |children.value|
        invariant forall j' | 0 <= j' < j :: children.value[j'].name != path[i]
      {
        if children.value[j].name == path[i] {
          break;
        }
        j := j + 1;
      }
      assert path[i..][1..] == path[i + 1..];
      if j < |children.value| {
        var child := children.value[j];
        assert FirstNamed(children.value, path[i]) == Some(j);
        output := child;
        objectPath := objectPath + [child];
        children := if child.childrenAt.Absent? then None else Some(child.children);
      }
      i := i + 1;
    }
    assert path[i..] == [];
    return Ok((output, objectPath));
  }

  // ---------------------------------------------------------------------
  // Hiding

  /** `hideNodeObjects`: the visible children and edges move to the hidden
      fields; whatever was in the hidden fields before is overwritten (by
      `undefined` when there was nothing visible). */
  function HideNodeObjects(n: Node): (r: Node)
    ensures r.childrenAt == (if n.childrenAt.Shown? then Hidden else Absent)
    ensures r.edgesAt == (if n.edgesAt.Shown? then Hidden else Absent)
    ensures Kids(r) == (if n.childrenAt.Shown? then n.children else [])
    ensures EdgesOf(r) == (if n.edgesAt.Shown? then n.edges else [])
    ensures r.(children := n.children, childrenAt := n.childrenAt, edges := n.edges, edgesAt := n.edgesAt) == n
  {
    n.(children := if n.childrenAt.Shown? then n.children else [],
       childrenAt := if n.childrenAt.Shown? then Hidden else Absent,
       edges := if n.edgesAt.Shown? then n.edges else [],
       edgesAt := if n.edgesAt.Shown? then Hidden else Absent)
  }

  // ---------------------------------------------------------------------
  // Endpoint roles

  /** Which list of an edge a new endpoint joins. */
  datatype Role = SourceRole | TargetRole

  /** `getSourceAndTarget2` (module-boundary ports) and
      `getSourceAndTargetForCell` (cell ports) together with the direction
      test of `translateYosysBitsToLEdges`: seen from inside a module, its
      input port drives the net, while a cell's input port is driven by it. */
  function EndpointRole(forCell: bool, direction: string): (r: Result<Role>)
    ensures r.Err? <==> direction != "input" && direction != "output"
    ensures direction == "input" && !forCell ==> r == Ok(SourceRole)
    ensures direction == "output" && !forCell ==> r == Ok(TargetRole)
  {
    var (a, b) := if forCell then (TargetRole, SourceRole) else (SourceRole, TargetRole);
    if direction == "input" then Ok(a)
    else if direction == "output" then Ok(b)
    else Err("Unknown direction " + direction)
  }

  /** Cell ports take the opposite role of module-boundary ports of the same
      direction. */
  lemma EndpointRoleSwap(direction: string)
    requires direction == "input" || direction == "output"
    ensures EndpointRole(true, direction).value != EndpointRole(false, direction).value
  {
  }
}
