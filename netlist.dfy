/** The Yosys JSON netlist the builder reads: a design is a dictionary of
    modules; a module has ports, cells and net names; bit vectors hold net
    numbers or constant bits. JSON objects are kept as association lists in
    their key order. */
module Netlist {
  import opened Outcomes

  /** One entry of a bit vector: a net number, or a constant bit written as a
      string ("0", "1", "x", "z"). */
  datatype Bit = Net(net: int) | Const(value: string)

  /** A JSON object read as its (key, value) entries in order. */
  type Entries<V> = seq<(string, V)>

  /** `obj[key]`: the value of the first entry with that key. */
  function Lookup<V>(es: Entries<V>, key: string): (r: Option<V>)
    ensures r.None? <==> forall k | 0 <= k < |es| :: es[k].0 != key
    ensures r.Some? ==> exists k | 0 <= k < |es| :: es[k] == (key, r.value) && forall j | 0 <= j < k :: es[j].0 != key
  {
    if es == [] then None
    else if es[0].0 == key then Some(es[0].1)
    else
      var r := Lookup(es[1..], key);
      if r.Some? then
        assert exists k | 0 <= k < |es| :: es[k] == (key, r.value) && forall j | 0 <= j < k :: es[j].0 != key by {
          var k :| 0 <= k < |es[1..]| && es[1..][k] == (key, r.value) && forall j | 0 <= j < k :: es[1..][j].0 != key;
          assert es[k + 1] == (key, r.value);
          forall j | 0 <= j < k + 1 ensures es[j].0 != key {
            if j > 0 { assert es[j] == es[1..][j - 1]; }
          }
        }
        r
      else
        None
  }

  /** A parameter or attribute value: Yosys writes numbers or strings. */
  datatype Param = PInt(i: int) | PStr(s: string)

  /** JavaScript truthiness of a possibly missing value. */
  predicate Truthy(p: Option<Param>)
  {
    match p
    case None => false
    case Some(PInt(i)) => i != 0
    case Some(PStr(s)) => s != ""
  }

  /** The integer value of a parameter given as a number. */
  function IntParam(p: Option<Param>): Option<int>
  {
    if p.Some? && p.value.PInt? then Some(p.value.i) else None
  }

  datatype PortDecl = PortDecl(direction: string, bits: seq<Bit>)

  datatype NetName = NetName(bits: seq<Bit>)

  /** A cell. `portDirections` and `connections` are optional in the JSON
      (black boxes may lack them). */
  datatype Cell = Cell(cellType: string, parameters: Entries<Param>,
                       portDirections: Option<Entries<string>>,
                       connections: Option<Entries<seq<Bit>>>)

  datatype Module = Module(attributes: Entries<Param>, ports: Entries<PortDecl>,
                           cells: Entries<Cell>, netnames: Entries<NetName>)

  datatype Design = Design(modules: Entries<Module>)
}
