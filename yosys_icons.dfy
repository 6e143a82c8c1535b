/** The translation of Yosys cell types into the operator icons the
    renderer knows. */
module YosysIcons {
  import opened Outcomes
  import opened Netlist
  import opened Graph

  /** The table of cell types drawn as a named operator symbol. */
  function OperatorName(cellType: string): Option<string>
  {
    match cellType
    case "$mux" => Some("MUX")
    case "$pmux" => Some("MUX")
    case "$gt" => Some("GT")
    case "$lt" => Some("LT")
    case "$ge" => Some("GE")
    case "$le" => Some("LE")
    case "$not" => Some("NOT")
    case "$logic_not" => Some("NOT")
    case "$logic_and" => Some("AND")
    case "$and" => Some("AND")
    case "$logic_or" => Some("OR")
    case "$or" => Some("OR")
    case "$xor" => Some("XOR")
    case "$eq" => Some("EQ")
    case "$ne" => Some("NE")
    case "$add" => Some("ADD")
    case "$sub" => Some("SUB")
    case "$mul" => Some("MUL")
    case "$div" => Some("DIV")
    case "$slice" => Some("SLICE")
    case "$concat" => Some("CONCAT")
    case "$dff" => Some("FF")
    case "$shift" => Some("SHIFT")
    case "$shiftx" => Some("SHIFT")
    case _ => None
  }

  /** Both multiplexer kinds share one icon, as do both shift kinds. */
  lemma OperatorAliases()
    ensures OperatorName("$mux") == OperatorName("$pmux") == Some("MUX")
    ensures OperatorName("$shift") == OperatorName("$shiftx") == Some("SHIFT")
  {
  }

  function Bit01(b: bool): string
  {
    if b then "1" else "0"
  }

  /** `yosysTranslateIcon`: an asynchronous-reset flip-flop is named after
      its clock and reset polarities, a latch after its enable polarity, a
      tabled cell type after the table; each of these also becomes an
      Operator. Any other cell type leaves the node untouched. Only the
      class and the name are ever written. */
  function TranslateIcon(node: Node, cell: Cell): (r: Node)
    ensures r.(cls := node.cls, name := node.name) == node
    ensures cell.cellType == "$adff" ==>
      r.cls == "Operator" &&
      r.name == "FF_ARST_clk" + Bit01(Truthy(Lookup(cell.parameters, "CLK_POLARITY"))) +
                "_rst" + Bit01(Truthy(Lookup(cell.parameters, "ARST_POLARITY")))
    ensures cell.cellType == "$dlatch" ==>
      r.cls == "Operator" && r.name == "DLATCH_en" + Bit01(Truthy(Lookup(cell.parameters, "EN_POLARITY")))
    ensures OperatorName(cell.cellType).Some? ==> r.cls == "Operator" && r.name == OperatorName(cell.cellType).value
    ensures OperatorName(cell.cellType).None? && cell.cellType != "$adff" && cell.cellType != "$dlatch" ==> r == node
  {
    var t := cell.cellType;
    if t == "$adff" then
      var arst := Truthy(Lookup(cell.parameters, "ARST_POLARITY"));
      var clk := Truthy(Lookup(cell.parameters, "CLK_POLARITY"));
      var name :=
        if clk && arst then "FF_ARST_clk1_rst1"
        else if clk then "FF_ARST_clk1_rst0"
        else if arst then "FF_ARST_clk0_rst1"
        else "FF_ARST_clk0_rst0";
      assert name == "FF_ARST_clk" + Bit01(clk) + "_rst" + Bit01(arst);
      node.(cls := "Operator", name := name)
    else if t == "$dlatch" then
      var en := Truthy(Lookup(cell.parameters, "EN_POLARITY"));
      node.(cls := "Operator", name := if en then "DLATCH_en1" else "DLATCH_en0")
    else
      var name := OperatorName(t);
      if name.None? then node else node.(cls := "Operator", name := name.value)
  }

  /** Whenever the translation changes a node, the node becomes an Operator. */
  lemma TranslateIconMarksOperators(node: Node, cell: Cell)
    ensures TranslateIcon(node, cell) != node ==> TranslateIcon(node, cell).cls == "Operator"
  {
  }
}
