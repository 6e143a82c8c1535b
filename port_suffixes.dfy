/** The two port-name suffix comparators edge aggregation can be given
    (`fromYosysPortSuffixesAreEqual` and
    `fromYosysPortSuffixesAreEqualIOSuffixIgnore` of src/d3-hwschematic.js),
    and the default `fromYosys` picks when none is given. */
module PortSuffixes {
  import opened Outcomes
  import opened Text

  /** Which comparator is in use. */
  datatype SuffixRule = ExactSuffix | IOSuffixIgnore

  /** The comparator `fromYosys` uses when the caller passes none. */
  function DefaultRule(given: Option<SuffixRule>): (r: SuffixRule)
    ensures given.None? ==> r == ExactSuffix
    ensures given.Some? ==> r == given.value
  {
    if given.None? then ExactSuffix else given.value
  }

  /** `fromYosysPortSuffixesAreEqualIOSuffixIgnore`: when one suffix ends in
      "_i" and the other in "_o", both lose their last two characters before
      they are compared. */
  function IOSuffixesAreEqual(left: string, right: string): (r: bool)
  {
    if (EndsWith(left, "_i") && EndsWith(right, "_o")) || (EndsWith(left, "_o") && EndsWith(right, "_i")) then
      left[..|left| - 2] == right[..|right| - 2]
    else
      left == right
  }

  /** The comparator in use applied to two suffixes. */
  function SuffixesAreEqual(rule: SuffixRule, left: string, right: string): (r: bool)
    ensures rule == ExactSuffix ==> (r <==> left == right)
    ensures rule == IOSuffixIgnore ==> r == IOSuffixesAreEqual(left, right)
  {
    match rule
    case ExactSuffix => left == right
    case IOSuffixIgnore => IOSuffixesAreEqual(left, right)
  }

  /** Both comparators are symmetric. */
  lemma SuffixesAreEqualSymmetric(rule: SuffixRule, left: string, right: string)
    ensures SuffixesAreEqual(rule, left, right) == SuffixesAreEqual(rule, right, left)
  {
  }

  /** Equal suffixes are equal under either comparator: the I/O comparator
      only ever adds matches. */
  lemma ExactImpliesIO(left: string, right: string)
    requires left == right
    ensures IOSuffixesAreEqual(left, right)
  {
    assert EndsWith(left, "_i") ==> left[|left| - 1] == 'i';
    assert EndsWith(left, "_o") ==> left[|left| - 1] == 'o';
  }

  /** The I/O comparator pairs an input with an output of the same stem, in
      either order. */
  lemma IOSuffixPairs(stem: string)
    ensures IOSuffixesAreEqual(stem + "_i", stem + "_o")
    ensures IOSuffixesAreEqual(stem + "_o", stem + "_i")
    ensures !SuffixesAreEqual(ExactSuffix, stem + "_i", stem + "_o")
  {
    assert (stem + "_i")[..|stem + "_i"| - 2] == stem;
    assert (stem + "_o")[..|stem + "_o"| - 2] == stem;
    assert (stem + "_i")[|stem| + 1] != (stem + "_o")[|stem| + 1];
  }
}
