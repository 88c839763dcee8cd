/**
 * The month labels of the report: the fixed list `MESES_ORDENADOS` and the
 * `{i + 1: m for i, m in enumerate(MESES_ORDENADOS)}` map that turns a
 * month number into its label.
 */
module Months {
  import opened Wrappers

  /** `MESES_ORDENADOS`: two-digit month number, a dash, the Portuguese
      abbreviation. */
  const MonthNames: seq<string> := ["01-Jan", "02-Fev", "03-Mar", "04-Abr", "05-Mai", "06-Jun",
                                    "07-Jul", "08-Ago", "09-Set", "10-Out", "11-Nov", "12-Dez"]

  /** `{i + 1: x for i, x in enumerate(xs)}`, built entry by entry. */
  function Enumerated(xs: seq<string>): map<int, string> {
    if xs == [] then map[] else Enumerated(xs[..|xs| - 1])[|xs| := xs[|xs| - 1]]
  }

  /** The enumerated map holds exactly the keys 1 to `|xs|`, key `k` with the
      entry at index `k - 1`. */
  lemma {:induction false} EnumeratedLookup(xs: seq<string>, k: int)
    ensures k in Enumerated(xs) <==> 1 <= k <= |xs|
    ensures k in Enumerated(xs) ==> Enumerated(xs)[k] == xs[k - 1]
  {
    if xs != [] && k != |xs| {
      EnumeratedLookup(xs[..|xs| - 1], k);
    }
  }

  /** The month-label map. */
  function MonthLabels(): map<int, string> {
    Enumerated(MonthNames)
  }

  /** What `.map(...)` gives a month number: its label, or nothing (pandas'
      NaN) for a number outside the map. */
  function MonthLabel(m: int): (r: Option<string>)
    ensures r.Some? <==> 1 <= m <= 12
    ensures r.Some? ==> r.value == MonthNames[m - 1]
  {
    EnumeratedLookup(MonthNames, m);
    if m in MonthLabels() then Some(MonthLabels()[m]) else None
  }

  /** The value of a decimal digit character. */
  function Digit(c: char): int {
    c as int - '0' as int
  }

  /** The month number a label starts with. */
  function LeadingNumber(tag: string): int {
    if |tag| < 2 then 0 else 10 * Digit(tag[0]) + Digit(tag[1])
  }

  /** Every label is six characters: the month's two digits, `-`, and three
      letters. */
  lemma {:induction false} LabelLayout(m: int)
    requires 1 <= m <= 12
    ensures var l := MonthLabel(m).value;
      |l| == 6 && l[2] == '-' && LeadingNumber(l) == m
  {
    var l := MonthNames[m - 1];
    if m == 1 { assert l == "01-Jan"; }
    else if m == 2 { assert l == "02-Fev"; }
    else if m == 3 { assert l == "03-Mar"; }
    else if m == 4 { assert l == "04-Abr"; }
    else if m == 5 { assert l == "05-Mai"; }
    else if m == 6 { assert l == "06-Jun"; }
    else if m == 7 { assert l == "07-Jul"; }
    else if m == 8 { assert l == "08-Ago"; }
    else if m == 9 { assert l == "09-Set"; }
    else if m == 10 { assert l == "10-Out"; }
    else if m == 11 { assert l == "11-Nov"; }
    else { assert l == "12-Dez"; }
  }

  /** Distinct months have distinct labels, and the list is in month order:
      a label earlier in the list has a smaller leading number. */
  lemma LabelsOrdered(m: int, n: int)
    requires 1 <= m <= 12 && 1 <= n <= 12
    ensures m < n ==> LeadingNumber(MonthLabel(m).value) < LeadingNumber(MonthLabel(n).value)
    ensures MonthLabel(m) == MonthLabel(n) ==> m == n
  {
    LabelLayout(m);
    LabelLayout(n);
  }

  /** March is labelled "03-Mar". */
  lemma MarchLabel()
    ensures MonthLabel(3) == Some("03-Mar")
  {
  }
}
