/** Fixed reference tables kept in source order, and the first-match search over them. */
module Tables {
  import opened Wrappers
  import opened Strings

  /**
   * A reference table: (key, code) pairs in the order the source declares them.
   * The source writes each SIRE code as a string of digits without leading zeros;
   * the table holds its value, and `CodeText` gives the string back.
   */
  type Table = seq<(string, nat)>

  /** The code string the source stores for a code value. */
  function CodeText(code: nat): (s: string)
    ensures s != "" && AllDigits(s)
  {
    NatToString(code)
  }

  /** The first position at or after `i` whose entry satisfies `p`. */
  function FirstFrom<E>(t: seq<E>, p: E -> bool, i: nat): (r: Option<nat>)
    requires i <= |t|
    ensures r.Some? ==> i <= r.value < |t| && p(t[r.value])
    ensures r.Some? ==> forall j :: i <= j < r.value ==> !p(t[j])
    ensures r.None? ==> forall j :: i <= j < |t| ==> !p(t[j])
    decreases |t| - i
  {
    if i == |t| then None
    else if p(t[i]) then Some(i)
    else FirstFrom(t, p, i + 1)
  }

  /** The first position whose entry satisfies `p`: a `for ... in` loop that returns early. */
  function FirstIndex<E>(t: seq<E>, p: E -> bool): (r: Option<nat>)
    ensures r.Some? ==> r.value < |t| && p(t[r.value])
    ensures r.Some? ==> forall j :: 0 <= j < r.value ==> !p(t[j])
    ensures r.None? ==> forall j :: 0 <= j < |t| ==> !p(t[j])
  {
    FirstFrom(t, p, 0)
  }
}
