/**
 * The page address's query string, as `URLSearchParams` treats it: an
 * ordered list of name/value pairs.  Only the two operations the recipe page
 * uses are modelled; parsing and percent-encoding of the string form are not.
 */
module QueryParams {
  import opened Common

  type Params = seq<(string, string)>

  /** `get(name)`: the value of the first pair with that name. */
  function Lookup(ps: Params, name: string): Option<string> {
    if ps == [] then None
    else if ps[0].0 == name then Some(ps[0].1)
    else Lookup(ps[1..], name)
  }

  /** Number of pairs with the given name. */
  function Count(ps: Params, name: string): nat {
    if ps == [] then 0
    else (if ps[0].0 == name then 1 else 0) + Count(ps[1..], name)
  }

  /** All pairs with the given name removed. */
  function RemoveName(ps: Params, name: string): (r: Params)
    ensures Count(r, name) == 0
    ensures Lookup(r, name) == None
    ensures forall other :: other != name ==> Lookup(r, other) == Lookup(ps, other)
  {
    if ps == [] then []
    else if ps[0].0 == name then RemoveName(ps[1..], name)
    else [ps[0]] + RemoveName(ps[1..], name)
  }

  /**
   * `set(name, value)`: the first pair with that name gets the new value and
   * later pairs with that name are dropped; when there is none the pair is
   * appended.  Afterwards the name occurs once, with the new value, and every
   * other name reads as before.
   */
  function SetParam(ps: Params, name: string, value: string): (r: Params)
    ensures Count(r, name) == 1
    ensures Lookup(r, name) == Some(value)
    ensures forall other :: other != name ==> Lookup(r, other) == Lookup(ps, other)
    ensures Lookup(ps, name).None? ==> r == ps + [(name, value)]
  {
    if ps == [] then [(name, value)]
    else if ps[0].0 == name then [(name, value)] + RemoveName(ps[1..], name)
    else [ps[0]] + SetParam(ps[1..], name, value)
  }

  /** The number a string of decimal digits denotes, read most significant
      digit first. */
  function DigitsValue(s: string): int {
    if s == [] then 0
    else DigitsValue(s[..|s| - 1]) * 10 + (s[|s| - 1] as int - '0' as int)
  }

  /** True when every character is a decimal digit. */
  predicate AllDigits(s: string) {
    forall i :: 0 <= i < |s| ==> '0' <= s[i] <= '9'
  }

  /** Converting an integer to a string: an optional minus sign, then the
      decimal digits of its magnitude, which read back as that magnitude. */
  function DecimalString(n: int): (r: string)
    ensures |r| > 0
    ensures n >= 0 ==> AllDigits(r) && DigitsValue(r) == n
    ensures n < 0 ==> |r| > 1 && r[0] == '-' && AllDigits(r[1..]) && DigitsValue(r[1..]) == -n
    decreases if n < 0 then 1 - n else n
  {
    if n < 0 then
      var magnitude := DecimalString(-n);
      assert ("-" + magnitude)[1..] == magnitude;
      "-" + magnitude
    else if n < 10 then
      assert [Digit(n)][..0] == [];
      [Digit(n)]
    else
      var prefix := DecimalString(n / 10);
      assert (prefix + [Digit(n % 10)])[..|prefix|] == prefix;
      prefix + [Digit(n % 10)]
  }

  function Digit(d: int): (c: char)
    requires 0 <= d < 10
    ensures '0' <= c <= '9' && c as int - '0' as int == d
  {
    (48 + d) as char
  }
}
