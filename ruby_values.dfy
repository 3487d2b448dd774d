/**
 * The slice of Ruby's object model that the credit card record relies on:
 * the values its fields hold, Ruby truthiness, `to_s`, and the two Array
 * methods `compact` and `join` used to build the name on the card.
 */
module RubyValues {
  import opened Wrappers

  /**
   * A non-nil Ruby object stored in a card field. Strings and the two
   * booleans are told apart because the country setter and the name join
   * treat them specially; every other object (an Integer, a Date, ...) is an
   * `Other`, identified by `id` for `==` and carrying the text its `to_s`
   * renders. nil is `None` in an `Option<Value>`.
   */
  datatype Value = Text(s: string) | Flag(b: bool) | Other(id: nat, shown: string)

  /** Ruby truthiness: everything except nil and false, so every String (the empty one too) and `true` are truthy. */
  predicate Truthy(v: Option<Value>): (b: bool)
    ensures v.None? || v == Some(Flag(false)) ==> !b
    ensures v.Some? && (v.value.Text? || v.value == Flag(true) || v.value.Other?) ==> b
  {
    v.Some? && v.value != Flag(false)
  }

  /** `to_s`, as `Array#join` applies it to each element. */
  function ToS(v: Value): string
  {
    match v
    case Text(s) => s
    case Flag(b) => if b then "true" else "false"
    case Other(_, shown) => shown
  }

  /** `Array#compact`: the elements that are not nil, in their order. */
  function Compact(xs: seq<Option<Value>>): (r: seq<Value>)
    ensures |r| <= |xs|
    ensures forall y :: y in r <==> Some(y) in xs
  {
    if xs == [] then []
    else
      assert xs == [xs[0]] + xs[1..];
      (if xs[0].Some? then [xs[0].value] else []) + Compact(xs[1..])
  }

  /** `Array#compact` keeps the relative order of what it keeps. */
  lemma {:induction false} CompactAppend(xs: seq<Option<Value>>, ys: seq<Option<Value>>)
    ensures Compact(xs + ys) == Compact(xs) + Compact(ys)
  {
    if xs == [] {
      assert xs + ys == ys;
    } else {
      assert (xs + ys)[1..] == xs[1..] + ys;
      CompactAppend(xs[1..], ys);
    }
  }

  /**
   * `Array#join(sep)` over strings: the parts with `sep` between neighbours.
   * An empty list joins to "", a single part to itself, two parts to the
   * first, `sep` and the second; any join starts with its first part and
   * ends with its last.
   */
  function Join(parts: seq<string>, sep: string): (r: string)
    ensures |parts| == 0 ==> r == ""
    ensures |parts| == 1 ==> r == parts[0]
    ensures |parts| == 2 ==> r == parts[0] + sep + parts[1]
    ensures |parts| > 0 ==> |parts[0]| <= |r| && r[..|parts[0]|] == parts[0]
    ensures |parts| > 0 ==> |parts[|parts| - 1]| <= |r| && r[|r| - |parts[|parts| - 1]|..] == parts[|parts| - 1]
  {
    if |parts| == 0 then ""
    else if |parts| == 1 then parts[0]
    else
      var rest := Join(parts[1..], sep);
      assert parts[1..][|parts[1..]| - 1] == parts[|parts| - 1];
      parts[0] + sep + rest
  }
}
