/**
 * `CreditCard::Country`: the card's country, a string that can be looked up in
 * the ISO 3166 dataset. The dataset and the Ipcommerce processor's country
 * table are outside this model, so both are parameters of the lookups.
 */
module Countries {
  import opened Wrappers

  /** What the ISO 3166 dataset knows of a country: its numeric code (as `to_i` gives it) and its alpha-3 code. */
  datatype IsoCountry = IsoCountry(number: nat, alpha3: string)

  /** The ISO 3166 dataset: resolves a raw country string, or finds nothing (`data` is nil). */
  type Lookup = string -> Option<IsoCountry>

  /** A `CreditCard::Country`, which is a `String` holding the raw country text. */
  datatype CountryCode = CountryCode(name: string)

  /** `Array#index`: the position of the first element equal to `x`, or nil. */
  function IndexOf(table: seq<string>, x: string): (r: Option<nat>)
    ensures r.None? <==> x !in table
    ensures r.Some? ==> r.value < |table| && table[r.value] == x
    ensures r.Some? ==> forall j :: 0 <= j < r.value ==> table[j] != x
  {
    if table == [] then None
    else if table[0] == x then Some(0)
    else
      assert table == [table[0]] + table[1..];
      match IndexOf(table[1..], x)
      case None => None
      case Some(i) => Some(i + 1)
  }

  /** `Country#to_iso_3166`: the ISO 3166-1 numeric code when the country resolves, nil otherwise. */
  function ToIso3166(c: CountryCode, lookup: Lookup): (r: Option<nat>)
    ensures r.None? <==> lookup(c.name).None?
    ensures r.Some? ==> r.value == lookup(c.name).value.number
  {
    match lookup(c.name)
    case None => None
    case Some(iso) => Some(iso.number)
  }

  /**
   * `Country#to_ipcommerce_id`: where the country's alpha-3 code first stands
   * in the processor's table; 0 when the country does not resolve or its code
   * is not in the table.
   */
  function ToIpcommerceId(c: CountryCode, lookup: Lookup, table: seq<string>): (r: nat)
    ensures r == 0 || r < |table|
    ensures lookup(c.name).None? ==> r == 0
    ensures lookup(c.name).Some? && lookup(c.name).value.alpha3 !in table ==> r == 0
    ensures lookup(c.name).Some? && lookup(c.name).value.alpha3 in table ==>
              r < |table| && table[r] == lookup(c.name).value.alpha3 &&
              forall j :: 0 <= j < r ==> table[j] != lookup(c.name).value.alpha3
  {
    match lookup(c.name)
    case None => 0
    case Some(iso) => IndexOf(table, iso.alpha3).GetOr(0)
  }

  /**
   * The two lookups agree on resolution: a non-zero processor id needs a
   * resolved country, and an unresolved one gives id 0 for every table.
   */
  lemma LookupsAgree(c: CountryCode, lookup: Lookup, table: seq<string>)
    ensures ToIso3166(c, lookup).None? ==> ToIpcommerceId(c, lookup, table) == 0
    ensures ToIpcommerceId(c, lookup, table) != 0 ==>
              ToIso3166(c, lookup).Some? && table[ToIpcommerceId(c, lookup, table)] == lookup(c.name).value.alpha3
  {
  }

  /**
   * Id 0 is ambiguous: it comes back exactly when the country does not
   * resolve, when its code is missing from the table, or when its code is the
   * table's first entry.
   */
  lemma IpcommerceIdZero(c: CountryCode, lookup: Lookup, table: seq<string>)
    ensures ToIpcommerceId(c, lookup, table) == 0 <==>
              || lookup(c.name).None?
              || lookup(c.name).value.alpha3 !in table
              || table[0] == lookup(c.name).value.alpha3
  {
  }
}
