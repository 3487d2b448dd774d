/**
 * `VaultedBilling::CreditCard`: a mutable record of thirteen optional card and
 * cardholder fields, built from a hash whose String or Symbol keys name the
 * fields, compared by its attribute snapshot, with a derived name on the card.
 */
module CreditCards {
  import opened Wrappers
  import opened RubyValues
  import Countries

  /** The thirteen attributes, in the order the snapshot lists them. */
  datatype Field =
    | VaultId | Currency | CardNumber | CvvNumber | ExpiresOn | FirstName | LastName
    | StreetAddress | Locality | Region | PostalCode | Country | Phone

  const AllFields: set<Field> :=
    {VaultId, Currency, CardNumber, CvvNumber, ExpiresOn, FirstName, LastName,
     StreetAddress, Locality, Region, PostalCode, Country, Phone}

  /** The attribute's Ruby name; its setter is this name followed by `=`. */
  function FieldName(f: Field): string
  {
    match f
    case VaultId => "vault_id"
    case Currency => "currency"
    case CardNumber => "card_number"
    case CvvNumber => "cvv_number"
    case ExpiresOn => "expires_on"
    case FirstName => "first_name"
    case LastName => "last_name"
    case StreetAddress => "street_address"
    case Locality => "locality"
    case Region => "region"
    case PostalCode => "postal_code"
    case Country => "country"
    case Phone => "phone"
  }

  /**
   * `respond_to?("#{name}=")`: the attribute whose setter `name` selects, or
   * None when the record has no such setter.
   */
  function SetterField(name: string): (r: Option<Field>)
    ensures r.Some? ==> FieldName(r.value) == name
    ensures r.None? ==> forall f: Field :: FieldName(f) != name
  {
    if name == "vault_id" then Some(VaultId)
    else if name == "currency" then Some(Currency)
    else if name == "card_number" then Some(CardNumber)
    else if name == "cvv_number" then Some(CvvNumber)
    else if name == "expires_on" then Some(ExpiresOn)
    else if name == "first_name" then Some(FirstName)
    else if name == "last_name" then Some(LastName)
    else if name == "street_address" then Some(StreetAddress)
    else if name == "locality" then Some(Locality)
    else if name == "region" then Some(Region)
    else if name == "postal_code" then Some(PostalCode)
    else if name == "country" then Some(Country)
    else if name == "phone" then Some(Phone)
    else None
  }

  /** Each attribute has its own setter, and its setter selects it. */
  lemma SetterFieldRoundTrip(f: Field)
    ensures SetterField(FieldName(f)) == Some(f)
  {
  }

  /** The TypeError `String.new` raises for an argument that is not a String. */
  datatype Error = TypeError

  /** One value of the attribute snapshot: the country is held as a `CountryCode`, every other attribute as given. */
  datatype Entry = Plain(value: Option<Value>) | Wrapped(country: Option<Countries.CountryCode>)

  /** The snapshot entry of an attribute that was never assigned. */
  function Blank(f: Field): Entry
  {
    if f == Country then Wrapped(None) else Plain(None)
  }

  /**
   * `country=(input)`: the country held after the setter runs on a record
   * holding `current`. nil and false leave it alone; any other value goes
   * through `Country.new`, a `String.new`, which copies a String (the empty
   * one included) and raises TypeError for anything else.
   */
  function CountryAssign(current: Option<Countries.CountryCode>, input: Option<Value>)
    : (r: Result<Option<Countries.CountryCode>, Error>)
    ensures !Truthy(input) ==> r == Success(current)
    ensures r.Failure? <==> Truthy(input) && !input.value.Text?
    ensures Truthy(input) && r.Success? ==> r.value == Some(Countries.CountryCode(input.value.s))
  {
    if !Truthy(input) then Success(current)
    else match input.value
      case Text(s) => Success(Some(Countries.CountryCode(s)))
      case _ => Failure(TypeError)
  }

  /** Running the country setter twice with the same input ends where running it once does. */
  lemma CountryAssignIdempotent(current: Option<Countries.CountryCode>, input: Option<Value>)
    requires CountryAssign(current, input).Success?
    ensures CountryAssign(CountryAssign(current, input).value, input) == CountryAssign(current, input)
  {
  }

  /** A hash key: `HashWithIndifferentAccess` turns a Symbol into the String of the same name. */
  datatype Key = Str(name: string) | Sym(name: string)

  /** A Ruby hash passed to `new`: its pairs in insertion order. */
  type Hash = seq<(Key, Option<Value>)>

  /** The key names a hash uses. */
  function Names(h: Hash): set<string>
  {
    set i | 0 <= i < |h| :: h[i].0.name
  }

  /** No later pair of `h` uses the name of the pair at `i`. */
  predicate LastOccurrence(h: Hash, i: int)
    requires 0 <= i < |h|
  {
    forall j :: i < j < |h| ==> h[j].0.name != h[i].0.name
  }

  /**
   * `HashWithIndifferentAccess.new(h)`: keys by name, whether String or
   * Symbol; when two keys share a name, the later pair wins.
   */
  function Indifferent(h: Hash): (m: map<string, Option<Value>>)
    ensures m.Keys == Names(h)
    ensures forall i :: 0 <= i < |h| && LastOccurrence(h, i) ==> m[h[i].0.name] == h[i].1
  {
    if h == [] then map[]
    else
      var init, last := h[..|h| - 1], h[|h| - 1];
      assert Names(h) == Names(init) + {last.0.name} by {
        forall n | n in Names(h) ensures n in Names(init) + {last.0.name} {
          var i :| 0 <= i < |h| && h[i].0.name == n;
          if i < |h| - 1 { assert init[i] == h[i]; }
        }
        forall n | n in Names(init) ensures n in Names(h) {
          var i :| 0 <= i < |init| && init[i].0.name == n;
          assert h[i] == init[i];
        }
      }
      assert forall i :: 0 <= i < |init| && LastOccurrence(h, i) ==> LastOccurrence(init, i);
      Indifferent(init)[last.0.name := last.1]
  }

  /** `new` raises when the hash holds a country that `String.new` refuses. */
  predicate Raises(m: map<string, Option<Value>>)
  {
    FieldName(Country) in m && CountryAssign(None, m[FieldName(Country)]).Failure?
  }

  /** The snapshot entry of `f` on a fresh record after its setter, if any, ran with the value `m` names. */
  function Initial(m: map<string, Option<Value>>, f: Field): Entry
  {
    if FieldName(f) !in m then Blank(f)
    else if f == Country then
      match CountryAssign(None, m[FieldName(f)])
      case Success(c) => Wrapped(c)
      case Failure(_) => Blank(f)
    else Plain(m[FieldName(f)])
  }

  /**
   * `CreditCard.new(h)`: the snapshot of the new record, or the error that
   * `new` raises instead.
   */
  function Construct(h: Hash): (r: Result<map<Field, Entry>, Error>)
    ensures r.Failure? <==> Raises(Indifferent(h))
    ensures r.Success? ==> r.value.Keys == AllFields
  {
    var m := Indifferent(h);
    if Raises(m) then Failure(TypeError)
    else Success(map f | f in AllFields :: Initial(m, f))
  }

  /**
   * Every attribute the hash names gets the value the hash gives it; for the
   * country that value wrapped as a `CountryCode`, or nil when the value is false.
   */
  lemma ConstructAssignsNamedFields(h: Hash, f: Field)
    requires Construct(h).Success?
    requires FieldName(f) in Indifferent(h)
    ensures f != Country ==> Construct(h).value[f] == Plain(Indifferent(h)[FieldName(f)])
    ensures f == Country ==>
              var v := Indifferent(h)[FieldName(f)];
              Construct(h).value[f] == Wrapped(if Truthy(v) then Some(Countries.CountryCode(v.value.s)) else None)
  {
  }

  /** Every attribute the hash does not name stays nil. */
  lemma ConstructLeavesUnnamedFieldsNil(h: Hash, f: Field)
    requires Construct(h).Success?
    requires FieldName(f) !in Indifferent(h)
    ensures Construct(h).value[f] == Blank(f)
  {
  }

  /** A pair whose key names no setter changes nothing about the record `new` builds. */
  lemma {:induction false} UnknownKeyIgnored(h: Hash, k: Key, v: Option<Value>)
    requires SetterField(k.name).None?
    ensures Construct(h + [(k, v)]) == Construct(h)
  {
    var h' := h + [(k, v)];
    assert h'[..|h'| - 1] == h;
    var m := Indifferent(h);
    assert Indifferent(h') == m[k.name := v];
    assert !Raises(m[k.name := v]) <==> !Raises(m);
    forall f | f in AllFields ensures Initial(m[k.name := v], f) == Initial(m, f) {
      InitialIgnoresOtherNames(m, k.name, v, f);
    }
    var before := map f | f in AllFields :: Initial(m, f);
    var after := map f | f in AllFields :: Initial(m[k.name := v], f);
    assert after == before;
  }

  /** The entry of an attribute depends only on the value its own name maps to. */
  lemma InitialIgnoresOtherNames(m: map<string, Option<Value>>, n: string, v: Option<Value>, f: Field)
    requires FieldName(f) != n
    ensures Initial(m[n := v], f) == Initial(m, f)
  {
    assert (FieldName(f) in m[n := v]) == (FieldName(f) in m);
  }

  /** Two hashes that hold, pair by pair, the same key names and values. */
  predicate SameNamedPairs(h1: Hash, h2: Hash)
  {
    |h1| == |h2| && forall i :: 0 <= i < |h1| ==> h1[i].0.name == h2[i].0.name && h1[i].1 == h2[i].1
  }

  lemma {:induction false} IndifferentSameNamedPairs(h1: Hash, h2: Hash)
    requires SameNamedPairs(h1, h2)
    ensures Indifferent(h1) == Indifferent(h2)
  {
    if h1 != [] {
      var n := |h1| - 1;
      IndifferentSameNamedPairs(h1[..n], h2[..n]);
    }
  }

  /**
   * Key indifference: hashes that differ only in whether a key is a String
   * or a Symbol build the same record.
   */
  lemma KeyIndifference(h1: Hash, h2: Hash)
    requires SameNamedPairs(h1, h2)
    ensures Construct(h1) == Construct(h2)
  {
    IndifferentSameNamedPairs(h1, h2);
  }

  /** The (name, value) pairs of a hash, with String and Symbol keys alike. */
  function NamedPairs(h: Hash): set<(string, Option<Value>)>
  {
    set i | 0 <= i < |h| :: (h[i].0.name, h[i].1)
  }

  /** No two keys of `h` share a name. */
  predicate DistinctNames(h: Hash)
  {
    forall i, j :: 0 <= i < j < |h| ==> h[i].0.name != h[j].0.name
  }

  /**
   * Key indifference, whatever the order: two hashes without colliding names
   * that hold the same names with the same values build the same record.
   */
  lemma SameContentSameRecord(h1: Hash, h2: Hash)
    requires DistinctNames(h1) && DistinctNames(h2)
    requires NamedPairs(h1) == NamedPairs(h2)
    ensures Construct(h1) == Construct(h2)
  {
    var m1, m2 := Indifferent(h1), Indifferent(h2);
    forall n | n in m1 ensures n in m2 && m1[n] == m2[n] {
      var i :| 0 <= i < |h1| && h1[i].0.name == n;
      assert LastOccurrence(h1, i);
      assert (n, h1[i].1) in NamedPairs(h2);
      var j :| 0 <= j < |h2| && (h2[j].0.name, h2[j].1) == (n, h1[i].1);
      assert LastOccurrence(h2, j);
    }
    forall n | n in m2 ensures n in m1 {
      var j :| 0 <= j < |h2| && h2[j].0.name == n;
      assert (n, h2[j].1) in NamedPairs(h1);
    }
    assert m1 == m2;
  }

  /**
   * `name_on_card` for the given first and last names, `[first, last].compact.join(" ")`:
   * both names with one space between them when both are set, the one that is
   * set alone, and "" when neither is. Only nil is dropped, so an empty string
   * or false still takes its place.
   */
  function JoinedName(first: Option<Value>, last: Option<Value>): (r: string)
    ensures first.None? && last.None? ==> r == ""
    ensures first.Some? && last.None? ==> r == ToS(first.value)
    ensures first.None? && last.Some? ==> r == ToS(last.value)
    ensures first.Some? && last.Some? ==> r == ToS(first.value) + " " + ToS(last.value)
  {
    assert [first, last] == [first] + [last];
    CompactAppend([first], [last]);
    var kept := Compact([first, last]);
    assert kept == Compact([first]) + Compact([last]);
    Join(seq(|kept|, i requires 0 <= i < |kept| => ToS(kept[i])), " ")
  }

  /** The snapshot entry of `f` part way through `initialize`, once every name of `m` outside `pending` has been handled. */
  function Partial(m: map<string, Option<Value>>, pending: set<string>, f: Field): Entry
  {
    if FieldName(f) in pending then Blank(f) else Initial(m, f)
  }

  /** Handling the name `k` settles the entry of the attribute it names and leaves every other entry alone. */
  lemma PartialStep(m: map<string, Option<Value>>, pending: set<string>, k: string)
    requires k in m
    ensures forall g :: FieldName(g) != k ==> Partial(m, pending - {k}, g) == Partial(m, pending, g)
    ensures SetterField(k).Some? && SetterField(k).value != Country ==>
              Partial(m, pending - {k}, SetterField(k).value) == Plain(m[k])
    ensures SetterField(k) == Some(Country) && CountryAssign(None, m[k]).Success? ==>
              Partial(m, pending - {k}, Country) == Wrapped(CountryAssign(None, m[k]).value)
    ensures forall g :: FieldName(g) == k ==> SetterField(k) == Some(g)
  {
    forall g | FieldName(g) == k ensures SetterField(k) == Some(g) {
      SetterFieldRoundTrip(g);
    }
  }

  /** The record. Every attribute starts out nil. */
  class CreditCard {
    var cardNumber: Option<Value>
    var country: Option<Countries.CountryCode>
    var currency: Option<Value>
    var cvvNumber: Option<Value>
    var expiresOn: Option<Value>
    var firstName: Option<Value>
    var lastName: Option<Value>
    var locality: Option<Value>
    var phone: Option<Value>
    var postalCode: Option<Value>
    var region: Option<Value>
    var streetAddress: Option<Value>
    var vaultId: Option<Value>

    /** The current value of one attribute, as the snapshot holds it. */
    function Get(f: Field): (e: Entry)
      reads this
      ensures e.Wrapped? <==> f == Country
    {
      match f
      case VaultId => Plain(vaultId)
      case Currency => Plain(currency)
      case CardNumber => Plain(cardNumber)
      case CvvNumber => Plain(cvvNumber)
      case ExpiresOn => Plain(expiresOn)
      case FirstName => Plain(firstName)
      case LastName => Plain(lastName)
      case StreetAddress => Plain(streetAddress)
      case Locality => Plain(locality)
      case Region => Plain(region)
      case PostalCode => Plain(postalCode)
      case Country => Wrapped(country)
      case Phone => Plain(phone)
    }

    /** `attributes`: the snapshot of all thirteen attributes, keyed by attribute. */
    function Attributes(): (a: map<Field, Entry>)
      reads this
      ensures a.Keys == AllFields
      ensures forall f :: f in a ==> a[f] == Get(f)
    {
      map f | f in AllFields :: Get(f)
    }

    /** `==`: equality of the attribute snapshots. */
    predicate Equals(o: CreditCard): (b: bool)
      reads this, o
      ensures b <==> forall f :: Get(f) == o.Get(f)
    {
      Attributes() == o.Attributes()
    }

    /** The record `allocate` makes, before `initialize` runs: every attribute nil. */
    constructor Allocate()
      ensures forall f :: Get(f) == Blank(f)
    {
      cardNumber, country, currency, cvvNumber, expiresOn := None, None, None, None, None;
      firstName, lastName, locality, phone, postalCode := None, None, None, None, None;
      region, streetAddress, vaultId := None, None, None;
    }

    /** The writer `attr_accessor` gives each attribute other than the country: it stores the value as given, nil included. */
    method SetAttribute(f: Field, v: Option<Value>)
      requires f != Country
      modifies this
      ensures Get(f) == Plain(v)
      ensures forall g :: g != f ==> Get(g) == old(Get(g))
    {
      if f == VaultId { vaultId := v; }
      else if f == Currency { currency := v; }
      else if f == CardNumber { cardNumber := v; }
      else if f == CvvNumber { cvvNumber := v; }
      else if f == ExpiresOn { expiresOn := v; }
      else if f == FirstName { firstName := v; }
      else if f == LastName { lastName := v; }
      else if f == StreetAddress { streetAddress := v; }
      else if f == Locality { locality := v; }
      else if f == Region { region := v; }
      else if f == PostalCode { postalCode := v; }
      else { phone := v; }
    }

    /**
     * `country=(input)`: nil and false leave the country as it was; a String
     * (the empty one too) replaces it with that `CountryCode`; anything else
     * raises TypeError and changes nothing. No other attribute changes.
     */
    method SetCountry(input: Option<Value>) returns (err: Option<Error>)
      modifies this
      ensures err.None? <==> CountryAssign(old(country), input).Success?
      ensures err.None? ==> Get(Country) == Wrapped(CountryAssign(old(country), input).value)
      ensures err.Some? ==> Get(Country) == old(Get(Country))
      ensures !Truthy(input) ==> Get(Country) == old(Get(Country))
      ensures forall g :: g != Country ==> Get(g) == old(Get(g))
      ensures Attributes() == old(Attributes())[Country := Get(Country)]
    {
      err := None;
      if Truthy(input) {
        match input.value
        case Text(s) => country := Some(Countries.CountryCode(s));
        case _ => err := Some(TypeError);
      }
    }

    /**
     * `initialize(attributes)` on a freshly allocated record: every key that
     * names a setter has that setter called with its value; other keys are
     * skipped. Reports the error the country setter raises, if it does.
     */
    method Initialize(h: Hash) returns (err: Option<Error>)
      requires forall f :: Get(f) == Blank(f)
      modifies this
      ensures err.None? <==> Construct(h).Success?
      ensures err.None? ==> Construct(h).value == Attributes()
    {
      err := None;
      var m := Indifferent(h);
      var pending := m.Keys;
      while pending != {}
        invariant err == None && pending <= m.Keys
        invariant FieldName(Country) in m && FieldName(Country) !in pending ==> !Raises(m)
        invariant forall f :: Get(f) == Partial(m, pending, f)
        decreases pending
      {
        var k :| k in pending;
        var f := SetterField(k);
        PartialStep(m, pending, k);
        if f == Some(Country) {
          assert Get(Country) == Blank(Country);
          err := SetCountry(m[k]);
          if err.Some? {
            assert Raises(m);
            return;
          }
        } else if f.Some? {
          SetAttribute(f.value, m[k]);
        }
        pending := pending - {k};
      }
      assert Attributes() == map f | f in AllFields :: Initial(m, f);
    }

    /** `CreditCard.new(h)`: allocate a record and initialize it from `h`, or report what `new` raises. */
    static method New(h: Hash) returns (r: Result<CreditCard, Error>)
      ensures r.Failure? <==> Construct(h).Failure?
      ensures r.Success? ==> fresh(r.value) && Construct(h) == Success(r.value.Attributes())
    {
      var c := new CreditCard.Allocate();
      var err := c.Initialize(h);
      if err.Some? {
        r := Failure(err.value);
      } else {
        r := Success(c);
      }
    }

    /** `name_on_card`. */
    function NameOnCard(): (r: string)
      reads this
      ensures firstName.None? && lastName.None? ==> r == ""
      ensures firstName.Some? && lastName.None? ==> r == ToS(firstName.value)
      ensures firstName.None? && lastName.Some? ==> r == ToS(lastName.value)
      ensures firstName.Some? && lastName.Some? ==> r == ToS(firstName.value) + " " + ToS(lastName.value)
    {
      JoinedName(firstName, lastName)
    }

    /** `to_vaulted_billing`: the record itself, so equal to it. */
    method ToVaultedBilling() returns (r: CreditCard)
      ensures r == this && r.Equals(this)
    {
      r := this;
    }
  }

  /** `==` is an equivalence relation on records. */
  lemma EqualsIsEquivalence(a: CreditCard, b: CreditCard, c: CreditCard)
    ensures a.Equals(a)
    ensures a.Equals(b) ==> b.Equals(a)
    ensures a.Equals(b) && b.Equals(c) ==> a.Equals(c)
  {
  }

  /**
   * Building records from two hashes that differ only in String versus Symbol
   * keys: both raise, or both succeed with records that are `==`.
   */
  method NewIsKeyIndifferent(h1: Hash, h2: Hash) returns (r1: Result<CreditCard, Error>, r2: Result<CreditCard, Error>)
    requires SameNamedPairs(h1, h2)
    ensures r1.Failure? <==> r2.Failure?
    ensures r1.Success? ==> r2.Success? && r1.value.Equals(r2.value)
  {
    r1 := CreditCard.New(h1);
    r2 := CreditCard.New(h2);
    KeyIndifference(h1, h2);
  }
}
