# VaultedBilling credit card record, in Dafny

This project models `VaultedBilling::CreditCard`, the gateway-neutral record
that the vaulted_billing Ruby library hands to its payment-processor adapters,
and its nested `CreditCard::Country` string type.

- `wrappers.dfy` (`Wrappers`): `Option` for Ruby's nil and `Result` for an
  operation that may raise.
- `ruby_values.dfy` (`RubyValues`): the Ruby semantics the record leans on.
  It holds the values stored in fields (a String, a boolean, or any other
  object with its `to_s` text), truthiness (everything but nil and false),
  and `Array#compact` and `Array#join`.
- `countries.dfy` (`Countries`): `CreditCard::Country` (as `CountryCode`) with `to_iso_3166`
  and `to_ipcommerce_id`. The ISO 3166 dataset is a `Lookup` parameter
  (raw text to an optional numeric code and alpha-3 code). The Ipcommerce
  country table is a `seq<string>` parameter.
- `credit_card.dfy` (`CreditCards`): the record as a class with the thirteen
  mutable attributes, the writers, `country=`, `initialize`/`new`,
  `attributes`, `==`, `name_on_card` and `to_vaulted_billing`. Beside it are
  pure functions that say what `new` builds from a hash (`Indifferent`,
  `Construct`), and lemmas about them.

Three behaviours of the code worth noting:

- `country=` is guarded by Ruby truthiness. nil and `false` leave the
  country alone. The empty string is truthy, so it is stored as
  `CountryCode("")` rather than being skipped.
- `Country.new(input)` is `String.new`. It raises `TypeError` for a truthy
  argument that is not a String, such as `true`, an Integer or a Date. So
  `country=` and `new` can raise: `SetCountry`, `Initialize`, `New` and
  `Construct` report this as an `Error`.
- Key matching ignores only String versus Symbol. It is case-sensitive:
  `"First_Name"` names no setter and is dropped.

## Model

| member | source | states |
|---|---|---|
| `Countries.IndexOf` | lib/vaulted_billing/credit_card.rb:26 | `Array#index`: None exactly when the code is absent; otherwise an in-range position holding the code, with no earlier occurrence |
| `Countries.ToIso3166` | lib/vaulted_billing/credit_card.rb:21-23 | the numeric code is present exactly when the lookup resolves the country, and is then the dataset's numeric code |
| `Countries.ToIpcommerceId` | lib/vaulted_billing/credit_card.rb:25-27 | result is 0 or an index of the table; 0 when the country does not resolve or its alpha-3 code is missing; otherwise the first position of that code |
| `Countries.LookupsAgree` | lib/vaulted_billing/credit_card.rb:20-27 | an unresolved country has no numeric code and processor id 0 for every table; a non-zero id implies a resolved country whose code sits at that index |
| `Countries.IpcommerceIdZero` | lib/vaulted_billing/credit_card.rb:26 | id 0 exactly when the country is unresolved, its code is missing, or its code is the table's first entry (the 0 is ambiguous) |
| `RubyValues.Compact` | lib/vaulted_billing/credit_card.rb:90 | `compact` keeps exactly the non-nil elements (never more elements than given) |
| `RubyValues.CompactAppend` | lib/vaulted_billing/credit_card.rb:90 | `compact` preserves order: compacting a concatenation concatenates the compacted parts |
| `RubyValues.Truthy` | lib/vaulted_billing/credit_card.rb:86 | the `if input` guard: nil and false are falsy; every String (the empty one included), `true` and every other object is truthy |
| `RubyValues.Join` | lib/vaulted_billing/credit_card.rb:90 | `join`: no parts give "", one part gives itself, two parts give first, separator, second; any join starts with its first part and ends with its last |
| `CreditCards.JoinedName` | lib/vaulted_billing/credit_card.rb:90 | `[first, last].compact.join(" ")` is "" with neither name, the one name set, or first, one space, last; only nil is dropped, so "" and false still count |
| `CreditCards.CreditCard.NameOnCard` | lib/vaulted_billing/credit_card.rb:89-91 | `name_on_card` states the same four cases over the record's current first and last names |
| `CreditCards.CreditCard.Get` | lib/vaulted_billing/credit_card.rb:36-48 | the reader of one attribute; the country alone is held as a `CountryCode`, every other attribute as the value given |
| `CreditCards.CreditCard.Equals` | lib/vaulted_billing/credit_card.rb:63-65 | `==` compares the two snapshots, and holds exactly when all thirteen attributes are pairwise equal |
| `CreditCards.SetterField` | lib/vaulted_billing/credit_card.rb:59 | `respond_to?("#{name}=")`: a found attribute is the one with that name; None only when no attribute has that name |
| `CreditCards.SetterFieldRoundTrip` | lib/vaulted_billing/credit_card.rb:36-48 | each of the thirteen attributes has its own setter name, which selects it back |
| `CreditCards.CountryAssign` | lib/vaulted_billing/credit_card.rb:85-87 | nil/false keep the current country; raises exactly for a truthy non-String; a successful truthy assignment holds `CountryCode(input)` and is never nil |
| `CreditCards.CountryAssignIdempotent` | lib/vaulted_billing/credit_card.rb:85-87 | assigning the same country input twice ends where assigning it once does |
| `CreditCards.Indifferent` | lib/vaulted_billing/credit_card.rb:57 | the normalised hash has exactly the hash's key names, and each name maps to the value of its last pair |
| `CreditCards.Construct` | lib/vaulted_billing/credit_card.rb:56-61 | `new` raises exactly when the country value is refused by `String.new`; otherwise the snapshot covers all thirteen attributes |
| `CreditCards.ConstructAssignsNamedFields` | lib/vaulted_billing/credit_card.rb:56-61 | every attribute named by the hash holds its value; the country holds it as a `CountryCode`, or nil when the value is false |
| `CreditCards.ConstructLeavesUnnamedFieldsNil` | lib/vaulted_billing/credit_card.rb:56-61 | every attribute the hash does not name stays nil |
| `CreditCards.UnknownKeyIgnored` | lib/vaulted_billing/credit_card.rb:59 | adding a pair whose key names no setter does not change what `new` builds or whether it raises |
| `CreditCards.KeyIndifference` | lib/vaulted_billing/credit_card.rb:57-59 | hashes with the same names and values pair by pair, String or Symbol keys alike, build the same record |
| `CreditCards.SameContentSameRecord` | lib/vaulted_billing/credit_card.rb:57-59 | hashes without colliding names that hold the same (name, value) pairs, in any order and with either key kind, build the same record |
| `CreditCards.CreditCard.Attributes` | lib/vaulted_billing/credit_card.rb:67-83 | the snapshot has exactly the thirteen attributes as keys, each holding that attribute's current value |
| `CreditCards.CreditCard.Allocate` | lib/vaulted_billing/credit_card.rb:36-48 | a freshly allocated record has every attribute nil |
| `CreditCards.CreditCard.SetAttribute` | lib/vaulted_billing/credit_card.rb:36-48 | an `attr_accessor` writer stores the value as given (nil too) and leaves every other attribute unchanged |
| `CreditCards.CreditCard.SetCountry` | lib/vaulted_billing/credit_card.rb:85-87 | `country=` leaves the record unchanged for nil/false or when it raises, otherwise sets the country as `CountryAssign` says; no other snapshot entry changes |
| `CreditCards.CreditCard.Initialize` | lib/vaulted_billing/credit_card.rb:56-61 | the loop over the normalised hash raises exactly when `Construct` fails, and otherwise leaves the snapshot `Construct` describes |
| `CreditCards.CreditCard.New` | lib/vaulted_billing/credit_card.rb:56-61 | `new` yields a fresh record whose snapshot is `Construct(h)`, or the error `Construct` reports |
| `CreditCards.CreditCard.ToVaultedBilling` | lib/vaulted_billing/credit_card.rb:93 | returns the receiver itself, which is therefore `==` to it |
| `CreditCards.EqualsIsEquivalence` | lib/vaulted_billing/credit_card.rb:63-65 | `==` is reflexive, symmetric and transitive |
| `CreditCards.NewIsKeyIndifferent` | lib/vaulted_billing/credit_card.rb:56-65 | records built from hashes that differ only in String versus Symbol keys both raise, or are `==` |

`attributes` is a function of the record's state, so two calls with no
mutation between them give equal snapshots.

## Left out

- The ISO 3166 dataset (the `iso3166` gem) is a `Lookup` parameter. It yields the numeric code already as the integer `to_i` gives. The gem's parsing of the raw text is not part of this model.
- `VaultedBilling::Gateways::Ipcommerce::Countries` is not part of this model. It is the `table` parameter of `ToIpcommerceId`.
- `HashWithIndifferentAccess` is not part of this model. `Indifferent` assumes that, when a String key and a Symbol key share a name, the later pair wins.
- `Initialize` handles the keys in an unspecified order, not the hash's insertion order. `Construct` shows that the resulting record does not depend on that order.
- The setters are the fixed list of thirteen names, not Ruby's `respond_to?`/`send` reflection. The keys `"="`, `"!"` and `"=="` build the method names `==`, `!=` and `===`, which the record answers to; each ends in `CreditCard#==`, which calls `attributes` on the value, so `new` raises `NoMethodError` for such a key unless its value is a record. `Construct` and `UnknownKeyIgnored` treat these keys as naming no setter, that is, as ignored.
- Keys other than String and Symbol are not modelled. Ruby interpolates a key with `to_s`, so any key object whose `to_s` is an attribute name would select that setter.
- Field values are immutable `Value`s, so Ruby's aliasing is not modelled: a writer stores the caller's object by reference, and mutating that String afterwards changes the record; only `country=` copies its input, through `String.new`.
- Field values are opaque; there is no card-number, Luhn or date validation, since the code does none. Ruby `==` on values is structural equality of `Value`.
- An object that is not a String but answers `to_str` would be accepted by `String.new`. The model treats every non-String `Other` as refused.
- `Array#join` flattening nested arrays is not modelled. `to_s` of an object other than a String or boolean is the text the value carries.
- `==` with an argument that is not a `CreditCard` is not modelled. Ruby would call `attributes` on it and raise `NoMethodError` if it has none. `Equals` takes a `CreditCard`.
- The `attr_reader`/`attr_accessor` readers are the fields themselves, read through `Get` and `Attributes`.
- `spec/spec_helper.rb` only sets up the test load path and holds no logic.
