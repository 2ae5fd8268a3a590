/** The `OnboardingData` record the flow controller owns: one flat object
    holding the `userType` tag next to one property per question id. */
module Data {

  import opened Wrappers

  /** The two personas `SelectionScreen` can emit. */
  datatype Persona = Creator | Entrepreneur

  /** The token a persona is stored as in `userType`. */
  function PersonaName(p: Persona): string {
    match p
    case Creator => "creator"
    case Entrepreneur => "entrepreneur"
  }

  /** A property value: `null` (and `undefined`), a string, or a string array. */
  datatype Value = Null | Str(s: string) | List(items: seq<string>)

  /** A JavaScript object used as a record of properties. */
  type Record = map<string, Value>

  const UserTypeKey: string := "userType"

  /** The value the `userType` property holds for a (possibly null) persona. */
  function UserTypeValue(u: Option<Persona>): Value {
    match u
    case None => Null
    case Some(p) => Str(PersonaName(p))
  }

  /** `r[key]`, where a missing property reads as `undefined`, here `Null`. */
  function Lookup(r: Record, key: string): Value {
    if key in r then r[key] else Null
  }

  /** JavaScript truthiness: `null` and `''` are falsy, every array is truthy. */
  predicate Truthy(v: Value) {
    match v
    case Null => false
    case Str(s) => s != ""
    case List(_) => true
  }

  /** `v || ''`. */
  function OrEmpty(v: Value): (r: Value)
    ensures r != Null
    ensures Truthy(v) ==> r == v
    ensures !Truthy(v) ==> r == Str("")
  {
    if Truthy(v) then v else Str("")
  }

  /** `{ ...base, ...over }`: every property of `over` wins over `base`. */
  function Spread(base: Record, over: Record): (r: Record)
    ensures r.Keys == base.Keys + over.Keys
    ensures forall k :: k in over ==> r[k] == over[k]
    ensures forall k :: k in base && k !in over ==> r[k] == base[k]
  {
    base + over
  }

  /** `after` differs from `before` at most at `key`, which it holds. */
  predicate OnlyKeyChanged(before: Record, after: Record, key: string) {
    && key in after
    && after.Keys == before.Keys + {key}
    && forall k :: k in before && k != key ==> after[k] == before[k]
  }

  /** Writing one key changes only that key. */
  lemma UpdateChangesOnlyKey(m: Record, key: string, v: Value)
    ensures OnlyKeyChanged(m, m[key := v], key) && m[key := v][key] == v
  {
  }
}
