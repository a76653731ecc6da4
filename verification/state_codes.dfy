/** The detail view's state abbreviation, `stateAbbreviations[name] || name`,
    over the fixed table of the fifty US states. */
module StateCodes {
  import opened Text

  /** `name` is one of the fifty own keys of `stateAbbreviations`. */
  predicate IsStateName(name: string) {
    || name == "Alabama"
    || name == "Alaska"
    || name == "Arizona"
    || name == "Arkansas"
    || name == "California"
    || name == "Colorado"
    || name == "Connecticut"
    || name == "Delaware"
    || name == "Florida"
    || name == "Georgia"
    || name == "Hawaii"
    || name == "Idaho"
    || name == "Illinois"
    || name == "Indiana"
    || name == "Iowa"
    || name == "Kansas"
    || name == "Kentucky"
    || name == "Louisiana"
    || name == "Maine"
    || name == "Maryland"
    || name == "Massachusetts"
    || name == "Michigan"
    || name == "Minnesota"
    || name == "Mississippi"
    || name == "Missouri"
    || name == "Montana"
    || name == "Nebraska"
    || name == "Nevada"
    || name == "New Hampshire"
    || name == "New Jersey"
    || name == "New Mexico"
    || name == "New York"
    || name == "North Carolina"
    || name == "North Dakota"
    || name == "Ohio"
    || name == "Oklahoma"
    || name == "Oregon"
    || name == "Pennsylvania"
    || name == "Rhode Island"
    || name == "South Carolina"
    || name == "South Dakota"
    || name == "Tennessee"
    || name == "Texas"
    || name == "Utah"
    || name == "Vermont"
    || name == "Virginia"
    || name == "Washington"
    || name == "West Virginia"
    || name == "Wisconsin"
    || name == "Wyoming"
  }

  /** A two-letter postal code: two ASCII capitals. */
  predicate IsPostalCode(code: string) {
    |code| == 2 && IsUpper(code[0]) && IsUpper(code[1])
  }

  /** The state text shown in the detail view: the table's code for a listed
      state, any other name unchanged. Only the table's own entries are
      consulted. */
  function StateCode(name: string): (shown: string)
    ensures IsStateName(name) ==> IsPostalCode(shown)
    ensures !IsStateName(name) ==> shown == name
  {
    if name == "Alabama" then "AL" else
    if name == "Alaska" then "AK" else
    if name == "Arizona" then "AZ" else
    if name == "Arkansas" then "AR" else
    if name == "California" then "CA" else
    if name == "Colorado" then "CO" else
    if name == "Connecticut" then "CT" else
    if name == "Delaware" then "DE" else
    if name == "Florida" then "FL" else
    if name == "Georgia" then "GA" else
    if name == "Hawaii" then "HI" else
    if name == "Idaho" then "ID" else
    if name == "Illinois" then "IL" else
    if name == "Indiana" then "IN" else
    if name == "Iowa" then "IA" else
    if name == "Kansas" then "KS" else
    if name == "Kentucky" then "KY" else
    if name == "Louisiana" then "LA" else
    if name == "Maine" then "ME" else
    if name == "Maryland" then "MD" else
    if name == "Massachusetts" then "MA" else
    if name == "Michigan" then "MI" else
    if name == "Minnesota" then "MN" else
    if name == "Mississippi" then "MS" else
    if name == "Missouri" then "MO" else
    if name == "Montana" then "MT" else
    if name == "Nebraska" then "NE" else
    if name == "Nevada" then "NV" else
    if name == "New Hampshire" then "NH" else
    if name == "New Jersey" then "NJ" else
    if name == "New Mexico" then "NM" else
    if name == "New York" then "NY" else
    if name == "North Carolina" then "NC" else
    if name == "North Dakota" then "ND" else
    if name == "Ohio" then "OH" else
    if name == "Oklahoma" then "OK" else
    if name == "Oregon" then "OR" else
    if name == "Pennsylvania" then "PA" else
    if name == "Rhode Island" then "RI" else
    if name == "South Carolina" then "SC" else
    if name == "South Dakota" then "SD" else
    if name == "Tennessee" then "TN" else
    if name == "Texas" then "TX" else
    if name == "Utah" then "UT" else
    if name == "Vermont" then "VT" else
    if name == "Virginia" then "VA" else
    if name == "Washington" then "WA" else
    if name == "West Virginia" then "WV" else
    if name == "Wisconsin" then "WI" else
    if name == "Wyoming" then "WY" else
    name
  }

  /** The lookup changes a name exactly when the name is listed: no state
      name is its own abbreviation. */
  lemma ListedIffAbbreviated(name: string)
    ensures IsStateName(name) <==> StateCode(name) != name
  {
  }

  /** Abbreviating an abbreviation changes nothing: a postal code has two
      letters and every state name at least four, so a code is never a key
      and falls through unchanged. */
  lemma StateCodeIdempotent(name: string)
    ensures StateCode(StateCode(name)) == StateCode(name)
  {
    if IsStateName(name) {
      ShortNamesAreNotStates(StateCode(name));
    }
  }

  /** Every state name has at least four letters ("Iowa", "Ohio", "Utah"). */
  lemma ShortNamesAreNotStates(name: string)
    requires |name| < 4
    ensures !IsStateName(name)
  {
  }

  // ---------------------------------------------------------------------
  // The lookup as the script writes it. `stateAbbreviations` is a plain
  // object literal, so `stateAbbreviations[name]` also finds the
  // properties every object inherits from `Object.prototype`. Those are
  // functions (or, for `__proto__`, an object), all truthy, so `|| name`
  // does not fall back and the detail view shows the inherited value
  // instead of the name.
  // ---------------------------------------------------------------------

  /** The property names every object literal inherits. */
  const PrototypeMembers: set<string> := {
    "constructor", "hasOwnProperty", "isPrototypeOf", "propertyIsEnumerable",
    "toLocaleString", "toString", "valueOf", "__proto__",
    "__defineGetter__", "__defineSetter__", "__lookupGetter__", "__lookupSetter__"
  }

  /** No inherited property name is also a state name. */
  lemma PrototypeMembersAreNotStates(name: string)
    ensures name in PrototypeMembers ==> !IsStateName(name)
  {
  }

  /** The JavaScript values the lookup can produce. */
  datatype JsValue =
    | Str(s: string)            // a string
    | Inherited(member: string) // the inherited `Object.prototype` member of that name
    | Undefined

  /** JavaScript truthiness, as `||` tests it. */
  predicate Truthy(v: JsValue) {
    match v
    case Str(s) => s != ""
    case Inherited(_) => true
    case Undefined => false
  }

  /** `stateAbbreviations[name]`: the own entry first, then the prototype
      chain, else `undefined`. */
  function PropertyGet(name: string): (v: JsValue)
    ensures v.Str? <==> IsStateName(name)
    ensures v.Inherited? <==> !IsStateName(name) && name in PrototypeMembers
    ensures v.Str? ==> IsPostalCode(v.s)
  {
    if IsStateName(name) then Str(StateCode(name))
    else if name in PrototypeMembers then Inherited(name)
    else Undefined
  }

  /** `stateAbbreviations[name] || name`, as written: a string comes out
      exactly when the name is not an inherited property name. */
  function StateCodeAsWritten(name: string): (shown: JsValue)
    ensures shown.Str? <==> name !in PrototypeMembers
  {
    var v := PropertyGet(name);
    PrototypeMembersAreNotStates(name);
    if Truthy(v) then v else Str(name)
  }

  /** Away from the inherited names the script's lookup is exactly the
      table-with-fallback lookup `StateCode`. */
  lemma AsWrittenAgreesOffPrototype(name: string)
    requires name !in PrototypeMembers
    ensures StateCodeAsWritten(name) == Str(StateCode(name))
  {
  }

  /** The discrepancy: "constructor" is not a state, so it should come back
      unchanged, but the script shows the inherited `Object` constructor. */
  lemma ConstructorIsNotPassedThrough()
    ensures !IsStateName("constructor")
    ensures StateCode("constructor") == "constructor"
    ensures StateCodeAsWritten("constructor") == Inherited("constructor")
  {
    PrototypeMembersAreNotStates("constructor");
  }
}
