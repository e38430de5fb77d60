/** Small shared vocabulary: optional values, string truthiness, identifiers. */
module Common {

  /** A document identifier (a MongoDB ObjectId); the store hands them out fresh. */
  type Id = nat

  /** A missing JSON field or a `null` from a lookup (`None`), or a value that is there. */
  datatype Option<+T> = None | Some(value: T)

  /** A schema default or an `x ?? fallback`: the field's own value wins when it is there. */
  function ValueOr<T>(o: Option<T>, fallback: T): T {
    if o.Some? then o.value else fallback
  }

  /** A field of a JSON update body: left out, explicitly `null`, or given. An update writes
      `null` but skips a field that is left out. */
  datatype Field<+T> = Missing | Null | Given(value: T)

  /** The stored value after an update of one field. */
  function Patched<T>(f: Field<T>, stored: Option<T>): (r: Option<T>)
    ensures f.Missing? ==> r == stored
    ensures f.Null? ==> r == None
    ensures f.Given? ==> r == Some(f.value)
  {
    match f
    case Missing => stored
    case Null => None
    case Given(v) => Some(v)
  }

  /** A value or an error message (a thrown `Error`). */
  datatype Result<+T> = Ok(value: T) | Err(error: string)

  /** JavaScript truthiness of an optional string: present and not the empty string. */
  predicate Truthy(s: Option<string>) {
    s.Some? && s.value != ""
  }
}
