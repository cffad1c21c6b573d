/** Values that cross the scripting-host boundary, already decoded. */
module HostArgs {

  datatype Option<T> = None | Some(value: T)

  /** A host object as the item's conversions see it: its truth value
      (what the boolean conversion yields) and its list of doubles (what
      the double-list conversion yields). The conversions themselves are
      host code and are not modelled. */
  datatype HostValue = HostValue(asBool: bool, asDoubles: seq<real>)

  /** A host keyword dictionary. */
  type Dict = map<string, HostValue>

  /** The host boolean made from a flag. Read as a list of doubles it is
      taken to be empty. */
  function ToHostBool(b: bool): (v: HostValue)
    ensures v.asBool == b
  {
    HostValue(b, [])
  }
}
