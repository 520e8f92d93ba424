/** The navigation arguments passed from the workout list to the detail
    screen: an Android `Bundle` holding strings (possibly null) and ints. */
module Bundles {
  import opened Wrappers

  datatype BundleValue = StringArg(s: Option<string>) | IntArg(i: int)

  type Bundle = map<string, BundleValue>

  /** `getString(key)`: null when the key is missing or holds an int. */
  function GetString(b: Bundle, key: string): (r: Option<string>)
    ensures key in b && b[key].StringArg? ==> r == b[key].s
    ensures key !in b || b[key].IntArg? ==> r == None
  {
    if key in b && b[key].StringArg? then b[key].s else None
  }

  /** `getInt(key, default)`: the default when the key is missing or holds a string. */
  function GetInt(b: Bundle, key: string, default: int): (r: int)
    ensures key in b && b[key].IntArg? ==> r == b[key].i
    ensures key !in b || b[key].StringArg? ==> r == default
  {
    if key in b && b[key].IntArg? then b[key].i else default
  }
}
