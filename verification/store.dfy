/** The two loosely typed dictionaries the app passes around: the `UserDefaults`
    key/value store, and JSON objects decoded by `JSONSerialization`. */
module Store {
  import opened Wrappers
  import Decimal

  /** A value kept in `UserDefaults`. */
  datatype Value = BoolValue(b: bool) | IntValue(i: int) | StringValue(s: string)

  /** `UserDefaults.standard`, as the map of what has been stored under each key. */
  type Defaults = map<string, Value>

  const AccessTokenKey: string := "User_AccessToken"
  const RefreshTokenKey: string := "User_RefreshToken"
  const IsLoggedInKey: string := "isLoggedIn"
  const UserNameKey: string := "userName"
  const LoginMethodKey: string := "loginMethod"
  const EventWebUrlKey: string := "eventWebUrl"

  /** `string(forKey:)`: a stored string, or a stored number rendered in decimal;
      a stored `Bool` is an `NSNumber` too and reads as "1" or "0". */
  function StringFor(d: Defaults, key: string): (r: Option<string>)
    ensures r.Some? <==> key in d
    ensures key in d && d[key].StringValue? ==> r == Some(d[key].s)
    ensures key in d && d[key].IntValue? ==> r == Some(Decimal.IntToDecimal(d[key].i))
    ensures key in d && d[key].BoolValue? ==> r == Some(if d[key].b then "1" else "0")
  {
    if key !in d then None
    else match d[key]
      case StringValue(s) => Some(s)
      case IntValue(i) => Some(Decimal.IntToDecimal(i))
      case BoolValue(b) => Some(if b then "1" else "0")
  }

  /** `bool(forKey:)`: false for a missing key; a stored number is true when
      non-zero; a stored string reads as false (Foundation's reading of "YES", "true" and
      numerals is not modelled). */
  function BoolFor(d: Defaults, key: string): (r: bool)
    ensures r ==> key in d
    ensures key in d && d[key].BoolValue? ==> r == d[key].b
  {
    if key !in d then false
    else match d[key]
      case BoolValue(b) => b
      case IntValue(i) => i != 0
      case StringValue(_) => false
  }

  /** Both session tokens, when `UserDefaults` holds them as strings; every request
      to the XIVE API is guarded by this lookup. */
  function Tokens(d: Defaults): (r: Option<(string, string)>)
    ensures r.Some? <==> StringFor(d, AccessTokenKey).Some? && StringFor(d, RefreshTokenKey).Some?
    ensures r.Some? ==> r.value == (StringFor(d, AccessTokenKey).value, StringFor(d, RefreshTokenKey).value)
  {
    match (StringFor(d, AccessTokenKey), StringFor(d, RefreshTokenKey))
    case (Some(a), Some(r)) => Some((a, r))
    case _ => None
  }

  /** A JSON value as `JSONSerialization` decodes it. */
  datatype Json = JString(s: string) | JInt(i: int) | JBool(b: bool) | JNull | JComposite

  type JsonObject = map<string, Json>

  /** `json[key] as? String`. */
  function StringField(o: JsonObject, key: string): (r: Option<string>)
    ensures r.Some? <==> key in o && o[key].JString?
    ensures r.Some? ==> o[key] == JString(r.value)
  {
    if key in o && o[key].JString? then Some(o[key].s) else None
  }

  /** `json[key] as? Int`. */
  function IntField(o: JsonObject, key: string): (r: Option<int>)
    ensures r.Some? <==> key in o && o[key].JInt?
    ensures r.Some? ==> o[key] == JInt(r.value)
  {
    if key in o && o[key].JInt? then Some(o[key].i) else None
  }

  /** `json[key] as? Bool`. */
  function BoolField(o: JsonObject, key: string): (r: Option<bool>)
    ensures r.Some? <==> key in o && o[key].JBool?
    ensures r.Some? ==> o[key] == JBool(r.value)
  {
    if key in o && o[key].JBool? then Some(o[key].b) else None
  }
}
