/**
 * The browser facilities the core touches: `window.localStorage` as a
 * string-to-string store, and JavaScript's truthiness of an optional string.
 */
module Browser {
  import opened Wrappers

  /** The two localStorage keys that hold the session. */
  const TokenKey: string := "token"
  const RefreshTokenKey: string := "refreshToken"

  /** `if (v)` on a `string | null`: null and "" are falsy. */
  predicate Present(v: Option<string>) {
    v.Some? && v.value != ""
  }

  /** `v || fallback` on a `string | undefined`. */
  function OrElse(v: Option<string>, fallback: string): (r: string)
    ensures Present(v) ==> r == v.value
    ensures !Present(v) ==> r == fallback
  {
    if Present(v) then v.value else fallback
  }

  /** `window.localStorage`: a map from keys to string values. */
  class Storage {
    var items: map<string, string>

    constructor (initial: map<string, string>)
      ensures items == initial
    {
      items := initial;
    }

    /** `getItem(key)`: the stored value, or null. */
    function GetItem(key: string): (v: Option<string>)
      reads this
      ensures v.Some? <==> key in items
      ensures v.Some? ==> v.value == items[key]
    {
      if key in items then Some(items[key]) else None
    }

    /** `setItem(key, value)`: overwrites one key, leaves the others. */
    method SetItem(key: string, value: string)
      modifies this
      ensures items == old(items)[key := value]
    {
      items := items[key := value];
    }

    /** `removeItem(key)`: deletes one key (if there), leaves the others. */
    method RemoveItem(key: string)
      modifies this
      ensures items == old(items) - {key}
    {
      items := items - {key};
    }
  }
}
