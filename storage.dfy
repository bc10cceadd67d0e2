/** The browser's `localStorage`, shared by the auth context and the seat
    selection page, and the keys the client keeps in it. */
module Storage {
  import opened Results

  /** Where the auth context keeps the session token. */
  const JwtTokenKey := "jwt_token"
  /** Where the auth context keeps the serialised user. */
  const UserKey := "user"
  /** The user id, written at login and read when a booking is made. */
  const UserIdKey := "userId"

  /** A string-to-string store that its methods update in place. */
  class LocalStorage {
    var items: map<string, string>

    constructor (initial: map<string, string>)
      ensures items == initial
    {
      items := initial;
    }

    /** `getItem(key)`: the stored value, or null when the key is absent. */
    method GetItem(key: string) returns (value: Option<string>)
      ensures value.Some? <==> key in items
      ensures value.Some? ==> value.value == items[key]
    {
      if key in items {
        value := Some(items[key]);
      } else {
        value := None;
      }
    }

    /** `setItem(key, value)`. */
    method SetItem(key: string, value: string)
      modifies this
      ensures items == old(items)[key := value]
    {
      items := items[key := value];
    }

    /** `removeItem(key)`; removing an absent key changes nothing. */
    method RemoveItem(key: string)
      modifies this
      ensures items == old(items) - {key}
    {
      items := items - {key};
    }
  }
}
