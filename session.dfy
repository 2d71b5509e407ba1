/** The browser's `localStorage` as the pages use it: a map from keys to
    strings, plus the `userProfile` entry, which is kept already decoded
    (or marked as text that does not parse as a profile). */
module Session {
  import opened Common

  const AuthKey := "isAuthenticated"
  const EmailKey := "userEmail"
  const NameKey := "userName"
  const IdKey := "userId"

  /** A profile as saved by the profile page; fields missing from the saved
      object read as "". Older saves may carry a `position`. */
  datatype StoredProfile = StoredProfile(name: string, email: string, phone: string, company: string,
                                         position: Option<string>)

  /** The `userProfile` entry: not stored (or stored as empty text, which
      reads as false), stored but not a parseable object, or the decoded
      object. */
  datatype ProfileSlot = Absent | Malformed | Parsed(profile: StoredProfile)

  datatype Store = Store(items: map<string, string>, profile: ProfileSlot)

  /** `localStorage.getItem(key)`. */
  function GetItem(s: Store, key: string): (r: Option<string>)
    ensures r.Some? <==> key in s.items
    ensures r.Some? ==> r.value == s.items[key]
  {
    if key in s.items then Some(s.items[key]) else None
  }

  /** `localStorage.setItem(key, value)`: that key now holds `value`, every
      other entry is as before. */
  function SetItem(s: Store, key: string, value: string): (r: Store)
    ensures GetItem(r, key) == Some(value)
    ensures forall k :: k != key ==> GetItem(r, k) == GetItem(s, k)
    ensures r.profile == s.profile
  {
    s.(items := s.items[key := value])
  }

  /** `localStorage.removeItem(key)`: that key is gone, every other entry is
      as before. */
  function RemoveItem(s: Store, key: string): (r: Store)
    ensures GetItem(r, key) == None
    ensures forall k :: k != key ==> GetItem(r, k) == GetItem(s, k)
    ensures r.profile == s.profile
  {
    s.(items := s.items - {key})
  }

  /** `localStorage.getItem("userEmail") || fallback`. */
  function StoredEmailOr(s: Store, fallback: string): string
  {
    OrElse(GetItem(s, EmailKey), fallback)
  }

  /** The four entries written when a user signs in or registers. */
  function SignIn(s: Store, email: string, name: string, id: string): (r: Store)
    ensures GetItem(r, AuthKey) == Some("true")
    ensures GetItem(r, EmailKey) == Some(email)
    ensures GetItem(r, NameKey) == Some(name)
    ensures GetItem(r, IdKey) == Some(id)
    ensures forall k :: k !in {AuthKey, EmailKey, NameKey, IdKey} ==> GetItem(r, k) == GetItem(s, k)
    ensures r.profile == s.profile
  {
    SetItem(SetItem(SetItem(SetItem(s, AuthKey, "true"), EmailKey, email), NameKey, name), IdKey, id)
  }
}
