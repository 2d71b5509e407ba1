/** The top bar: the greeting name and email taken from the saved profile or
    the stored email, the avatar letter, the account menu toggle and
    signing out. */
module Navbar {
  import opened Common
  import opened Session

  datatype Identity = Identity(name: string, email: string)

  /** `updateUserData`: what the bar shows for the current store. A profile
      that does not parse is treated like a missing one. */
  function ShownIdentity(store: Store): Identity
  {
    match store.profile
    case Parsed(p) =>
      var name := if p.name != "" && Trim(p.name) != "" then p.name
                  else LocalPart(OrElse(Some(p.email), StoredEmailOr(store, "User")));
      var email := if p.email != "" then p.email else StoredEmailOr(store, "");
      Identity(name, email)
    case _ =>
      var email := StoredEmailOr(store, "User");
      Identity(LocalPart(email), email)
  }

  /** A saved profile whose name is more than white space is shown by that
      name; otherwise the name is the text before "@" of the first non-empty
      of the profile's email, the stored email and "User". */
  lemma ProfileNameFallback(store: Store)
    requires store.profile.Parsed?
    ensures var p := store.profile.profile;
            !IsBlank(p.name) ==> ShownIdentity(store).name == p.name
    ensures var p := store.profile.profile;
            IsBlank(p.name) ==>
              ShownIdentity(store).name == LocalPart(if p.email != "" then p.email else StoredEmailOr(store, "User"))
  {
    TrimEmptyIffBlank(store.profile.profile.name);
  }

  /** With a saved profile the email shown is the profile's, else the stored
      one, else "". */
  lemma ProfileEmailFallback(store: Store)
    requires store.profile.Parsed?
    ensures var p := store.profile.profile;
            ShownIdentity(store).email == (if p.email != "" then p.email
                                           else if GetItem(store, EmailKey).Some? then GetItem(store, EmailKey).value
                                           else "")
  {
  }

  /** Without a usable profile the email shown is the stored one, or the
      word "User" when none or an empty one is stored, and the name is its
      text before "@". */
  lemma NoProfileFallback(store: Store)
    requires !store.profile.Parsed?
    ensures GetItem(store, EmailKey).None? ==> ShownIdentity(store) == Identity("User", "User")
    ensures GetItem(store, EmailKey) == Some("") ==> ShownIdentity(store) == Identity("User", "User")
    ensures GetItem(store, EmailKey).Some? && GetItem(store, EmailKey).value != "" ==>
      ShownIdentity(store).email == GetItem(store, EmailKey).value
    ensures ShownIdentity(store).name == LocalPart(ShownIdentity(store).email)
    ensures '@' !in ShownIdentity(store).name
  {
    LocalPartExample();
  }

  /** `handleLogout`: exactly the sign-in flag and the email are removed;
      every other entry, the saved profile included, stays. */
  function Logout(store: Store): (r: Store)
    ensures GetItem(r, AuthKey).None? && GetItem(r, EmailKey).None?
    ensures forall k :: k != AuthKey && k != EmailKey ==> GetItem(r, k) == GetItem(store, k)
    ensures r.profile == store.profile
  {
    RemoveItem(RemoveItem(store, AuthKey), EmailKey)
  }

  /** After signing out, the flag the route guards read is gone, while the
      stored name and id survive. */
  lemma LogoutKeepsNameAndId(store: Store)
    ensures GetItem(Logout(store), AuthKey) != Some("true")
    ensures GetItem(Logout(store), NameKey) == GetItem(store, NameKey)
    ensures GetItem(Logout(store), IdKey) == GetItem(store, IdKey)
  {
  }

  class NavbarState {
    var userName: string
    var userEmail: string
    var isDropdownOpen: bool

    constructor()
      ensures userName == "User" && userEmail == "" && !isDropdownOpen
    {
      userName := "User";
      userEmail := "";
      isDropdownOpen := false;
    }

    /** The avatar shows the name's first character, upper-cased. */
    function AvatarLetter(): (r: string)
      reads this
      ensures userName != "" ==> r == [UpperChar(userName[0])]
      ensures userName == "" ==> r == ""
    {
      Initial(userName)
    }

    method UpdateUserData(store: Store)
      modifies this`userName, this`userEmail
      ensures Identity(userName, userEmail) == ShownIdentity(store)
    {
      var shown := ShownIdentity(store);
      userName := shown.name;
      userEmail := shown.email;
    }

    method ToggleDropdown()
      modifies this`isDropdownOpen
      ensures isDropdownOpen == !old(isDropdownOpen)
    {
      isDropdownOpen := !isDropdownOpen;
    }
  }
}
