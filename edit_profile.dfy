/** The profile page: the profile it opens with, editing one field at a
    time and saving to the store. */
module EditProfile {
  import opened Common
  import opened Session
  import Navbar

  datatype Profile = Profile(name: string, email: string, phone: string, company: string)

  datatype Field = Name | Email | Phone | Company

  const EmptyProfile := Profile("", "", "", "")
  const DefaultCompany := "Super Wheels Car Maintenance"

  function Get(p: Profile, f: Field): string
  {
    match f
    case Name => p.name
    case Email => p.email
    case Phone => p.phone
    case Company => p.company
  }

  /** `setProfile(prev => ({...prev, [name]: value}))`. */
  function WithField(p: Profile, f: Field, value: string): (r: Profile)
    ensures Get(r, f) == value
    ensures forall g :: g != f ==> Get(r, g) == Get(p, g)
  {
    match f
    case Name => p.(name := value)
    case Email => p.(email := value)
    case Phone => p.(phone := value)
    case Company => p.(company := value)
  }

  /** The profile made up when none is saved. */
  function DefaultProfile(store: Store): (r: Profile)
    ensures r.email == StoredEmailOr(store, "")
    ensures r.phone == "" && r.company == DefaultCompany
    ensures r.name == (if LocalPart(r.email) != "" then LocalPart(r.email) else "User")
  {
    var userEmail := StoredEmailOr(store, "");
    Profile(OrElse(Some(LocalPart(userEmail)), "User"), userEmail, "", DefaultCompany)
  }

  /** The profile the page holds after its mount-time load, starting from
      `current`. A saved profile is taken as it is, without its `position`; a
      saved text that does not parse makes the load throw, so nothing
      changes. */
  function Loaded(store: Store, current: Profile): (r: Profile)
    ensures store.profile.Parsed? ==>
              var sp := store.profile.profile;
              r.name == sp.name && r.email == sp.email && r.phone == sp.phone && r.company == sp.company
    ensures store.profile.Absent? ==> r == DefaultProfile(store)
    ensures store.profile.Malformed? ==> r == current
  {
    match store.profile
    case Parsed(sp) => Profile(sp.name, sp.email, sp.phone, sp.company)
    case Absent => DefaultProfile(store)
    case Malformed => current
  }

  /** The store after a save: the profile is written; the stored email is
      overwritten only by a non-empty one. */
  function SaveTo(store: Store, p: Profile): (r: Store)
    ensures r.profile.Parsed? && r.profile.profile.position.None?
    ensures p.email != "" ==> GetItem(r, EmailKey) == Some(p.email)
    ensures p.email == "" ==> GetItem(r, EmailKey) == GetItem(store, EmailKey)
    ensures forall k :: k != EmailKey ==> GetItem(r, k) == GetItem(store, k)
  {
    var written := store.(profile := Parsed(StoredProfile(p.name, p.email, p.phone, p.company, None)));
    if p.email != "" then SetItem(written, EmailKey, p.email) else written
  }

  /** Loading after a save gives back the saved profile, whatever the page
      held before. */
  lemma LoadAfterSave(store: Store, p: Profile, current: Profile)
    ensures Loaded(SaveTo(store, p), current) == p
  {
  }

  /** A saved profile drops an older `position` on the next load: loading,
      saving and loading again yields the same profile. */
  lemma LoadSaveLoad(store: Store, current: Profile)
    requires store.profile.Parsed?
    ensures var p := Loaded(store, current);
            Loaded(SaveTo(store, p), current) == p
  {
    LoadAfterSave(store, Loaded(store, current), current);
  }

  /** With "tj@example.com" stored and no profile the page opens on "tj";
      with no email stored either it opens on "User" with an empty email. */
  lemma DefaultProfileExamples(store: Store)
    requires store.profile.Absent?
    ensures GetItem(store, EmailKey) == Some("tj@example.com") ==> Loaded(store, EmptyProfile).name == "tj"
    ensures GetItem(store, EmailKey).None? ==> Loaded(store, EmptyProfile) == Profile("User", "", "", DefaultCompany)
  {
    LocalPartExample();
    assert LocalPart("") == "";
  }

  /** After a save the top bar greets the user by the saved name, when it is
      more than white space, and shows the saved email, when it is not
      empty. */
  lemma SavedProfileShownInNavbar(store: Store, p: Profile)
    ensures !IsBlank(p.name) ==> Navbar.ShownIdentity(SaveTo(store, p)).name == p.name
    ensures p.email != "" ==> Navbar.ShownIdentity(SaveTo(store, p)).email == p.email
  {
    Navbar.ProfileNameFallback(SaveTo(store, p));
  }

  class ProfileForm {
    var profile: Profile
    var saved: bool
    var loading: bool

    constructor()
      ensures profile == EmptyProfile && !saved && !loading
    {
      profile := EmptyProfile;
      saved := false;
      loading := false;
    }

    /** The mount-time load. */
    method Load(store: Store)
      modifies this`profile
      ensures profile == Loaded(store, old(profile))
    {
      match store.profile {
        case Parsed(sp) =>
          profile := Profile(sp.name, sp.email, sp.phone, sp.company);
        case Absent =>
          var userEmail := StoredEmailOr(store, "");
          var userName := OrElse(Some(LocalPart(userEmail)), "User");
          profile := Profile(userName, userEmail, "", DefaultCompany);
        case Malformed =>
      }
    }

    method HandleInputChange(f: Field, value: string)
      modifies this`profile, this`saved
      ensures profile == WithField(old(profile), f, value)
      ensures !saved
    {
      profile := WithField(profile, f, value);
      saved := false;
    }

    /** `handleSubmit`: the store after the save is returned; the page shows
        the saved notice. */
    method HandleSubmit(store: Store) returns (next: Store)
      modifies this`saved, this`loading
      ensures next == SaveTo(store, profile)
      ensures saved && !loading
    {
      loading := true;
      next := store.(profile := Parsed(StoredProfile(profile.name, profile.email, profile.phone, profile.company, None)));
      if profile.email != "" {
        next := SetItem(next, EmailKey, profile.email);
      }
      saved := true;
      loading := false;
    }
  }
}
