/** The account routes of backend/src/routes/user.ts: reading the caller's
    account, shallow-merging a profile or preferences patch into it, and
    replacing its names. */
module UserRoutes {
  import opened Wrappers
  import opened Validation
  import opened ErrorHandler
  import opened UserModel
  import Text

  const UserNotFoundMessage: string := "User not found"
  const NamesRequiredMessage: string := "First name and last name are required"

  function UserNotFound(): AppError {
    CreateError(UserNotFoundMessage, 404)
  }

  /** The keys a patch object carries; an absent key is `None`. */
  datatype ProfilePatch = ProfilePatch(
    phone: Option<string>,
    location: Option<string>,
    bio: Option<string>,
    website: Option<string>,
    linkedIn: Option<string>,
    github: Option<string>,
    skills: Option<seq<string>>,
    experience: Option<string>)

  datatype PreferencesPatch = PreferencesPatch(
    jobTitles: Option<seq<string>>,
    locations: Option<seq<string>>,
    salaryRange: Option<SalaryRange>,
    jobTypes: Option<seq<string>>,
    industries: Option<seq<string>>)

  const EmptyProfilePatch: ProfilePatch := ProfilePatch(None, None, None, None, None, None, None, None)
  const EmptyPreferencesPatch: PreferencesPatch := PreferencesPatch(None, None, None, None, None)

  /** One key of `{ ...stored, ...patch }` on a path that may be unset. */
  function Spread<T>(patch: Option<T>, stored: Option<T>): (r: Option<T>)
    ensures patch.Some? ==> r == patch
    ensures patch.None? ==> r == stored
  {
    if patch.Some? then patch else stored
  }

  /** One key of `{ ...stored, ...patch }` on a list path. */
  function SpreadList<T>(patch: Option<T>, stored: T): (r: T)
    ensures patch.Some? ==> r == patch.value
    ensures patch.None? ==> r == stored
  {
    patch.GetOr(stored)
  }

  /** `{ ...req.user.profile, ...profile }`: keys in the patch replace the
      stored ones, every other key is kept. */
  function MergeProfile(stored: Profile, patch: ProfilePatch): (r: Profile)
  {
    Profile(
      Spread(patch.phone, stored.phone),
      Spread(patch.location, stored.location),
      Spread(patch.bio, stored.bio),
      Spread(patch.website, stored.website),
      Spread(patch.linkedIn, stored.linkedIn),
      Spread(patch.github, stored.github),
      SpreadList(patch.skills, stored.skills),
      Spread(patch.experience, stored.experience))
  }

  /** `{ ...req.user.jobPreferences, ...jobPreferences }`: the merge is one
      level deep, so a supplied `salaryRange` replaces the stored range as a
      whole. */
  function MergePreferences(stored: JobPreferences, patch: PreferencesPatch): (r: JobPreferences)
  {
    JobPreferences(
      SpreadList(patch.jobTitles, stored.jobTitles),
      SpreadList(patch.locations, stored.locations),
      SpreadList(patch.salaryRange, stored.salaryRange),
      SpreadList(patch.jobTypes, stored.jobTypes),
      SpreadList(patch.industries, stored.industries))
  }

  /** Merging an empty patch leaves the block as it was. */
  lemma EmptyPatchesKeepBlocks(p: Profile, q: JobPreferences)
    ensures MergeProfile(p, EmptyProfilePatch) == p
    ensures MergePreferences(q, EmptyPreferencesPatch) == q
  {
  }

  /** Merging the same patch twice is merging it once. */
  lemma MergesIdempotent(p: Profile, a: ProfilePatch, q: JobPreferences, b: PreferencesPatch)
    ensures MergeProfile(MergeProfile(p, a), a) == MergeProfile(p, a)
    ensures MergePreferences(MergePreferences(q, b), b) == MergePreferences(q, b)
  {
  }

  /** The keys of a later patch win over those of an earlier one: two merges
      are one merge with the combined patch. */
  function CombineProfile(first: ProfilePatch, second: ProfilePatch): ProfilePatch {
    ProfilePatch(
      Spread(second.phone, first.phone),
      Spread(second.location, first.location),
      Spread(second.bio, first.bio),
      Spread(second.website, first.website),
      Spread(second.linkedIn, first.linkedIn),
      Spread(second.github, first.github),
      Spread(second.skills, first.skills),
      Spread(second.experience, first.experience))
  }

  lemma ProfileMergesCompose(p: Profile, first: ProfilePatch, second: ProfilePatch)
    ensures MergeProfile(MergeProfile(p, first), second) == MergeProfile(p, CombineProfile(first, second))
  {
  }

  /** A supplied profile key is stored as supplied, whatever was there
      before; an absent key keeps the stored value. */
  lemma ProfileMergeOverrides(p: Profile, patch: ProfilePatch)
    ensures var m := MergeProfile(p, patch);
      && m.phone == (if patch.phone.Some? then patch.phone else p.phone)
      && m.location == (if patch.location.Some? then patch.location else p.location)
      && m.bio == (if patch.bio.Some? then patch.bio else p.bio)
      && m.website == (if patch.website.Some? then patch.website else p.website)
      && m.linkedIn == (if patch.linkedIn.Some? then patch.linkedIn else p.linkedIn)
      && m.github == (if patch.github.Some? then patch.github else p.github)
      && m.skills == (if patch.skills.Some? then patch.skills.value else p.skills)
      && m.experience == (if patch.experience.Some? then patch.experience else p.experience)
  {
  }

  /** The same for the preferences block: each supplied key replaces the
      stored one as a whole, each absent key is kept. */
  lemma PreferencesMergeOverrides(q: JobPreferences, patch: PreferencesPatch)
    ensures var m := MergePreferences(q, patch);
      && m.jobTitles == (if patch.jobTitles.Some? then patch.jobTitles.value else q.jobTitles)
      && m.locations == (if patch.locations.Some? then patch.locations.value else q.locations)
      && m.salaryRange == (if patch.salaryRange.Some? then patch.salaryRange.value else q.salaryRange)
      && m.jobTypes == (if patch.jobTypes.Some? then patch.jobTypes.value else q.jobTypes)
      && m.industries == (if patch.industries.Some? then patch.industries.value else q.industries)
  {
  }

  /** A salary range supplied without a currency drops the stored currency:
      the update applies no default. */
  lemma SalaryRangeReplacedWholesale(q: JobPreferences, min: int)
    requires q.salaryRange.currency.Some?
    ensures MergePreferences(q, EmptyPreferencesPatch.(salaryRange := Some(SalaryRange(Some(min), None, None))))
              .salaryRange.currency.None?
  {
  }

  /** The body of PUT /profile: each block is merged only when present. */
  datatype ProfileBody = ProfileBody(profile: Option<ProfilePatch>, jobPreferences: Option<PreferencesPatch>)

  /** The account after a profile body. */
  function ApplyProfileBody(u: User, body: ProfileBody): (r: User)
    ensures r.id == u.id && r.email == u.email && r.firstName == u.firstName && r.lastName == u.lastName
    ensures r.avatar == u.avatar && r.provider == u.provider && r.googleId == u.googleId && r.githubId == u.githubId
    ensures body.profile.None? ==> r.profile == u.profile
    ensures body.jobPreferences.None? ==> r.jobPreferences == u.jobPreferences
    ensures body.profile.Some? ==> r.profile == MergeProfile(u.profile, body.profile.value)
    ensures body.jobPreferences.Some? ==> r.jobPreferences == MergePreferences(u.jobPreferences, body.jobPreferences.value)
  {
    u.(profile := if body.profile.Some? then MergeProfile(u.profile, body.profile.value) else u.profile,
       jobPreferences := if body.jobPreferences.Some? then MergePreferences(u.jobPreferences, body.jobPreferences.value)
                         else u.jobPreferences)
  }

  /** The account as the profile routes return it, with the `fullName`
      virtual. */
  datatype UserView = UserView(
    id: nat,
    email: string,
    firstName: string,
    lastName: string,
    fullName: string,
    avatar: Option<string>,
    provider: string,
    profile: Profile,
    jobPreferences: JobPreferences)

  function View(u: User): (v: UserView)
    ensures v.fullName == FullName(u)
    ensures v.id == u.id && v.email == u.email && v.firstName == u.firstName && v.lastName == u.lastName
    ensures v.provider == ProviderName(u.provider)
    ensures v.avatar == u.avatar && v.profile == u.profile && v.jobPreferences == u.jobPreferences
  {
    UserView(u.id, u.email, u.firstName, u.lastName, FullName(u), u.avatar, ProviderName(u.provider),
             u.profile, u.jobPreferences)
  }

  /** The reply of PUT /info. */
  datatype InfoView = InfoView(id: nat, firstName: string, lastName: string, fullName: string)

  /** GET /profile: the caller's account, or 404 when it is gone. */
  function GetProfile(store: AccountStore, caller: nat): (r: Settled<(int, UserView)>)
    reads store
    ensures r.Resolved? <==> caller < |store.users|
    ensures r.Resolved? ==> r.value == (200, View(store.users[caller]))
    ensures r.Rejected? ==> r.error == UserNotFound()
  {
    match store.FindById(caller)
    case None => Settled.Rejected(UserNotFound())
    case Some(u) => Resolved((200, View(u)))
  }

  /** PUT /profile: merges the supplied blocks into the caller's account;
      404 and nothing changed when the account is gone. */
  method UpdateProfile(store: AccountStore, caller: nat, body: ProfileBody) returns (r: Settled<(int, UserView)>)
    requires store.Valid()
    modifies store
    ensures store.Valid()
    ensures caller >= |old(store.users)| ==> r == Settled.Rejected(UserNotFound()) && store.users == old(store.users)
    ensures caller < |old(store.users)| ==>
              var u := ApplyProfileBody(old(store.users)[caller], body);
              store.users == old(store.users)[caller := u] && r == Resolved((200, View(u)))
  {
    if caller >= |store.users| {
      r := Settled.Rejected(UserNotFound());
      return;
    }
    var u := ApplyProfileBody(store.users[caller], body);
    store.users := store.users[caller := u];
    assert forall j :: 0 <= j < |store.users| && j != caller ==> store.users[j] == old(store.users)[j];
    r := Resolved((200, View(u)));
  }

  /** The guard of PUT /info: both names must be given and non-empty. */
  function InfoGuard(firstName: Option<string>, lastName: Option<string>): (r: Option<AppError>)
    ensures r.None? <==> Present(firstName) && Present(lastName)
    ensures r.Some? ==> forall development :: Classify(r.value, development).status == 400 &&
                                              Classify(r.value, development).error.message == NamesRequiredMessage
  {
    OperationalErrorPassesThrough(NamesRequiredMessage, 400, false);
    OperationalErrorPassesThrough(NamesRequiredMessage, 400, true);
    if !Present(firstName) || !Present(lastName) then Some(CreateError(NamesRequiredMessage, 400)) else None
  }

  /** PUT /info: the guard runs before the lookup; then only the two names
      of the caller's account change. */
  method UpdateInfo(store: AccountStore, caller: nat, firstName: Option<string>, lastName: Option<string>)
    returns (r: Settled<(int, InfoView)>)
    requires store.Valid()
    modifies store
    ensures store.Valid()
    ensures InfoGuard(firstName, lastName).Some? ==>
              r == Settled.Rejected(InfoGuard(firstName, lastName).value) && store.users == old(store.users)
    ensures InfoGuard(firstName, lastName).None? && caller >= |old(store.users)| ==>
              r == Settled.Rejected(UserNotFound()) && store.users == old(store.users)
    ensures InfoGuard(firstName, lastName).None? && caller < |old(store.users)| ==>
              var u := old(store.users)[caller].(firstName := firstName.value, lastName := lastName.value);
              && store.users == old(store.users)[caller := u]
              && r == Resolved((200, InfoView(caller, firstName.value, lastName.value, FullName(u))))
  {
    var guard := InfoGuard(firstName, lastName);
    if guard.Some? {
      r := Settled.Rejected(guard.value);
      return;
    }
    if caller >= |store.users| {
      r := Settled.Rejected(UserNotFound());
      return;
    }
    var u := store.users[caller].(firstName := firstName.value, lastName := lastName.value);
    store.users := store.users[caller := u];
    assert forall j :: 0 <= j < |store.users| && j != caller ==> store.users[j] == old(store.users)[j];
    r := Resolved((200, InfoView(caller, u.firstName, u.lastName, FullName(u))));
  }

  /** The names a successful PUT /info stores are the ones the next
      GET /profile reports, and its full name splits back into them. */
  method InfoThenProfile(store: AccountStore, caller: nat, firstName: string, lastName: string)
    returns (info: Settled<(int, InfoView)>, profile: Settled<(int, UserView)>)
    requires store.Valid() && caller < |store.users|
    requires firstName != "" && lastName != "" && ' ' !in firstName && ' ' !in lastName
    modifies store
    ensures info.Resolved? && profile.Resolved?
    ensures profile.value.1.firstName == firstName && profile.value.1.lastName == lastName
    ensures Text.SplitOnSpace(profile.value.1.fullName) == [firstName, lastName]
  {
    info := UpdateInfo(store, caller, Some(firstName), Some(lastName));
    profile := GetProfile(store, caller);
    FullNameSplits(store.users[caller]);
  }
}
