/** The session and sign-in logic of backend/src/config/passport.ts: the
    session stores an account's id and loads it back, and each OAuth
    strategy resolves a provider profile to an account — the account already
    linked to the provider id, else the account with the profile's email
    (which then gets linked), else a new account. */
module Passport {
  import opened Wrappers
  import opened Validation
  import opened ErrorHandler
  import opened UserModel
  import Text

  /** The fields of a provider profile that the strategies read. */
  datatype OAuthProfile = OAuthProfile(
    id: string,
    emails: seq<string>,
    givenName: Option<string>,
    familyName: Option<string>,
    displayName: Option<string>,
    photos: seq<string>)

  /** `xs?.[0]?.value`. */
  function First(xs: seq<string>): (r: Option<string>)
    ensures r.Some? <==> |xs| > 0
    ensures r.Some? ==> r.value == xs[0]
  {
    if |xs| > 0 then Some(xs[0]) else None
  }

  /** The filter on the provider's own id field. */
  function ProviderKey(provider: Provider, id: string): LookupKey {
    match provider
    case Google => ByGoogleId(id)
    case Github => ByGithubId(id)
  }

  /** `displayName?.split(' ')[k]`: absent when there is no display name or
      it has fewer than `k + 1` space-separated pieces. */
  function NamePart(displayName: Option<string>, k: nat): (r: Option<string>)
    ensures r.Some? <==> displayName.Some? && k <= Text.Occurrences(displayName.value, ' ')
    ensures r.Some? ==> ' ' !in r.value
  {
    if displayName.None? then None
    else
      var parts := Text.SplitOnSpace(displayName.value);
      if k < |parts| then Some(parts[k]) else None
  }

  /** The fields of the account a strategy creates: Google supplies the
      given and family names, GitHub the first two words of the display
      name. */
  function NewAccountFields(provider: Provider, p: OAuthProfile): (n: NewUser)
    ensures n.email == First(p.emails) && n.avatar == First(p.photos) && n.provider == provider
    ensures provider == Google ==>
              n.firstName == p.givenName && n.lastName == p.familyName &&
              n.googleId == Some(p.id) && n.githubId == None
    ensures provider == Github ==>
              n.firstName == NamePart(p.displayName, 0) && n.lastName == NamePart(p.displayName, 1) &&
              n.githubId == Some(p.id) && n.googleId == None
  {
    match provider
    case Google =>
      NewUser(First(p.emails), p.givenName, p.familyName, First(p.photos), Google, Some(p.id), None)
    case Github =>
      NewUser(First(p.emails), NamePart(p.displayName, 0), NamePart(p.displayName, 1), First(p.photos),
              Github, None, Some(p.id))
  }

  /** `user.googleId = profile.id` (or `githubId`): only that field changes. */
  function Link(u: User, provider: Provider, id: string): (r: User)
    ensures Matches(r, ProviderKey(provider, id))
    ensures provider == Google ==> r == u.(googleId := Some(id))
    ensures provider == Github ==> r == u.(githubId := Some(id))
  {
    match provider
    case Google => u.(googleId := Some(id))
    case Github => u.(githubId := Some(id))
  }

  /** Linking an account to a provider id that no account holds keeps the
      collection valid. */
  lemma LinkKeepsValid(users: seq<User>, i: nat, provider: Provider, id: string)
    requires ValidUsers(users) && i < |users|
    requires FindOne(users, ProviderKey(provider, id)).None?
    ensures ValidUsers(users[i := Link(users[i], provider, id)])
  {
    var after := users[i := Link(users[i], provider, id)];
    forall j, k | 0 <= j < k < |after| && after[j].googleId.Some?
      ensures after[j].googleId != after[k].googleId
    {
      assert !Matches(users[j], ProviderKey(provider, id)) && !Matches(users[k], ProviderKey(provider, id));
    }
    forall j, k | 0 <= j < k < |after| && after[j].githubId.Some?
      ensures after[j].githubId != after[k].githubId
    {
      assert !Matches(users[j], ProviderKey(provider, id)) && !Matches(users[k], ProviderKey(provider, id));
    }
  }

  /** Adding a valid account with the next id, whose email and provider ids
      no account holds, keeps the collection valid. */
  lemma AddKeepsValid(users: seq<User>, u: User)
    requires ValidUsers(users) && ValidUser(u) && u.id == |users|
    requires forall j :: 0 <= j < |users| ==> users[j].email != u.email
    requires u.googleId.Some? ==> forall j :: 0 <= j < |users| ==> users[j].googleId != u.googleId
    requires u.githubId.Some? ==> forall j :: 0 <= j < |users| ==> users[j].githubId != u.githubId
    ensures ValidUsers(users + [u])
  {
    var after := users + [u];
    forall j | 0 <= j < |users| ensures after[j] == users[j] { }
  }

  /** The verify callback of either strategy. Its outcome is reported to
      `done`: the account, or the error that saving a new account threw. */
  method SignIn(store: AccountStore, provider: Provider, p: OAuthProfile) returns (r: Result<User, AppError>)
    requires store.Valid()
    modifies store
    ensures store.Valid()
    ensures FindOne(old(store.users), ProviderKey(provider, p.id)).Some? ==>
              && store.users == old(store.users)
              && r == Ok(old(store.users)[FindOne(old(store.users), ProviderKey(provider, p.id)).value])
    ensures FindOne(old(store.users), ProviderKey(provider, p.id)).None? &&
            FindOne(old(store.users), ByEmail(First(p.emails))).Some? ==>
              var i := FindOne(old(store.users), ByEmail(First(p.emails))).value;
              && store.users == old(store.users)[i := Link(old(store.users)[i], provider, p.id)]
              && r == Ok(store.users[i])
    ensures FindOne(old(store.users), ProviderKey(provider, p.id)).None? &&
            FindOne(old(store.users), ByEmail(First(p.emails))).None? ==>
              match CreateUser(NewAccountFields(provider, p), |old(store.users)|)
              case Ok(u) => store.users == old(store.users) + [u] && r == Ok(u)
              case Err(es) => store.users == old(store.users) && r == Err(ValidationFailure(es))
    ensures r.Ok? ==>
              && r.value.id < |store.users| && store.users[r.value.id] == r.value
              && FindOne(store.users, ProviderKey(provider, p.id)) == Some(r.value.id)
  {
    var byProvider := FindOne(store.users, ProviderKey(provider, p.id));
    if byProvider.Some? {
      r := Ok(store.users[byProvider.value]);
      return;
    }
    var byEmail := FindOne(store.users, ByEmail(First(p.emails)));
    if byEmail.Some? {
      var i := byEmail.value;
      var linked := Link(store.users[i], provider, p.id);
      LinkKeepsValid(store.users, i, provider, p.id);
      store.users := store.users[i := linked];
      FoundIsOnlyMatch(store.users, ProviderKey(provider, p.id), i);
      r := Ok(linked);
      return;
    }
    var created := CreateUser(NewAccountFields(provider, p), |store.users|);
    if created.Err? {
      r := Err(ValidationFailure(created.error));
    } else {
      var u := created.value;
      AddKeepsValid(store.users, u);
      store.users := store.users + [u];
      FoundIsOnlyMatch(store.users, ProviderKey(provider, p.id), u.id);
      r := Ok(u);
    }
  }

  /** Signing in twice with the same profile returns the same account the
      second time, and the second sign-in changes nothing. */
  method SignInTwice(store: AccountStore, provider: Provider, p: OAuthProfile)
    returns (first: Result<User, AppError>, second: Result<User, AppError>)
    requires store.Valid()
    modifies store
    ensures store.Valid()
    ensures first.Ok? ==> second == first
  {
    first := SignIn(store, provider, p);
    ghost var after := store.users;
    second := SignIn(store, provider, p);
    assert first.Ok? ==> store.users == after;
  }

  /** `serializeUser`: the session keeps the account id. */
  function SerializeUser(u: User): nat {
    u.id
  }

  /** `deserializeUser`: `findById` on the stored id; a stored account comes
      back unchanged. */
  lemma SessionRoundTrip(store: AccountStore, u: User)
    requires store.Valid() && u in store.users
    ensures store.FindById(SerializeUser(u)) == Some(u)
  {
    var i :| 0 <= i < |store.users| && store.users[i] == u;
  }

  /** A GitHub display name whose first two words are `first` and `last`
      gives them as first and last name; any further words are dropped. */
  lemma GithubFirstTwoWords(p: OAuthProfile, first: string, last: string, tail: string)
    requires ' ' !in first && ' ' !in last
    requires tail == [] || tail[0] == ' '
    requires p.displayName == Some(first + " " + last + tail)
    ensures NewAccountFields(Github, p).firstName == Some(first)
    ensures NewAccountFields(Github, p).lastName == Some(last)
  {
    assert first + " " + last + tail == first + " " + (last + tail);
    Text.SplitWordThenRest(first, last + tail);
    if tail == [] {
      assert last + tail == last;
      Text.SplitWord(last);
    } else {
      assert last + tail == last + " " + tail[1..];
      Text.SplitWordThenRest(last, tail[1..]);
    }
  }

  /** A GitHub display name of one word leaves the last name unset, so a new
      account cannot be saved. */
  lemma GithubOneWordNameFails(p: OAuthProfile, word: string, id: nat)
    requires ' ' !in word
    requires p.displayName == Some(word)
    ensures CreateUser(NewAccountFields(Github, p), id).Err?
    ensures Required("lastName") in CreateUser(NewAccountFields(Github, p), id).error
  {
    Text.SplitWord(word);
  }

  /** A profile without an email never matches an account by email and
      cannot create one. */
  lemma NoEmailCannotCreate(users: seq<User>, provider: Provider, p: OAuthProfile, id: nat)
    requires p.emails == []
    ensures FindOne(users, ByEmail(First(p.emails))) == None
    ensures CreateUser(NewAccountFields(provider, p), id).Err?
    ensures Required("email") in CreateUser(NewAccountFields(provider, p), id).error
  {
  }
}
