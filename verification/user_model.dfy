/** The account schema of backend/src/models/User.ts: the stored account, the
    fields a new account is built from, the validators (required and
    lowercased email, required names), the defaults of the nested blocks, the
    `fullName` virtual, and the account collection with the uniqueness it
    keeps. */
module UserModel {
  import opened Wrappers
  import opened Validation
  import Text

  datatype Provider = Google | Github

  function ProviderName(p: Provider): string {
    match p
    case Google => "google"
    case Github => "github"
  }

  datatype SalaryRange = SalaryRange(min: Option<int>, max: Option<int>, currency: Option<string>)

  datatype Profile = Profile(
    phone: Option<string>,
    location: Option<string>,
    bio: Option<string>,
    website: Option<string>,
    linkedIn: Option<string>,
    github: Option<string>,
    skills: seq<string>,
    experience: Option<string>)

  datatype JobPreferences = JobPreferences(
    jobTitles: seq<string>,
    locations: seq<string>,
    salaryRange: SalaryRange,
    jobTypes: seq<string>,
    industries: seq<string>)

  /** A stored account. `id` is its `_id`. */
  datatype User = User(
    id: nat,
    email: string,
    firstName: string,
    lastName: string,
    avatar: Option<string>,
    provider: Provider,
    googleId: Option<string>,
    githubId: Option<string>,
    profile: Profile,
    jobPreferences: JobPreferences)

  const DefaultCurrency: string := "USD"

  /** The nested blocks of a new account: every list empty, every other
      path unset, except the salary currency default. */
  const NewProfile: Profile := Profile(None, None, None, None, None, None, [], None)
  const NewPreferences: JobPreferences :=
    JobPreferences([], [], SalaryRange(None, None, Some(DefaultCurrency)), [], [])

  /** What every stored account satisfies. */
  predicate ValidUser(u: User) {
    u.email != "" && Text.IsLowerCase(u.email) && u.firstName != "" && u.lastName != ""
  }

  /** The fields handed to `new User({...})`. */
  datatype NewUser = NewUser(
    email: Option<string>,
    firstName: Option<string>,
    lastName: Option<string>,
    avatar: Option<string>,
    provider: Provider,
    googleId: Option<string>,
    githubId: Option<string>)

  /** The failed validators of a new account, in schema order. */
  function NewUserViolations(n: NewUser): (r: seq<FieldError>)
    ensures r == [] <==> Present(n.email) && Present(n.firstName) && Present(n.lastName)
    ensures !Present(n.email) ==> Required("email") in r
    ensures !Present(n.firstName) ==> Required("firstName") in r
    ensures !Present(n.lastName) ==> Required("lastName") in r
  {
    RequiredText("email", n.email) + RequiredText("firstName", n.firstName) + RequiredText("lastName", n.lastName)
  }

  /** `new User(fields).save()`: the email is lowercased, then the required
      validators run; a valid account gets the default nested blocks. */
  function CreateUser(n: NewUser, id: nat): (r: Result<User, seq<FieldError>>)
    ensures r.Ok? <==> NewUserViolations(n) == []
    ensures r.Err? ==> r.error == NewUserViolations(n) && r.error != []
    ensures r.Ok? ==>
              && ValidUser(r.value)
              && r.value.id == id
              && r.value.email == Text.Lower(n.email.value)
              && r.value.firstName == n.firstName.value && r.value.lastName == n.lastName.value
              && r.value.avatar == n.avatar && r.value.provider == n.provider
              && r.value.googleId == n.googleId && r.value.githubId == n.githubId
              && r.value.profile == NewProfile && r.value.jobPreferences == NewPreferences
  {
    var violations := NewUserViolations(n);
    if violations != [] then Err(violations)
    else
      Ok(User(id, Text.Lower(n.email.value), n.firstName.value, n.lastName.value, n.avatar,
              n.provider, n.googleId, n.githubId, NewProfile, NewPreferences))
  }

  /** The `fullName` virtual. */
  function FullName(u: User): string {
    u.firstName + " " + u.lastName
  }

  /** Names without spaces are recovered from the full name by splitting it
      on its space. */
  lemma FullNameSplits(u: User)
    requires ' ' !in u.firstName && ' ' !in u.lastName
    ensures Text.SplitOnSpace(FullName(u)) == [u.firstName, u.lastName]
  {
    Text.SplitWordThenRest(u.firstName, u.lastName);
    Text.SplitWord(u.lastName);
  }

  /** A field an account can be looked up by with `findOne`. */
  datatype LookupKey = ByGoogleId(googleId: string) | ByGithubId(githubId: string) | ByEmail(email: Option<string>)

  /** Whether the filter matches the account. The email is lowercased before
      it is compared; an absent email is a filter on a missing value, which
      no stored account (all have an email) matches. */
  predicate Matches(u: User, key: LookupKey) {
    match key
    case ByGoogleId(g) => u.googleId == Some(g)
    case ByGithubId(g) => u.githubId == Some(g)
    case ByEmail(e) => e.Some? && u.email == Text.Lower(e.value)
  }

  /** `findOne(filter)`: the position of the first matching account in
      natural order. */
  function FindOne(users: seq<User>, key: LookupKey): (r: Option<nat>)
    ensures r.Some? ==> r.value < |users| && Matches(users[r.value], key)
    ensures r.Some? ==> forall j :: 0 <= j < r.value ==> !Matches(users[j], key)
    ensures r.None? <==> forall j :: 0 <= j < |users| ==> !Matches(users[j], key)
  {
    if users == [] then None
    else if Matches(users[0], key) then Some(0)
    else
      match FindOne(users[1..], key)
      case None => None
      case Some(i) => Some(i + 1)
  }

  /** No two accounts share a value of a field. */
  predicate UniqueEmails(users: seq<User>) {
    forall i, j :: 0 <= i < j < |users| ==> users[i].email != users[j].email
  }

  predicate UniqueGoogleIds(users: seq<User>) {
    forall i, j :: 0 <= i < j < |users| && users[i].googleId.Some? ==> users[i].googleId != users[j].googleId
  }

  predicate UniqueGithubIds(users: seq<User>) {
    forall i, j :: 0 <= i < j < |users| && users[i].githubId.Some? ==> users[i].githubId != users[j].githubId
  }

  /** Every account is valid and stored under its id; the unique index on
      `email` holds, and the sign-in flow keeps provider ids unique. */
  predicate ValidUsers(users: seq<User>) {
    && (forall i :: 0 <= i < |users| ==> users[i].id == i && ValidUser(users[i]))
    && UniqueEmails(users)
    && UniqueGoogleIds(users)
    && UniqueGithubIds(users)
  }

  /** The account collection. Accounts are never deleted, so an account's
      id is its position. */
  class AccountStore {
    var users: seq<User>

    ghost predicate Valid()
      reads this
    {
      ValidUsers(users)
    }

    constructor()
      ensures Valid() && users == []
    {
      users := [];
    }

    /** `findById(id)`. */
    function FindById(id: nat): (r: Option<User>)
      reads this
      ensures r.Some? <==> id < |users|
      ensures r.Some? ==> r.value == users[id]
    {
      if id < |users| then Some(users[id]) else None
    }
  }

  /** With unique values, the account found by a field is the only one
      holding it. */
  lemma FoundIsOnlyMatch(users: seq<User>, key: LookupKey, i: nat)
    requires UniqueEmails(users) && UniqueGoogleIds(users) && UniqueGithubIds(users)
    requires i < |users| && Matches(users[i], key)
    ensures FindOne(users, key) == Some(i)
  {
  }
}
