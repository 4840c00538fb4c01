/** `UserController`: the authenticated user's profile update (a partial
    merge of the request into the stored user), the guarded password change
    and the account deletion. The user is looked up by the email of the
    authenticated principal; the password matcher, the password encoder and
    the Base64 decoder are parameters. */
module UserController {
  import opened Domain

  /** An `UpdateProfileRequest` body: every field may be null. */
  datatype UpdateProfileRequest = UpdateProfileRequest(
    firstName: Option<string>,
    lastName: Option<string>,
    telephone: Option<string>,
    status: Option<string>,
    profilePicture: Option<string>,
    monthlyBudget: Option<real>,
    riskTolerance: Option<string>,
    financialGoals: Option<string>)

  /** What the endpoints report instead of success. */
  datatype UserError =
    | UserNotFound              // "User not found", answered with status 500
    | IncorrectCurrentPassword  // "Incorrect current password", answered with 400

  /** `Base64.getDecoder().decode`: `None` where it raises
      `IllegalArgumentException`. */
  type Decoder = string -> Option<seq<bv8>>

  /** The picture after the update: the decoded request value when there is
      one and it decodes, otherwise the stored picture. */
  function NewPicture(current: Option<seq<bv8>>, requested: Option<string>, decode: Decoder): (p: Option<seq<bv8>>)
    ensures requested.None? ==> p == current
    ensures requested.Some? && decode(requested.value).None? ==> p == current
    ensures requested.Some? && decode(requested.value).Some? ==> p == decode(requested.value)
  {
    if requested.Some? && decode(requested.value).Some? then decode(requested.value) else current
  }

  /** A setter guarded by `!= null`: the requested value if there is one. */
  function Overwrite<T>(requested: Option<T>, current: T): T {
    if requested.Some? then requested.value else current
  }

  /** The same guard on a nullable column: a null request keeps the column. */
  function OverwriteNullable<T>(requested: Option<T>, current: Option<T>): Option<T> {
    if requested.Some? then requested else current
  }

  /** The user `updateProfile` saves; id, email, password and creation time
      are never touched. */
  function ProfileMerge(user: User, req: UpdateProfileRequest, decode: Decoder): (r: User)
    ensures r.id == user.id && r.email == user.email && r.password == user.password && r.createdAt == user.createdAt
  {
    user.(
      firstName := Overwrite(req.firstName, user.firstName),
      lastName := Overwrite(req.lastName, user.lastName),
      telephone := Overwrite(req.telephone, user.telephone),
      status := Overwrite(req.status, user.status),
      profilePicture := NewPicture(user.profilePicture, req.profilePicture, decode),
      monthlyBudget := OverwriteNullable(req.monthlyBudget, user.monthlyBudget),
      riskTolerance := OverwriteNullable(req.riskTolerance, user.riskTolerance),
      financialGoals := OverwriteNullable(req.financialGoals, user.financialGoals))
  }

  /** Each non-null request field overwrites the stored one. */
  lemma NonNullFieldsOverwrite(user: User, req: UpdateProfileRequest, decode: Decoder)
    ensures var r := ProfileMerge(user, req, decode);
      && (req.firstName.Some? ==> r.firstName == req.firstName.value)
      && (req.lastName.Some? ==> r.lastName == req.lastName.value)
      && (req.telephone.Some? ==> r.telephone == req.telephone.value)
      && (req.status.Some? ==> r.status == req.status.value)
      && (req.monthlyBudget.Some? ==> r.monthlyBudget == req.monthlyBudget)
      && (req.riskTolerance.Some? ==> r.riskTolerance == req.riskTolerance)
      && (req.financialGoals.Some? ==> r.financialGoals == req.financialGoals)
  {
  }

  /** Each null request field, and a picture that does not decode, leaves
      the stored value in place. */
  lemma NullFieldsKeep(user: User, req: UpdateProfileRequest, decode: Decoder)
    ensures var r := ProfileMerge(user, req, decode);
      && (req.firstName.None? ==> r.firstName == user.firstName)
      && (req.lastName.None? ==> r.lastName == user.lastName)
      && (req.telephone.None? ==> r.telephone == user.telephone)
      && (req.status.None? ==> r.status == user.status)
      && (req.profilePicture.None? || decode(req.profilePicture.value).None? ==> r.profilePicture == user.profilePicture)
      && (req.monthlyBudget.None? ==> r.monthlyBudget == user.monthlyBudget)
      && (req.riskTolerance.None? ==> r.riskTolerance == user.riskTolerance)
      && (req.financialGoals.None? ==> r.financialGoals == user.financialGoals)
  {
  }

  /** A request with every field null changes nothing. */
  lemma EmptyRequestKeepsUser(user: User, decode: Decoder)
    ensures ProfileMerge(user, UpdateProfileRequest(None, None, None, None, None, None, None, None), decode) == user
  {
  }

  /** Sending the same update twice has the effect of sending it once. */
  lemma ProfileMergeIdempotent(user: User, req: UpdateProfileRequest, decode: Decoder)
    ensures ProfileMerge(ProfileMerge(user, req, decode), req, decode) == ProfileMerge(user, req, decode)
  {
  }

  /** The request that has the effect of `first` followed by `second`: the
      later non-null field wins, except a later picture that does not decode,
      which leaves the earlier one in force. */
  function Combine(first: UpdateProfileRequest, second: UpdateProfileRequest, decode: Decoder): UpdateProfileRequest {
    UpdateProfileRequest(
      if second.firstName.Some? then second.firstName else first.firstName,
      if second.lastName.Some? then second.lastName else first.lastName,
      if second.telephone.Some? then second.telephone else first.telephone,
      if second.status.Some? then second.status else first.status,
      if second.profilePicture.Some? && decode(second.profilePicture.value).Some? then second.profilePicture
      else first.profilePicture,
      if second.monthlyBudget.Some? then second.monthlyBudget else first.monthlyBudget,
      if second.riskTolerance.Some? then second.riskTolerance else first.riskTolerance,
      if second.financialGoals.Some? then second.financialGoals else first.financialGoals)
  }

  /** Two successive updates equal one update with the combined request. */
  lemma ProfileMergeSequential(user: User, first: UpdateProfileRequest, second: UpdateProfileRequest, decode: Decoder)
    ensures ProfileMerge(ProfileMerge(user, first, decode), second, decode)
         == ProfileMerge(user, Combine(first, second, decode), decode)
  {
  }

  /** The setters of `updateProfile`, one request field at a time: the
      user they leave behind is the merge of the request into the stored
      user. */
  method ApplyUpdate(stored: User, req: UpdateProfileRequest, decode: Decoder) returns (user: User)
    ensures user == ProfileMerge(stored, req, decode)
  {
    user := stored;
    ghost var merged := ProfileMerge(stored, req, decode);
    if req.firstName.Some? {
      user := user.(firstName := req.firstName.value);
    }
    assert user == stored.(firstName := merged.firstName);
    if req.lastName.Some? {
      user := user.(lastName := req.lastName.value);
    }
    assert user == stored.(firstName := merged.firstName, lastName := merged.lastName);
    if req.telephone.Some? {
      user := user.(telephone := req.telephone.value);
    }
    assert user == stored.(firstName := merged.firstName, lastName := merged.lastName, telephone := merged.telephone);
    if req.status.Some? {
      user := user.(status := req.status.value);
    }
    assert user == merged.(profilePicture := stored.profilePicture, monthlyBudget := stored.monthlyBudget,
                           riskTolerance := stored.riskTolerance, financialGoals := stored.financialGoals);
    if req.profilePicture.Some? {
      var decoded := decode(req.profilePicture.value);
      if decoded.Some? {
        user := user.(profilePicture := decoded);
      }
    }
    assert user == merged.(monthlyBudget := stored.monthlyBudget, riskTolerance := stored.riskTolerance,
                           financialGoals := stored.financialGoals);
    if req.monthlyBudget.Some? {
      user := user.(monthlyBudget := req.monthlyBudget);
    }
    assert user == merged.(riskTolerance := stored.riskTolerance, financialGoals := stored.financialGoals);
    if req.riskTolerance.Some? {
      user := user.(riskTolerance := req.riskTolerance);
    }
    assert user == merged.(financialGoals := stored.financialGoals);
    if req.financialGoals.Some? {
      user := user.(financialGoals := req.financialGoals);
    }
  }

  /** `findByEmail`: the position of the user with that email. */
  function IndexOfEmail(users: seq<User>, email: string): (r: Option<nat>)
    ensures r.Some? ==> r.value < |users| && users[r.value].email == email
    ensures r.None? ==> forall i :: 0 <= i < |users| ==> users[i].email != email
  {
    if users == [] then None
    else if users[0].email == email then Some(0)
    else match IndexOfEmail(users[1..], email)
      case None => None
      case Some(k) => Some(k + 1)
  }

  /** The `unique` constraint on the email column. */
  ghost predicate EmailsUnique(users: seq<User>) {
    forall i, j :: 0 <= i < j < |users| ==> users[i].email != users[j].email
  }

  /** Removing the user at `k` keeps the emails unique and removes exactly
      the rows with that user's email. */
  lemma RemoveUser(users: seq<User>, k: nat)
    requires EmailsUnique(users) && k < |users|
    ensures EmailsUnique(users[..k] + users[k + 1..])
    ensures forall u :: u in users[..k] + users[k + 1..] <==> u in users && u.email != users[k].email
  {
    var rest := users[..k] + users[k + 1..];
    assert forall i :: 0 <= i < |rest| ==> rest[i] == users[if i < k then i else i + 1];
    forall u ensures u in rest <==> u in users && u.email != users[k].email {
      if u in users && u.email != users[k].email {
        var i :| 0 <= i < |users| && users[i] == u;
        assert u == rest[if i < k then i else i - 1];
      }
    }
  }

  /** The `users` table. */
  class UserAccounts {
    var users: seq<User>

    ghost predicate Valid()
      reads this
    {
      EmailsUnique(users)
    }

    constructor (seeded: seq<User>)
      requires EmailsUnique(seeded)
      ensures Valid() && users == seeded
    {
      users := seeded;
    }

    /** `PUT /api/users/profile`: an unknown email saves nothing; otherwise
        the request is merged field by field into the stored user. */
    method UpdateProfile(email: string, req: UpdateProfileRequest, decode: Decoder) returns (r: Result<(), UserError>)
      requires Valid()
      modifies this
      ensures Valid()
      ensures IndexOfEmail(old(users), email).None? ==> r == Failure(UserNotFound) && users == old(users)
      ensures IndexOfEmail(old(users), email).Some? ==>
        var k := IndexOfEmail(old(users), email).value;
        r.Success? && users == old(users)[k := ProfileMerge(old(users)[k], req, decode)]
    {
      var found := IndexOfEmail(users, email);
      if found.None? {
        return Failure(UserNotFound);
      }
      var k := found.value;
      var user := ApplyUpdate(users[k], req, decode);
      users := users[k := user];
      r := Success(());
    }

    /** `PUT /api/users/change-password`: the password is replaced by the
        encoding of the new one only when the current one matches the stored
        hash; every other field and every other user stays as it was. */
    method ChangePassword(email: string, currentPassword: string, newPassword: string,
                          matches: (string, string) -> bool, encode: string -> string)
      returns (r: Result<(), UserError>)
      requires Valid()
      modifies this
      ensures Valid()
      ensures IndexOfEmail(old(users), email).None? ==> r == Failure(UserNotFound) && users == old(users)
      ensures IndexOfEmail(old(users), email).Some? ==>
        var k := IndexOfEmail(old(users), email).value;
        if matches(currentPassword, old(users)[k].password) then
          r.Success? && users == old(users)[k := old(users)[k].(password := encode(newPassword))]
        else
          r == Failure(IncorrectCurrentPassword) && users == old(users)
    {
      var found := IndexOfEmail(users, email);
      if found.None? {
        return Failure(UserNotFound);
      }
      var k := found.value;
      var user := users[k];
      if !matches(currentPassword, user.password) {
        return Failure(IncorrectCurrentPassword);
      }
      user := user.(password := encode(newPassword));
      users := users[k := user];
      r := Success(());
    }

    /** `DELETE /api/users/profile`: removes exactly the user with that email. */
    method DeleteProfile(email: string) returns (r: Result<(), UserError>)
      requires Valid()
      modifies this
      ensures Valid()
      ensures IndexOfEmail(old(users), email).None? ==> r == Failure(UserNotFound) && users == old(users)
      ensures IndexOfEmail(old(users), email).Some? ==>
        var k := IndexOfEmail(old(users), email).value;
        r.Success? && users == old(users)[..k] + old(users)[k + 1..]
      ensures forall u :: u in users <==> u in old(users) && u.email != email
    {
      var found := IndexOfEmail(users, email);
      if found.None? {
        return Failure(UserNotFound);
      }
      var k := found.value;
      RemoveUser(users, k);
      users := users[..k] + users[k + 1..];
      r := Success(());
    }
  }
}
