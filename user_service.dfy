/** SiteUserService: registration, login, token refresh and profile lookup over an
    in-memory user repository, with the messages sent to the broker kept as a log. */
module UserService {
  import opened Wrappers
  import opened Exceptions
  import opened Domain
  import opened SecureHash
  import opened UserEvents
  import opened UserRepository
  import ApiAdvice

  const Device := "WEB"
  const CreateAction := "Create"

  const UserNotFoundMessage := "사용자를 찾을 수 없습니다."
  const WrongPasswordMessage := "비밀번호가 맞지 않습니다."
  const InvalidTokenMessage := "토큰이 유효하지 않습니다."

  /** The token generator's three operations, left uninterpreted: a pair for
      (userId, device), an access token for (userId, device), and the subject of a
      token that validates (None otherwise). */
  datatype TokenGenerator<Pair, Access> = TokenGenerator(
    generateAccessRefreshToken: (string, string) -> Pair,
    generateAccessToken: (string, string) -> Access,
    validateJwtToken: string -> Option<string>)

  /** One record sent to the message broker. */
  datatype Message = Message(topic: string, event: SiteUserInfoEvent)

  /** Records saved by the repository carry the ids 1, 2, 3, ... in order. */
  ghost predicate IdsAssigned(users: seq<SiteUser>)
  {
    forall i :: 0 <= i < |users| ==> users[i].id == Some(i + 1)
  }

  class SiteUserService<Pair, Access> {
    var users: seq<SiteUser>
    var sent: seq<Message>
    const tokenGenerator: TokenGenerator<Pair, Access>

    ghost predicate Valid()
      reads this
    {
      IdsAssigned(users)
    }

    constructor (tokenGenerator: TokenGenerator<Pair, Access>)
      ensures Valid()
      ensures users == [] && sent == [] && this.tokenGenerator == tokenGenerator
    {
      this.tokenGenerator := tokenGenerator;
      users := [];
      sent := [];
    }

    /** The repository's save: assigns the next id and appends the record. */
    method Save(entity: SiteUser) returns (saved: SiteUser)
      requires Valid()
      modifies this
      ensures Valid() && sent == old(sent)
      ensures saved == entity.(id := Some(|old(users)| + 1))
      ensures users == old(users) + [saved]
      ensures forall i :: 0 <= i < |old(users)| ==> old(users)[i].id != saved.id
    {
      saved := entity.(id := Some(|users| + 1));
      users := users + [saved];
    }

    /** The message producer's send. */
    method Send(topic: string, event: SiteUserInfoEvent)
      modifies this
      ensures users == old(users)
      ensures sent == old(sent) + [Message(topic, event)]
    {
      sent := sent + [Message(topic, event)];
    }

    /** Saves a new record without looking for an existing one with the same userId,
        then publishes one "Create" event for it. */
    method RegisterUser(registerDto: SiteUserRegisterDto, now: LocalDateTime)
      requires Valid()
      modifies this
      ensures Valid()
      ensures users == old(users) + [ToEntity(registerDto).(id := Some(|old(users)| + 1))]
      ensures forall i :: 0 <= i < |old(users)| ==> old(users)[i].id != users[|users| - 1].id
      ensures sent == old(sent) +
        [Message(Topic, SiteUserInfoEvent(CreateAction, registerDto.userId, registerDto.phoneNumber, now))]
    {
      var siteUser := ToEntity(registerDto);
      siteUser := Save(siteUser);
      var message := FromEntity(CreateAction, siteUser, now);
      Send(Topic, message);
    }

    function Login(loginDto: SiteUserLoginDto): (r: Result<Pair, ApiException>)
      reads this
      ensures !Registered(users, loginDto.userId) ==> r == Failure(NewNotFound(UserNotFoundMessage))
      ensures Duplicated(users, loginDto.userId) ==> r == Failure(NonUniqueResult)
      ensures forall i | OnlyRecordAt(users, loginDto.userId, i) ::
        r == if Matches(loginDto.password, users[i].password)
             then Success(tokenGenerator.generateAccessRefreshToken(loginDto.userId, Device))
             else Failure(NewBadParameter(WrongPasswordMessage))
    {
      FindByUserIdSpec(users, loginDto.userId);
      match FindByUserId(users, loginDto.userId)
      case Absent => Failure(NewNotFound(UserNotFoundMessage))
      case NotUnique => Failure(NonUniqueResult)
      case Found(user) =>
        if !Matches(loginDto.password, user.password) then Failure(NewBadParameter(WrongPasswordMessage))
        else Success(tokenGenerator.generateAccessRefreshToken(loginDto.userId, Device))
    }

    /** The subject comes from the token; the request carries nothing else. */
    function Refresh(refreshDto: SiteUserRefreshDto): (r: Result<Access, ApiException>)
      reads this
      ensures var subject := tokenGenerator.validateJwtToken(refreshDto.token);
        && (subject.None? ==> r == Failure(NewBadParameter(InvalidTokenMessage)))
        && (subject.Some? && !Registered(users, subject.value) ==>
              r == Failure(NewNotFound(UserNotFoundMessage)))
        && (subject.Some? && Duplicated(users, subject.value) ==> r == Failure(NonUniqueResult))
        && (subject.Some? && Registered(users, subject.value) && !Duplicated(users, subject.value) ==>
              r == Success(tokenGenerator.generateAccessToken(subject.value, Device)))
    {
      var userId := tokenGenerator.validateJwtToken(refreshDto.token);
      if userId.None? then Failure(NewBadParameter(InvalidTokenMessage))
      else
        FindByUserIdSpec(users, userId.value);
        match FindByUserId(users, userId.value)
        case Absent => Failure(NewNotFound(UserNotFoundMessage))
        case NotUnique => Failure(NonUniqueResult)
        case Found(_) => Success(tokenGenerator.generateAccessToken(userId.value, Device))
    }

    function UserInfo(userId: string): (r: Result<SiteUserInfoDto, ApiException>)
      reads this
      ensures !Registered(users, userId) ==> r == Failure(NewNotFound(UserNotFoundMessage))
      ensures Duplicated(users, userId) ==> r == Failure(NonUniqueResult)
      ensures forall i | OnlyRecordAt(users, userId, i) ::
        r == Success(SiteUserInfoDto(users[i].userId, users[i].phoneNumber))
    {
      FindByUserIdSpec(users, userId);
      match FindByUserId(users, userId)
      case Absent => Failure(NewNotFound(UserNotFoundMessage))
      case NotUnique => Failure(NonUniqueResult)
      case Found(user) => Success(InfoFromEntity(user))
    }

    /** Saves the record and reports ("Create", its new id); no event is sent. */
    method RegisterUserAndNotify(registerDto: SiteUserRegisterDto) returns (r: ActionAndId)
      requires Valid()
      modifies this
      ensures Valid()
      ensures users == old(users) + [ToEntity(registerDto).(id := Some(|old(users)| + 1))]
      ensures sent == old(sent)
      ensures r == ActionAndId(CreateAction, |old(users)| + 1)
    {
      var siteUser := ToEntity(registerDto);
      siteUser := Save(siteUser);
      r := ActionAndId(CreateAction, siteUser.id.value);
    }
  }

  /** Login of a userId nobody registered answers 404 and never looks at the password. */
  lemma LoginUnknownUserIs404<P, A>(s: SiteUserService<P, A>, loginDto: SiteUserLoginDto)
    requires !Registered(s.users, loginDto.userId)
    ensures s.Login(loginDto).Failure?
    ensures ApiAdvice.Handle(s.Login(loginDto).error).status == ApiAdvice.NotFoundStatus
    ensures ApiAdvice.Handle(s.Login(loginDto).error).body.errorMessage == UserNotFoundMessage
  {
  }

  /** Login with any password other than the stored one answers 400. */
  lemma LoginWrongPasswordIs400<P, A>(s: SiteUserService<P, A>, loginDto: SiteUserLoginDto, i: int)
    requires OnlyRecordAt(s.users, loginDto.userId, i)
    requires s.users[i].password != loginDto.password
    ensures s.Login(loginDto).Failure?
    ensures ApiAdvice.Handle(s.Login(loginDto).error).status == ApiAdvice.BadRequest
    ensures ApiAdvice.Handle(s.Login(loginDto).error).body.errorMessage == WrongPasswordMessage
  {
    MatchesIffEqual(loginDto.password, s.users[i].password);
  }

  /** A token that does not validate answers 400, whatever the repository holds. */
  lemma RefreshInvalidTokenIs400<P, A>(s: SiteUserService<P, A>, refreshDto: SiteUserRefreshDto)
    requires s.tokenGenerator.validateJwtToken(refreshDto.token).None?
    ensures s.Refresh(refreshDto).Failure?
    ensures ApiAdvice.Handle(s.Refresh(refreshDto).error).status == ApiAdvice.BadRequest
    ensures ApiAdvice.Handle(s.Refresh(refreshDto).error).body.errorMessage == InvalidTokenMessage
  {
  }

  /** Registering a new userId and then logging in with the same password yields the
      generator's pair for (userId, "WEB"); any other password is refused with 400. */
  method RegisterThenLogin<P, A>(s: SiteUserService<P, A>, registerDto: SiteUserRegisterDto,
                                 now: LocalDateTime, otherPassword: string)
    requires s.Valid() && !Registered(s.users, registerDto.userId)
    requires otherPassword != registerDto.password
    modifies s
    ensures s.Login(SiteUserLoginDto(registerDto.userId, registerDto.password)) ==
      Success(s.tokenGenerator.generateAccessRefreshToken(registerDto.userId, Device))
    ensures s.Login(SiteUserLoginDto(registerDto.userId, otherPassword)) ==
      Failure(NewBadParameter(WrongPasswordMessage))
    ensures s.UserInfo(registerDto.userId) ==
      Success(SiteUserInfoDto(registerDto.userId, registerDto.phoneNumber))
  {
    ghost var before := s.users;
    s.RegisterUser(registerDto, now);
    var last := |s.users| - 1;
    FindAfterSave(before, s.users[last], registerDto.userId);
    FindByUserIdSpec(before, registerDto.userId);
    FindByUserIdSpec(s.users, registerDto.userId);
    MatchesRoundTrip(registerDto.password);
    DistinctPasswordsNeverMatch(otherPassword, registerDto.password);
  }

  /** Registering the same userId twice stores two records and sends two events;
      from then on every lookup of that userId fails and login answers 500. */
  method RegisterTwice<P, A>(s: SiteUserService<P, A>, first: SiteUserRegisterDto,
                             second: SiteUserRegisterDto, now: LocalDateTime)
    requires s.Valid() && first.userId == second.userId
    modifies s
    ensures |s.users| == |old(s.users)| + 2 && |s.sent| == |old(s.sent)| + 2
    ensures Duplicated(s.users, first.userId)
    ensures forall password :: s.Login(SiteUserLoginDto(first.userId, password)) == Failure(NonUniqueResult)
    ensures ApiAdvice.Handle(NonUniqueResult).status == ApiAdvice.InternalServerError
  {
    s.RegisterUser(first, now);
    s.RegisterUser(second, now);
    var n := |s.users|;
    assert s.users[n - 2].userId == first.userId && s.users[n - 1].userId == first.userId;
  }
}
