/** The entity and the request/response records the service works with. Their Java
    classes are not part of this model; the fields are the ones the service reads. */
module Domain {
  import opened Wrappers

  /** SiteUser: `id` is assigned by the repository on save (None before). */
  datatype SiteUser = SiteUser(id: Option<nat>, userId: string, password: string, phoneNumber: string)

  datatype SiteUserRegisterDto = SiteUserRegisterDto(userId: string, password: string, phoneNumber: string)

  datatype SiteUserLoginDto = SiteUserLoginDto(userId: string, password: string)

  datatype SiteUserRefreshDto = SiteUserRefreshDto(token: string)

  /** The profile view: it has no password field. */
  datatype SiteUserInfoDto = SiteUserInfoDto(userId: string, phoneNumber: string)

  datatype ActionAndId = ActionAndId(action: string, id: nat)

  /** An unsaved entity holding the registration data; the password is stored as
      given (hashing it would make no difference while the hash is the identity). */
  function ToEntity(registerDto: SiteUserRegisterDto): (u: SiteUser)
    ensures u.id.None?
    ensures u.userId == registerDto.userId && u.password == registerDto.password
    ensures u.phoneNumber == registerDto.phoneNumber
  {
    SiteUser(None, registerDto.userId, registerDto.password, registerDto.phoneNumber)
  }

  function InfoFromEntity(user: SiteUser): (info: SiteUserInfoDto)
    ensures info.userId == user.userId && info.phoneNumber == user.phoneNumber
  {
    SiteUserInfoDto(user.userId, user.phoneNumber)
  }
}
