/** SiteUserInfoEvent: the account-change record published to the message topic. */
module UserEvents {
  import opened Domain

  const Topic := "userinfo"

  /** LocalDateTime, as read from the clock by the caller. */
  type LocalDateTime = int

  datatype SiteUserInfoEvent =
    SiteUserInfoEvent(action: string, userId: string, phoneNumber: string, eventTime: LocalDateTime)

  /** Builds the event for `user`; `now` is the clock reading at construction. */
  function FromEntity(action: string, user: SiteUser, now: LocalDateTime): (e: SiteUserInfoEvent)
    ensures e.action == action && e.eventTime == now
    ensures e.userId == user.userId && e.phoneNumber == user.phoneNumber
  {
    SiteUserInfoEvent(action, user.userId, user.phoneNumber, now)
  }

  /** The event depends on the user's userId and phone number only: neither the
      password nor the id reaches the message. */
  lemma EventCarriesNoPassword(action: string, u1: SiteUser, u2: SiteUser, now: LocalDateTime)
    requires u1.userId == u2.userId && u1.phoneNumber == u2.phoneNumber
    ensures FromEntity(action, u1, now) == FromEntity(action, u2, now)
  {
  }
}
