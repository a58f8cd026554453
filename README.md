# k8s-backend-user account core, modelled in Dafny

This project models the account service of a small user microservice. The service
handles registration, login, token refresh and profile lookup. It sits behind an
API gateway that injects identity headers, and it publishes account-change events
to the `userinfo` topic. The modelled pieces are:

- `secure_hash.dfy` (`SecureHash`): the password "hash", which is currently the
  identity, and the credential check `Matches`.
- `gateway_headers.dfy` (`GatewayHeaders`): the three gateway header getters and
  their `...OrThrowException` variants. The request's headers are passed in as a
  `map<string, string>` instead of being read from the ambient request context.
- `api_advice.dfy` (`ApiAdvice`): the global exception handlers, as one total
  function from exception to (HTTP status, error body).
- `user_events.dfy` (`UserEvents`): the `userinfo` topic and the event
  builder. The clock reading is a parameter.
- `user_repository.dfy` (`UserRepository`): lookup by userId over the stored
  records.
- `user_service.dfy` (`UserService`): `SiteUserService` as a class. It holds
  the stored users (`users`), the messages sent to the broker (`sent`) and the
  token generator. Registration changes state, so it is written as methods. Login,
  refresh and profile lookup only read, so they are functions that read the object.
- `exceptions.dfy`, `domain.dfy` and `wrappers.dfy`: the exception kinds, the
  entity and request/response records, and Option/Result.

The token generator is not part of this model. Its three operations are function
values held by the service and are left uninterpreted: a token pair for
(userId, device), an access token for (userId, device), and the subject of a token
that validates. Their internals (signatures, expiry, keys) are not modelled.

Repository lookup when records share a userId: `registerUser` performs no
duplicate check, so two records can carry the same userId. The repository
interface is not part of this model. `findByUserId` returns a single entity,
which is how a Spring Data derived query behaves, and such a query fails when more
than one row matches. The model follows that: `FindByUserId` returns `Absent`,
`Found(user)` or `NotUnique`. `NotUnique` surfaces as an exception that the
catch-all handler turns into a 500 response. As a result, after a userId has been
registered twice, every login, refresh and profile lookup for it fails.

The code as written hashes passwords with the identity function and performs no
duplicate check on registration. It reports a missing gateway header as `NotFound`
and a refresh token that does not validate as `BadParameter`.

## Model

| member | source | states |
|---|---|---|
| SecureHash.Hash | src/main/java/com/welab/k8s_backend_user/secret/hash/SecureHashUtils.java:8-23 | the digest of a message is the message itself |
| SecureHash.Matches | src/main/java/com/welab/k8s_backend_user/secret/hash/SecureHashUtils.java:24-27 | a message matches a stored value exactly when hashing the message gives that value, which is plain equality |
| SecureHash.HashIsIdentity | src/main/java/com/welab/k8s_backend_user/secret/hash/SecureHashUtils.java:8-23 | the hash of every message is the message itself |
| SecureHash.MatchesIffEqual | src/main/java/com/welab/k8s_backend_user/secret/hash/SecureHashUtils.java:24-27 | a message matches a stored value exactly when the stored value equals the message |
| SecureHash.MatchesRoundTrip | src/main/java/com/welab/k8s_backend_user/secret/hash/SecureHashUtils.java:22-27 | every password matches its own hash |
| SecureHash.DistinctPasswordsNeverMatch | src/main/java/com/welab/k8s_backend_user/secret/hash/SecureHashUtils.java:22-27 | a password never matches the hash of a different password |
| GatewayHeaders.GetRequestHeaderParamAsString | src/main/java/com/welab/k8s_backend_user/common/context/GatewayRequestHeaderUtils.java:27-31 | present exactly when the request has the header, and then it is that header's value |
| GatewayHeaders.GetUserId | src/main/java/com/welab/k8s_backend_user/common/context/GatewayRequestHeaderUtils.java:39-46 | the X-Auth-UserId value when present, absent otherwise; the null test changes nothing |
| GatewayHeaders.GetClientDevice | src/main/java/com/welab/k8s_backend_user/common/context/GatewayRequestHeaderUtils.java:54-61 | the X-Client-Device value when present, absent otherwise |
| GatewayHeaders.GetClientAddress | src/main/java/com/welab/k8s_backend_user/common/context/GatewayRequestHeaderUtils.java:69-76 | the X-Client-Address value when present, absent otherwise |
| GatewayHeaders.GetUserIdOrThrowException | src/main/java/com/welab/k8s_backend_user/common/context/GatewayRequestHeaderUtils.java:85-92 | fails with NotFound and its message exactly when X-Auth-UserId is absent; otherwise returns that value unchanged |
| GatewayHeaders.GetClientDeviceOrThrowException | src/main/java/com/welab/k8s_backend_user/common/context/GatewayRequestHeaderUtils.java:101-108 | fails with NotFound exactly when X-Client-Device is absent; otherwise returns it unchanged |
| GatewayHeaders.GetClientAddressOrThrowException | src/main/java/com/welab/k8s_backend_user/common/context/GatewayRequestHeaderUtils.java:117-124 | fails with NotFound exactly when X-Client-Address is absent; otherwise returns it unchanged |
| GatewayHeaders.EmptyValueIsAccepted | src/main/java/com/welab/k8s_backend_user/common/context/GatewayRequestHeaderUtils.java:85-124 | a present but empty header is returned as the empty string, not rejected |
| GatewayHeaders.GettersIgnoreOtherHeaders | src/main/java/com/welab/k8s_backend_user/common/context/GatewayRequestHeaderUtils.java:27-124 | setting or removing any other header does not change the result of any of the six getters |
| ApiAdvice.Handle | src/main/java/com/welab/k8s_backend_user/advice/ApiCommonAdvice.java:33-121 | every exception gets an error body, never a success; BadParameter, ClientError and validation failures get 400, NotFound and missing resources get 404, everything else gets 500; the three application exceptions pass on their own code and message; the fixed codes NoResource, ParameterNotValid and ServerError go with their fixed messages; a validation failure carries its field list |
| ApiAdvice.UnhandledHidesMessage | src/main/java/com/welab/k8s_backend_user/advice/ApiCommonAdvice.java:113-121 | the catch-all response is the same whatever the exception's message |
| UserEvents.FromEntity | src/main/java/com/welab/k8s_backend_user/domain/event/SiteUserInfoEvent.java:22-31 | the event's action is the argument, its userId and phone number are the entity's, and its time is the clock reading |
| UserEvents.EventCarriesNoPassword | src/main/java/com/welab/k8s_backend_user/domain/event/SiteUserInfoEvent.java:14-31 | two users with the same userId and phone number give the same event, so no password or id reaches it |
| Domain.ToEntity | src/main/java/com/welab/k8s_backend_user/service/SiteUserService.java:42-44 | an unsaved entity holding the registration's userId, password (not hashed yet) and phone number |
| Domain.InfoFromEntity | src/main/java/com/welab/k8s_backend_user/service/SiteUserService.java:83 | the profile view holds the user's userId and phone number and has no password field |
| Exceptions.NewBadParameter | src/main/java/com/welab/k8s_backend_user/service/SiteUserService.java:58 | a BadParameter exception carrying the given message |
| Exceptions.NewNotFound | src/main/java/com/welab/k8s_backend_user/service/SiteUserService.java:56 | a NotFound exception carrying the given message |
| UserRepository.FindByUserId | src/main/java/com/welab/k8s_backend_user/service/SiteUserService.java:54 | the repository's single-result query by userId (Absent, Found or NotUnique): a found record carries the requested userId and is one of the stored records, and an empty repository yields Absent; the lookups at lines 69 and 78 are the same call |
| UserRepository.FindByUserIdSpec | src/main/java/com/welab/k8s_backend_user/service/SiteUserService.java:54-57 | the lookup is absent exactly when no record has the userId, fails exactly when two records have it, and otherwise yields the one record that has it |
| UserRepository.FindAfterSave | src/main/java/com/welab/k8s_backend_user/service/SiteUserService.java:41-46 | after one more record is saved, lookups of other userIds are unchanged; the saved userId is found if it was new, and its lookup fails if it was already stored |
| UserService.SiteUserService.constructor | src/main/java/com/welab/k8s_backend_user/service/SiteUserService.java:28-31 | starts with no users, no sent messages and the given token generator |
| UserService.SiteUserService.Save | src/main/java/com/welab/k8s_backend_user/service/SiteUserService.java:46 | appends the entity with the next id, which no earlier record carries, and returns it; nothing is sent |
| UserService.SiteUserService.Send | src/main/java/com/welab/k8s_backend_user/service/SiteUserService.java:49 | appends one (topic, event) message to the log; the users are unchanged |
| UserService.SiteUserService.RegisterUser | src/main/java/com/welab/k8s_backend_user/service/SiteUserService.java:41-50 | appends exactly one record with the registration data and a fresh id, with no duplicate check, and sends exactly one "Create" event to "userinfo" with that userId and phone number |
| UserService.SiteUserService.Login | src/main/java/com/welab/k8s_backend_user/service/SiteUserService.java:52-61 | an unknown userId fails with NotFound, whatever the password; otherwise, for the one stored record, a non-matching password fails with BadParameter and a matching one yields the generator's pair for (the requested userId, "WEB"); a duplicated userId fails the lookup; reads only |
| UserService.SiteUserService.Refresh | src/main/java/com/welab/k8s_backend_user/service/SiteUserService.java:63-74 | a token that does not validate fails with BadParameter before any lookup; a subject with no record fails with NotFound; a subject with one record yields an access token for (the token's subject, "WEB"); reads only |
| UserService.SiteUserService.UserInfo | src/main/java/com/welab/k8s_backend_user/service/SiteUserService.java:76-84 | an unknown userId fails with NotFound; otherwise yields that record's userId and phone number; reads only |
| UserService.SiteUserService.RegisterUserAndNotify | src/main/java/com/welab/k8s_backend_user/service/SiteUserService.java:86-93 | appends one record like registration, returns ("Create", the new id) and sends no event |
| UserService.LoginUnknownUserIs404 | src/main/java/com/welab/k8s_backend_user/service/SiteUserService.java:54-57 | login with an unregistered userId ends in a 404 response with the "user not found" message |
| UserService.LoginWrongPasswordIs400 | src/main/java/com/welab/k8s_backend_user/service/SiteUserService.java:58-59 | login with any password other than the stored one ends in a 400 response with the "wrong password" message |
| UserService.RefreshInvalidTokenIs400 | src/main/java/com/welab/k8s_backend_user/service/SiteUserService.java:65-68 | refresh with a token that does not validate ends in a 400 response with the "invalid token" message |
| UserService.RegisterThenLogin | src/main/java/com/welab/k8s_backend_user/service/SiteUserService.java:41-61 | after registering a new userId, login with its password yields the pair for (userId, "WEB"), any other password fails with BadParameter, and the profile is the registered userId and phone number |
| UserService.RegisterTwice | src/main/java/com/welab/k8s_backend_user/service/SiteUserService.java:41-50 | registering one userId twice stores two records and sends two events, and afterwards every login for it fails with a server error (500) |

## Left out

- UserAuthController, ProbeService and BackendK8sController are not part of this model. They only delegate and wrap responses, or they are empty probe stubs.
- TokenGenerator is not part of this model. Its operations are uninterpreted function values, and token signing, expiry and key handling are not modelled.
- The token generator's operations are fixed functions held for the service's lifetime, so their dependence on the clock is not captured. Tokens do not expire over a run of the model, and repeated calls with the same arguments give the same token.
- KafkaMessageProducer is not part of this model. Sending is modelled as appending (topic, event) to the `sent` log, so delivery, failures and ordering across requests are left out.
- SiteUserRepository, JPA and @Transactional are not part of this model. The repository is an in-memory sequence, and ids are modelled as 1-based insertion positions. Transaction rollback and concurrent requests are left out.
- Domain.ToEntity and Domain.InfoFromEntity: SiteUser, SiteUserRegisterDto.toEntity and SiteUserInfoDto.fromEntity are not part of this model. Their fields are the ones the service reads, and the profile view is assumed to hold only userId and phone number.
- Exceptions.NewBadParameter and Exceptions.NewNotFound: the exception classes are not part of this model. The error codes their one-argument constructors assign are unspecified constants.
- The request context (RequestContextHolder) is not modelled: no bound request, and the exception that would follow, is out of scope. Headers are an explicit map with exact-case names. The servlet container's case-insensitive and multi-valued header lookup is not modelled.
- LocalDateTime.now() is a parameter. Logging is a side effect and is not modelled. The field list of a validation failure is reduced to its summary message, because ParameterErrorDto is not part of this model.
- ApiAdvice.Handle: Spring's selection of the most specific handler is modelled as disjoint exception kinds. Exceptions other than those listed are represented by one catch-all kind.
- The commented-out SHA-256 code in SecureHashUtils is dead code and is not modelled. Determinism and statelessness of the hash follow from it being a function.
