/** GatewayRequestHeaderUtils: reads the identity headers the API gateway puts on
    each request. The request's headers are passed in explicitly as a map from
    header name to value; a name that is not in the map is an absent header (Java's
    null). */
module GatewayHeaders {
  import opened Wrappers
  import opened Exceptions

  type Headers = map<string, string>

  const UserIdHeader := "X-Auth-UserId"
  const ClientDeviceHeader := "X-Client-Device"
  const ClientAddressHeader := "X-Client-Address"

  const MissingUserIdMessage := "헤더에 userId 정보가 없습니다."
  const MissingClientDeviceMessage := "헤더에 사용자 디바이스 정보가 없습니다."
  const MissingClientAddressMessage := "헤더에 사용자IP 주소 정보가 없습니다."

  /** The value the request carries under `key`, or None when it has no such header. */
  function GetRequestHeaderParamAsString(headers: Headers, key: string): (r: Option<string>)
    ensures r.Some? <==> key in headers
    ensures r.Some? ==> r.value == headers[key]
  {
    if key in headers then Some(headers[key]) else None
  }

  function GetUserId(headers: Headers): (r: Option<string>)
    ensures r.Some? <==> UserIdHeader in headers
    ensures r.Some? ==> r.value == headers[UserIdHeader]
  {
    var userId := GetRequestHeaderParamAsString(headers, UserIdHeader);
    if userId.None? then None else userId
  }

  function GetClientDevice(headers: Headers): (r: Option<string>)
    ensures r.Some? <==> ClientDeviceHeader in headers
    ensures r.Some? ==> r.value == headers[ClientDeviceHeader]
  {
    var clientDevice := GetRequestHeaderParamAsString(headers, ClientDeviceHeader);
    if clientDevice.None? then None else clientDevice
  }

  function GetClientAddress(headers: Headers): (r: Option<string>)
    ensures r.Some? <==> ClientAddressHeader in headers
    ensures r.Some? ==> r.value == headers[ClientAddressHeader]
  {
    var clientAddress := GetRequestHeaderParamAsString(headers, ClientAddressHeader);
    if clientAddress.None? then None else clientAddress
  }

  function GetUserIdOrThrowException(headers: Headers): (r: Result<string, ApiException>)
    ensures r.Failure? <==> UserIdHeader !in headers
    ensures r.Failure? ==> r.error == NotFound(NotFoundCode, MissingUserIdMessage)
    ensures r.Success? ==> r.value == headers[UserIdHeader]
  {
    var userId := GetUserId(headers);
    if userId.None? then Failure(NewNotFound(MissingUserIdMessage)) else Success(userId.value)
  }

  function GetClientDeviceOrThrowException(headers: Headers): (r: Result<string, ApiException>)
    ensures r.Failure? <==> ClientDeviceHeader !in headers
    ensures r.Failure? ==> r.error == NotFound(NotFoundCode, MissingClientDeviceMessage)
    ensures r.Success? ==> r.value == headers[ClientDeviceHeader]
  {
    var clientDevice := GetClientDevice(headers);
    if clientDevice.None? then Failure(NewNotFound(MissingClientDeviceMessage)) else Success(clientDevice.value)
  }

  function GetClientAddressOrThrowException(headers: Headers): (r: Result<string, ApiException>)
    ensures r.Failure? <==> ClientAddressHeader !in headers
    ensures r.Failure? ==> r.error == NotFound(NotFoundCode, MissingClientAddressMessage)
    ensures r.Success? ==> r.value == headers[ClientAddressHeader]
  {
    var clientAddress := GetClientAddress(headers);
    if clientAddress.None? then Failure(NewNotFound(MissingClientAddressMessage)) else Success(clientAddress.value)
  }

  /** Only absence is rejected: a header that is present with an empty value is
      returned as the empty string by every getter. */
  lemma EmptyValueIsAccepted(headers: Headers)
    ensures UserIdHeader in headers && headers[UserIdHeader] == "" ==>
      GetUserIdOrThrowException(headers) == Success("")
    ensures ClientDeviceHeader in headers && headers[ClientDeviceHeader] == "" ==>
      GetClientDeviceOrThrowException(headers) == Success("")
    ensures ClientAddressHeader in headers && headers[ClientAddressHeader] == "" ==>
      GetClientAddressOrThrowException(headers) == Success("")
  {
  }

  /** Each getter reads its own header only: setting or removing any other header
      leaves its result unchanged. */
  lemma GettersIgnoreOtherHeaders(headers: Headers, key: string, value: string)
    ensures key != UserIdHeader ==>
      GetUserId(headers[key := value]) == GetUserId(headers) &&
      GetUserId(headers - {key}) == GetUserId(headers) &&
      GetUserIdOrThrowException(headers[key := value]) == GetUserIdOrThrowException(headers) &&
      GetUserIdOrThrowException(headers - {key}) == GetUserIdOrThrowException(headers)
    ensures key != ClientDeviceHeader ==>
      GetClientDevice(headers[key := value]) == GetClientDevice(headers) &&
      GetClientDevice(headers - {key}) == GetClientDevice(headers) &&
      GetClientDeviceOrThrowException(headers[key := value]) == GetClientDeviceOrThrowException(headers) &&
      GetClientDeviceOrThrowException(headers - {key}) == GetClientDeviceOrThrowException(headers)
    ensures key != ClientAddressHeader ==>
      GetClientAddress(headers[key := value]) == GetClientAddress(headers) &&
      GetClientAddress(headers - {key}) == GetClientAddress(headers) &&
      GetClientAddressOrThrowException(headers[key := value]) == GetClientAddressOrThrowException(headers) &&
      GetClientAddressOrThrowException(headers - {key}) == GetClientAddressOrThrowException(headers)
  {
  }
}
