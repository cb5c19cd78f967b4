/** Base-URL selection and the endpoint table of the API client
    (src/utils/apiConfig.js), together with the candidate host list the
    dispatcher walks (src/utils/api.js, the `BASE_URLS` array). */
module ApiConfig {
  import opened Wrappers
  import opened Lists

  /** `Platform.OS`: Android, iOS, or anything else (web). */
  datatype Platform = Android | Ios | OtherPlatform

  const AndroidEmulatorUrl: string := "http://10.0.2.2:4000"
  const LocalhostUrl: string := "http://localhost:4000"

  /** The hard-coded fallback hosts tried after the configured one. */
  const FallbackUrls: seq<string> := [
    AndroidEmulatorUrl,
    "http://127.0.0.1:4000",
    LocalhostUrl,
    "http://192.168.0.1:4000",
    "http://192.168.1.1:4000",
    "http://192.168.0.8:4000",
    "http://192.168.1.10:4000",
    "http://192.168.0.100:4000",
    "http://192.168.1.100:4000",
    "http://192.168.0.254:4000",
    "http://192.168.1.254:4000"
  ]

  /** `getApiUrl`: the configured URL when it is a non-empty string (a truthy
      `extra.apiUrl`), otherwise the platform's default. `configured` is None
      when the Expo configuration has no `apiUrl`. */
  function ApiUrl(configured: Option<string>, os: Platform): (url: string)
    ensures configured.Some? && configured.value != "" ==> url == configured.value
    ensures configured.None? || configured.value == "" ==>
              url == (if os == Android then AndroidEmulatorUrl else LocalhostUrl)
  {
    if configured.Some? && configured.value != "" then configured.value
    else if os == Android then AndroidEmulatorUrl
    else if os == Ios then LocalhostUrl
    else LocalhostUrl
  }

  /** `BASE_URLS`: the configured URL followed by the fallbacks. */
  function BaseUrls(apiUrl: string): (urls: seq<string>)
    ensures |urls| == 1 + |FallbackUrls| && urls[0] == apiUrl && urls[1..] == FallbackUrls
  {
    [apiUrl] + FallbackUrls
  }

  /** Without configuration every platform's default URL is also one of the
      fallbacks, so `BASE_URLS` lists it twice: the Android default repeats
      the first fallback and the iOS/web default repeats the third. */
  lemma UnconfiguredDefaultListedTwice(configured: Option<string>, os: Platform)
    requires configured.None? || configured.value == ""
    ensures Count(BaseUrls(ApiUrl(configured, os)), ApiUrl(configured, os)) == 2
    ensures os == Android ==> BaseUrls(ApiUrl(configured, os))[1] == ApiUrl(configured, os)
    ensures os != Android ==> BaseUrls(ApiUrl(configured, os))[3] == ApiUrl(configured, os)
  {
    var url := ApiUrl(configured, os);
    var k := if os == Android then 0 else 2;
    assert url == FallbackUrls[k];
    FallbacksDistinct(k);
    CountUnique(FallbackUrls, k);
    CountAppend([url], FallbackUrls, url);
  }

  /** The ninth character tells the fallbacks apart from the first and the
      third: '0', '2' and 'o' for the first three, '9' for the LAN ones. */
  lemma FallbacksDistinct(k: nat)
    requires k == 0 || k == 2
    ensures forall j :: 0 <= j < |FallbackUrls| && j != k ==> FallbackUrls[j] != FallbackUrls[k]
  {
    FallbackNinthChar();
  }

  lemma FallbackNinthChar()
    ensures forall j :: 0 <= j < |FallbackUrls| ==>
              |FallbackUrls[j]| > 8
              && FallbackUrls[j][8] == (if j == 0 then '0' else if j == 1 then '2' else if j == 2 then 'o' else '9')
  {
  }

  // Endpoint paths. The ones ending in '/' take an id or key appended.
  const Ping: string := "/api/ping"
  const Login: string := "/api/usuario/login"
  const Register: string := "/api/usuario/agregar"
  const LightsAll: string := "/api/luces"
  const LightsByLocation: string := "/api/luces/ubicacion/"
  const LightsOne: string := "/api/luces/"
  const DoorsAll: string := "/api/puertas"
  const DoorsByType: string := "/api/puertas/tipo/"
  const DoorsOne: string := "/api/puertas/"
}
