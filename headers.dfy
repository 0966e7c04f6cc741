/** The request headers sent with both calls to the reward API. */
module Headers {
  import opened Wrappers
  import opened Strings

  /** The fixed headers of every request. */
  const BaseHeaders: map<string, string> := map[
    "accept" := "application/json, text/plain, */*",
    "accept-language" := "zh-CN,zh;q=0.9,en;q=0.8,en-GB;q=0.7,en-US;q=0.6",
    "priority" := "u=1, i",
    "sec-fetch-dest" := "empty",
    "sec-fetch-mode" := "cors",
    "sec-fetch-site" := "same-origin"
  ]

  const BearerPrefix := "Bearer "

  /** initHeaders: the fixed headers, a bearer authorization and the raw token. */
  function InitHeaders(authToken: string): (h: map<string, string>)
    ensures h.Keys == BaseHeaders.Keys + {"authorization", "token"}
    ensures forall k :: k in BaseHeaders ==> h[k] == BaseHeaders[k]
    ensures h["token"] == authToken
    ensures BearerToken(h["authorization"]) == Some(authToken)
  {
    BaseHeaders["authorization" := BearerPrefix + authToken]["token" := authToken]
  }

  /** The token of a bearer authorization value. */
  function BearerToken(value: string): Option<string> {
    if StartsWith(value, BearerPrefix) then Some(value[|BearerPrefix|..]) else None
  }
}
