/** The Pharminto client's API base: the Codespaces backend when the hostname
    contains "app.github.dev", the local backend otherwise. */
module PharmintoApi {
  import opened JsStrings
  import GeminiApi

  /** `API_BASE`, as a function of `window.location.hostname` and `.protocol`. */
  function ApiBase(hostname: string, protocol: string): (url: string)
    ensures EndsWith(url, "/api")
  {
    if Contains(hostname, GeminiApi.CodespacesSuffix) then GeminiApi.CodespacesApi(hostname, protocol)
    else GeminiApi.LocalApi
  }

  /** Any hostname that does not contain the Codespaces suffix gets the local backend. */
  lemma ElsewhereLocal(hostname: string, protocol: string)
    requires !Contains(hostname, GeminiApi.CodespacesSuffix)
    ensures ApiBase(hostname, protocol) == "http://localhost:5000/api"
  {
  }

  /** On Codespaces the first "-3000" of the hostname becomes "-5000", the rest is kept. */
  lemma CodespacesPortRewritten(hostname: string, protocol: string, i: nat)
    requires Contains(hostname, GeminiApi.CodespacesSuffix)
    requires IsAt(hostname, "-3000", i) && forall j :: 0 <= j < i ==> !IsAt(hostname, "-3000", j)
    ensures ApiBase(hostname, protocol) == protocol + "//" + hostname[..i] + "-5000" + hostname[i + 5..] + "/api"
  {
    ReplaceAtFirst(hostname, "-3000", "-5000", i);
  }

  /** A Codespaces hostname without "-3000" is used as it is. */
  lemma CodespacesWithoutPort(hostname: string, protocol: string)
    requires Contains(hostname, GeminiApi.CodespacesSuffix) && !Contains(hostname, "-3000")
    ensures ApiBase(hostname, protocol) == protocol + "//" + hostname + "/api"
  {
  }

  /** The two clients agree on every hostname that ends in the Codespaces suffix and on
      the local hostnames; a hostname that merely contains the suffix is sent to that
      host by Pharminto but to the relative "/api" by Gemini. */
  lemma ClientsCompared(hostname: string, protocol: string)
    ensures EndsWith(hostname, GeminiApi.CodespacesSuffix) ==>
              ApiBase(hostname, protocol) == GeminiApi.BaseUrl(hostname, protocol)
    ensures GeminiApi.IsLocalHost(hostname) ==>
              ApiBase(hostname, protocol) == GeminiApi.BaseUrl(hostname, protocol)
    ensures Contains(hostname, GeminiApi.CodespacesSuffix) && !EndsWith(hostname, GeminiApi.CodespacesSuffix) ==>
              ApiBase(hostname, protocol) == GeminiApi.CodespacesApi(hostname, protocol) &&
              GeminiApi.BaseUrl(hostname, protocol) == "/api"
  {
    if EndsWith(hostname, GeminiApi.CodespacesSuffix) {
      EndsWithContains(hostname, GeminiApi.CodespacesSuffix);
    }
    if GeminiApi.IsLocalHost(hostname) {
      assert !Contains(hostname, GeminiApi.CodespacesSuffix);
    }
  }
}
