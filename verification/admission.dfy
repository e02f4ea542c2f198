/**
 Admission of a `/generate-pdf` request: the `url` query parameter must be
 truthy, and a URL without an `http://` or `https://` prefix is given
 `https://`.
 */
module Admission {
  import opened Strings
  import opened Http

  /** The `url` query parameter as the handler receives it. */
  datatype Param = Absent | Given(text: string)

  /** JavaScript falsiness of the parameter: `undefined` or the empty string. */
  predicate Falsy(p: Param) {
    p.Absent? || p.text == ""
  }

  const HttpPrefix := "http://"
  const HttpsPrefix := "https://"

  predicate HasScheme(url: string) {
    StartsWith(url, HttpPrefix) || StartsWith(url, HttpsPrefix)
  }

  /** The URL handed to the queue: the text itself when it already names a scheme, else `https://` in front of it. */
  function Normalize(url: string): (r: string)
    ensures HasScheme(r)
    ensures HasScheme(url) ==> r == url
    ensures EndsWith(r, url)
    ensures r == url || r[..|r| - |url|] == HttpsPrefix
  {
    if HasScheme(url) then url else HttpsPrefix + url
  }

  /** Normalisation leaves a URL alone exactly when it already names a scheme. */
  lemma NormalizeFixedIff(url: string)
    ensures Normalize(url) == url <==> HasScheme(url)
  {
    if !HasScheme(url) {
      assert |Normalize(url)| == |url| + |HttpsPrefix|;
    }
  }

  /** Normalising twice is normalising once. */
  lemma NormalizeIdempotent(url: string)
    ensures Normalize(Normalize(url)) == Normalize(url)
  {
  }

  /** The prefix test is case-sensitive: an upper-case scheme still gets `https://` in front. */
  lemma NormalizeUpperCaseScheme(rest: string)
    ensures Normalize("HTTP://" + rest) == HttpsPrefix + ("HTTP://" + rest)
  {
    var url := "HTTP://" + rest;
    assert url[0] == 'H';
    assert !StartsWith(url, HttpPrefix) by {
      assert HttpPrefix[0] == 'h';
    }
    assert !StartsWith(url, HttpsPrefix) by {
      assert HttpsPrefix[0] == 'h';
    }
  }

  datatype Verdict = Reject(response: Response) | Accept(url: string)

  /** The handler's decision: a 400 response for a falsy parameter, otherwise the normalised URL to enqueue. */
  function Admit(p: Param): (v: Verdict)
    ensures v.Reject? <==> Falsy(p)
    ensures v.Reject? ==> v.response.status == 400 && v.response.body == Json([("error", MissingUrlError)])
    ensures v.Accept? ==> HasScheme(v.url) && p.Given? && EndsWith(v.url, p.text)
    ensures v.Accept? && HasScheme(p.text) ==> v.url == p.text
    ensures v.Accept? && !HasScheme(p.text) ==> v.url == HttpsPrefix + p.text
  {
    if Falsy(p) then Reject(BadRequest) else Accept(Normalize(p.text))
  }
}
