/**
 * The vault file serializer's `file_url`: absolute storage URLs pass
 * through, relative ones are made absolute against the current request
 * when there is one. The request's `build_absolute_uri` is an input.
 */
module Vault {
  import opened Wrappers
  import opened Text

  function FileUrl(url: string, request: Option<string -> string>): (r: string)
    ensures StartsWith(url, "http") ==> r == url
    ensures !StartsWith(url, "http") && request.Some? ==> r == request.value(url)
    ensures !StartsWith(url, "http") && request.None? ==> r == url
  {
    if StartsWith(url, "http") then url
    else if request.Some? then request.value(url)
    else url
  }

  /** An absolute URL comes out the same whatever request, if any, is in the context. */
  lemma AbsoluteUrlIgnoresRequest(url: string, r1: Option<string -> string>, r2: Option<string -> string>)
    requires StartsWith(url, "http")
    ensures FileUrl(url, r1) == FileUrl(url, r2) == url
  {
  }

  /** When the request makes URLs absolute, every file URL is absolute. */
  lemma FileUrlAbsoluteWithRequest(url: string, absolute: string -> string)
    requires forall u :: StartsWith(absolute(u), "http")
    ensures StartsWith(FileUrl(url, Some(absolute)), "http")
  {
  }
}
