/**
 * Building URLs for the workflow back end: a configured base URL is joined to
 * a path with exactly one slash between them.
 */
module N8nClient {
  import opened Common

  const NotConfigured: string := "N8N base URL not configured"

  /** The back end is configured when the base URL is set, non-empty and starts with "http". */
  predicate HasN8n(base: Option<string>) {
    base.Some? && base.value != "" && IsPrefix("http", base.value)
  }

  /** `replace(/\/+$/, '')`: drops every trailing slash. */
  function TrimTrailingSlashes(s: string): (r: string)
    ensures IsPrefix(r, s)
    ensures r == [] || r[|r| - 1] != '/'
    ensures forall i :: |r| <= i < |s| ==> s[i] == '/'
  {
    if s != [] && s[|s| - 1] == '/' then TrimTrailingSlashes(s[..|s| - 1]) else s
  }

  /** `replace(/^\/+/, '')`: drops every leading slash. */
  function TrimLeadingSlashes(s: string): (r: string)
    ensures IsSuffix(r, s)
    ensures r == [] || r[0] != '/'
    ensures forall i :: 0 <= i < |s| - |r| ==> s[i] == '/'
  {
    if s != [] && s[0] == '/' then TrimLeadingSlashes(s[1..]) else s
  }

  /** The URL of `path` on the back end, or the error thrown when none is configured. */
  function N8nUrl(base: Option<string>, path: string): (r: Result<string>)
    ensures !HasN8n(base) <==> r == Err(NotConfigured)
    ensures HasN8n(base) ==> r.Ok? && IsPrefix("http", r.value)
  {
    if !HasN8n(base) then Err(NotConfigured)
    else
      var head := TrimTrailingSlashes(base.value);
      StartsWithHttp(base.value);
      Ok(head + "/" + TrimLeadingSlashes(path))
  }

  /** A base starting with "http" keeps that start once its trailing slashes go. */
  lemma StartsWithHttp(base: string)
    requires IsPrefix("http", base)
    ensures IsPrefix("http", TrimTrailingSlashes(base) + "/")
  {
    var head := TrimTrailingSlashes(base);
    assert base[3] == 'p';
    assert |head| >= 4;
    assert head[..4] == base[..4];
  }

  /** The joined URL has exactly one slash at the seam: the base's own slashes are gone, and so are the path's. */
  lemma OneSlashAtSeam(base: string, path: string)
    requires HasN8n(Some(base))
    ensures var url := N8nUrl(Some(base), path).value;
            var head := TrimTrailingSlashes(base);
            var tail := TrimLeadingSlashes(path);
            url == head + "/" + tail &&
            url[|head|] == '/' &&
            (head == [] || url[|head| - 1] != '/') &&
            (tail == [] || url[|head| + 1] != '/')
  {
  }

  /** Leading slashes on the path do not change the URL. */
  lemma LeadingSlashIgnored(base: Option<string>, path: string)
    ensures N8nUrl(base, "/" + path) == N8nUrl(base, path)
  {
    assert ("/" + path)[1..] == path;
  }

  /** Trailing slashes on a configured base do not change the URL. */
  lemma TrailingSlashIgnored(base: string, path: string)
    requires HasN8n(Some(base))
    ensures HasN8n(Some(base + "/"))
    ensures N8nUrl(Some(base + "/"), path) == N8nUrl(Some(base), path)
  {
    assert (base + "/")[..|base|] == base;
    assert (base + "/")[..4] == base[..4];
  }

  /** A slash-free base and a path without a leading slash are joined as written. */
  lemma PlainJoin(base: string, path: string)
    requires HasN8n(Some(base)) && base[|base| - 1] != '/'
    requires path == [] || path[0] != '/'
    ensures N8nUrl(Some(base), path) == Ok(base + "/" + path)
  {
  }

  /** A path without a leading slash ends the URL as written, right after a slash. */
  lemma PathIsSuffix(base: string, path: string)
    requires HasN8n(Some(base))
    requires path == [] || path[0] != '/'
    ensures IsSuffix("/" + path, N8nUrl(Some(base), path).value)
  {
    var head := TrimTrailingSlashes(base);
    assert head + "/" + path == head + ("/" + path);
  }

  /** A configuration that does not start with "http" is refused whatever the path. */
  lemma NonHttpRefused(path: string)
    ensures N8nUrl(Some("ftp://host"), path) == Err(NotConfigured)
    ensures N8nUrl(Some(""), path) == Err(NotConfigured)
    ensures N8nUrl(None, path) == Err(NotConfigured)
  {
    assert "ftp://host"[0] == 'f';
    assert "ftp://host"[..4][0] != "http"[0];
  }
}
