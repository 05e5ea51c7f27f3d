/** Rewriting resource URIs between an Orb's own form and the gateway's. */
module ResourceUri {
  import opened Wrappers

  const SCHEME := "orb://"

  function StripScheme(uri: string): Option<string> {
    if SCHEME <= uri then Some(uri[|SCHEME|..]) else None
  }

  function FindSlash(s: string): (r: Option<nat>)
    ensures r.Some? ==> r.value < |s| && s[r.value] == '/' && forall i :: 0 <= i < r.value ==> s[i] != '/'
    ensures r.None? ==> forall i :: 0 <= i < |s| ==> s[i] != '/'
  {
    if s == "" then None
    else if s[0] == '/' then Some(0)
    else
      match FindSlash(s[1..])
      case None => None
      case Some(n) => Some(n + 1)
  }

  /** The slug, and the rest beginning with its slash. */
  function Split(uri: string): Option<(string, string)> {
    match StripScheme(uri)
    case None => None
    case Some(rest) =>
      match FindSlash(rest)
      case None => None
      case Some(n) => if n == 0 then None else Some((rest[..n], rest[n..]))
  }

  function TrimSlashes(s: string): string {
    if s != "" && s[0] == '/' then TrimSlashes(s[1..]) else s
  }

  function ToNative(uri: string): Option<string> {
    match Split(uri)
    case None => None
    case Some(parts) => Some(SCHEME + TrimSlashes(parts.1))
  }

  function ToNamespaced(slug: string, uri: string): Option<string> {
    match StripScheme(uri)
    case None => None
    case Some(rest) => if rest == "" then None else Some(SCHEME + slug + "/" + rest)
  }

  predicate SlashFree(s: string) {
    forall i :: 0 <= i < |s| ==> s[i] != '/'
  }

  /** A path the gateway can strip and restore. */
  predicate IsPlainPath(path: string) {
    path != "" && path[0] != '/'
  }

  lemma {:induction false} TrimSlashesIsSuffix(s: string)
    ensures |TrimSlashes(s)| <= |s| && s[|s| - |TrimSlashes(s)|..] == TrimSlashes(s)
    ensures TrimSlashes(s) == s <==> s == "" || s[0] != '/'
    ensures TrimSlashes(s) != "" ==> TrimSlashes(s)[0] != '/'
  {
    if s != "" && s[0] == '/' {
      TrimSlashesIsSuffix(s[1..]);
    }
  }

  lemma StripOf(rest: string)
    ensures StripScheme(SCHEME + rest) == Some(rest)
  {}

  /** Every URI that splits is the scheme, the slug and the remainder, the slug not empty and free of slashes. */
  lemma SplitIff(uri: string, slug: string, rest: string)
    ensures Split(uri) == Some((slug, rest)) <==> uri == "orb://" + slug + rest && slug != "" && SlashFree(slug) && rest != "" && rest[0] == '/'
  {
    if uri == SCHEME + slug + rest && slug != "" && SlashFree(slug) && rest != "" && rest[0] == '/' {
      assert uri == SCHEME + (slug + rest);
      StripOf(slug + rest);
      var s := slug + rest;
      assert s[|slug|] == '/';
      assert FindSlash(s) == Some(|slug|) by {
        assert forall i :: 0 <= i < |slug| ==> s[i] == slug[i];
      }
      assert s[..|slug|] == slug && s[|slug|..] == rest;
    }
    if Split(uri) == Some((slug, rest)) {
      var s := uri[|SCHEME|..];
      assert uri == SCHEME + s && s == slug + rest;
    }
  }

  /** A native URI, made the gateway's: it names the slug and comes back unchanged exactly for a plain path. */
  lemma NativeRoundTripIff(slug: string, path: string)
    requires path != ""
    ensures var uri := ToNamespaced(slug, SCHEME + path);
            && uri == Some(SCHEME + slug + "/" + path)
            && (Split(uri.value) == Some((slug, "/" + path)) && ToNative(uri.value) == Some(SCHEME + path)
                <==> slug != "" && SlashFree(slug) && IsPlainPath(path))
  {
    StripOf(path);
    var uri := SCHEME + slug + "/" + path;
    var rest := "/" + path;
    assert uri == SCHEME + slug + rest;
    SplitIff(uri, slug, rest);
    assert rest[1..] == path;
    TrimSlashesIsSuffix(path);
    if Split(uri) == Some((slug, rest)) && ToNative(uri) == Some(SCHEME + path) {
      assert SCHEME + TrimSlashes(path) == SCHEME + path;
      assert (SCHEME + path)[|SCHEME|..] == path && (SCHEME + TrimSlashes(path))[|SCHEME|..] == TrimSlashes(path);
    }
  }

  /** A gateway URI, made native and back: unchanged exactly if one slash and a plain path follow the slug. */
  lemma NamespacedRoundTripIff(uri: string)
    requires Split(uri).Some?
    ensures var (slug, rest) := Split(uri).value;
            ToNamespaced(slug, ToNative(uri).value) == Some(uri) <==> IsPlainPath(rest[1..])
  {
    var (slug, rest) := Split(uri).value;
    SplitIff(uri, slug, rest);
    var path := TrimSlashes(rest);
    StripOf(path);
    OneSlashIff(rest);
    assert SCHEME + slug + "/" + path == (SCHEME + slug) + ("/" + path);
    CancelPrefix(SCHEME + slug, "/" + path, rest);
  }

  lemma CancelPrefix(a: string, b: string, c: string)
    ensures a + b == a + c <==> b == c
  {
    assert (a + b)[|a|..] == b && (a + c)[|a|..] == c;
  }

  /** Trimming takes exactly one slash, and leaves something, exactly before a plain path. */
  lemma OneSlashIff(rest: string)
    requires rest != "" && rest[0] == '/'
    ensures TrimSlashes(rest) != "" && "/" + TrimSlashes(rest) == rest <==> IsPlainPath(rest[1..])
  {
    var path := TrimSlashes(rest);
    assert path == TrimSlashes(rest[1..]);
    TrimSlashesIsSuffix(rest[1..]);
    assert ("/" + path)[1..] == path;
    assert rest == "/" + rest[1..];
  }
}
