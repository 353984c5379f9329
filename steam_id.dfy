/**
 * `resolveToSteamId64` and `resolveVanity` (lib/steam.ts): classify what a
 * user typed (a profile URL, a vanity URL, a bare 64-bit id or a vanity
 * name) and turn it into a 17-digit SteamID64. URL parsing and the keyed
 * vanity lookup over the network are parameters.
 */
module SteamId {
  import opened Common

  // ---------- String.prototype.trim ----------

  /** The characters `trim` removes: ECMAScript white space and line terminators. */
  predicate IsJsSpace(c: char) {
    || c == '\t' || c == '\n' || c == '\U{000B}' || c == '\U{000C}' || c == '\r' || c == ' '
    || c == '\U{00A0}' || c == '\U{1680}' || ('\U{2000}' <= c <= '\U{200A}')
    || c == '\U{2028}' || c == '\U{2029}' || c == '\U{202F}' || c == '\U{205F}'
    || c == '\U{3000}' || c == '\U{FEFF}'
  }

  function TrimStart(s: string): (r: string)
    ensures |r| <= |s| && r == s[|s| - |r|..]
    ensures forall i :: 0 <= i < |s| - |r| ==> IsJsSpace(s[i])
    ensures r != [] ==> !IsJsSpace(r[0])
  {
    if s == [] || !IsJsSpace(s[0]) then s else TrimStart(s[1..])
  }

  function TrimEnd(s: string): (r: string)
    ensures |r| <= |s| && r == s[..|r|]
    ensures forall i :: |r| <= i < |s| ==> IsJsSpace(s[i])
    ensures r != [] ==> !IsJsSpace(r[|r| - 1])
  {
    if s == [] || !IsJsSpace(s[|s| - 1]) then s else TrimEnd(s[..|s| - 1])
  }

  /**
   * `trim`: the run of `s` between its leading and its trailing white
   * space, starting and ending with a character that is not white space.
   */
  function Trim(s: string): (t: string)
    ensures var k := |s| - |TrimStart(s)|;
      && k + |t| <= |s| && t == s[k..k + |t|]
      && (forall i :: 0 <= i < k ==> IsJsSpace(s[i]))
      && (forall i :: k + |t| <= i < |s| ==> IsJsSpace(s[i]))
    ensures t != [] ==> !IsJsSpace(t[0]) && !IsJsSpace(t[|t| - 1])
  {
    TrimEnd(TrimStart(s))
  }

  /** Trimming leaves nothing exactly when the input is all white space. */
  lemma TrimEmptyIffBlank(s: string)
    ensures Trim(s) == [] <==> forall i :: 0 <= i < |s| ==> IsJsSpace(s[i])
  {
    var t := TrimStart(s);
    assert t != [] ==> !IsJsSpace(t[0]) && TrimEnd(t) != [];
  }

  /** Trimming text that neither starts nor ends with white space changes nothing. */
  lemma TrimUnpadded(s: string)
    requires s != [] && !IsJsSpace(s[0]) && !IsJsSpace(s[|s| - 1])
    ensures Trim(s) == s
  {
  }

  // ---------- The patterns ----------

  /** `/^\d{17}$/`: exactly seventeen ASCII digits. */
  predicate IsSteamId64(s: string) {
    |s| == 17 && AllDigits(s)
  }

  /** The leftmost position `from <= i < n` where `at` holds. */
  function FirstFrom(n: nat, at: nat -> bool, from: nat): (r: Option<nat>)
    ensures r.None? <==> forall i: nat :: from <= i < n ==> !at(i)
    ensures r.Some? ==> from <= r.value < n && at(r.value)
    ensures r.Some? ==> forall i: nat :: from <= i < r.value ==> !at(i)
    decreases n - from
  {
    if from >= n then None
    else if at(from) then Some(from)
    else FirstFrom(n, at, from + 1)
  }

  const ProfilesTag: string := "/profiles/"
  const IdTag: string := "/id/"

  /** `/\/profiles\/(\d{17})/` matches at `i`. */
  predicate ProfilesAt(s: string, i: nat) {
    i + 27 <= |s| && s[i..i + 10] == ProfilesTag && AllDigits(s[i + 10..i + 27])
  }

  /** `/\/id\/([^\/]+)/` matches at `i`: the tag and at least one character other than '/'. */
  predicate IdAt(s: string, i: nat) {
    i + 5 <= |s| && s[i..i + 4] == IdTag && s[i + 4] != '/'
  }

  function FindProfiles(s: string): Option<nat> {
    FirstFrom(|s|, (i: nat) => ProfilesAt(s, i), 0)
  }

  function FindId(s: string): Option<nat> {
    FirstFrom(|s|, (i: nat) => IdAt(s, i), 0)
  }

  /** Where the run of non-'/' characters starting at `j` ends. */
  function SegmentEnd(s: string, j: nat): (e: nat)
    requires j <= |s|
    ensures j <= e <= |s|
    ensures forall k :: j <= k < e ==> s[k] != '/'
    ensures e == |s| || s[e] == '/'
    decreases |s| - j
  {
    if j == |s| || s[j] == '/' then j else SegmentEnd(s, j + 1)
  }

  /** The greedy capture `([^\/]+)` after the `/id/` at `i`. */
  function VanitySegment(s: string, i: nat): (v: string)
    requires IdAt(s, i)
    ensures v != [] && '/' !in v
    ensures i + 4 + |v| <= |s| && s[i + 4..i + 4 + |v|] == v
    ensures i + 4 + |v| == |s| || s[i + 4 + |v|] == '/'
  {
    var e := SegmentEnd(s, i + 4);
    assert s[i + 4..e][0] == s[i + 4];
    s[i + 4..e]
  }

  /** `.replace(/\/$/, '')`: one trailing '/' removed. */
  function StripTrailingSlash(p: string): (r: string)
    ensures p != [] && p[|p| - 1] == '/' ==> p == r + "/"
    ensures (p == [] || p[|p| - 1] != '/') ==> r == p
  {
    if p != [] && p[|p| - 1] == '/' then p[..|p| - 1] else p
  }

  /** The text classified: the URL's pathname when `new URL` accepts the input, else the input. */
  function Candidate(trimmed: string, parseUrl: string -> Option<string>): string {
    match parseUrl(trimmed)
    case None => trimmed
    case Some(path) => StripTrailingSlash(path)
  }

  // ---------- Resolution ----------

  /**
   * `resolveVanity`: without a (non-empty) key only a 17-digit id is
   * accepted, as itself; with one, the answer of the Steam lookup.
   */
  function ResolveVanity(vanity: string, apiKey: Option<string>,
                         lookup: string -> Option<string>): (r: Option<string>)
    ensures !Configured(apiKey) ==> (r.Some? <==> IsSteamId64(vanity))
    ensures !Configured(apiKey) && r.Some? ==> r.value == vanity
    ensures Configured(apiKey) ==> r == lookup(vanity)
  {
    if !Configured(apiKey) then (if IsSteamId64(vanity) then Some(vanity) else None)
    else lookup(vanity)
  }

  /** The pattern tests of `resolveToSteamId64`, in order, on the candidate text. */
  function Classify(c: string, apiKey: Option<string>, lookup: string -> Option<string>): (r: Option<string>)
    ensures FindProfiles(c).Some? ==> r.Some? && IsSteamId64(r.value)
    ensures FindProfiles(c).Some? ==>
      var i := FindProfiles(c).value;
      i + 27 <= |c| && c[i..i + 10] == ProfilesTag && r == Some(c[i + 10..i + 27])
    ensures FindProfiles(c).None? && FindId(c).Some? ==>
      IdAt(c, FindId(c).value) && r == ResolveVanity(VanitySegment(c, FindId(c).value), apiKey, lookup)
    ensures FindProfiles(c).None? && FindId(c).None? ==>
      r == (if IsSteamId64(c) then Some(c) else ResolveVanity(c, apiKey, lookup))
    ensures !Configured(apiKey) && r.Some? ==> IsSteamId64(r.value)
  {
    match FindProfiles(c)
    case Some(i) => Some(c[i + 10..i + 27])
    case None =>
      match FindId(c)
      case Some(i) => ResolveVanity(VanitySegment(c, i), apiKey, lookup)
      case None => if IsSteamId64(c) then Some(c) else ResolveVanity(c, apiKey, lookup)
  }

  /** `resolveToSteamId64` */
  function ResolveToSteamId64(input: string, parseUrl: string -> Option<string>,
                              apiKey: Option<string>, lookup: string -> Option<string>): (r: Option<string>)
    ensures Trim(input) == [] ==> r.None?
    ensures !Configured(apiKey) && r.Some? ==> IsSteamId64(r.value)
    ensures var c := Candidate(Trim(input), parseUrl);
      Trim(input) != [] && FindProfiles(c).Some? ==>
        var i := FindProfiles(c).value;
        i + 27 <= |c| && r == Some(c[i + 10..i + 27]) && IsSteamId64(r.value)
    ensures var c := Candidate(Trim(input), parseUrl);
      Trim(input) != [] && FindProfiles(c).None? && FindId(c).Some? ==>
        IdAt(c, FindId(c).value) && r == ResolveVanity(VanitySegment(c, FindId(c).value), apiKey, lookup)
    ensures var c := Candidate(Trim(input), parseUrl);
      Trim(input) != [] && FindProfiles(c).None? && FindId(c).None? ==>
        r == (if IsSteamId64(c) then Some(c) else ResolveVanity(c, apiKey, lookup))
  {
    var trimmed := Trim(input);
    if trimmed == [] then None else Classify(Candidate(trimmed, parseUrl), apiKey, lookup)
  }

  // ---------- Properties ----------

  /** Empty or white-space-only input never resolves. */
  lemma BlankInputUnresolved(input: string, parseUrl: string -> Option<string>,
                             apiKey: Option<string>, lookup: string -> Option<string>)
    requires forall i :: 0 <= i < |input| ==> IsJsSpace(input[i])
    ensures ResolveToSteamId64(input, parseUrl, apiKey, lookup).None?
  {
    TrimEmptyIffBlank(input);
  }

  /** A 17-digit id typed as is (and not taken for a URL) resolves to itself. */
  lemma BareIdResolvesToItself(id: string, parseUrl: string -> Option<string>,
                               apiKey: Option<string>, lookup: string -> Option<string>)
    requires IsSteamId64(id) && parseUrl(id).None?
    ensures ResolveToSteamId64(id, parseUrl, apiKey, lookup) == Some(id)
  {
    TrimUnpadded(id);
    assert FindProfiles(id).None?;
    assert FindId(id).None?;
  }

  /** A URL path with or without one trailing '/' gives the same candidate. */
  lemma CandidateOfPath(trimmed: string, parseUrl: string -> Option<string>, path: string)
    requires path != [] && path[|path| - 1] != '/'
    requires parseUrl(trimmed) == Some(path + "/") || parseUrl(trimmed) == Some(path)
    ensures Candidate(trimmed, parseUrl) == path
  {
    var p := parseUrl(trimmed).value;
    if p == path + "/" {
      assert p[..|p| - 1] == path;
    }
  }

  lemma ProfilePathClassifies(id: string, apiKey: Option<string>, lookup: string -> Option<string>)
    requires IsSteamId64(id)
    ensures Classify(ProfilesTag + id, apiKey, lookup) == Some(id)
  {
    var c := ProfilesTag + id;
    assert c[0..10] == ProfilesTag && c[10..27] == id;
    assert ProfilesAt(c, 0);
    assert FindProfiles(c) == Some(0);
  }

  /** A profile URL, with or without its trailing '/', resolves to its id without any lookup. */
  lemma ProfileUrlResolves(input: string, id: string, parseUrl: string -> Option<string>,
                           apiKey: Option<string>, lookup: string -> Option<string>)
    requires IsSteamId64(id) && Trim(input) != []
    requires parseUrl(Trim(input)) == Some(ProfilesTag + id + "/")
          || parseUrl(Trim(input)) == Some(ProfilesTag + id)
    ensures ResolveToSteamId64(input, parseUrl, apiKey, lookup) == Some(id)
  {
    assert (ProfilesTag + id)[26] == id[16];
    CandidateOfPath(Trim(input), parseUrl, ProfilesTag + id);
    ProfilePathClassifies(id, apiKey, lookup);
  }

  lemma SlashesOfIdPath(v: string)
    requires '/' !in v
    ensures forall i :: 0 <= i < |IdTag + v| && (IdTag + v)[i] == '/' ==> i == 0 || i == 3
  {
    assert forall i :: 4 <= i < |IdTag + v| ==> (IdTag + v)[i] == v[i - 4];
  }

  lemma SlashesOfProfilesMatch(c: string, i: nat)
    ensures ProfilesAt(c, i) ==> c[i] == '/' && c[i + 9] == '/'
  {
    if ProfilesAt(c, i) {
      assert c[i..i + 10][0] == c[i] && c[i..i + 10][9] == c[i + 9];
    }
  }

  lemma SlashOfIdMatch(c: string, i: nat)
    ensures IdAt(c, i) ==> c[i] == '/'
  {
    if IdAt(c, i) {
      assert c[i..i + 4][0] == c[i];
    }
  }

  lemma NoProfilesInIdPath(v: string)
    requires v != [] && '/' !in v
    ensures FindProfiles(IdTag + v).None?
  {
    var c := IdTag + v;
    SlashesOfIdPath(v);
    forall i: nat | i < |c| ensures !ProfilesAt(c, i) {
      SlashesOfProfilesMatch(c, i);
    }
  }

  lemma IdPathClassifies(v: string, apiKey: Option<string>, lookup: string -> Option<string>)
    requires v != [] && '/' !in v
    ensures Classify(IdTag + v, apiKey, lookup) == ResolveVanity(v, apiKey, lookup)
  {
    var c := IdTag + v;
    NoProfilesInIdPath(v);
    assert c[0..4] == IdTag && c[4] == v[0];
    assert IdAt(c, 0);
    assert FindId(c) == Some(0);
    var e := SegmentEnd(c, 4);
    assert forall k :: 4 <= k < |c| ==> c[k] == v[k - 4];
    assert e == |c|;
    assert c[4..] == v;
    assert VanitySegment(c, 0) == v;
  }

  /**
   * A vanity URL (`/id/<name>`, with or without its trailing '/') goes to
   * the vanity resolution with exactly that name.
   */
  lemma VanityUrlResolves(input: string, v: string, parseUrl: string -> Option<string>,
                          apiKey: Option<string>, lookup: string -> Option<string>)
    requires v != [] && '/' !in v && Trim(input) != []
    requires parseUrl(Trim(input)) == Some(IdTag + v + "/") || parseUrl(Trim(input)) == Some(IdTag + v)
    ensures ResolveToSteamId64(input, parseUrl, apiKey, lookup) == ResolveVanity(v, apiKey, lookup)
  {
    assert (IdTag + v)[|IdTag + v| - 1] == v[|v| - 1];
    CandidateOfPath(Trim(input), parseUrl, IdTag + v);
    IdPathClassifies(v, apiKey, lookup);
  }

  /**
   * Text that `new URL` rejects, such as `steamcommunity.com/profiles/<id>/`
   * typed without a scheme, is matched as it stands: the first `/profiles/`
   * after a host without '/' gives the id.
   */
  lemma SchemelessProfileResolves(host: string, id: string, rest: string, parseUrl: string -> Option<string>,
                                  apiKey: Option<string>, lookup: string -> Option<string>)
    requires IsSteamId64(id)
    requires forall k :: 0 <= k < |host| ==> host[k] != '/' && !IsJsSpace(host[k])
    requires rest == [] || !IsJsSpace(rest[|rest| - 1])
    requires parseUrl(host + ProfilesTag + id + rest).None?
    ensures ResolveToSteamId64(host + ProfilesTag + id + rest, parseUrl, apiKey, lookup) == Some(id)
  {
    var input := host + ProfilesTag + id + rest;
    var h := |host|;
    assert input[h..h + 10] == ProfilesTag && input[h + 10..h + 27] == id;
    assert input[0] == (if host == [] then '/' else host[0]);
    assert input[|input| - 1] == (if rest == [] then id[16] else rest[|rest| - 1]);
    TrimUnpadded(input);
    assert Candidate(Trim(input), parseUrl) == input;
    var at := (i: nat) => ProfilesAt(input, i);
    assert at(h);
    forall k: nat | k < h ensures !at(k) {
      SlashesOfProfilesMatch(input, k);
      assert input[k] == host[k];
    }
    var found := FirstFrom(|input|, at, 0);
    assert found == FindProfiles(input);
    assert found.Some? && found.value == h;
  }

  /** A bare name without '/' that is not a URL goes to the vanity resolution as typed. */
  lemma BareNameResolves(name: string, parseUrl: string -> Option<string>,
                         apiKey: Option<string>, lookup: string -> Option<string>)
    requires name != [] && !IsJsSpace(name[0]) && !IsJsSpace(name[|name| - 1])
    requires '/' !in name && parseUrl(name).None?
    ensures ResolveToSteamId64(name, parseUrl, apiKey, lookup)
         == if IsSteamId64(name) then Some(name) else ResolveVanity(name, apiKey, lookup)
  {
    TrimUnpadded(name);
    var profilesAt := (i: nat) => ProfilesAt(name, i);
    forall k: nat | k < |name| ensures !profilesAt(k) {
      SlashesOfProfilesMatch(name, k);
    }
    assert FirstFrom(|name|, profilesAt, 0) == FindProfiles(name);
    var idAt := (i: nat) => IdAt(name, i);
    forall k: nat | k < |name| ensures !idAt(k) {
      SlashOfIdMatch(name, k);
    }
    assert FirstFrom(|name|, idAt, 0) == FindId(name);
  }
}
