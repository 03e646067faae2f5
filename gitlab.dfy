/** The GitLab client of `src/git_api/gitlab.rs`: the projects of a user or
    of a group (with its subgroups), listed through the v4 API with the
    collection path escaped into one URL segment; the number of pages comes
    from the `x-total-pages` header of a first probe. */
module Gitlab {
  import opened Common
  import opened GitApi

  // ---------------------------------------------------------------- repositories

  /** `GitlabRepo` decoded from one element of the listing: the fields
      `ssh_url_to_repo`, `http_url_to_repo` and `path_with_namespace`, which
      the `Repo` accessors report as the SSH URL, the HTTP URL and the full
      path. */
  function DecodeRepo(j: Json): (r: Option<Repo>)
    ensures r.Some? <==> (j.JObject? && StringField(j.fields, "ssh_url_to_repo").Some?
      && StringField(j.fields, "http_url_to_repo").Some? && StringField(j.fields, "path_with_namespace").Some?)
    ensures r.Some? ==> r.value.sshUrl == j.fields["ssh_url_to_repo"].s
    ensures r.Some? ==> r.value.httpUrl == j.fields["http_url_to_repo"].s
    ensures r.Some? ==> r.value.fullPath == j.fields["path_with_namespace"].s
  {
    if !j.JObject? then None
    else
      match (StringField(j.fields, "ssh_url_to_repo"), StringField(j.fields, "http_url_to_repo"),
             StringField(j.fields, "path_with_namespace"))
      case (Some(ssh), Some(http), Some(full)) => Some(Repo(ssh, http, full))
      case _ => None
  }

  /** The JSON object GitLab sends for a project (with possibly more
      fields). */
  function RepoObject(r: Repo, extra: map<string, Json>): Json {
    JObject(extra["ssh_url_to_repo" := JString(r.sshUrl)]["http_url_to_repo" := JString(r.httpUrl)]
      ["path_with_namespace" := JString(r.fullPath)])
  }

  /** Decoding gives back the project whatever other fields come with it. */
  lemma DecodeRepoObject(r: Repo, extra: map<string, Json>)
    ensures DecodeRepo(RepoObject(r, extra)) == Some(r)
  {
  }

  // ---------------------------------------------------------------- requests

  function CollectionType(user: bool): (r: string)
    ensures r == "users" <==> user
    ensures r == "groups" <==> !user
  {
    if user then "users" else "groups"
  }

  /** The collection path as one URL segment: every `/` becomes `%2F`. */
  function Escape(name: string): (r: string)
    ensures '/' !in r
  {
    ReplaceChar(name, '/', "%2F")
  }

  /** Turning each `%2F` back into `/`. */
  function Unescape(s: string): string
    decreases |s|
  {
    if s == [] then []
    else if IsPrefix("%2F", s) then "/" + Unescape(s[3..])
    else [s[0]] + Unescape(s[1..])
  }

  /** The escaping loses nothing for a path without `%`: the group or user
      is recovered from its segment. */
  lemma {:induction false} UnescapeEscape(name: string)
    requires '%' !in name
    ensures Unescape(Escape(name)) == name
  {
    if name != [] {
      var rest := Escape(name[1..]);
      UnescapeEscape(name[1..]);
      if name[0] == '/' {
        assert Escape(name) == "%2F" + rest;
        assert ("%2F" + rest)[3..] == rest;
      } else {
        assert Escape(name) == [name[0]] + rest;
        assert ([name[0]] + rest)[1..] == rest;
      }
    }
  }

  function Endpoint(baseaddress: string, user: bool, name: string): string {
    baseaddress + "/api/v4/" + CollectionType(user) + "/" + Escape(name) + "/projects"
  }

  /** The path of a `<path>/projects` segment, unescaped. */
  function ProjectsSegment(s: string): Option<string> {
    if |s| >= 9 && s[|s| - 9..] == "/projects" then Some(Unescape(s[..|s| - 9])) else None
  }

  /** The part of a listing endpoint before the escaped path. */
  function CollectionPrefix(baseaddress: string, user: bool): string {
    baseaddress + "/api/v4/" + CollectionType(user) + "/"
  }

  /** Reading the collection back out of a listing endpoint: its kind and
      its unescaped path. */
  function CollectionOf(baseaddress: string, endpoint: string): (r: Option<(bool, string)>) {
    match StripPrefix(endpoint, CollectionPrefix(baseaddress, true))
    case Some(rest) =>
      (match ProjectsSegment(rest) case Some(n) => Some((true, n)) case None => None)
    case None =>
      match StripPrefix(endpoint, CollectionPrefix(baseaddress, false))
      case Some(rest) =>
        (match ProjectsSegment(rest) case Some(n) => Some((false, n)) case None => None)
      case None => None
  }

  /** The endpoint determines the collection: different users or groups
      (paths without `%`) are listed through different URLs. */
  lemma EndpointInverse(baseaddress: string, user: bool, name: string)
    requires '%' !in name
    ensures CollectionOf(baseaddress, Endpoint(baseaddress, user, name)) == Some((user, name))
  {
    var tail := Escape(name) + "/projects";
    SegmentOfTail(name);
    var pre := CollectionPrefix(baseaddress, user);
    assert Endpoint(baseaddress, user, name) == pre + tail;
    StripConcat(pre, tail);
    if !user {
      GroupsAreNotUsers(baseaddress, tail);
    }
  }

  lemma SegmentOfTail(name: string)
    requires '%' !in name
    ensures ProjectsSegment(Escape(name) + "/projects") == Some(name)
  {
    var e := Escape(name);
    var tail := e + "/projects";
    assert tail[|tail| - 9..] == "/projects" && tail[..|tail| - 9] == e;
    UnescapeEscape(name);
  }

  lemma StripConcat(p: string, t: string)
    ensures StripPrefix(p + t, p) == Some(t)
  {
    assert (p + t)[..|p|] == p;
    assert (p + t)[|p|..] == t;
  }

  lemma GroupsAreNotUsers(baseaddress: string, t: string)
    ensures StripPrefix(CollectionPrefix(baseaddress, false) + t, CollectionPrefix(baseaddress, true)) == None
  {
    var users, groups := CollectionPrefix(baseaddress, true), CollectionPrefix(baseaddress, false);
    var i := |baseaddress| + 8;
    assert groups == (baseaddress + "/api/v4/") + "groups" + "/";
    assert (groups + t)[i] == 'g';
    assert users[i] == 'u';
  }

  /** With a token: `Private-Token` carrying the token as is, and a
      `User-Agent`; without one, no headers. */
  function Headers(pat: Option<string>): (r: Option<seq<Pair>>)
    ensures r.None? <==> pat.None?
    ensures pat.Some? ==> r.value == [("Private-Token", pat.value), ("User-Agent", "grgry")]
  {
    match pat
    case None => None
    case Some(token) => Some([("Private-Token", token), ("User-Agent", "grgry")])
  }

  /** The query of every listing request, before its page number: projects
      of subgroups too, in the short form. */
  const ListingParams: seq<Pair> := [("include_subgroups", "true"), ("simple", "true"), ("per_page", PerPage)]

  /** The query of the probe: the same, asking for page 1. */
  const ProbeParams: seq<Pair> := [("include_subgroups", "true"), ("simple", "true"), ("page", "1"), ("per_page", PerPage)]

  // ---------------------------------------------------------------- page count

  /** `get_page_number`, once the probe's response is in: the `i32` in the
      `x-total-pages` header. There is no default: a missing header, one
      that is not visible ASCII, or one that is not an integer panics. */
  function PageCount(headers: map<string, string>): (r: Run<int>)
    ensures r != Exit
    ensures r.Ok? <==> ("x-total-pages" in headers && VisibleAscii(headers["x-total-pages"])
      && ParseI32(headers["x-total-pages"]).Some?)
    ensures r.Ok? ==> Some(r.value) == ParseI32(headers["x-total-pages"])
  {
    if "x-total-pages" !in headers then Panic
    else
      var v := headers["x-total-pages"];
      if !VisibleAscii(v) then Panic
      else match ParseI32(v)
        case None => Panic
        case Some(n) => Ok(n)
  }

  /** The header GitLab sends, the page count printed in decimal, reads
      back as that count. */
  lemma PageCountOfTotal(headers: map<string, string>, total: nat)
    requires total <= I32Max
    requires "x-total-pages" in headers && headers["x-total-pages"] == NatToString(total)
    ensures PageCount(headers) == Ok(total)
  {
    ParseNatToString(total);
    var v := NatToString(total);
    assert VisibleAscii(v) by {
      assert AllDigits(v);
    }
  }
}
