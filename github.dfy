/** The GitHub client of `src/git_api/github.rs`: where the repositories of
    a user or an organisation are listed, with which headers and query
    parameters, how the number of pages is read from the `link` header of a
    first probe, and how a listed repository is decoded. */
module Github {
  import opened Common
  import opened GitApi

  // ---------------------------------------------------------------- repositories

  /** `GithubRepo` decoded from one element of the listing: the fields
      `ssh_url`, `clone_url` and `full_name`, which the `Repo` accessors
      report as the SSH URL, the HTTP URL and the full path. Other fields are
      ignored; a missing or non-string field is a decoding error. */
  function DecodeRepo(j: Json): (r: Option<Repo>)
    ensures r.Some? <==> (j.JObject? && StringField(j.fields, "ssh_url").Some?
      && StringField(j.fields, "clone_url").Some? && StringField(j.fields, "full_name").Some?)
    ensures r.Some? ==> r.value.sshUrl == j.fields["ssh_url"].s
    ensures r.Some? ==> r.value.httpUrl == j.fields["clone_url"].s
    ensures r.Some? ==> r.value.fullPath == j.fields["full_name"].s
  {
    if !j.JObject? then None
    else
      match (StringField(j.fields, "ssh_url"), StringField(j.fields, "clone_url"), StringField(j.fields, "full_name"))
      case (Some(ssh), Some(http), Some(full)) => Some(Repo(ssh, http, full))
      case _ => None
  }

  /** The JSON object GitHub sends for a repository (with possibly more
      fields). */
  function RepoObject(r: Repo, extra: map<string, Json>): Json {
    JObject(extra["ssh_url" := JString(r.sshUrl)]["clone_url" := JString(r.httpUrl)]["full_name" := JString(r.fullPath)])
  }

  /** Decoding gives back the repository whatever other fields come with it. */
  lemma DecodeRepoObject(r: Repo, extra: map<string, Json>)
    ensures DecodeRepo(RepoObject(r, extra)) == Some(r)
  {
  }

  // ---------------------------------------------------------------- requests

  /** The collection part of the endpoint: the authenticated user's own
      repositories when listing the user whose name is the profile's own and a
      token is configured; another user's public ones otherwise; or an
      organisation's. */
  function Segment(user: bool, username: string, token: string, collection: string): (r: string)
    ensures r == "user" <==> user && username == collection && token != ""
    ensures user && r != "user" ==> r == "users/" + collection
    ensures !user ==> r == "orgs/" + collection
  {
    if user then
      if username == collection && token != "" then "user" else "users/" + collection
    else "orgs/" + collection
  }

  /** The listing endpoint; the collection name is not escaped (GitHub
      collections are top level). */
  function Endpoint(baseaddress: string, segment: string): string {
    baseaddress + "/" + segment + "/repos"
  }

  /** Reading the organisation back out of an organisation endpoint. */
  function OrgOf(baseaddress: string, endpoint: string): (r: Option<string>) {
    match StripPrefix(endpoint, baseaddress + "/orgs/")
    case None => None
    case Some(rest) =>
      if |rest| >= 6 && rest[|rest| - 6..] == "/repos" then Some(rest[..|rest| - 6]) else None
  }

  /** The organisation endpoint determines the organisation: two different
      organisations are never listed through the same URL. */
  lemma OrgEndpointInverse(baseaddress: string, org: string)
    ensures OrgOf(baseaddress, Endpoint(baseaddress, Segment(false, "", "", org))) == Some(org)
  {
    var e := Endpoint(baseaddress, "orgs/" + org);
    assert e == (baseaddress + "/orgs/") + (org + "/repos");
    assert (org + "/repos")[..|org|] == org;
  }

  /** With a token: `Authorization` carrying the token as is, and the
      `User-Agent` GitHub requires; without one, no headers. */
  function Headers(pat: Option<string>): (r: Option<seq<Pair>>)
    ensures r.None? <==> pat.None?
    ensures pat.Some? ==> r.value == [("Authorization", pat.value), ("User-Agent", "grgry")]
  {
    match pat
    case None => None
    case Some(token) => Some([("Authorization", token), ("User-Agent", "grgry")])
  }

  /** The query of every listing request, before its page number. */
  const ListingParams: seq<Pair> := [("per_page", PerPage)]

  /** The query of the probe that asks for the number of pages. */
  const ProbeParams: seq<Pair> := [("page", "1"), ("per_page", PerPage)]

  // ---------------------------------------------------------------- page count

  /** The longest prefix of ASCII digits (what `\d+` takes in a visible-ASCII
      header). */
  function DigitRun(s: string): (d: string)
    ensures |d| <= |s| && d == s[..|d|] && AllDigits(d)
    ensures |d| < |s| ==> !IsDigit(s[|d|])
  {
    if s == [] || !IsDigit(s[0]) then [] else [s[0]] + DigitRun(s[1..])
  }

  /** The captured digits of a match of `page=(\d+)` that starts at `p`. */
  function PageMatchAt(s: string, p: nat): (r: Option<string>)
    requires p <= |s|
    ensures r.Some? <==> IsPrefix("page=", s[p..]) && p + 5 < |s| && IsDigit(s[p + 5])
    ensures r.Some? ==> r.value != [] && AllDigits(r.value) && r.value == DigitRun(s[p + 5..])
  {
    if IsPrefix("page=", s[p..]) && p + 5 < |s| && IsDigit(s[p + 5]) then Some(DigitRun(s[p + 5..])) else None
  }

  /** The leftmost position at or after `from` where `page=(\d+)` matches. */
  function FirstPageMatch(s: string, from: nat): (r: Option<nat>)
    requires from <= |s|
    ensures r.Some? ==> from <= r.value < |s| && PageMatchAt(s, r.value).Some?
    ensures r.Some? ==> forall q :: from <= q < r.value ==> PageMatchAt(s, q).None?
    ensures r.None? ==> forall q :: from <= q <= |s| ==> PageMatchAt(s, q).None?
    decreases |s| - from
  {
    if from == |s| then None
    else if PageMatchAt(s, from).Some? then Some(from)
    else FirstPageMatch(s, from + 1)
  }

  /** `get_page_number`, once the probe's response is in: without a `link`
      header there is one page; otherwise the number after the first
      `page=` at or after byte 3 of the header, parsed as an `i32`. A header
      that is not visible ASCII, has no such match or whose number does not
      fit panics. */
  function PageCount(headers: map<string, string>): (r: Run<int>)
    ensures "link" !in headers ==> r == Ok(1)
    ensures r != Exit
    ensures "link" in headers && r.Ok? ==>
      var v := headers["link"];
      VisibleAscii(v) && |v| >= 3 && FirstPageMatch(v, 3).Some?
      && Some(r.value) == ParseI32(PageMatchAt(v, FirstPageMatch(v, 3).value).value)
    ensures "link" in headers && r.Ok? ==> 0 <= r.value <= I32Max
    ensures "link" in headers ==>
      var v := headers["link"];
      VisibleAscii(v) && |v| >= 3 && FirstPageMatch(v, 3).Some?
      && ParseI32(PageMatchAt(v, FirstPageMatch(v, 3).value).value).Some? ==>
        r == Ok(ParseI32(PageMatchAt(v, FirstPageMatch(v, 3).value).value).value)
  {
    if "link" !in headers then Ok(1)
    else
      var v := headers["link"];
      if !VisibleAscii(v) || |v| < 3 then Panic
      else match FirstPageMatch(v, 3)
        case None => Panic
        case Some(p) =>
          match ParseI32(PageMatchAt(v, p).value)
          case None => Panic
          case Some(n) =>
            assert ParseI32(PageMatchAt(v, p).value) == Some(DigitsValue(PageMatchAt(v, p).value));
            Ok(n)
  }

  /** The `link` header GitHub sends with the first page of a collection
      that has three pages (host and path shortened): the `next` page comes
      before the `last` one. */
  const NextLink: string := "<u?page=2>; rel=\"next\""
  const LastLink: string := "<u?page=3>; rel=\"last\""
  const ThreePageLink: string := NextLink + ", " + LastLink

  lemma ThreePageLinkVisible()
    ensures VisibleAscii(ThreePageLink) && |ThreePageLink| >= 3
  {
    assert VisibleAscii(NextLink) && VisibleAscii(", ") && VisibleAscii(LastLink);
  }

  lemma ThreePageLinkScan()
    ensures FirstPageMatch(ThreePageLink, 3) == Some(3) && PageMatchAt(ThreePageLink, 3) == Some("2")
  {
    var v := ThreePageLink;
    assert v[..|NextLink|] == NextLink;
    NextLinkChars();
    assert v[3..][..5] == "page=";
    assert DigitRun(v[8..][1..]) == [];
    assert DigitRun(v[8..]) == "2";
  }

  lemma NextLinkChars()
    ensures |NextLink| > 9
    ensures NextLink[3] == 'p' && NextLink[4] == 'a' && NextLink[5] == 'g' && NextLink[6] == 'e'
    ensures NextLink[7] == '=' && NextLink[8] == '2' && NextLink[9] == '>'
  {
  }

  /** The page count is not the last page: GitHub lists the `next` page
      before the `last` one, so a collection spread over three pages is
      counted as two. */
  lemma PageCountTakesFirstLink()
    ensures PageCount(map["link" := ThreePageLink]) == Ok(2)
  {
    ThreePageLinkVisible();
    ThreePageLinkScan();
    assert DigitsValue("2") == 2;
  }

  /** The same header when the links carry `per_page` before `page`. */
  const PerPageNextLink: string := "<u?per_page=100&page=2>; rel=\"next\""
  const PerPageLink: string := PerPageNextLink + ", " + "<u?per_page=100&page=3>; rel=\"last\""

  lemma PerPageNextChars()
    ensures |PerPageNextLink| > 15
    ensures PerPageNextLink[3] == 'p' && PerPageNextLink[4] == 'e' && PerPageNextLink[5] == 'r' && PerPageNextLink[6] == '_'
    ensures PerPageNextLink[7] == 'p' && PerPageNextLink[8] == 'a' && PerPageNextLink[9] == 'g' && PerPageNextLink[10] == 'e'
    ensures PerPageNextLink[11] == '=' && PerPageNextLink[12] == '1' && PerPageNextLink[13] == '0'
    ensures PerPageNextLink[14] == '0' && PerPageNextLink[15] == '&'
  {
  }

  lemma PerPageLinkVisible()
    ensures VisibleAscii(PerPageLink) && |PerPageLink| >= 3
  {
    assert VisibleAscii(PerPageNextLink) && VisibleAscii(", ") && VisibleAscii("<u?per_page=100&page=3>; rel=\"last\"");
  }

  lemma PerPageLinkScan()
    ensures FirstPageMatch(PerPageLink, 3) == Some(7) && PageMatchAt(PerPageLink, 7) == Some("100")
  {
    var v := PerPageLink;
    PerPageNoEarlyMatch();
    PerPageMatch();
    assert FirstPageMatch(v, 7) == Some(7);
    assert FirstPageMatch(v, 6) == Some(7);
    assert FirstPageMatch(v, 5) == Some(7);
    assert FirstPageMatch(v, 4) == Some(7);
  }

  lemma PerPageNoEarlyMatch()
    ensures |PerPageLink| > 15
    ensures PageMatchAt(PerPageLink, 3).None? && PageMatchAt(PerPageLink, 4).None?
    ensures PageMatchAt(PerPageLink, 5).None? && PageMatchAt(PerPageLink, 6).None?
  {
    var v := PerPageLink;
    assert v[..|PerPageNextLink|] == PerPageNextLink;
    PerPageNextChars();
    assert v[3..][1] == 'e' && v[4..][0] == 'e' && v[5..][0] == 'r' && v[6..][0] == '_';
  }

  lemma PerPageMatch()
    ensures |PerPageLink| > 15
    ensures PageMatchAt(PerPageLink, 7) == Some("100")
  {
    var v := PerPageLink;
    assert v[..|PerPageNextLink|] == PerPageNextLink;
    PerPageNextChars();
    assert v[7..][..5] == "page=";
    var d := v[12..];
    assert d[0] == '1' && d[1] == '0' && d[2] == '0' && d[3] == '&';
    assert DigitRun(d[3..]) == [];
    assert DigitRun(d[2..]) == "0";
    assert DigitRun(d[1..]) == "00";
    assert DigitRun(d) == "100";
  }

  /** The scan does not stop at a parameter boundary: when the links put
      `per_page=100` before `page`, the `page=` inside `per_page` is the
      first match, and the count is the page size. */
  lemma PageCountReadsPerPage()
    ensures PageCount(map["link" := PerPageLink]) == Ok(100)
  {
    PerPageLinkVisible();
    PerPageLinkScan();
    assert DigitsValue("100") == 100 by {
      assert "100"[..2] == "10" && "10"[..1] == "1" && "1"[..0] == "";
    }
  }

  /** The scan starts at byte 3: a `page=` right at the start of the header
      is not seen. */
  lemma PageCountSkipsStart()
    ensures PageCount(map["link" := "page=7"]) == Panic
  {
    var v := "page=7";
    assert FirstPageMatch(v, 3) == None by {
      assert PageMatchAt(v, 3) == None && PageMatchAt(v, 4) == None && PageMatchAt(v, 5) == None;
      assert FirstPageMatch(v, 6) == None;
    }
  }
}
