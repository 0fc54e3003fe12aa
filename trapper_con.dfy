/** The Trapper web API client: the fixed endpoint paths, the login state
    that `test_login` updates, and the research-project query with its role
    filter. HTTP requests are not modelled: each call takes the decoded JSON
    response as an input. */
module TrapperCon {
  import opened Wrappers
  import opened PyStr

  const LoginPath := "/accounts/api/users/login/"
  const DeploymentsPath := "/geomap/api/deployments/export/"
  const RprojectsPath := "/research/api/projects"
  const ProcessCollectionPath := "/storage/api/collection/process/"

  /** The end of the authority that starts at `from`: the first `/`, `?` or
      `#` at or after it, or the end of `s`. */
  function AuthorityEnd(s: string, from: nat): (k: nat)
    requires from <= |s|
    ensures from <= k <= |s|
    ensures forall j :: from <= j < k ==> s[j] != '/' && s[j] != '?' && s[j] != '#'
    ensures k < |s| ==> s[k] == '/' || s[k] == '?' || s[k] == '#'
    decreases |s| - from
  {
    if from == |s| || s[from] == '/' || s[from] == '?' || s[from] == '#' then from
    else AuthorityEnd(s, from + 1)
  }

  /** `urljoin(base, path)` for an absolute `path` and a base of the form
      `scheme://authority[path]`: the base's scheme and authority followed by
      `path`. A base without `//` has no authority and gives `path`. */
  function UrlJoin(base: string, path: string): (r: string)
    requires path != [] && path[0] == '/'
    ensures |path| <= |r| && r[|r| - |path|..] == path
    ensures Find(base, "//").None? ==> r == path
    ensures Find(base, "//").Some? ==> |r| - |path| <= |base| && r[..|r| - |path|] == base[..|r| - |path|]
    ensures Find(base, "//").Some? ==> |r| - |path| == AuthorityEnd(base, Find(base, "//").value + 2)
  {
    match Find(base, "//")
    case None => path
    case Some(i) =>
      var origin := base[..AuthorityEnd(base, i + 2)];
      assert (origin + path)[..|origin|] == origin;
      origin + path
  }

  /** `"&".join(["?".join([urljoin(host, RPROJECTS), query]), "psize=N"])`:
      the endpoint, `?`, the query, and a final `&psize=` field whose value
      reads back as `psize`. */
  function RprojectsUrl(host: string, query: string, psize: int): (r: string)
    ensures var base := UrlJoin(host, RprojectsPath); var n := IntToString(psize);
      && |r| == |base| + 1 + |query| + 7 + |n|
      && r[..|base| + 1] == base + "?"
      && r[|base| + 1..|base| + 1 + |query|] == query
      && r[|base| + 1 + |query|..|r| - |n|] == "&psize="
      && ParseInt(r[|r| - |n|..]) == Some(psize)
  {
    var base := UrlJoin(host, RprojectsPath);
    var n := IntToString(psize);
    var r := base + "?" + query + "&" + "psize=" + n;
    QueryParts(base, query, n);
    ParseIntOfIntToString(psize);
    r
  }

  lemma QueryParts(base: string, query: string, n: string)
    ensures var r := base + "?" + query + "&" + "psize=" + n;
      && |r| == |base| + 1 + |query| + 7 + |n|
      && r[..|base| + 1] == base + "?"
      && r[|base| + 1..|base| + 1 + |query|] == query
      && r[|base| + 1 + |query|..|r| - |n|] == "&psize="
      && r[|r| - |n|..] == n
  {
    var r := base + "?" + query + "&" + "psize=" + n;
    assert r == (base + "?") + query + ("&psize=" + n);
    assert r == (base + "?" + query) + "&psize=" + n;
  }

  /** A decoded JSON scalar as the client compares it; `VNull` is Python's
      `None`, also what `dict.get` returns for a missing key. */
  datatype Value = VStr(s: string) | VInt(i: int) | VNull | VOther

  /** `d.get(key, None)`. */
  function Get(d: map<string, Value>, key: string): Value
  {
    if key in d then d[key] else VNull
  }

  /** One entry of a project's `project_roles`. */
  datatype ProjectRole = ProjectRole(username: Value, roles: seq<string>)

  /** One research project of the `results` list. */
  datatype RProject = RProject(id: int, name: string, projectRoles: seq<ProjectRole>)

  /** `rp` once for each requested role, in the order of `roles`, that the
      entry's roles contain. */
  function RoleHits(rp: RProject, roles: seq<string>, granted: seq<string>): (r: seq<RProject>)
    ensures |r| <= |roles|
  {
    if roles == [] then []
    else RoleHits(rp, roles[..|roles| - 1], granted) + (if roles[|roles| - 1] in granted then [rp] else [])
  }

  /** `[role for role in roles if role in granted]`: the requested roles an
      entry grants, in request order and with repeats. */
  function GrantedRoles(roles: seq<string>, granted: seq<string>): (r: seq<string>)
    ensures forall x :: x in r <==> x in roles && x in granted
  {
    if roles == [] then []
    else
      var last := roles[|roles| - 1];
      GrantedRoles(roles[..|roles| - 1], granted) + (if last in granted then [last] else [])
  }

  /** The number of pairs of an entry of `entries` for `user` and a requested
      role that entry grants. */
  function Grantings(user: Value, roles: seq<string>, entries: seq<ProjectRole>): nat
  {
    if entries == [] then 0
    else
      var e := entries[|entries| - 1];
      Grantings(user, roles, entries[..|entries| - 1]) + (if e.username == user then |GrantedRoles(roles, e.roles)| else 0)
  }

  /** `rp` once for each pair of an entry of `entries` for `user` and a
      requested role that entry grants. */
  function EntryHits(rp: RProject, user: Value, roles: seq<string>, entries: seq<ProjectRole>): seq<RProject>
  {
    if entries == [] then []
    else
      var e := entries[|entries| - 1];
      EntryHits(rp, user, roles, entries[..|entries| - 1]) + (if e.username == user then RoleHits(rp, roles, e.roles) else [])
  }

  /** The nested filter of `get_rprojects` over the results `rs`. */
  function Filtered(rs: seq<RProject>, user: Value, roles: seq<string>): seq<RProject>
  {
    if rs == [] then []
    else Filtered(rs[..|rs| - 1], user, roles) + EntryHits(rs[|rs| - 1], user, roles, rs[|rs| - 1].projectRoles)
  }

  /** `get_rprojects` on the `results` of the response: filtered when there
      are results and requested roles, returned as they are otherwise. */
  function RprojectsResult(results: Option<seq<RProject>>, user: Value, roles: seq<string>): (r: Option<seq<RProject>>)
    ensures results.None? || results.value == [] || roles == [] ==> r == results
    ensures results.Some? && results.value != [] && roles != [] ==> r == Some(Filtered(results.value, user, roles))
  {
    if results.Some? && results.value != [] && roles != [] then Some(Filtered(results.value, user, roles))
    else results
  }

  /** `user` holds, in one of `rp`'s entries, one of the requested roles. */
  predicate Grants(rp: RProject, user: Value, roles: seq<string>)
  {
    exists k, m :: 0 <= k < |rp.projectRoles| && 0 <= m < |roles| &&
      rp.projectRoles[k].username == user && roles[m] in rp.projectRoles[k].roles
  }

  lemma {:induction false} RoleHitsAre(rp: RProject, roles: seq<string>, granted: seq<string>)
    ensures forall i :: 0 <= i < |RoleHits(rp, roles, granted)| ==> RoleHits(rp, roles, granted)[i] == rp
    ensures RoleHits(rp, roles, granted) != [] <==> exists m :: 0 <= m < |roles| && roles[m] in granted
    ensures |RoleHits(rp, roles, granted)| == |GrantedRoles(roles, granted)|
  {
    if roles != [] {
      var init := roles[..|roles| - 1];
      RoleHitsAre(rp, init, granted);
      if exists m :: 0 <= m < |init| && init[m] in granted {
        var m :| 0 <= m < |init| && init[m] in granted;
        assert roles[m] == init[m];
      }
      if exists m :: 0 <= m < |roles| && roles[m] in granted {
        var m :| 0 <= m < |roles| && roles[m] in granted;
        if m < |init| {
          assert init[m] == roles[m];
        }
      }
    }
  }

  lemma {:induction false} EntryHitsAre(rp: RProject, user: Value, roles: seq<string>, entries: seq<ProjectRole>)
    ensures forall i :: 0 <= i < |EntryHits(rp, user, roles, entries)| ==> EntryHits(rp, user, roles, entries)[i] == rp
    ensures EntryHits(rp, user, roles, entries) != [] <==>
      exists k, m :: 0 <= k < |entries| && 0 <= m < |roles| && entries[k].username == user && roles[m] in entries[k].roles
    ensures |EntryHits(rp, user, roles, entries)| == Grantings(user, roles, entries)
  {
    if entries != [] {
      var init := entries[..|entries| - 1];
      var e := entries[|entries| - 1];
      EntryHitsAre(rp, user, roles, init);
      RoleHitsAre(rp, roles, e.roles);
      var h := EntryHits(rp, user, roles, init);
      var t := if e.username == user then RoleHits(rp, roles, e.roles) else [];
      assert EntryHits(rp, user, roles, entries) == h + t;
      AllEqualConcat(h, t, rp);
      PairStep(user, roles, entries);
    }
  }

  /** A pair of an entry for `user` and a requested role it grants lies in
      the entries but the last, or is the last entry's. */
  lemma PairStep(user: Value, roles: seq<string>, entries: seq<ProjectRole>)
    requires entries != []
    ensures var init, e := entries[..|entries| - 1], entries[|entries| - 1];
      (exists k, m :: 0 <= k < |entries| && 0 <= m < |roles| && entries[k].username == user && roles[m] in entries[k].roles)
      <==>
      (exists k, m :: 0 <= k < |init| && 0 <= m < |roles| && init[k].username == user && roles[m] in init[k].roles)
      || (e.username == user && exists m :: 0 <= m < |roles| && roles[m] in e.roles)
  {
    var init := entries[..|entries| - 1];
    if exists k, m :: 0 <= k < |init| && 0 <= m < |roles| && init[k].username == user && roles[m] in init[k].roles {
      var k, m :| 0 <= k < |init| && 0 <= m < |roles| && init[k].username == user && roles[m] in init[k].roles;
      assert entries[k] == init[k];
    }
    if exists k, m :: 0 <= k < |entries| && 0 <= m < |roles| && entries[k].username == user && roles[m] in entries[k].roles {
      var k, m :| 0 <= k < |entries| && 0 <= m < |roles| && entries[k].username == user && roles[m] in entries[k].roles;
      if k < |init| {
        assert init[k] == entries[k];
      }
    }
  }

  /** Two sequences of `x` only concatenate to one. */
  lemma AllEqualConcat<T>(a: seq<T>, b: seq<T>, x: T)
    requires forall i :: 0 <= i < |a| ==> a[i] == x
    requires forall i :: 0 <= i < |b| ==> b[i] == x
    ensures forall i :: 0 <= i < |a + b| ==> (a + b)[i] == x
  {
  }

  /** The filter keeps exactly the projects that grant `user` a requested
      role: every kept project is one of the results and grants a role, and
      every result that grants a role is kept. */
  lemma {:induction false} FilteredExactly(rs: seq<RProject>, user: Value, roles: seq<string>)
    ensures forall i :: 0 <= i < |Filtered(rs, user, roles)| ==>
      Filtered(rs, user, roles)[i] in rs && Grants(Filtered(rs, user, roles)[i], user, roles)
    ensures forall j :: 0 <= j < |rs| && Grants(rs[j], user, roles) ==> rs[j] in Filtered(rs, user, roles)
  {
    if rs != [] {
      var init := rs[..|rs| - 1];
      var rp := rs[|rs| - 1];
      FilteredExactly(init, user, roles);
      EntryHitsAre(rp, user, roles, rp.projectRoles);
      var f := Filtered(rs, user, roles);
      var fi := Filtered(init, user, roles);
      var h := EntryHits(rp, user, roles, rp.projectRoles);
      assert f == fi + h;
      forall i | 0 <= i < |f| ensures f[i] in rs && Grants(f[i], user, roles) {
        if i < |fi| {
          assert f[i] == fi[i];
          assert fi[i] in init;
        } else {
          assert f[i] == h[i - |fi|] == rp;
        }
      }
      forall j | 0 <= j < |rs| && Grants(rs[j], user, roles) ensures rs[j] in f {
        if j < |init| {
          assert rs[j] == init[j];
        } else {
          assert h != [] && h[0] == rp;
        }
      }
    }
  }

  /** The filter keeps the order of the results: filtering a concatenation
      concatenates the filtered parts. */
  lemma {:induction false} FilteredConcat(a: seq<RProject>, b: seq<RProject>, user: Value, roles: seq<string>)
    ensures Filtered(a + b, user, roles) == Filtered(a, user, roles) + Filtered(b, user, roles)
  {
    if b == [] {
      assert a + b == a;
    } else {
      var bi := b[..|b| - 1];
      assert (a + b)[..|a + b| - 1] == a + bi;
      assert (a + b)[|a + b| - 1] == b[|b| - 1];
      FilteredConcat(a, bi, user, roles);
    }
  }

  /** A project is kept once per (entry, requested role) match, so one entry
      granting both default roles keeps it twice. */
  lemma FilterDuplicates(rp: RProject, u: string)
    requires rp.projectRoles == [ProjectRole(VStr(u), ["Admin", "Collaborator"])]
    ensures Filtered([rp], VStr(u), ["Admin", "Collaborator"]) == [rp, rp]
  {
    var roles := ["Admin", "Collaborator"];
    assert roles[..1] == ["Admin"] && roles[..1][..0] == [];
    assert RoleHits(rp, roles[..1], roles) == [rp];
    assert RoleHits(rp, roles, roles) == [rp, rp];
    assert rp.projectRoles[..0] == [];
    assert EntryHits(rp, VStr(u), roles, rp.projectRoles) == [rp, rp];
    assert [rp][..0] == [];
  }

  class TrapperConnection {
    const host: string
    const loginUrl: string
    var loginCorrect: bool
    var login: Value
    var password: Value
    var verify: Option<bool>
    var username: Value

    /** `TrapperConnection(host)`: the login URL is fixed here and no login
        has succeeded yet. */
    constructor (host: string)
      ensures this.host == host && loginUrl == UrlJoin(host, LoginPath)
      ensures !loginCorrect && login == VNull && password == VNull && verify == None && username == VNull
    {
      this.host := host;
      loginUrl := UrlJoin(host, LoginPath);
      loginCorrect := false;
      login := VNull;
      password := VNull;
      verify := None;
      username := VNull;
    }

    /** `test_login(login, password, verify)` on the decoded `response`: the
        login succeeds exactly when its `error` is the string `"0"`, and only
        then is `username` taken from the response. The error is returned
        either way. */
    method TestLogin(login: string, password: string, verify: bool, response: map<string, Value>)
      returns (errorCode: Value)
      modifies this`login, this`password, this`verify, this`loginCorrect, this`username
      ensures this.login == VStr(login) && this.password == VStr(password) && this.verify == Some(verify)
      ensures errorCode == Get(response, "error")
      ensures loginCorrect <==> errorCode == VStr("0")
      ensures loginCorrect ==> username == Get(response, "username")
      ensures !loginCorrect ==> username == old(username)
    {
      this.login := VStr(login);
      this.password := VStr(password);
      this.verify := Some(verify);
      errorCode := Get(response, "error");
      var name := Get(response, "username");
      if errorCode == VStr("0") {
        loginCorrect := true;
        username := name;
      } else {
        loginCorrect := false;
      }
    }

    /** `get_rprojects(query, psize, roles)` on the decoded `results`: the
        URL requested and the projects returned. */
    method GetRprojects(query: string, psize: int, roles: seq<string>, results: Option<seq<RProject>>)
      returns (url: string, r: Option<seq<RProject>>)
      ensures url == RprojectsUrl(host, query, psize)
      ensures r == RprojectsResult(results, username, roles)
    {
      url := UrlJoin(host, RprojectsPath);
      url := url + "?" + query;
      url := url + "&" + "psize=" + IntToString(psize);
      if results.None? || results.value == [] || roles == [] {
        return url, results;
      }
      var rs := results.value;
      var filtered: seq<RProject> := [];
      var i := 0;
      while i < |rs|
        invariant 0 <= i <= |rs|
        invariant filtered == Filtered(rs[..i], username, roles)
      {
        assert rs[..i + 1][..i] == rs[..i];
        var hits := ProjectHits(rs[i], roles);
        filtered := filtered + hits;
        i := i + 1;
      }
      assert rs[..i] == rs;
      return url, Some(filtered);
    }

    /** The loop over one project's `project_roles`. */
    method ProjectHits(rp: RProject, roles: seq<string>) returns (hits: seq<RProject>)
      ensures hits == EntryHits(rp, username, roles, rp.projectRoles)
    {
      var entries := rp.projectRoles;
      hits := [];
      var k := 0;
      while k < |entries|
        invariant 0 <= k <= |entries|
        invariant hits == EntryHits(rp, username, roles, entries[..k])
      {
        assert entries[..k + 1][..k] == entries[..k];
        if entries[k].username == username {
          var more := MatchRoles(rp, roles, entries[k].roles);
          hits := hits + more;
        }
        k := k + 1;
      }
      assert entries[..k] == entries;
    }

    /** The loop over the requested roles for one matching entry. */
    static method MatchRoles(rp: RProject, roles: seq<string>, granted: seq<string>) returns (hits: seq<RProject>)
      ensures hits == RoleHits(rp, roles, granted)
    {
      hits := [];
      var m := 0;
      while m < |roles|
        invariant 0 <= m <= |roles|
        invariant hits == RoleHits(rp, roles[..m], granted)
      {
        assert roles[..m + 1][..m] == roles[..m];
        if roles[m] in granted {
          hits := hits + [rp];
        }
        m := m + 1;
      }
      assert roles[..m] == roles;
    }
  }
}
