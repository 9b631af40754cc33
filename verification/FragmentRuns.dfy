/** `provisionTenantWeb`'s and `provisionMTASTS`'s fragment loops, over a connection that may fail at any command. */
module FragmentRuns {
  import opened Text
  import opened Fragments

  /** ASCII lower case, and the two other letters Go's ToLower maps into a..z. */
  function Lower(c: char): char {
    if 'A' <= c <= 'Z' then c - 'A' + 'a'
    else if c == '\U{0130}' then 'i'
    else if c == '\U{212A}' then 'k'
    else c
  }

  predicate IsSlugChar(c: char) {
    'a' <= c <= 'z' || '0' <= c <= '9'
  }

  /** Every run of other characters becomes one dash; `dashed` says the last character written is such a dash. */
  function Dashed(host: string, dashed: bool): string {
    if host == [] then []
    else if IsSlugChar(Lower(host[0])) then [Lower(host[0])] + Dashed(host[1..], false)
    else (if dashed then [] else "-") + Dashed(host[1..], true)
  }

  function TrimDashes(s: string): string {
    if s != [] && s[0] == '-' then TrimDashes(s[1..])
    else if s != [] && s[|s| - 1] == '-' then TrimDashes(s[..|s| - 1])
    else s
  }

  function Slug(host: string): string {
    TrimDashes(Dashed(host, false))
  }

  lemma {:induction false} DashedChars(host: string, dashed: bool)
    ensures forall c :: c in Dashed(host, dashed) ==> IsSlugChar(c) || c == '-'
  {
    if host != [] {
      DashedChars(host[1..], !IsSlugChar(Lower(host[0])));
    }
  }

  lemma {:induction false} TrimKeepsChars(s: string)
    ensures forall c :: c in TrimDashes(s) ==> c in s
  {
    if s != [] && s[0] == '-' {
      TrimKeepsChars(s[1..]);
    } else if s != [] && s[|s| - 1] == '-' {
      TrimKeepsChars(s[..|s| - 1]);
    }
  }

  /** A web fragment's path is listed by its own tenant's glob, whatever the hostname. */
  lemma WebPathIsListed(id: string, host: string)
    ensures GlobMatches(Web, id, FragmentPath(Web, id, Slug(host)))
  {
    DashedChars(host, false);
    TrimKeepsChars(Dashed(host, false));
    OwnPathMatches(Web, id, Slug(host));
  }

  datatype Endpoint = Endpoint(hostname: string, provider: string, fragment: string)

  predicate OnEdge(e: Endpoint) {
    e.provider == "" || e.provider == "edge"
  }

  /** The wanted web fragments of one tenant: the last endpoint of a path wins. */
  function WebWants(id: string, web: seq<Endpoint>): Files {
    if web == [] then map[]
    else
      var before, e := WebWants(id, web[..|web| - 1]), web[|web| - 1];
      if OnEdge(e) then before[FragmentPath(Web, id, Slug(e.hostname)) := e.fragment] else before
  }

  method CollectWebWants(id: string, web: seq<Endpoint>) returns (want: Files)
    ensures want == WebWants(id, web)
  {
    want := map[];
    for i := 0 to |web|
      invariant want == WebWants(id, web[..i])
    {
      assert web[..i + 1][..i] == web[..i];
      if web[i].provider != "" && web[i].provider != "edge" {
        continue;
      }
      want := want[FragmentPath(Web, id, Slug(web[i].hostname)) := web[i].fragment];
    }
    assert web[..|web|] == web;
  }

  /** A later edge endpoint has the slug of endpoint i. */
  ghost predicate Overridden(web: seq<Endpoint>, i: nat)
    requires i < |web|
  {
    exists j :: i < j < |web| && OnEdge(web[j]) && Slug(web[j].hostname) == Slug(web[i].hostname)
  }

  /** The endpoint's fragment is wanted as it is. */
  ghost predicate Served(id: string, web: seq<Endpoint>, i: nat)
    requires i < |web|
  {
    var path := FragmentPath(Web, id, Slug(web[i].hostname));
    path in WebWants(id, web) && WebWants(id, web)[path] == web[i].fragment
  }

  /** The last edge endpoint of a slug is served. */
  lemma {:induction false} LastIsServed(id: string, web: seq<Endpoint>, i: nat)
    requires i < |web| && OnEdge(web[i]) && !Overridden(web, i)
    ensures Served(id, web, i)
  {
    var n := |web| - 1;
    if i < n {
      forall j | i < j < n && OnEdge(web[..n][j]) ensures Slug(web[..n][j].hostname) != Slug(web[i].hostname) {
        assert web[..n][j] == web[j];
      }
      LastIsServed(id, web[..n], i);
      assert web[..n][i] == web[i];
      if OnEdge(web[n]) {
        NameShows(Web, id, Slug(web[n].hostname), Slug(web[i].hostname));
      }
    }
  }

  predicate SameSlug(web: seq<Endpoint>, i: nat, j: nat)
    requires i < |web| && j < |web|
  {
    Slug(web[i].hostname) == Slug(web[j].hostname)
  }

  ghost predicate IsLast(web: seq<Endpoint>, i: nat)
    requires i < |web|
  {
    OnEdge(web[i]) && !Overridden(web, i)
  }

  lemma {:induction false} LastOfSlug(web: seq<Endpoint>, i: nat) returns (j: nat)
    requires i < |web| && OnEdge(web[i])
    ensures i <= j < |web| && OnEdge(web[j]) && Slug(web[j].hostname) == Slug(web[i].hostname) && !Overridden(web, j)
    decreases |web| - i
  {
    j := i;
    if Overridden(web, i) {
      var k :| i < k < |web| && OnEdge(web[k]) && Slug(web[k].hostname) == Slug(web[i].hostname);
      j := LastOfSlug(web, k);
    }
  }

  /** An edge endpoint is served exactly when the last edge endpoint of its slug has the same fragment. */
  lemma ServedIff(id: string, web: seq<Endpoint>, i: nat)
    requires i < |web| && OnEdge(web[i])
    ensures Served(id, web, i)
       <==> forall j | i <= j < |web| && IsLast(web, j) && SameSlug(web, i, j) :: web[j].fragment == web[i].fragment
  {
    var last := LastOfSlug(web, i);
    LastIsServed(id, web, last);
    forall j | i <= j < |web| && IsLast(web, j) && SameSlug(web, i, j) ensures j == last {
    }
  }

  /** Edge endpoints that share a slug share their fragment. */
  ghost predicate SlugsAgree(web: seq<Endpoint>) {
    forall i, j | 0 <= i < j < |web| && OnEdge(web[i]) && OnEdge(web[j]) && SameSlug(web, i, j) ::
      web[i].fragment == web[j].fragment
  }

  /** Every edge endpoint of a tenant is served exactly when those that share a slug have the same fragment. */
  lemma AllServedIff(id: string, web: seq<Endpoint>)
    ensures (forall i :: 0 <= i < |web| && OnEdge(web[i]) ==> Served(id, web, i)) <==> SlugsAgree(web)
  {
    if SlugsAgree(web) {
      forall i | 0 <= i < |web| && OnEdge(web[i]) ensures Served(id, web, i) {
        ServedIff(id, web, i);
      }
    }
    if forall i :: 0 <= i < |web| && OnEdge(web[i]) ==> Served(id, web, i) {
      forall i, j | 0 <= i < j < |web| && OnEdge(web[i]) && OnEdge(web[j]) && SameSlug(web, i, j)
        ensures web[i].fragment == web[j].fragment {
        assert Served(id, web, i) && Served(id, web, j);
      }
    }
  }

  lemma {:induction false} DashedReadsAlike(a: string, b: string, dashed: bool)
    requires |a| == |b|
    requires forall i :: 0 <= i < |a| ==>
               Lower(a[i]) == Lower(b[i]) || (!IsSlugChar(Lower(a[i])) && !IsSlugChar(Lower(b[i])))
    ensures Dashed(a, dashed) == Dashed(b, dashed)
    decreases |a|
  {
    if a != [] {
      DashedReadsAlike(a[1..], b[1..], !IsSlugChar(Lower(a[0])));
    }
  }

  /**
   * A hostname and the one with a dash for one of its dots, as a.b.example.org and a-b.example.org, share a slug, and
   * the site of the earlier of the two is not written.
   */
  lemma SlugsCollide(id: string, host: string, k: nat, f: string, g: string)
    requires k < |host| && host[k] == '.' && f != g
    ensures var web := [Endpoint(host, "edge", f), Endpoint(host[k := '-'], "edge", g)];
            && WebWants(id, web) == map[FragmentPath(Web, id, Slug(host)) := g]
            && !Served(id, web, 0) && Served(id, web, 1)
  {
    var web := [Endpoint(host, "edge", f), Endpoint(host[k := '-'], "edge", g)];
    DashedReadsAlike(host, host[k := '-'], false);
    assert web[..1] == [web[0]] && web[..1][..0] == [];
    var path := FragmentPath(Web, id, Slug(host));
    assert WebWants(id, web[..1]) == map[path := f];
    assert WebWants(id, web) == map[path := f][path := g];
  }

  lemma NameShows(kind: Kind, id: string, a: string, b: string)
    ensures FragmentPath(kind, id, a) == FragmentPath(kind, id, b) ==> a == b
  {
    assert Middle(kind, id, FragmentPath(kind, id, a)) == a;
    assert Middle(kind, id, FragmentPath(kind, id, b)) == b;
  }

  // ---- What a slug is ----

  /** The maximal runs of letters and digits of a hostname, in lower case; `word` is the run being read. */
  function RunsFrom(host: string, word: string): seq<string> {
    if host == [] then (if word == [] then [] else [word])
    else if IsSlugChar(Lower(host[0])) then RunsFrom(host[1..], word + [Lower(host[0])])
    else (if word == [] then [] else [word]) + RunsFrom(host[1..], "")
  }

  function HostRuns(host: string): seq<string> {
    RunsFrom(host, "")
  }

  predicate IsRun(run: string) {
    run != "" && forall i :: 0 <= i < |run| ==> IsSlugChar(run[i])
  }

  lemma {:induction false} RunsAreRuns(host: string, word: string)
    requires word == "" || IsRun(word)
    ensures forall i :: 0 <= i < |RunsFrom(host, word)| ==> IsRun(RunsFrom(host, word)[i])
    decreases |host|
  {
    if host != [] {
      var runs := if IsSlugChar(Lower(host[0])) then word + [Lower(host[0])] else "";
      RunsAreRuns(host[1..], runs);
    }
  }

  lemma {:induction false} DashedIsJoined(host: string, word: string) returns (trail: string)
    ensures word + Dashed(host, word == "") == Join(RunsFrom(host, word), "-") + trail
    ensures trail == "" || (trail == "-" && RunsFrom(host, word) != [])
    decreases |host|
  {
    if host == [] {
      trail := "";
    } else if IsSlugChar(Lower(host[0])) {
      var c, rest := [Lower(host[0])], Dashed(host[1..], false);
      trail := DashedIsJoined(host[1..], word + c);
      assert Dashed(host, word == "") == c + rest && word + c != "";
      Regroup(word, c, rest);
    } else {
      trail := DashedIsJoined(host[1..], "");
      var runs, rest := RunsFrom(host[1..], ""), Dashed(host[1..], true);
      assert "" + rest == rest;
      if word == "" {
        assert Dashed(host, true) == "" + rest && [] + runs == runs;
      } else {
        assert Dashed(host, false) == "-" + rest;
        Regroup(word, "-", rest);
        if runs == [] {
          assert rest == "" && [word] + runs == [word];
          trail := "-";
        } else {
          assert ([word] + runs)[1..] == runs;
          Regroup(word + "-", Join(runs, "-"), trail);
        }
      }
    }
  }

  lemma {:induction false} JoinedEnds(runs: seq<string>)
    requires runs != [] && forall i :: 0 <= i < |runs| ==> IsRun(runs[i])
    ensures var s := Join(runs, "-");
            s != "" && s[0] != '-' && s[|s| - 1] != '-'
    decreases |runs|
  {
    if |runs| > 1 {
      JoinedEnds(runs[1..]);
      var rest := Join(runs[1..], "-");
      var s := runs[0] + "-" + rest;
      assert s[0] == runs[0][0] && s[|s| - 1] == rest[|rest| - 1];
    }
  }

  lemma TrimsTo(s: string)
    requires s == "" || (s[0] != '-' && s[|s| - 1] != '-')
    ensures TrimDashes(s) == s && TrimDashes("-" + s) == s
    ensures s != "" ==> TrimDashes(s + "-") == s && TrimDashes("-" + (s + "-")) == s
  {
    assert ("-" + s)[1..] == s;
    if s != "" {
      assert (s + "-")[..|s|] == s && ("-" + (s + "-"))[1..] == s + "-";
    }
  }

  lemma DashedLeads(host: string)
    ensures Dashed(host, false) == Dashed(host, true) || Dashed(host, false) == "-" + Dashed(host, true)
  {
    if host != [] && !IsSlugChar(Lower(host[0])) {
      assert Dashed(host, true) == Dashed(host[1..], true);
    }
  }

  lemma TrimsAround(s: string, trail: string, all: string)
    requires (s == "" && trail == "") || (s != "" && s[0] != '-' && s[|s| - 1] != '-' && trail in {"", "-"})
    requires all == s + trail || all == "-" + (s + trail)
    ensures TrimDashes(all) == s
  {
    TrimsTo(s);
    assert s + "" == s;
  }

  /** A slug is the runs, a dash between them. */
  lemma SlugIsJoined(host: string)
    ensures Slug(host) == Join(HostRuns(host), "-")
  {
    var trail := DashedIsJoined(host, "");
    var runs := HostRuns(host);
    assert "" + Dashed(host, true) == Dashed(host, true);
    RunsAreRuns(host, "");
    if runs != [] { JoinedEnds(runs); }
    DashedLeads(host);
    TrimsAround(Join(runs, "-"), trail, Dashed(host, false));
  }

  /** Two hostnames share a fragment path exactly when they have the same runs of letters and digits. */
  lemma SharePathIff(id: string, a: string, b: string)
    ensures FragmentPath(Web, id, Slug(a)) == FragmentPath(Web, id, Slug(b)) <==> HostRuns(a) == HostRuns(b)
  {
    SlugIsJoined(a);
    SlugIsJoined(b);
    NameShows(Web, id, Slug(a), Slug(b));
    if Slug(a) == Slug(b) {
      JoinedIsOnce(HostRuns(a), HostRuns(b));
    }
  }

  /** A label of lower-case letters and digits. */
  predicate IsLabel(part: string) {
    part != "" && forall i :: 0 <= i < |part| ==> 'a' <= part[i] <= 'z' || '0' <= part[i] <= '9'
  }

  lemma {:induction false} RunsOfLabel(word: string, part: string, rest: string)
    requires forall i :: 0 <= i < |part| ==> 'a' <= part[i] <= 'z' || '0' <= part[i] <= '9'
    ensures RunsFrom(part + rest, word) == RunsFrom(rest, word + part)
    decreases |part|
  {
    if part == "" {
      assert part + rest == rest && word + part == word;
    } else {
      assert (part + rest)[0] == part[0] && (part + rest)[1..] == part[1..] + rest;
      RunsOfLabel(word + [part[0]], part[1..], rest);
      assert word + [part[0]] + part[1..] == word + part;
    }
  }

  lemma RunEnds(word: string, rest: string)
    requires word != ""
    ensures RunsFrom("." + rest, word) == [word] + HostRuns(rest)
  {
    assert ("." + rest)[0] == '.' && ("." + rest)[1..] == rest;
  }

  lemma {:induction false} RunsOfLabels(labels: seq<string>)
    requires labels != [] && forall i :: 0 <= i < |labels| ==> IsLabel(labels[i])
    ensures HostRuns(Join(labels, ".")) == labels
    decreases |labels|
  {
    var first := labels[0];
    if |labels| == 1 {
      RunsOfLabel("", first, "");
      assert first + "" == first && "" + first == first;
    } else {
      var rest := Join(labels[1..], ".");
      RunsOfLabels(labels[1..]);
      Regroup(first, ".", rest);
      RunsOfLabel("", first, "." + rest);
      assert "" + first == first;
      RunEnds(first, rest);
    }
  }

  /** The slug of a hostname in lower case: its labels with dashes for dots. Capital letters make no difference. */
  lemma SlugOfLabels(labels: seq<string>)
    requires labels != [] && forall i :: 0 <= i < |labels| ==> IsLabel(labels[i])
    ensures Slug(Join(labels, ".")) == Join(labels, "-")
  {
    SlugIsJoined(Join(labels, "."));
    RunsOfLabels(labels);
  }

  /** The dotted capital I and the Kelvin sign are the two letters beyond ASCII that count as letters here. */
  lemma SlugFoldsCase(host: string, k: nat, lower: char)
    requires k < |host|
    requires || ('A' <= host[k] <= 'Z' && lower == host[k] - 'A' + 'a')
             || (host[k] == '\U{0130}' && lower == 'i') || (host[k] == '\U{212A}' && lower == 'k')
    ensures Slug(host[k := lower]) == Slug(host)
  {
    DashedReadsAlike(host[k := lower], host, false);
  }

  lemma JoinedIsOnce(a: seq<string>, b: seq<string>)
    requires Join(a, "-") == Join(b, "-")
    requires (exists host :: a == HostRuns(host)) && exists host :: b == HostRuns(host)
    ensures a == b
  {
    var first :| a == HostRuns(first);
    var second :| b == HostRuns(second);
    RunsAreRuns(first, "");
    RunsAreRuns(second, "");
    if a == [] || b == [] {
      if a != [] { JoinedEnds(a); }
      if b != [] { JoinedEnds(b); }
    } else {
      SplitOfJoin(a, '-');
      SplitOfJoin(b, '-');
    }
  }

  /** Where the site of a hostname goes that has these runs of letters and digits. */
  function SitePath(id: string, runs: seq<string>): string {
    SiteFile(id, Join(runs, "-"))
  }

  function SiteFile(id: string, name: string): string {
    "/var/lib/mksrv/caddy.d/25-web-" + id + "-" + name + ".caddy"
  }

  /** An edge endpoint with these runs. */
  ghost predicate Asks(web: seq<Endpoint>, i: nat, runs: seq<string>)
    requires i < |web|
  {
    (web[i].provider == "" || web[i].provider == "edge") && HostRuns(web[i].hostname) == runs
  }

  /**
   * The tenant's web sites on the edge: every file under its name is the site of an edge endpoint, and the site of the
   * last edge endpoint of some runs of letters and digits stands.
   */
  ghost predicate SitesPublished(files: Files, id: string, web: seq<Endpoint>) {
    && (forall name :: '/' !in name && SiteFile(id, name) in files ==>
          exists i :: 0 <= i < |web| && Asks(web, i, HostRuns(web[i].hostname))
                      && SiteFile(id, name) == SitePath(id, HostRuns(web[i].hostname)))
    && (forall i :: 0 <= i < |web| && Asks(web, i, HostRuns(web[i].hostname))
                    && (forall j :: i < j < |web| ==> !Asks(web, j, HostRuns(web[i].hostname))) ==>
          var p := SitePath(id, HostRuns(web[i].hostname));
          p in files && files[p] == web[i].fragment)
  }

  lemma {:induction false} WebWantsCome(id: string, web: seq<Endpoint>, p: string)
    requires p in WebWants(id, web)
    ensures exists i :: 0 <= i < |web| && OnEdge(web[i]) && p == FragmentPath(Web, id, Slug(web[i].hostname))
    decreases |web|
  {
    var n := |web| - 1;
    if !(OnEdge(web[n]) && p == FragmentPath(Web, id, Slug(web[n].hostname))) {
      WebWantsCome(id, web[..n], p);
      var i :| 0 <= i < n && OnEdge(web[..n][i]) && p == FragmentPath(Web, id, Slug(web[..n][i].hostname));
      assert web[..n][i] == web[i];
    }
  }

  lemma SiteOfHost(id: string, host: string)
    ensures FragmentPath(Web, id, Slug(host)) == SitePath(id, HostRuns(host))
  {
    SlugIsJoined(host);
  }

  lemma ListedSitesArePublished(files: Files, id: string, web: seq<Endpoint>)
    requires Listed(files, Web, id) == WebWants(id, web)
    ensures SitesPublished(files, id, web)
  {
    forall name | '/' !in name && SiteFile(id, name) in files
      ensures exists i :: 0 <= i < |web| && Asks(web, i, HostRuns(web[i].hostname))
                          && SiteFile(id, name) == SitePath(id, HostRuns(web[i].hostname))
    {
      var p := FragmentPath(Web, id, name);
      assert p == SiteFile(id, name);
      OwnPathMatches(Web, id, name);
      assert p in Listed(files, Web, id);
      WebWantsCome(id, web, p);
      var i :| 0 <= i < |web| && OnEdge(web[i]) && p == FragmentPath(Web, id, Slug(web[i].hostname));
      SiteOfHost(id, web[i].hostname);
      assert Asks(web, i, HostRuns(web[i].hostname));
    }
    forall i | 0 <= i < |web| && Asks(web, i, HostRuns(web[i].hostname))
               && forall j :: i < j < |web| ==> !Asks(web, j, HostRuns(web[i].hostname))
      ensures var p := SitePath(id, HostRuns(web[i].hostname));
              p in files && files[p] == web[i].fragment
    {
      LastSiteIsServed(files, id, web, i);
    }
  }

  lemma LastSiteIsServed(files: Files, id: string, web: seq<Endpoint>, i: nat)
    requires Listed(files, Web, id) == WebWants(id, web)
    requires i < |web| && Asks(web, i, HostRuns(web[i].hostname))
    requires forall j :: i < j < |web| ==> !Asks(web, j, HostRuns(web[i].hostname))
    ensures var p := SitePath(id, HostRuns(web[i].hostname));
            p in files && files[p] == web[i].fragment
  {
    forall j | i < j < |web| && OnEdge(web[j]) ensures Slug(web[j].hostname) != Slug(web[i].hostname) {
      assert !Asks(web, j, HostRuns(web[i].hostname));
      SharePathIff(id, web[j].hostname, web[i].hostname);
    }
    LastIsServed(id, web, i);
    SiteOfHost(id, web[i].hostname);
    var p := SitePath(id, HostRuns(web[i].hostname));
    assert p in Listed(files, Web, id) && files[p] == Listed(files, Web, id)[p];
  }

  /** After a run over the wants, every selected tenant has its sites published. */
  lemma WebPlanIsPublished(files: Files, webs: map<string, seq<Endpoint>>, ids: seq<string>)
    requires (forall id :: id in webs ==> Spaceless(id)) && NoClash(webs.Keys) && forall id :: id in ids ==> id in webs
    ensures forall id :: id in ids ==> SitesPublished(ReconcileAll(files, Web, WebPlan(webs), ids), id, webs[id])
  {
    WebPlanQualifies(webs);
    assert WebPlan(webs).Keys == webs.Keys;
    forall id | id in ids ensures SitesPublished(ReconcileAll(files, Web, WebPlan(webs), ids), id, webs[id]) {
      RunSettlesSelected(files, Web, WebPlan(webs), ids, id);
      ListedSitesArePublished(ReconcileAll(files, Web, WebPlan(webs), ids), id, webs[id]);
    }
  }

  lemma {:induction false} WebWantsFit(id: string, web: seq<Endpoint>)
    ensures forall p :: p in WebWants(id, web) ==> GlobMatches(Web, id, p)
  {
    if web != [] {
      WebWantsFit(id, web[..|web| - 1]);
      WebPathIsListed(id, web[|web| - 1].hostname);
    }
  }

  predicate Spaceless(s: string) {
    forall i :: 0 <= i < |s| ==> !IsSpace(s[i])
  }

  lemma SpacelessConcat(a: string, b: string)
    requires Spaceless(a) && Spaceless(b)
    ensures Spaceless(a + b)
  {
  }

  lemma StemIsSpaceless(kind: Kind)
    ensures Spaceless(Stem(kind))
  {
    assert forall i :: 0 <= i < |Stem(kind)| ==> '!' <= Stem(kind)[i] <= '~';
  }

  /** A fragment's path is one word, given that the id and the name hold no white space. */
  lemma PathIsWord(kind: Kind, id: string, name: string)
    requires Spaceless(id) && Spaceless(name)
    ensures OneWord(FragmentPath(kind, id, name))
  {
    StemIsSpaceless(kind);
    assert Spaceless("-") && Spaceless(".caddy");
    SpacelessConcat(Stem(kind), id);
    SpacelessConcat(Stem(kind) + id, "-");
    SpacelessConcat(Stem(kind) + id + "-", name);
    SpacelessConcat(Stem(kind) + id + "-" + name, SUFFIX);
  }

  lemma SlugIsSpaceless(host: string)
    ensures Spaceless(Slug(host))
  {
    DashedChars(host, false);
    TrimKeepsChars(Dashed(host, false));
    forall i | 0 <= i < |Slug(host)| ensures !IsSpace(Slug(host)[i]) {
      assert Slug(host)[i] in Slug(host);
    }
  }

  lemma {:induction false} WebWantsAreWords(id: string, web: seq<Endpoint>)
    requires Spaceless(id)
    ensures forall p :: p in WebWants(id, web) ==> OneWord(p)
  {
    if web != [] {
      WebWantsAreWords(id, web[..|web| - 1]);
      SlugIsSpaceless(web[|web| - 1].hostname);
      PathIsWord(Web, id, Slug(web[|web| - 1].hostname));
    }
  }

  /** The wanted web fragments of every tenant. */
  function WebPlan(webs: map<string, seq<Endpoint>>): map<string, Files> {
    map id | id in webs :: WebWants(id, webs[id])
  }

  /** Every tenant's wanted fragments are listed by its own glob and read back from a listing. */
  lemma WebPlanQualifies(webs: map<string, seq<Endpoint>>)
    requires forall id :: id in webs ==> Spaceless(id)
    ensures Fits(Web, WebPlan(webs)) && OneWordWants(WebPlan(webs))
  {
    forall id | id in webs
      ensures forall p :: p in WebWants(id, webs[id]) ==> GlobMatches(Web, id, p) && OneWord(p) {
      WebWantsFit(id, webs[id]);
      WebWantsAreWords(id, webs[id]);
    }
  }

  /** What the MTA-STS loop reads of a tenant's mail block; a tenant without one is not hosted. */
  datatype MailTenant = MailTenant(hosted: bool, mtaSts: bool, domains: seq<string>)

  /** The wanted MTA-STS fragments of one tenant; `fragment` renders a domain's policy site. */
  function MtaWants(id: string, domains: seq<string>, fragment: string -> string): Files {
    if domains == [] then map[]
    else
      var d := domains[|domains| - 1];
      MtaWants(id, domains[..|domains| - 1], fragment)[FragmentPath(MtaSts, id, d) := fragment(d)]
  }

  function TenantMtaWants(id: string, t: MailTenant, fragment: string -> string): Files {
    if t.hosted && |t.domains| > 0 && t.mtaSts then MtaWants(id, t.domains, fragment) else map[]
  }

  method CollectMtaWants(id: string, t: MailTenant, fragment: string -> string) returns (want: Files)
    ensures want == TenantMtaWants(id, t, fragment)
  {
    want := map[];
    if t.hosted && |t.domains| > 0 && t.mtaSts {
      for i := 0 to |t.domains|
        invariant want == MtaWants(id, t.domains[..i], fragment)
      {
        assert t.domains[..i + 1][..i] == t.domains[..i];
        want := want[FragmentPath(MtaSts, id, t.domains[i]) := fragment(t.domains[i])];
      }
      assert t.domains[..|t.domains|] == t.domains;
    }
  }

  /** A domain as the workspace schema has it: no slash and no white space. */
  predicate IsDomain(d: string) {
    '/' !in d && Spaceless(d)
  }

  lemma {:induction false} MtaWantsQualify(id: string, domains: seq<string>, fragment: string -> string)
    requires Spaceless(id) && forall i :: 0 <= i < |domains| ==> IsDomain(domains[i])
    requires forall d :: fragment(d) != ""
    ensures forall p :: p in MtaWants(id, domains, fragment) ==>
              GlobMatches(MtaSts, id, p) && OneWord(p) && MtaWants(id, domains, fragment)[p] != ""
  {
    if domains != [] {
      var d := domains[|domains| - 1];
      MtaWantsQualify(id, domains[..|domains| - 1], fragment);
      OwnPathMatches(MtaSts, id, d);
      PathIsWord(MtaSts, id, d);
    }
  }

  function MtaPlan(tenants: map<string, MailTenant>, fragment: string -> string): map<string, Files> {
    map id | id in tenants :: TenantMtaWants(id, tenants[id], fragment)
  }

  lemma {:induction false} MtaWantsAt(id: string, domains: seq<string>, fragment: string -> string, name: string)
    ensures var want, p := MtaWants(id, domains, fragment), FragmentPath(MtaSts, id, name);
            (p in want <==> name in domains) && (p in want ==> want[p] == fragment(name))
    decreases |domains|
  {
    if domains != [] {
      var n := |domains| - 1;
      assert domains == domains[..n] + [domains[n]];
      MtaWantsAt(id, domains[..n], fragment, name);
      NameShows(MtaSts, id, name, domains[n]);
    }
  }

  /** Where the policy site of a domain goes. */
  function PolicyPath(id: string, domain: string): string {
    "/var/lib/mksrv/caddy.d/16-mta-sts-" + id + "-" + domain + ".caddy"
  }

  /**
   * The tenant's policy sites on the edge: there is one for each of its mail domains where it is hosted and publishes
   * policies, with that domain's content, and no other.
   */
  ghost predicate PoliciesPublished(files: Files, id: string, t: MailTenant, fragment: string -> string) {
    forall name :: '/' !in name ==>
      && (PolicyPath(id, name) in files <==> t.hosted && t.mtaSts && name in t.domains)
      && (PolicyPath(id, name) in files ==> files[PolicyPath(id, name)] == fragment(name))
  }

  lemma ListedArePublished(files: Files, id: string, t: MailTenant, fragment: string -> string)
    requires Listed(files, MtaSts, id) == TenantMtaWants(id, t, fragment)
    ensures PoliciesPublished(files, id, t, fragment)
  {
    forall name | '/' !in name
      ensures PolicyPath(id, name) in files <==> t.hosted && t.mtaSts && name in t.domains
      ensures PolicyPath(id, name) in files ==> files[PolicyPath(id, name)] == fragment(name)
    {
      var p := FragmentPath(MtaSts, id, name);
      assert p == PolicyPath(id, name);
      OwnPathMatches(MtaSts, id, name);
      MtaWantsAt(id, t.domains, fragment, name);
      assert p in files <==> p in Listed(files, MtaSts, id);
      assert p in files ==> files[p] == Listed(files, MtaSts, id)[p];
    }
  }

  /** After a run over the wants, every selected tenant has its policies published. */
  lemma PlanIsPublished(files: Files, tenants: map<string, MailTenant>, ids: seq<string>, fragment: string -> string)
    requires (forall id :: id in tenants ==> IsMailTenant(id, tenants[id])) && (forall d :: fragment(d) != "")
    requires NoClash(tenants.Keys)
    ensures var after := ReconcileAll(files, MtaSts, MtaPlan(tenants, fragment), Known(ids, tenants.Keys));
            forall id :: id in ids && id in tenants ==> PoliciesPublished(after, id, tenants[id], fragment)
  {
    var wants, known := MtaPlan(tenants, fragment), Known(ids, tenants.Keys);
    MtaPlanQualifies(tenants, fragment);
    assert wants.Keys == tenants.Keys;
    forall id | id in ids && id in tenants
      ensures PoliciesPublished(ReconcileAll(files, MtaSts, wants, known), id, tenants[id], fragment)
    {
      RunSettlesSelected(files, MtaSts, wants, known, id);
      ListedArePublished(ReconcileAll(files, MtaSts, wants, known), id, tenants[id], fragment);
    }
  }

  predicate IsMailTenant(id: string, t: MailTenant) {
    Spaceless(id) && forall i :: 0 <= i < |t.domains| ==> IsDomain(t.domains[i])
  }

  lemma TenantMtaWantsQualify(id: string, t: MailTenant, fragment: string -> string)
    requires IsMailTenant(id, t) && forall d :: fragment(d) != ""
    ensures var want := TenantMtaWants(id, t, fragment);
            forall p :: p in want ==> GlobMatches(MtaSts, id, p) && OneWord(p) && want[p] != ""
  {
    if t.hosted && |t.domains| > 0 && t.mtaSts { MtaWantsQualify(id, t.domains, fragment); }
  }

  lemma MtaPlanQualifies(tenants: map<string, MailTenant>, fragment: string -> string)
    requires (forall id :: id in tenants ==> IsMailTenant(id, tenants[id])) && forall d :: fragment(d) != ""
    ensures Fits(MtaSts, MtaPlan(tenants, fragment)) && OneWordWants(MtaPlan(tenants, fragment))
    ensures forall id, p :: id in tenants && p in MtaPlan(tenants, fragment)[id] ==>
              MtaPlan(tenants, fragment)[id][p] != ""
  {
    forall id | id in tenants
      ensures forall p :: p in MtaPlan(tenants, fragment)[id] ==>
                GlobMatches(MtaSts, id, p) && OneWord(p) && MtaPlan(tenants, fragment)[id][p] != "" {
      TenantMtaWantsQualify(id, tenants[id], fragment);
    }
  }

  /** The ids the loop does not skip. */
  function Known(ids: seq<string>, tenants: set<string>): (r: seq<string>)
    ensures forall id :: id in r <==> id in ids && id in tenants
  {
    if ids == [] then []
    else
      var n := |ids| - 1;
      assert ids == ids[..n] + [ids[n]];
      Known(ids[..n], tenants) + if ids[n] in tenants then [ids[n]] else []
  }

  /** `strings.Fields`. */
  function Fields(s: string): seq<string> {
    FieldsFrom(s, "")
  }

  function FieldsFrom(s: string, word: string): seq<string> {
    if s == [] then (if word == [] then [] else [word])
    else if IsSpace(s[0]) then (if word == [] then [] else [word]) + FieldsFrom(s[1..], "")
    else FieldsFrom(s[1..], word + [s[0]])
  }

  /** The output of `ls`: one name a line. */
  function Lines(names: seq<string>): string {
    if names == [] then "" else names[0] + "\n" + Lines(names[1..])
  }

  predicate OneWord(s: string) {
    s != [] && forall i :: 0 <= i < |s| ==> !IsSpace(s[i])
  }

  lemma {:induction false} FieldsTakeWord(name: string, rest: string, word: string)
    requires word + name != [] && forall i :: 0 <= i < |name| ==> !IsSpace(name[i])
    ensures FieldsFrom(name + "\n" + rest, word) == [word + name] + FieldsFrom(rest, "")
    decreases |name|
  {
    var s := name + "\n" + rest;
    if name == [] {
      assert s[0] == '\n' && s[1..] == rest && word + name == word;
    } else {
      assert s[0] == name[0] && s[1..] == name[1..] + "\n" + rest;
      assert (word + [name[0]]) + name[1..] == word + name;
      FieldsTakeWord(name[1..], rest, word + [name[0]]);
    }
  }

  /** Reading a listing back gives the listed names, as long as none holds white space. */
  lemma {:induction false} FieldsOfLines(names: seq<string>)
    requires forall i :: 0 <= i < |names| ==> OneWord(names[i])
    ensures Fields(Lines(names)) == names
  {
    if names != [] {
      FieldsTakeWord(names[0], Lines(names[1..]), "");
      assert [] + names[0] == names[0];
      FieldsOfLines(names[1..]);
      assert names == [names[0]] + names[1..];
    }
  }

  /** Every fragment a glob can list is one word, so a listing reads back as it was written. */
  ghost predicate OneWordNames(files: Files, kind: Kind, id: string) {
    forall p :: p in files && GlobMatches(kind, id, p) ==> OneWord(p)
  }

  /** The files once the first i wanted paths are written. */
  ghost function Written(files: Files, want: Files, names: seq<string>, i: nat): Files
    requires i <= |names| && Members(names) <= want.Keys
  {
    if i == 0 then files
    else
      assert names[i - 1] in Members(names);
      Written(files, want, names, i - 1)[names[i - 1] := want[names[i - 1]]]
  }

  lemma {:induction false} WrittenAt(files: Files, want: Files, names: seq<string>, i: nat, p: string)
    requires i <= |names| && Members(names) <= want.Keys
    ensures p in names[..i] ==>
              p in want && p in Written(files, want, names, i) && Written(files, want, names, i)[p] == want[p]
    ensures p !in names[..i] ==> SameAt(Written(files, want, names, i), files, p)
  {
    if i > 0 {
      assert names[..i] == names[..i - 1] + [names[i - 1]];
      WrittenAt(files, want, names, i - 1, p);
    }
  }

  lemma WrittenOutside(files: Files, want: Files, names: seq<string>, i: nat)
    requires i <= |names| && Members(names) <= want.Keys
    ensures forall p :: p !in want ==> SameAt(Written(files, want, names, i), files, p)
  {
    forall p | p !in want ensures SameAt(Written(files, want, names, i), files, p) {
      assert p in names[..i] ==> p in Members(names);
      WrittenAt(files, want, names, i, p);
    }
  }

  lemma WrittenAll(files: Files, want: Files, names: seq<string>)
    requires Members(names) == want.Keys
    ensures Written(files, want, names, |names|) == files + want
  {
    assert names[..|names|] == names;
    var w := Written(files, want, names, |names|);
    forall p ensures SameAt(w, files + want, p) {
      WrittenAt(files, want, names, |names|, p);
      assert p in names <==> p in Members(names);
    }
    SameFiles(w, files + want);
  }

  /** The files once the strays among the first i listed names are gone. */
  ghost function Swept(files: Files, want: Files, names: seq<string>, i: nat): Files
    requires i <= |names|
  {
    if i == 0 then files
    else if names[i - 1] in want then Swept(files, want, names, i - 1)
    else Swept(files, want, names, i - 1) - {names[i - 1]}
  }

  lemma {:induction false} SweptAt(files: Files, want: Files, names: seq<string>, i: nat, p: string)
    requires i <= |names|
    ensures p in names[..i] && p !in want ==> p !in Swept(files, want, names, i)
    ensures p !in names[..i] || p in want ==> SameAt(Swept(files, want, names, i), files, p)
  {
    if i > 0 {
      assert names[..i] == names[..i - 1] + [names[i - 1]];
      SweptAt(files, want, names, i - 1, p);
    }
  }

  /** The fragments left when every stray is gone. */
  ghost function WithoutStrays(files: Files, kind: Kind, id: string, want: Files): Files {
    map p | p in files && !(GlobMatches(kind, id, p) && p !in want) :: files[p]
  }

  lemma SweptIsSmaller(files: Files, want: Files, names: seq<string>, i: nat)
    requires i <= |names|
    ensures Swept(files, want, names, i).Keys <= files.Keys
  {
  }

  lemma WrittenIsBounded(files: Files, want: Files, names: seq<string>, i: nat)
    requires i <= |names| && Members(names) <= want.Keys
    ensures Written(files, want, names, i).Keys <= files.Keys + want.Keys
  {
    forall p | p in Written(files, want, names, i) ensures p in files || p in want {
      WrittenAt(files, want, names, i, p);
    }
  }

  lemma SweptOutside(files: Files, kind: Kind, id: string, want: Files, names: seq<string>, i: nat)
    requires i <= |names| && Members(names) <= Listed(files, kind, id).Keys
    ensures forall p :: !GlobMatches(kind, id, p) || p in want ==> SameAt(Swept(files, want, names, i), files, p)
  {
    forall p | !GlobMatches(kind, id, p) || p in want ensures SameAt(Swept(files, want, names, i), files, p) {
      assert p in names[..i] ==> p in Members(names);
      SweptAt(files, want, names, i, p);
    }
  }

  lemma SweptAll(files: Files, kind: Kind, id: string, want: Files, names: seq<string>)
    requires Members(names) == Listed(files, kind, id).Keys
    ensures Swept(files, want, names, |names|) == WithoutStrays(files, kind, id, want)
  {
    assert names[..|names|] == names;
    forall p ensures SameAt(Swept(files, want, names, |names|), WithoutStrays(files, kind, id, want), p) {
      SweptAt(files, want, names, |names|, p);
      assert p in names <==> p in Members(names);
    }
    SameFiles(Swept(files, want, names, |names|), WithoutStrays(files, kind, id, want));
  }

  ghost predicate OthersKept(after: Files, before: Files, kind: Kind, ids: seq<string>) {
    forall p :: Spared(kind, ids, p) ==> SameAt(after, before, p)
  }

  lemma SparedPrefix(now: Files, before: Files, kind: Kind, done: seq<string>, all: seq<string>)
    requires done <= all && OthersKept(now, before, kind, done)
    ensures OthersKept(now, before, kind, all)
  {
    assert forall id :: id in done ==> id in all;
    forall p | Spared(kind, all, p) ensures SameAt(now, before, p) {
      assert Spared(kind, done, p);
    }
  }

  /** A pass over one more tenant touches only that tenant's fragments. */
  lemma OthersStayKept(after: Files, now: Files, before: Files, kind: Kind, done: seq<string>, id: string,
                       all: seq<string>)
    requires done + [id] <= all && OthersKept(now, before, kind, done)
    requires forall p :: !GlobMatches(kind, id, p) ==> SameAt(after, now, p)
    ensures OthersKept(after, before, kind, done + [id]) && OthersKept(after, before, kind, all)
  {
    var more := done + [id];
    assert id in more && forall i :: i in done ==> i in more;
    forall p | Spared(kind, more, p) ensures SameAt(after, before, p) {
      assert Spared(kind, done, p) && !GlobMatches(kind, id, p);
      assert SameAt(now, before, p) && SameAt(after, now, p);
    }
    SparedPrefix(after, before, kind, more, all);
  }

  /** Where a run stands after the passes of some tenants. */
  ghost predicate Progress(now: Files, before: Files, kind: Kind, wants: map<string, Files>, done: seq<string>,
                           heard: seq<bool>) {
    && |heard| == |done| && (forall id :: id in done ==> id in wants)
    && now == HandleAll(before, kind, wants, done, heard) && OthersKept(now, before, kind, done)
  }

  lemma ProgressStep(after: Files, now: Files, before: Files, kind: Kind, wants: map<string, Files>, done: seq<string>,
                     id: string, heard: seq<bool>, listed: bool)
    requires Progress(now, before, kind, wants, done, heard) && id in wants
    requires after == Handled(now, kind, id, wants[id], listed) && OthersKept(after, before, kind, done + [id])
    ensures Progress(after, before, kind, wants, done + [id], heard + [listed])
  {
    assert (done + [id])[..|done|] == done && (heard + [listed])[..|heard|] == heard;
  }

  lemma KnownStep(ids: seq<string>, i: nat, tenants: set<string>)
    requires i < |ids|
    ensures Known(ids[..i + 1], tenants) == Known(ids[..i], tenants) + if ids[i] in tenants then [ids[i]] else []
    ensures Known(ids[..i + 1], tenants) <= Known(ids, tenants)
  {
    PrefixStep(ids, i);
    KnownPrefix(ids, i + 1, tenants);
  }

  lemma {:induction false} KnownPrefix(ids: seq<string>, i: nat, tenants: set<string>)
    requires i <= |ids|
    ensures Known(ids[..i], tenants) <= Known(ids, tenants)
    decreases |ids|
  {
    if i == |ids| {
      assert ids[..i] == ids;
    } else {
      assert ids[..|ids| - 1][..i] == ids[..i];
      KnownPrefix(ids[..|ids| - 1], i, tenants);
    }
  }

  /** Reconciling any of these tenants leaves the files as they are. */
  ghost predicate AtRest(files: Files, kind: Kind, wants: map<string, Files>, ids: seq<string>) {
    forall id :: id in ids && id in wants ==> Reconciled(files, kind, id, wants[id]) == files
  }

  /** Whichever listings come back, each pass over these tenants finds nothing to do. */
  ghost predicate Resting(files: Files, kind: Kind, wants: map<string, Files>, ids: seq<string>, heard: seq<bool>)
    requires |heard| == |ids| && forall id :: id in ids ==> id in wants
  {
    forall i :: 0 <= i < |ids| ==> Handled(files, kind, ids[i], wants[ids[i]], heard[i]) == files
  }

  lemma RestingStep(files: Files, kind: Kind, wants: map<string, Files>, ids: seq<string>, heard: seq<bool>, id: string,
                    listed: bool)
    requires |heard| == |ids| && (forall i :: i in ids ==> i in wants) && id in wants
    ensures Resting(files, kind, wants, ids + [id], heard + [listed])
       <==> Resting(files, kind, wants, ids, heard) && Handled(files, kind, id, wants[id], listed) == files
  {
    var more, told := ids + [id], heard + [listed];
    assert forall i :: 0 <= i < |ids| ==> more[i] == ids[i] && told[i] == heard[i];
    assert more[|ids|] == id && told[|ids|] == listed;
  }

  lemma AtRestRests(files: Files, kind: Kind, wants: map<string, Files>, ids: seq<string>, heard: seq<bool>)
    requires |heard| == |ids| && forall id :: id in ids ==> id in wants
    ensures AtRest(files, kind, wants, ids) ==> Resting(files, kind, wants, ids, heard)
    ensures Resting(files, kind, wants, ids, AllHeard(|ids|)) ==> AtRest(files, kind, wants, ids)
  {
    if AtRest(files, kind, wants, ids) {
      forall i | 0 <= i < |ids| ensures Handled(files, kind, ids[i], wants[ids[i]], heard[i]) == files {
        NoStraysAtRest(files, kind, ids[i], wants[ids[i]]);
      }
    }
    if Resting(files, kind, wants, ids, AllHeard(|ids|)) {
      forall id | id in ids ensures Reconciled(files, kind, id, wants[id]) == files {
        var i :| 0 <= i < |ids| && ids[i] == id;
        assert Handled(files, kind, ids[i], wants[ids[i]], AllHeard(|ids|)[i]) == files;
      }
    }
  }

  /** A run leaves the files alone exactly when every tenant's are at rest. */
  lemma RunIsIdleIff(files: Files, kind: Kind, wants: map<string, Files>, ids: seq<string>)
    requires forall id :: id in ids ==> id in wants
    requires Fits(kind, wants) && NoClash(wants.Keys)
    ensures ReconcileAll(files, kind, wants, ids) == files <==> AtRest(files, kind, wants, ids)
  {
    if AtRest(files, kind, wants, ids) {
      RestIsKept(files, kind, wants, ids);
    } else {
      var id :| id in ids && Reconciled(files, kind, id, wants[id]) != files;
      SecondRunIsIdle(files, kind, wants, ids, id);
    }
  }

  lemma {:induction false} RestIsKept(files: Files, kind: Kind, wants: map<string, Files>, ids: seq<string>)
    requires (forall id :: id in ids ==> id in wants) && AtRest(files, kind, wants, ids)
    ensures ReconcileAll(files, kind, wants, ids) == files
    decreases |ids|
  {
    if ids != [] {
      RestIsKept(files, kind, wants, ids[..|ids| - 1]);
    }
  }

  /** After a run a second one finds every tenant at rest. */
  lemma RunRests(files: Files, kind: Kind, wants: map<string, Files>, ids: seq<string>)
    requires forall id :: id in ids ==> id in wants
    requires Fits(kind, wants) && NoClash(wants.Keys)
    ensures AtRest(ReconcileAll(files, kind, wants, ids), kind, wants, ids)
  {
    forall id | id in ids
      ensures Reconciled(ReconcileAll(files, kind, wants, ids), kind, id, wants[id])
           == ReconcileAll(files, kind, wants, ids) {
      SecondRunIsIdle(files, kind, wants, ids, id);
    }
  }

  /** Some tenant has a stray fragment, and a listing of it that comes back. */
  ghost predicate SweepsStray(files: Files, kind: Kind, wants: map<string, Files>, ids: seq<string>, heard: seq<bool>)
    requires |heard| == |ids|
  {
    exists id :: id in wants && Heard(ids, heard, id) && HasStray(files, kind, id, wants[id])
  }

  lemma SweepsStep(files: Files, kind: Kind, wants: map<string, Files>, ids: seq<string>, heard: seq<bool>,
                   last: string, listed: bool)
    requires |heard| == |ids| && last in wants
    ensures SweepsStray(files, kind, wants, ids + [last], heard + [listed])
       <==> SweepsStray(files, kind, wants, ids, heard) || (listed && HasStray(files, kind, last, wants[last]))
  {
    var more, told := ids + [last], heard + [listed];
    assert more[..|ids|] == ids && told[..|ids|] == heard;
    forall id ensures Heard(more, told, id) <==> Heard(ids, heard, id) || (last == id && listed) {
      HeardStep(more, told, |ids|, id);
    }
  }

  /** The number of web fragments a run writes, changed or not. */
  ghost function WantedCount(wants: map<string, Files>, ids: seq<string>): nat
    requires forall id :: id in ids ==> id in wants
  {
    if ids == [] then 0 else WantedCount(wants, ids[..|ids| - 1]) + |wants[ids[|ids| - 1]]|
  }

  ghost predicate OneWordFiles(files: Files, kind: Kind, ids: set<string>) {
    forall id :: id in ids ==> OneWordNames(files, kind, id)
  }

  ghost predicate OneWordWants(wants: map<string, Files>) {
    forall id, p :: id in wants && p in wants[id] ==> OneWord(p)
  }

  lemma OneWordStays(after: Files, before: Files, kind: Kind, wants: map<string, Files>, id: string)
    requires id in wants && OneWordWants(wants) && OneWordFiles(before, kind, wants.Keys)
    requires after.Keys <= before.Keys + wants[id].Keys
    ensures OneWordFiles(after, kind, wants.Keys)
  {
    forall i, p | i in wants && p in after && GlobMatches(kind, i, p) ensures OneWord(p) {
      if p in before { assert OneWordNames(before, kind, i); }
    }
  }

  /** Files that reconciliation leaves alone hold no stray and every wanted fragment. */
  lemma NoStraysAtRest(files: Files, kind: Kind, id: string, want: Files)
    ensures Reconciled(files, kind, id, want) == files ==>
              Listed(files, kind, id).Keys <= want.Keys && files + want == files
    ensures Reconciled(files, kind, id, want) == WithoutStrays(files, kind, id, want) + want
  {
    if Reconciled(files, kind, id, want) == files {
      forall p | p in Listed(files, kind, id) ensures p in want {
        assert p in Reconciled(files, kind, id, want);
      }
      forall p | p in want ensures p in files && files[p] == want[p] {
        assert p in Reconciled(files, kind, id, want) && Reconciled(files, kind, id, want)[p] == want[p];
      }
    }
  }

  /** What the workspace's schema says of the tenants, and of a rendered site: it is not empty. */
  ghost predicate IsMailPlan(tenants: map<string, MailTenant>, fragment: string -> string, wants: map<string, Files>) {
    && (forall id :: id in tenants ==> IsMailTenant(id, tenants[id])) && (forall d :: fragment(d) != "")
    && wants == MtaPlan(tenants, fragment)
  }

  /** Where provisionMTASTS stands after the passes of some tenants. */
  ghost predicate MtaGoing(now: Files, start: Files, wants: map<string, Files>, past: seq<string>, all: seq<string>,
                           heard: seq<bool>, answered: bool, changed: nat) {
    && OneWordFiles(now, MtaSts, wants.Keys) && past <= all && Progress(now, start, MtaSts, wants, past, heard)
    && (changed == 0 ==> now == start)
    && (answered ==> (changed == 0 <==> Resting(start, MtaSts, wants, past, heard)))
  }

  /** Where provisionTenantWeb stands after the passes of some tenants. */
  ghost predicate WebGoing(now: Files, start: Files, wants: map<string, Files>, past: seq<string>, all: seq<string>,
                           heard: seq<bool>, changed: nat) {
    && OneWordFiles(now, Web, wants.Keys) && past <= all && Progress(now, start, Web, wants, past, heard)
    && changed >= WantedCount(wants, past) && (changed == 0 ==> now == start)
    && (changed > 0 <==> WantedCount(wants, past) > 0 || SweepsStray(start, Web, wants, past, heard))
  }

  lemma WebStarts(files: Files, wants: map<string, Files>, all: seq<string>)
    requires OneWordFiles(files, Web, wants.Keys)
    ensures WebGoing(files, files, wants, [], all, [], 0)
  {
  }

  lemma MtaStarts(files: Files, wants: map<string, Files>, all: seq<string>)
    requires OneWordFiles(files, MtaSts, wants.Keys)
    ensures MtaGoing(files, files, wants, [], all, [], true, 0)
  {
  }

  lemma PrefixGoesOn(ids: seq<string>, i: nat)
    requires i < |ids|
    ensures ids[..i + 1] == ids[..i] + [ids[i]] && ids[..i + 1] <= ids && ids[i] in ids
  {
  }

  /** How many units the gates of these tenants change. */
  ghost function GateCount(gates: string -> nat, ids: seq<string>): nat {
    if ids == [] then 0 else GateCount(gates, ids[..|ids| - 1]) + gates(ids[|ids| - 1])
  }

  lemma GateCountStep(gates: string -> nat, ids: seq<string>, id: string)
    ensures GateCount(gates, ids + [id]) == GateCount(gates, ids) + gates(id)
  {
    assert (ids + [id])[..|ids|] == ids;
  }

  /** Tenants all at rest: the passes so far have changed nothing. */
  lemma AtRestAlong(start: Files, wants: map<string, Files>, past: seq<string>, all: seq<string>, heard: seq<bool>)
    requires past <= all && |heard| == |past| && forall id :: id in past ==> id in wants
    ensures AtRest(start, MtaSts, wants, all) ==> Resting(start, MtaSts, wants, past, heard)
  {
    if AtRest(start, MtaSts, wants, all) {
      assert forall id :: id in past ==> id in all;
      AtRestRests(start, MtaSts, wants, past, heard);
    }
  }

  /** Strays are what the sweep would leave out. */
  lemma StraysAre(files: Files, kind: Kind, id: string, want: Files)
    ensures HasStray(files, kind, id, want) <==> !(Listed(files, kind, id).Keys <= want.Keys)
    ensures HasStray(files, kind, id, want) ==> WithoutStrays(files, kind, id, want) != files
  {
    if HasStray(files, kind, id, want) {
      var p :| p in Listed(files, kind, id) && p !in want;
      assert p in Listed(files, kind, id).Keys && p !in WithoutStrays(files, kind, id, want);
    }
  }

  class Edge {
    var files: Files
    /** The files as Caddy last read them. */
    var served: Files
    var reloads: nat
    /** No command of this edge ever fails. */
    const reliable: bool
    /** How many commands have failed or gone unanswered. */
    var failures: nat

    /** Failures add up, and a reliable edge has none. */
    twostate predicate Counted()
      reads this
    {
      old(failures) <= failures && (reliable ==> failures == old(failures))
    }

    /** The outcome of one command. */
    method Command() returns (ok: bool)
      modifies this`failures
      ensures Counted() && failures == old(failures) + if ok then 0 else 1
    {
      ok := *;
      if reliable {
        ok := true;
      }
      if !ok {
        failures := failures + 1;
      }
    }

    /** rm -f, over a connection that may fail before or after the server has acted. */
    method Remove(path: string) returns (ok: bool)
      modifies this`files, this`failures
      ensures Counted() && failures == old(failures) + if ok then 0 else 1
      ensures ok ==> files == old(files) - {path}
      ensures !ok ==> files == old(files) || files == old(files) - {path}
    {
      ok := Command();
      var reached: bool := *;
      if ok || reached {
        files := files - {path};
      }
    }

    /** WriteFileSudo: the rename either happened or not. */
    method Write(path: string, content: string) returns (ok: bool)
      modifies this`files, this`failures
      ensures Counted() && failures == old(failures) + if ok then 0 else 1
      ensures ok ==> files == old(files)[path := content]
      ensures !ok ==> files == old(files) || files == old(files)[path := content]
    {
      ok := Command();
      var reached: bool := *;
      if ok || reached {
        files := files[path := content];
      }
    }

    /** `cat ... || true`: a missing file reads as empty, and so does a connection that failed. */
    method Read(path: string) returns (answered: bool, content: string)
      modifies this`failures
      ensures Counted() && failures == old(failures) + if answered then 0 else 1
      ensures content == if answered && path in files then files[path] else ""
    {
      answered := Command();
      content := if answered && path in files then files[path] else "";
    }

    /** The listing and the deletion of stray fragments; a listing that fails is passed over. */
    method RemoveStrays(kind: Kind, id: string, want: Files) returns (ok: bool, listed: bool, removed: nat)
      requires OneWordNames(files, kind, id)
      modifies this`files, this`failures
      ensures Counted() && (failures == old(failures) ==> ok && listed)
      ensures forall p :: !GlobMatches(kind, id, p) || p in want ==> SameAt(files, old(files), p)
      ensures files.Keys <= old(files).Keys
      ensures ok ==> files == if listed then WithoutStrays(old(files), kind, id, want) else old(files)
      ensures ok && removed == 0 ==> files == old(files)
      ensures !listed || Listed(old(files), kind, id).Keys <= want.Keys ==> ok && removed == 0
      ensures ok && listed && HasStray(old(files), kind, id, want) ==> removed > 0
    {
      StraysAre(files, kind, id, want);
      listed := Command();
      if !listed {
        return true, listed, 0;
      }
      var names := AnyOrder(Listed(files, kind, id).Keys);
      forall i | 0 <= i < |names| ensures OneWord(names[i]) {
        assert names[i] in Members(names);
      }
      FieldsOfLines(names);
      SweptAll(files, kind, id, want, names);
      ghost var before, reached := files, 0;
      ok, removed, reached := Sweep(Fields(Lines(names)), want);
      SweptOutside(before, kind, id, want, names, reached);
      SweptIsSmaller(before, want, names, reached);
    }

    /** The loop over the listing. */
    method Sweep(lines: seq<string>, want: Files) returns (ok: bool, removed: nat, ghost reached: nat)
      modifies this`files, this`failures
      ensures Counted() && (ok <==> failures == old(failures))
      ensures reached <= |lines| && files == Swept(old(files), want, lines, reached)
      ensures ok ==> reached == |lines|
      ensures ok && removed == 0 ==> files == old(files)
      ensures Members(lines) <= want.Keys ==> ok && removed == 0
    {
      removed := 0;
      for i := 0 to |lines|
        invariant files == Swept(old(files), want, lines, i) && failures == old(failures)
        invariant removed == 0 ==> files == old(files)
        invariant Members(lines) <= want.Keys ==> removed == 0
      {
        assert lines[i] in Members(lines);
        if lines[i] in want {
          continue;
        }
        var gone := Remove(lines[i]);
        if !gone {
          return false, removed, if files == Swept(old(files), want, lines, i) then i else i + 1;
        }
        removed := removed + 1;
      }
      return true, removed, |lines|;
    }

    /** One wanted MTA-STS fragment: read, compared, written when it differs. */
    method WriteIfChanged(path: string, content: string) returns (ok: bool, answered: bool, wrote: bool)
      requires content != ""
      modifies this`files, this`failures
      ensures Counted() && (failures == old(failures) ==> ok && answered)
      ensures ok ==> files == old(files)[path := content]
      ensures !ok ==> files == old(files) || files == old(files)[path := content]
      ensures ok && !wrote ==> files == old(files)
      ensures answered && path in old(files) && old(files)[path] == content ==> ok && !wrote
    {
      var now: string;
      answered, now := Read(path);
      if now == content {
        assert files == files[path := content];
        return true, answered, false;
      }
      ok := Write(path, content);
      wrote := true;
    }

    /** provisionMTASTS's writes: only what differs from the wanted fragment. */
    method WriteChanged(want: Files)
      returns (ok: bool, answered: bool, written: nat, ghost names: seq<string>, ghost reached: nat)
      requires forall p :: p in want ==> want[p] != ""
      modifies this`files, this`failures
      ensures Counted() && (failures == old(failures) ==> ok && answered)
      ensures Members(names) == want.Keys && reached <= |names| && files == Written(old(files), want, names, reached)
      ensures ok ==> files == old(files) + want
      ensures ok && written == 0 ==> files == old(files)
      ensures answered && old(files) + want == old(files) ==> ok && written == 0
    {
      var paths := SortedKeys(want.Keys);
      names := paths;
      ghost var before := files;
      answered, written := true, 0;
      for i := 0 to |paths|
        invariant files == Written(before, want, paths, i) && Counted()
        invariant failures == old(failures) ==> answered
        invariant written == 0 ==> files == before
        invariant answered && before + want == before ==> written == 0
      {
        assert paths[i] in Members(paths);
        ghost var idle := answered && before + want == before;
        assert idle ==> (before + want)[paths[i]] == want[paths[i]];
        var done, got, wrote := WriteIfChanged(paths[i], want[paths[i]]);
        answered := answered && got;
        if !done {
          return false, answered, written, names, if files == Written(before, want, paths, i) then i else i + 1;
        }
        written := written + if wrote then 1 else 0;
      }
      WrittenAll(before, want, paths);
      return true, answered, written, names, |paths|;
    }

    /** provisionTenantWeb's writes: all of them, every time. */
    method WriteAll(want: Files) returns (ok: bool, written: nat, ghost names: seq<string>, ghost reached: nat)
      modifies this`files, this`failures
      ensures Counted() && (ok <==> failures == old(failures))
      ensures Members(names) == want.Keys && reached <= |names| && files == Written(old(files), want, names, reached)
      ensures ok ==> files == old(files) + want && written == |want|
      ensures ok && written == 0 ==> files == old(files)
    {
      var paths := SortedKeys(want.Keys);
      names := paths;
      ghost var before := files;
      written := 0;
      for i := 0 to |paths|
        invariant files == Written(before, want, paths, i) && written == i && failures == old(failures)
      {
        assert paths[i] in Members(paths);
        var done := Write(paths[i], want[paths[i]]);
        if !done {
          return false, written, names, if files == Written(before, want, paths, i) then i else i + 1;
        }
        written := written + 1;
      }
      WrittenAll(before, want, paths);
      return true, written, names, |paths|;
    }

    /** Caddy reads the files; a command that fails may have reached it or not. */
    method Reload() returns (ok: bool)
      modifies this`served, this`reloads, this`failures
      ensures Counted() && failures == old(failures) + if ok then 0 else 1
      ensures ok ==> served == files && reloads == old(reloads) + 1
      ensures !ok ==> (served == files || served == old(served)) && reloads == old(reloads)
    {
      ok := Command();
      var reached: bool := *;
      if ok || reached {
        served := files;
      }
      if ok {
        reloads := reloads + 1;
      }
    }

    /** One tenant of provisionMTASTS; `answered` says that every fragment was read. */
    method ReconcileMTASTS(id: string, want: Files) returns (ok: bool, listed: bool, answered: bool, changed: nat)
      requires OneWordNames(files, MtaSts, id)
      requires forall p :: p in want ==> GlobMatches(MtaSts, id, p) && want[p] != ""
      modifies this`files, this`failures
      ensures Counted() && (failures == old(failures) ==> ok && listed && answered)
      ensures forall p :: !GlobMatches(MtaSts, id, p) ==> SameAt(files, old(files), p)
      ensures files.Keys <= old(files).Keys + want.Keys
      ensures ok ==> files == Handled(old(files), MtaSts, id, want, listed)
      ensures ok && changed == 0 ==> files == old(files)
      ensures answered && Handled(old(files), MtaSts, id, want, listed) == old(files) ==> ok && changed == 0
      ensures answered && Reconciled(old(files), MtaSts, id, want) == old(files) ==> ok && changed == 0
    {
      ghost var before := files;
      answered := false;
      NoStraysAtRest(before, MtaSts, id, want);
      ok, listed, changed := RemoveStrays(MtaSts, id, want);
      if !ok {
        return;
      }
      ghost var swept := files;
      var written;
      ghost var names, reached;
      ok, answered, written, names, reached := WriteChanged(want);
      WrittenOutside(swept, want, names, reached);
      WrittenIsBounded(swept, want, names, reached);
      changed := changed + written;
    }

    /** One turn of the loop of provisionMTASTS, for an id the workspace has. */
    method PassMTASTS(tenants: map<string, MailTenant>, id: string, fragment: string -> string, heard: seq<bool>,
                      before: bool, sofar: nat, ghost wants: map<string, Files>, ghost start: Files,
                      ghost past: seq<string>, ghost all: seq<string>)
      returns (ok: bool, listed: bool, answered: bool, changed: nat)
      requires IsMailPlan(tenants, fragment, wants) && id in tenants && past + [id] <= all
      requires MtaGoing(files, start, wants, past, all, heard, before, sofar)
      modifies this`files, this`failures
      ensures Counted() && (failures == old(failures) ==> ok && listed && (before ==> answered))
      ensures OthersKept(files, start, MtaSts, all)
      ensures ok ==> MtaGoing(files, start, wants, past + [id], all, heard + [listed], answered, changed)
      ensures answered && AtRest(start, MtaSts, wants, all) ==> ok
    {
      ghost var now := files;
      MtaPlanQualifies(tenants, fragment);
      assert id in all by { assert id == (past + [id])[|past|]; }
      assert OneWordNames(files, MtaSts, id);
      TenantMtaWantsQualify(id, tenants[id], fragment);
      var want := CollectMtaWants(id, tenants[id], fragment);
      assert want == wants[id];
      if before { AtRestAlong(start, wants, past, all, heard); }
      ok, listed, answered, changed := ReconcileMTASTS(id, want);
      OthersStayKept(files, now, start, MtaSts, past, id, all);
      OneWordStays(files, now, MtaSts, wants, id);
      if ok {
        ProgressStep(files, now, start, MtaSts, wants, past, id, heard, listed);
        RestingStep(start, MtaSts, wants, past, heard, id, listed);
      }
      answered, changed := before && answered, sofar + changed;
    }

    /** The loop of provisionMTASTS; an id the workspace does not have is skipped. */
    method PassAllMTASTS(tenants: map<string, MailTenant>, ids: seq<string>, fragment: string -> string,
                         ghost wants: map<string, Files>, ghost known: seq<string>)
      returns (ok: bool, heard: seq<bool>, answered: bool, changed: nat)
      requires IsMailPlan(tenants, fragment, wants) && known == Known(ids, tenants.Keys)
      requires OneWordFiles(files, MtaSts, wants.Keys)
      modifies this`files, this`failures
      ensures Counted() && (failures == old(failures) ==> ok && answered && heard == AllHeard(|known|))
      ensures OthersKept(files, old(files), MtaSts, known)
      ensures ok ==> MtaGoing(files, old(files), wants, known, known, heard, answered, changed)
      ensures answered && AtRest(old(files), MtaSts, wants, known) ==> ok
    {
      ghost var start, past := files, [];
      ok, heard, answered, changed := true, [], true, 0;
      MtaStarts(start, wants, known);
      for i := 0 to |ids|
        invariant ok && past == Known(ids[..i], tenants.Keys) && Counted()
        invariant MtaGoing(files, start, wants, past, known, heard, answered, changed)
        invariant failures == old(failures) ==> answered && heard == AllHeard(|past|)
      {
        AllHeardStep(|past|);
        KnownStep(ids, i, tenants.Keys);
        if ids[i] in tenants {
          var listed;
          ok, listed, answered, changed :=
            PassMTASTS(tenants, ids[i], fragment, heard, answered, changed, wants, start, past, known);
          if !ok {
            return;
          }
          heard, past := heard + [listed], past + [ids[i]];
        }
      }
      assert ids[..|ids|] == ids;
    }

    /** The reload, when something changed. */
    method ReloadIf(changed: bool) returns (ok: bool)
      modifies this`served, this`reloads, this`failures
      ensures Counted() && (ok <==> failures == old(failures))
      ensures ok ==> (served == files <==> changed || old(served) == files)
      ensures ok ==> reloads == old(reloads) + if changed then 1 else 0
      ensures !changed ==> ok && served == old(served)
    {
      ok := true;
      if changed {
        ok := Reload();
      }
    }

    /**
     * provisionMTASTS over the selected tenants. `heard` says which listings came back, `answered` that every fragment
     * was read.
     */
    method ProvisionMTASTS(tenants: map<string, MailTenant>, ids: seq<string>, fragment: string -> string)
      returns (ok: bool, heard: seq<bool>, answered: bool, changed: nat)
      requires IsMailPlan(tenants, fragment, MtaPlan(tenants, fragment)) && OneWordFiles(files, MtaSts, tenants.Keys)
      modifies this`files, this`served, this`reloads, this`failures
      // Only a command that fails ends a run, and without one every listing and every fragment is read.
      ensures Counted()
      ensures failures == old(failures) ==> ok && answered && heard == AllHeard(|Known(ids, tenants.Keys)|)
      // The files, whichever listings came back.
      ensures OthersKept(files, old(files), MtaSts, Known(ids, tenants.Keys))
      ensures ok ==> |heard| == |Known(ids, tenants.Keys)| && OneWordFiles(files, MtaSts, tenants.Keys)
      ensures ok ==> files == HandleAll(old(files), MtaSts, MtaPlan(tenants, fragment), Known(ids, tenants.Keys), heard)
      // ... and without a failure, every selected tenant has the policy sites it asks for and no other.
      ensures failures == old(failures) && NoClash(tenants.Keys) ==>
                forall id :: id in ids && id in tenants ==> PoliciesPublished(files, id, tenants[id], fragment)
      // Something changed exactly when some tenant was not at rest.
      ensures ok && changed == 0 ==> files == old(files)
      ensures ok && answered ==>
                (changed == 0
                 <==> Resting(old(files), MtaSts, MtaPlan(tenants, fragment), Known(ids, tenants.Keys), heard))
      ensures failures == old(failures) ==>
                (changed == 0 <==> AtRest(old(files), MtaSts, MtaPlan(tenants, fragment), Known(ids, tenants.Keys)))
      ensures answered && AtRest(old(files), MtaSts, MtaPlan(tenants, fragment), Known(ids, tenants.Keys)) ==>
                ok && changed == 0
      // Caddy's view ends up matching the files exactly when something changed or it matched before.
      ensures ok ==> reloads == old(reloads) + if changed > 0 then 1 else 0
      ensures ok ==> (served == files <==> changed > 0 || old(served) == old(files))
      ensures ok && changed == 0 ==> served == old(served)
    {
      ghost var wants, known := MtaPlan(tenants, fragment), Known(ids, tenants.Keys);
      assert wants.Keys == tenants.Keys;
      ok, heard, answered, changed := PassAllMTASTS(tenants, ids, fragment, wants, known);
      if NoClash(tenants.Keys) {
        HeardRunReconciles(old(files), MtaSts, wants, known);
        PlanIsPublished(old(files), tenants, ids, fragment);
      }
      if ok {
        AtRestRests(old(files), MtaSts, wants, known, heard);
        ok := ReloadIf(changed != 0);
      }
    }

    /** Twice over: without a failure the second run finds nothing to change and does not reload. */
    method ProvisionMTASTSTwice(tenants: map<string, MailTenant>, ids: seq<string>, fragment: string -> string)
      returns (ok: bool, first: nat, second: nat)
      requires IsMailPlan(tenants, fragment, MtaPlan(tenants, fragment)) && OneWordFiles(files, MtaSts, tenants.Keys)
      requires NoClash(tenants.Keys)
      modifies this`files, this`served, this`reloads, this`failures
      ensures Counted() && (failures == old(failures) ==> ok && second == 0)
      ensures failures == old(failures) ==>
                files == ReconcileAll(old(files), MtaSts, MtaPlan(tenants, fragment), Known(ids, tenants.Keys))
      ensures failures == old(failures) ==>
                (first == 0 <==> AtRest(old(files), MtaSts, MtaPlan(tenants, fragment), Known(ids, tenants.Keys)))
      ensures failures == old(failures) ==> reloads == old(reloads) + if first > 0 then 1 else 0
      ensures failures == old(failures) ==> (served == files <==> first > 0 || old(served) == old(files))
    {
      ghost var wants, known := MtaPlan(tenants, fragment), Known(ids, tenants.Keys);
      MtaPlanQualifies(tenants, fragment);
      assert wants.Keys == tenants.Keys;
      second := 0;
      var heard, answered;
      ok, heard, answered, first := ProvisionMTASTS(tenants, ids, fragment);
      if !ok {
        return;
      }
      HeardRunReconciles(old(files), MtaSts, wants, known);
      RunRests(old(files), MtaSts, wants, known);
      ok, heard, answered, second := ProvisionMTASTS(tenants, ids, fragment);
    }

    /**
     * A run that dies right before its reload, and then a whole one: it finds nothing to change and does not reload.
     * Had Caddy's view matched before, it is left stale exactly when some tenant was not at rest.
     */
    method ProvisionMTASTSAfterCut(tenants: map<string, MailTenant>, ids: seq<string>, fragment: string -> string)
      returns (ok: bool, changed: nat)
      requires IsMailPlan(tenants, fragment, MtaPlan(tenants, fragment)) && OneWordFiles(files, MtaSts, tenants.Keys)
      requires NoClash(tenants.Keys) && served == files
      modifies this`files, this`served, this`reloads, this`failures
      ensures Counted() && (failures == old(failures) ==> ok && changed == 0)
      ensures failures == old(failures) ==>
                files == ReconcileAll(old(files), MtaSts, MtaPlan(tenants, fragment), Known(ids, tenants.Keys))
      ensures failures == old(failures) ==>
                (served != files <==> !AtRest(old(files), MtaSts, MtaPlan(tenants, fragment), Known(ids, tenants.Keys)))
    {
      ghost var wants, known := MtaPlan(tenants, fragment), Known(ids, tenants.Keys);
      MtaPlanQualifies(tenants, fragment);
      assert wants.Keys == tenants.Keys;
      var heard, answered;
      ok, heard, answered, changed := PassAllMTASTS(tenants, ids, fragment, wants, known);
      if !ok {
        return;
      }
      HeardRunReconciles(old(files), MtaSts, wants, known);
      RunRests(old(files), MtaSts, wants, known);
      RunIsIdleIff(old(files), MtaSts, wants, known);
      ok, heard, answered, changed := ProvisionMTASTS(tenants, ids, fragment);
    }

    /** One tenant of provisionTenantWeb's fragment loop. */
    method ReconcileWeb(id: string, want: Files) returns (ok: bool, listed: bool, changed: nat)
      requires OneWordNames(files, Web, id)
      requires forall p :: p in want ==> GlobMatches(Web, id, p)
      modifies this`files, this`failures
      ensures Counted() && (failures == old(failures) ==> ok && listed)
      ensures forall p :: !GlobMatches(Web, id, p) ==> SameAt(files, old(files), p)
      ensures files.Keys <= old(files).Keys + want.Keys
      ensures ok ==> files == Handled(old(files), Web, id, want, listed)
      ensures ok ==> changed >= |want| && (changed == 0 ==> files == old(files))
      ensures ok ==> (changed > 0 <==> |want| > 0 || (listed && HasStray(old(files), Web, id, want)))
    {
      StraysAre(files, Web, id, want);
      ok, listed, changed := RemoveStrays(Web, id, want);
      if !ok {
        return;
      }
      ghost var swept := files;
      var written;
      ghost var names, reached;
      ok, written, names, reached := WriteAll(want);
      WrittenOutside(swept, want, names, reached);
      WrittenIsBounded(swept, want, names, reached);
      changed := changed + written;
    }

    /**
     * The oauth2-proxy unit of one tenant, its Keycloak client and its secrets: outside the model but for the number of
     * units that change.
     */
    method Gate(id: string, gates: string -> nat) returns (ok: bool, units: nat)
      modifies this`failures
      ensures Counted() && (ok <==> failures == old(failures)) && units == gates(id)
    {
      ok := Command();
      units := gates(id);
    }

    /** The daemon-reload and the restarts, when a unit changed. */
    method RestartUnits(units: nat) returns (ok: bool)
      modifies this`failures
      ensures Counted() && (ok <==> failures == old(failures)) && (units == 0 ==> ok)
    {
      ok := true;
      if units > 0 {
        ok := Command();
      }
    }

    /** One turn of the loop of provisionTenantWeb. */
    method PassWeb(webs: map<string, seq<Endpoint>>, gates: string -> nat, id: string, heard: seq<bool>, sofar: nat,
                   ghost wants: map<string, Files>, ghost start: Files, ghost past: seq<string>, ghost all: seq<string>)
      returns (ok: bool, listed: bool, changed: nat, units: nat)
      requires (forall i :: i in webs ==> Spaceless(i)) && wants == WebPlan(webs) && id in webs && past + [id] <= all
      requires WebGoing(files, start, wants, past, all, heard, sofar)
      modifies this`files, this`failures
      ensures Counted() && (failures == old(failures) ==> ok && listed)
      ensures OthersKept(files, start, Web, all)
      ensures ok ==> WebGoing(files, start, wants, past + [id], all, heard + [listed], changed) && units == gates(id)
    {
      ghost var now := files;
      WebPlanQualifies(webs);
      SparedPrefix(files, start, Web, past, all);
      assert OneWordNames(files, Web, id);
      listed, changed := false, sofar;
      ok, units := Gate(id, gates);
      if !ok {
        return;
      }
      var want := CollectWebWants(id, webs[id]);
      assert want == wants[id];
      ok, listed, changed := ReconcileWeb(id, want);
      OthersStayKept(files, now, start, Web, past, id, all);
      OneWordStays(files, now, Web, wants, id);
      if ok {
        ProgressStep(files, now, start, Web, wants, past, id, heard, listed);
        SweepsStep(start, Web, wants, past, heard, id, listed);
        assert (past + [id])[..|past|] == past;
      }
      changed := sofar + changed;
    }

    /** The loop of provisionTenantWeb. */
    method PassAllWeb(webs: map<string, seq<Endpoint>>, gates: string -> nat, ids: seq<string>,
                      ghost wants: map<string, Files>)
      returns (ok: bool, heard: seq<bool>, changed: nat, units: nat)
      requires (forall i :: i in webs ==> Spaceless(i)) && wants == WebPlan(webs)
      requires (forall id :: id in ids ==> id in webs) && OneWordFiles(files, Web, webs.Keys)
      modifies this`files, this`failures
      ensures Counted() && (failures == old(failures) ==> ok && heard == AllHeard(|ids|))
      ensures OthersKept(files, old(files), Web, ids)
      ensures ok ==> WebGoing(files, old(files), wants, ids, ids, heard, changed) && units == GateCount(gates, ids)
    {
      ghost var start, past := files, [];
      ok, heard, changed, units := true, [], 0, 0;
      WebStarts(start, wants, ids);
      for i := 0 to |ids|
        invariant ok && past == ids[..i] && Counted() && (failures == old(failures) ==> heard == AllHeard(|past|))
        invariant WebGoing(files, start, wants, past, ids, heard, changed) && units == GateCount(gates, past)
      {
        PrefixGoesOn(ids, i);
        AllHeardStep(|past|);
        GateCountStep(gates, past, ids[i]);
        var listed, more;
        ok, listed, changed, more := PassWeb(webs, gates, ids[i], heard, changed, wants, start, past, ids);
        if !ok {
          return;
        }
        heard, units, past := heard + [listed], units + more, past + [ids[i]];
      }
      assert past == ids;
    }

    /**
     * provisionTenantWeb over the selected tenants; `heard` says which listings came back. `gates` says how many gate
     * units of a tenant change.
     */
    method ProvisionWeb(webs: map<string, seq<Endpoint>>, gates: string -> nat, ids: seq<string>)
      returns (ok: bool, heard: seq<bool>, changed: nat, units: nat)
      requires forall id :: id in webs ==> Spaceless(id)
      requires (forall id :: id in ids ==> id in webs) && OneWordFiles(files, Web, webs.Keys)
      modifies this`files, this`served, this`reloads, this`failures
      // Only a command that fails ends a run.
      ensures Counted() && (failures == old(failures) ==> ok && heard == AllHeard(|ids|))
      // The files, whichever listings came back.
      ensures OthersKept(files, old(files), Web, ids)
      ensures ok ==> |heard| == |ids| && files == HandleAll(old(files), Web, WebPlan(webs), ids, heard)
      // ... and without a failure, every selected tenant has the sites it asks for and no other.
      ensures failures == old(failures) && NoClash(webs.Keys) ==>
                forall id :: id in ids ==> SitesPublished(files, id, webs[id])
      // Something counts as changed exactly when a tenant wants a fragment or a listed one is not wanted.
      ensures ok ==> changed >= WantedCount(WebPlan(webs), ids) && (changed == 0 ==> files == old(files))
      ensures ok ==> (changed > 0 <==> WantedCount(WebPlan(webs), ids) > 0
                                       || SweepsStray(old(files), Web, WebPlan(webs), ids, heard))
      ensures ok ==> units == GateCount(gates, ids)
      // Caddy's view ends up matching the files exactly when something changed, a gate unit too, or it matched before.
      ensures ok ==> reloads == old(reloads) + if changed > 0 || units > 0 then 1 else 0
      ensures ok ==> (served == files <==> changed > 0 || units > 0 || old(served) == old(files))
    {
      ok, heard, changed, units := PassAllWeb(webs, gates, ids, WebPlan(webs));
      if NoClash(webs.Keys) {
        HeardRunReconciles(old(files), Web, WebPlan(webs), ids);
        WebPlanIsPublished(old(files), webs, ids);
      }
      if ok {
        ok := RestartUnits(units);
      }
      if ok {
        ok := ReloadIf(changed > 0 || units > 0);
      }
    }
  }
}
