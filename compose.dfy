/**
 * The document `compose_file` builds for `docker-compose.yml`: the external
 * networks of the three services and the `web` service with its image,
 * build arguments, env file, Traefik labels and networks.
 */
module Compose {
  import opened Wrappers
  import opened OrderedMap
  import opened Names

  /** `{ 'external' => true }`. */
  datatype Network = Network(external: bool)

  datatype Build = Build(context: string, args: Map<string>)

  datatype Service = Service(
    image: string,
    restart: string,
    build: Build,
    envFile: seq<string>,
    labels: seq<string>,
    networks: seq<string>)

  datatype Document = Document(networks: Map<Network>, services: Map<Service>)

  /** `services`. */
  function Services(): seq<string> {
    ["web", "postgres", "doc_box"]
  }

  /** Builds the networks Hash: each name in turn is stored as an external network. */
  function NetworksFold(names: seq<string>, acc: Map<Network>): Map<Network>
    decreases |names|
  {
    if |names| == 0 then acc
    else NetworksFold(names[1..], Put(acc, names[0], Network(true)))
  }

  function ExternalNetworks(names: seq<string>): Map<Network> {
    NetworksFold(names, [])
  }

  /** The Traefik `Host` matcher for the hostname; a nil hostname interpolates as the empty string. */
  function HostRule(hostname: Option<string>): string {
    "Host(`" + hostname.GetOr("") + "`)"
  }

  /** The Traefik labels of the `web` service, in the order written. */
  function Labels(projectName: string, hostname: Option<string>): seq<string> {
    var p := projectName;
    ["traefik.enable=true",
     "traefik.http.middlewares." + p + "-redirectscheme.redirectscheme.permanent=true",
     "traefik.http.middlewares." + p + "-redirectscheme.redirectscheme.scheme=https",
     "traefik.http.routers." + p + "-http.entrypoints=web",
     "traefik.http.routers." + p + "-http.middlewares=" + p + "-redirectscheme@docker",
     "traefik.http.routers." + p + "-http.rule=" + HostRule(hostname),
     "traefik.http.routers." + p + "-https.entrypoints=websecure",
     "traefik.http.routers." + p + "-https.rule=" + HostRule(hostname),
     "traefik.http.routers." + p + "-https.tls=true",
     "traefik.http.routers." + p + "-https.tls.certresolver=letsencrypt",
     "traefik.docker.network=web"]
  }

  /**
   * `compose_file`: `projectName` is `project_name`, `hostname` is
   * `@envs['HOSTNAME']`, and the versions are read from `.ruby-version` and
   * `.nvmrc` again (not taken from `@envs`).
   */
  function ComposeFile(projectName: string, hostname: Option<string>, prefix: string,
                       rubyVersion: string, nodeVersion: string): Document
  {
    Document(ExternalNetworks(Services()),
             [Entry("web", WebService(projectName, hostname, prefix, rubyVersion, nodeVersion))])
  }

  /** The `web` entry of `services`. */
  function WebService(projectName: string, hostname: Option<string>, prefix: string,
                      rubyVersion: string, nodeVersion: string): Service
  {
    Service(
      Image(prefix, projectName),
      "always",
      Build(".", [Entry("RUBY_VERSION", rubyVersion), Entry("NODE_VERSION", nodeVersion)]),
      [".env"],
      Labels(projectName, hostname),
      Services())
  }

  // ---------------------------------------------------------------------------

  /** `t` occurs in `s` starting at position `i`. */
  predicate OccursAt(s: string, t: string, i: nat) {
    i + |t| <= |s| && s[i..i + |t|] == t
  }

  /** `t` occurs in `s`. */
  predicate Contains(s: string, t: string) {
    exists i: nat | i <= |s| :: OccursAt(s, t, i)
  }

  /** `s` ends with `t`. */
  predicate EndsWith(s: string, t: string) {
    |t| <= |s| && s[|s| - |t|..] == t
  }

  lemma EndsWithAppend(a: string, t: string)
    ensures EndsWith(a + t, t)
  {
    assert (a + t)[|a|..] == t;
  }

  lemma ContainsMiddle(a: string, t: string, b: string)
    ensures Contains(a + t + b, t)
  {
    assert (a + t + b)[|a|..|a| + |t|] == t;
    assert OccursAt(a + t + b, t, |a|);
  }

  /** The fold declares exactly the listed names, each as an external network. */
  lemma {:induction false} NetworksFoldGet(names: seq<string>, acc: Map<Network>, k: string)
    ensures Get(NetworksFold(names, acc), k) == if k in names then Some(Network(true)) else Get(acc, k)
    decreases |names|
  {
    if |names| > 0 {
      PutSpec(acc, names[0], Network(true));
      NetworksFoldGet(names[1..], Put(acc, names[0], Network(true)), k);
      assert k in names <==> k == names[0] || k in names[1..];
    }
  }

  /** With distinct names that the accumulator lacks, the fold appends one external network per name, in list order. */
  lemma {:induction false} NetworksFoldAppends(names: seq<string>, acc: Map<Network>)
    requires forall i, j :: 0 <= i < j < |names| ==> names[i] != names[j]
    requires forall i :: 0 <= i < |names| ==> names[i] !in Keys(acc)
    ensures NetworksFold(names, acc) == acc + seq(|names|, i requires 0 <= i < |names| => Entry(names[i], Network(true)))
    decreases |names|
  {
    if |names| > 0 {
      var acc' := acc + [Entry(names[0], Network(true))];
      FindSpec(Keys(acc), names[0]);
      assert Put(acc, names[0], Network(true)) == acc';
      assert Keys(acc') == Keys(acc) + [names[0]];
      forall i | 0 <= i < |names[1..]| ensures names[1..][i] !in Keys(acc') {
        assert names[1..][i] == names[i + 1];
      }
      NetworksFoldAppends(names[1..], acc');
    }
  }

  /** `networks`: the three services, in order, each an external network. */
  lemma ServiceNetworks()
    ensures ExternalNetworks(Services()) ==
      [Entry("web", Network(true)), Entry("postgres", Network(true)), Entry("doc_box", Network(true))]
    ensures Keys(ExternalNetworks(Services())) == Services()
  {
    var names := Services();
    assert names[0] != names[1] && names[0] != names[2] && names[1] != names[2];
    NetworksFoldAppends(names, []);
  }

  /** `networks` maps exactly the services, each to an external network. */
  lemma ServiceNetworksGet(k: string)
    ensures Get(ExternalNetworks(Services()), k) == if k in Services() then Some(Network(true)) else None
  {
    NetworksFoldGet(Services(), [], k);
  }

  /** The `web` service: its image, restart policy, build, env file, labels and networks. */
  lemma WebServiceSpec(projectName: string, hostname: Option<string>, prefix: string,
                       rubyVersion: string, nodeVersion: string)
    ensures var web := WebService(projectName, hostname, prefix, rubyVersion, nodeVersion);
      web.networks == Services() &&
      web.envFile == [".env"] && web.restart == "always" &&
      web.image == Image(prefix, projectName) &&
      web.build.context == "." &&
      Keys(web.build.args) == ["RUBY_VERSION", "NODE_VERSION"] &&
      Get(web.build.args, "RUBY_VERSION") == Some(rubyVersion) &&
      Get(web.build.args, "NODE_VERSION") == Some(nodeVersion) &&
      web.labels == Labels(projectName, hostname)
  {
    var args := WebService(projectName, hostname, prefix, rubyVersion, nodeVersion).build.args;
    assert Keys(args) == ["RUBY_VERSION", "NODE_VERSION"];
    assert Keys(args)[0] != "NODE_VERSION";
    FindSpec(Keys(args), "NODE_VERSION");
  }

  /**
   * The document has one external network per service, in the order of
   * `services`, and the `web` service joins exactly those networks, reads
   * `.env`, restarts always, and is built from `.` with both versions.
   */
  lemma ComposeFileSpec(projectName: string, hostname: Option<string>, prefix: string,
                        rubyVersion: string, nodeVersion: string)
    ensures var doc := ComposeFile(projectName, hostname, prefix, rubyVersion, nodeVersion);
      Keys(doc.networks) == Services() &&
      (forall k :: Get(doc.networks, k) == if k in Services() then Some(Network(true)) else None) &&
      Keys(doc.services) == ["web"] &&
      var web := doc.services[0].value;
      web.networks == Keys(doc.networks) &&
      web.envFile == [".env"] && web.restart == "always" &&
      web.image == Image(prefix, projectName) &&
      web.build.context == "." &&
      Get(web.build.args, "RUBY_VERSION") == Some(rubyVersion) &&
      Get(web.build.args, "NODE_VERSION") == Some(nodeVersion) &&
      web.labels == Labels(projectName, hostname)
  {
    var doc := ComposeFile(projectName, hostname, prefix, rubyVersion, nodeVersion);
    ServiceNetworks();
    forall k ensures Get(doc.networks, k) == if k in Services() then Some(Network(true)) else None {
      ServiceNetworksGet(k);
    }
    assert Keys(doc.services) == ["web"];
    WebServiceSpec(projectName, hostname, prefix, rubyVersion, nodeVersion);
  }

  /**
   * The labels: eleven of them, the enable flag first and the docker network
   * last, the nine between them all naming the project, and both routers
   * matching the same `Host` rule.
   */
  lemma LabelsSpec(projectName: string, hostname: Option<string>)
    ensures var ls := Labels(projectName, hostname);
      |ls| == 11 &&
      ls[0] == "traefik.enable=true" &&
      ls[10] == "traefik.docker.network=web" &&
      (forall i :: 1 <= i < 10 ==> Contains(ls[i], projectName)) &&
      EndsWith(ls[5], "=" + HostRule(hostname)) &&
      EndsWith(ls[7], "=" + HostRule(hostname)) &&
      ('=' !in projectName ==>
        SplitAtFirst(ls[5], '=') == ("traefik.http.routers." + projectName + "-http.rule", HostRule(hostname)) &&
        SplitAtFirst(ls[7], '=') == ("traefik.http.routers." + projectName + "-https.rule", HostRule(hostname)))
  {
    LabelsNameProject(projectName, hostname);
    LabelsRuleSuffix(projectName, hostname);
    if '=' !in projectName {
      LabelsRules(projectName, hostname);
    }
  }

  lemma LabelsNameProject(p: string, hostname: Option<string>)
    ensures forall i :: 1 <= i < 10 ==> Contains(Labels(p, hostname)[i], p)
  {
    var ls := Labels(p, hostname);
    var h := HostRule(hostname);
    assert ls[1] == "traefik.http.middlewares." + p + "-redirectscheme.redirectscheme.permanent=true";
    ContainsMiddle("traefik.http.middlewares.", p, "-redirectscheme.redirectscheme.permanent=true");
    ContainsMiddle("traefik.http.middlewares.", p, "-redirectscheme.redirectscheme.scheme=https");
    ContainsMiddle("traefik.http.routers.", p, "-http.entrypoints=web");
    ContainsMiddle("traefik.http.routers.", p, "-http.middlewares=" + p + "-redirectscheme@docker");
    assert ls[4] == "traefik.http.routers." + p + ("-http.middlewares=" + p + "-redirectscheme@docker");
    ContainsMiddle("traefik.http.routers.", p, "-http.rule=" + h);
    assert ls[5] == "traefik.http.routers." + p + ("-http.rule=" + h);
    ContainsMiddle("traefik.http.routers.", p, "-https.entrypoints=websecure");
    ContainsMiddle("traefik.http.routers.", p, "-https.rule=" + h);
    assert ls[7] == "traefik.http.routers." + p + ("-https.rule=" + h);
    ContainsMiddle("traefik.http.routers.", p, "-https.tls=true");
    ContainsMiddle("traefik.http.routers.", p, "-https.tls.certresolver=letsencrypt");
  }

  /** Whatever the project name holds, both router rule labels end in `=` and the same `Host` rule. */
  lemma LabelsRuleSuffix(p: string, hostname: Option<string>)
    ensures EndsWith(Labels(p, hostname)[5], "=" + HostRule(hostname))
    ensures EndsWith(Labels(p, hostname)[7], "=" + HostRule(hostname))
  {
    var ls := Labels(p, hostname);
    var r := "=" + HostRule(hostname);
    assert ls[5] == ("traefik.http.routers." + p + "-http.rule") + r;
    assert ls[7] == ("traefik.http.routers." + p + "-https.rule") + r;
    EndsWithAppend("traefik.http.routers." + p + "-http.rule", r);
    EndsWithAppend("traefik.http.routers." + p + "-https.rule", r);
  }

  lemma LabelsRules(p: string, hostname: Option<string>)
    requires '=' !in p
    ensures SplitAtFirst(Labels(p, hostname)[5], '=') == ("traefik.http.routers." + p + "-http.rule", HostRule(hostname))
    ensures SplitAtFirst(Labels(p, hostname)[7], '=') == ("traefik.http.routers." + p + "-https.rule", HostRule(hostname))
  {
    var ls := Labels(p, hostname);
    var h := HostRule(hostname);
    var n5 := "traefik.http.routers." + p + "-http.rule";
    var n7 := "traefik.http.routers." + p + "-https.rule";
    assert '=' !in n5 && '=' !in n7;
    assert ls[5] == n5 + ['='] + h;
    assert ls[7] == n7 + ['='] + h;
    SplitAtFirstJoin(n5, '=', h);
    SplitAtFirstJoin(n7, '=', h);
  }

  /** The HTTPS router rule for project "shop" at host shop.example.com. */
  lemma LabelsExample()
    ensures Labels("shop", Some("shop.example.com"))[7] ==
      "traefik.http.routers.shop-https.rule=Host(`shop.example.com`)"
  {
  }
}
