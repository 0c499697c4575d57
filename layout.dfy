/** Where the reconciler looks: the service and app names taken from the
    command line, the four luna-service2 roots, the files of a modern and of a
    legacy layout under a root, and `path.dirname` for the parent-directory
    test. */
module Layout {
  import opened Text

  const DefaultServiceName := "org.webosbrew.hbchannel.service"
  /** The app id accepted in place of the service name. */
  const AppAlias := "org.webosbrew.hbchannel"

  /** The modern roots, visited in this order. */
  const ModernRoots: seq<string> := ["/var/luna-service2-dev", "/var/luna-service2"]
  /** The legacy roots, visited after the modern ones, in this order. */
  const LegacyRoots: seq<string> := ["/var/palm/ls2-dev", "/var/palm/ls2"]

  datatype Names = Names(service: string, app: string)

  /** The app name derived from a service name: drop the last dot-separated
      segment (`split('.').slice(0, -1).join('.')`). */
  function DerivedAppName(service: string): string
  {
    var parts := Split(service, '.');
    Join(parts[..|parts| - 1], '.')
  }

  /** The names `main` works with: the first argument or the default service
      name, the second argument or the derived app name; the bare app id as
      the first argument stands for the hbchannel service and app. Without
      arguments the app is the name derived from the default service, which
      `DefaultNames` shows to be `AppAlias`. */
  function ResolveNames(argv: seq<string>): (r: Names)
    ensures |argv| >= 1 && argv[0] != AppAlias ==> r.service == argv[0]
    ensures |argv| == 0 ==> r == Names(DefaultServiceName, AppAlias)
    ensures r.service != AppAlias
    ensures |argv| >= 1 && argv[0] == AppAlias ==> r == Names(DefaultServiceName, AppAlias)
    ensures |argv| >= 2 && argv[0] != AppAlias ==> r.app == argv[1]
    ensures |argv| == 1 && argv[0] != AppAlias ==> r.app == DerivedAppName(argv[0])
  {
    if |argv| == 0 || argv[0] == AppAlias then Names(DefaultServiceName, AppAlias)
    else if |argv| >= 2 then Names(argv[0], argv[1])
    else Names(argv[0], DerivedAppName(argv[0]))
  }

  /** The derived app name is everything before the last dot, and the empty
      name when there is no dot. */
  lemma DerivedAppNameLastDot(service: string)
    ensures var i := LastIndexOf(service, '.');
            DerivedAppName(service) == if i < 0 then "" else service[..i]
  {
    var i := LastIndexOf(service, '.');
    if i < 0 {
      assert '.' !in service;
      SplitSingle(service, '.');
    } else {
      var a, b := service[..i], service[i + 1..];
      assert service == a + ['.'] + b;
      assert '.' !in b;
      SplitAppend(a, '.', b);
      SplitSingle(b, '.');
      var parts := Split(service, '.');
      assert parts == Split(a, '.') + [b];
      assert parts[..|parts| - 1] == Split(a, '.');
      JoinSplit(a, '.');
    }
  }

  /** A name with a dot-free last segment drops exactly that segment. */
  lemma DerivedAppNameOf(a: string, b: string)
    requires '.' !in b
    ensures DerivedAppName(a + "." + b) == a
  {
    var s := a + "." + b;
    DerivedAppNameLastDot(s);
    assert s[|a|] == '.';
    assert forall j :: |a| < j < |s| ==> s[j] == b[j - |a| - 1];
    assert s[..|a|] == a;
  }

  /** The app name derived from the default service name is the hbchannel app
      id, so running without arguments is running with the default service
      name alone. */
  lemma DefaultNames(service: string)
    requires service == DefaultServiceName
    ensures DerivedAppName(service) == AppAlias
  {
    DerivedAppNameOf(AppAlias, "service");
    assert AppAlias + "." + "service" == DefaultServiceName;
  }

  /** The files of a webOS 3.x+ layout under one root. */
  datatype Modern = Modern(serviceFile: string, clientPermFile: string, apiPermFile: string,
                           manifestFile: string, roleFile: string)

  /** The files of a legacy (webOS < 3) layout under one root. */
  datatype Legacy = Legacy(pubServiceFile: string, prvServiceFile: string,
                           pubRolesFile: string, prvRolesFile: string)

  /** The five files of a modern layout are five different paths, whatever the
      names: they sit in five different directories under the root. */
  function ModernLayout(root: string, names: Names): (l: Modern)
    ensures l.serviceFile != l.clientPermFile && l.serviceFile != l.apiPermFile &&
            l.serviceFile != l.manifestFile && l.serviceFile != l.roleFile
    ensures l.clientPermFile != l.apiPermFile && l.clientPermFile != l.manifestFile &&
            l.clientPermFile != l.roleFile
    ensures l.apiPermFile != l.manifestFile && l.apiPermFile != l.roleFile
    ensures l.manifestFile != l.roleFile
  {
    var l := Modern(root + "/services.d/" + names.service + ".service",
                    root + "/client-permissions.d/" + names.service + ".root.json",
                    root + "/api-permissions.d/" + names.service + ".api.public.json",
                    root + "/manifests.d/" + names.app + ".json",
                    root + "/roles.d/" + names.service + ".service.json");
    assert l.serviceFile[|root| + 1] == 's';
    assert l.clientPermFile[|root| + 1] == 'c';
    assert l.apiPermFile[|root| + 1] == 'a';
    assert l.manifestFile[|root| + 1] == 'm';
    assert l.roleFile[|root| + 1] == 'r';
    l
  }

  /** The four files of a legacy layout are four different paths: services and
      roles differ after the root, public and private after `services/p` or
      `roles/p`. */
  function LegacyLayout(root: string, service: string): (l: Legacy)
    ensures l.pubServiceFile != l.prvServiceFile && l.pubRolesFile != l.prvRolesFile
    ensures l.pubServiceFile != l.pubRolesFile && l.pubServiceFile != l.prvRolesFile
    ensures l.prvServiceFile != l.pubRolesFile && l.prvServiceFile != l.prvRolesFile
  {
    var l := Legacy(root + "/services/pub/" + service + ".service",
                    root + "/services/prv/" + service + ".service",
                    root + "/roles/pub/" + service + ".json",
                    root + "/roles/prv/" + service + ".json");
    assert l.pubServiceFile[|root| + 1] == 's' && l.prvServiceFile[|root| + 1] == 's';
    assert l.pubRolesFile[|root| + 1] == 'r' && l.prvRolesFile[|root| + 1] == 'r';
    assert l.pubServiceFile[|root| + 11] == 'u' && l.prvServiceFile[|root| + 11] == 'r';
    assert l.pubRolesFile[|root| + 8] == 'u' && l.prvRolesFile[|root| + 8] == 'r';
    l
  }

  /** `path.dirname` for a path that does not end in `/` and does not start
      with `//` (Node keeps a leading `//` whole): everything before the last
      `/`, the root for a top-level entry, and `.` without any `/`. */
  function Dirname(path: string): (d: string)
    ensures '/' !in path ==> d == "."
  {
    var i := LastIndexOf(path, '/');
    if i < 0 then "." else if i == 0 then "/" else path[..i]
  }

  /** The parent of `dir/name` is `dir`, when `name` has no `/` and `dir` is not
      empty. Every caller passes a directory under a root, never `/` itself,
      so the joined path never starts with `//`. */
  lemma DirnameJoin(dir: string, name: string)
    requires dir != [] && '/' !in name
    ensures Dirname(dir + "/" + name) == dir
  {
    var p := dir + "/" + name;
    var i := LastIndexOf(p, '/');
    assert p[|dir|] == '/';
    assert forall j :: |dir| < j < |p| ==> p[j] == name[j - |dir| - 1];
    assert i == |dir|;
    assert p[..i] == dir;
  }

  /** A permission file's parent is the matching `.d` directory under the
      root, when the service name has no `/`. */
  lemma PermissionParents(root: string, names: Names)
    requires root != [] && '/' !in names.service
    ensures Dirname(ModernLayout(root, names).clientPermFile) == root + "/client-permissions.d"
    ensures Dirname(ModernLayout(root, names).apiPermFile) == root + "/api-permissions.d"
  {
    var l := ModernLayout(root, names);
    var c := names.service + ".root.json";
    var a := names.service + ".api.public.json";
    assert '/' !in c && '/' !in a;
    assert l.clientPermFile == (root + "/client-permissions.d") + "/" + c;
    assert l.apiPermFile == (root + "/api-permissions.d") + "/" + a;
    DirnameJoin(root + "/client-permissions.d", c);
    DirnameJoin(root + "/api-permissions.d", a);
  }

  /** The service, roles and manifest files' parents are the matching `.d`
      directories under the root, when the names have no `/`. */
  lemma ModernParents(root: string, names: Names)
    requires root != [] && '/' !in names.service && '/' !in names.app
    ensures Dirname(ModernLayout(root, names).serviceFile) == root + "/services.d"
    ensures Dirname(ModernLayout(root, names).roleFile) == root + "/roles.d"
    ensures Dirname(ModernLayout(root, names).manifestFile) == root + "/manifests.d"
  {
    var l := ModernLayout(root, names);
    var sv := names.service + ".service";
    var rl := names.service + ".service.json";
    var mf := names.app + ".json";
    assert '/' !in sv && '/' !in rl && '/' !in mf;
    assert l.serviceFile == (root + "/services.d") + "/" + sv;
    assert l.roleFile == (root + "/roles.d") + "/" + rl;
    assert l.manifestFile == (root + "/manifests.d") + "/" + mf;
    DirnameJoin(root + "/services.d", sv);
    DirnameJoin(root + "/roles.d", rl);
    DirnameJoin(root + "/manifests.d", mf);
  }
}
