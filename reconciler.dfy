/** The one-shot reconciler (`main` with `searchDir` and `searchLegacyDir`):
    for one service it patches the service file, provisions the permission
    files, patches the roles file and links the manifest under each of the two
    modern roots, then patches the service and roles files under each of the
    two legacy roots, and asks for a service rescan when any step reported a
    change. The file system is a map from path to contents plus the set of
    existing directories; an exception escaping a step (a JSON text that does
    not parse, a `null` where an object is read) ends the run. */
module Reconciler {
  import opened Json
  import opened Layout
  import ServiceDefinition
  import Roles
  import Manifest

  /** What the run reads but never changes: the existing directories, the
      resolved path of the `run-js-service` helper and whether it exists, and
      the JSON codec. */
  datatype Env = Env(dirs: set<string>, helper: string, helperExists: bool, codec: Codec)

  /** The files, the `configChanged` flag, and whether an exception ended the run. */
  datatype State = State(files: map<string, string>, changed: bool, failed: bool)

  /** `r` can follow `st` in a run: the change flag is never lowered, no file is
      removed, and after a failure nothing happens any more. */
  predicate Follows(st: State, r: State)
  {
    && (st.changed ==> r.changed)
    && (st.failed ==> r == st)
    && st.files.Keys <= r.files.Keys
  }

  /** Every write is reported: while the change flag stays down, no file changes. */
  predicate Reported(st: State, r: State)
  {
    !r.changed ==> r.files == st.files
  }

  lemma FollowsTrans(a: State, b: State, c: State)
    requires Follows(a, b) && Reported(a, b) && Follows(b, c) && Reported(b, c)
    ensures Follows(a, c) && Reported(a, c)
  {
  }

  // ---------------------------------------------------------------------------
  // The steps
  // ---------------------------------------------------------------------------

  /** `patchServiceFile` on an existing file. */
  function ServiceStep(env: Env, st: State, path: string): (r: State)
    requires path in st.files
    ensures Follows(st, r) && Reported(st, r)
    ensures !st.failed ==>
              (!r.failed &&
               r.files == st.files[path := ServiceDefinition.Patched(st.files[path], env.helper, env.helperExists)])
    ensures !st.failed ==> (r.changed <==> st.changed || r.files[path] != st.files[path])
  {
    if st.failed then st
    else
      var text := st.files[path];
      var patched := ServiceDefinition.Patched(text, env.helper, env.helperExists);
      if patched != text then State(st.files[path := patched], true, false)
      else
        assert st.files[path := patched] == st.files;
        st
  }

  /** Create a default permission file when its parent directory exists and the
      file does not. */
  function CreateStep(env: Env, st: State, path: string, doc: Value): (r: State)
    ensures Follows(st, r) && Reported(st, r)
    ensures !st.failed ==> !r.failed && (path in r.files <==> path in st.files || Dirname(path) in env.dirs)
    ensures !st.failed && path !in st.files && Dirname(path) in env.dirs ==>
              r.files == st.files[path := env.codec.stringify(doc)] && r.changed
    ensures st.failed || path in st.files || Dirname(path) !in env.dirs ==> r == st
  {
    if st.failed || path in st.files || Dirname(path) !in env.dirs then st
    else State(st.files[path := env.codec.stringify(doc)], true, false)
  }

  /** `patchRolesFile` on an existing file, with the default required names. */
  function RolesStep(env: Env, st: State, path: string): (r: State)
    requires path in st.files
    ensures Follows(st, r) && Reported(st, r)
    ensures !st.failed ==> (r.failed <==> match env.codec.parse(st.files[path])
                                         case None => true
                                         case Some(doc) => Roles.Throws(doc))
    ensures r.files == st.files || r.files == st.files[path := r.files[path]]
    ensures !st.failed && !r.failed ==>
              var doc := env.codec.parse(st.files[path]).value;
              var text := env.codec.stringify(Roles.Patched(doc, Roles.DefaultRequiredNames));
              && (r.changed <==> st.changed || text != env.codec.stringify(doc))
              && r.files == (if text != env.codec.stringify(doc) then st.files[path := text] else st.files)
  {
    if st.failed then st
    else
      match env.codec.parse(st.files[path])
      case None => st.(failed := true)
      case Some(doc) =>
        if Roles.Throws(doc) then st.(failed := true)
        else
          var text := env.codec.stringify(Roles.Patched(doc, Roles.DefaultRequiredNames));
          if text != env.codec.stringify(doc) then State(st.files[path := text], true, false) else st
  }

  /** The manifest linking on an existing manifest of the layout. */
  function ManifestStep(env: Env, st: State, l: Modern): (r: State)
    requires l.manifestFile in st.files
    ensures Follows(st, r) && Reported(st, r)
    ensures !st.failed ==> (r.failed <==> env.codec.parse(st.files[l.manifestFile]) in {None, Some(Null)})
    ensures r.files == st.files || r.files == st.files[l.manifestFile := r.files[l.manifestFile]]
    ensures !st.failed && !r.failed ==>
              var raw := st.files[l.manifestFile];
              var text := env.codec.stringify(Manifest.Link(env.codec.parse(raw).value, l.clientPermFile, l.apiPermFile));
              && (r.changed <==> st.changed || text != raw)
              && r.files == (if text != raw then st.files[l.manifestFile := text] else st.files)
  {
    if st.failed then st
    else
      var raw := st.files[l.manifestFile];
      match env.codec.parse(raw)
      case None => st.(failed := true)
      case Some(doc) =>
        if doc == Null then st.(failed := true)
        else
          var text := env.codec.stringify(Manifest.Link(doc, l.clientPermFile, l.apiPermFile));
          if text != raw then State(st.files[l.manifestFile := text], true, false) else st
  }

  // ---------------------------------------------------------------------------
  // The searches and the run
  // ---------------------------------------------------------------------------

  /** The roles step when the roles file exists. */
  function RolesIfPresent(env: Env, st: State, path: string): (r: State)
    ensures Follows(st, r) && Reported(st, r)
  {
    if path in st.files then RolesStep(env, st, path) else st
  }

  /** The manifest step when the manifest exists. */
  function ManifestIfPresent(env: Env, st: State, l: Modern): (r: State)
    ensures Follows(st, r) && Reported(st, r)
  {
    if l.manifestFile in st.files then ManifestStep(env, st, l) else st
  }

  /** Everything `searchDir` does once the layout's service file is found. */
  function ModernSteps(env: Env, names: Names, l: Modern, st: State): (r: State)
    requires l.serviceFile in st.files
    ensures Follows(st, r) && Reported(st, r)
  {
    var s1 := ServiceStep(env, st, l.serviceFile);
    var s2 := CreateStep(env, s1, l.clientPermFile, Manifest.ClientPermDoc(names.service));
    var s3 := CreateStep(env, s2, l.apiPermFile, Manifest.ApiPermDoc(names.service));
    var s4 := RolesIfPresent(env, s3, l.roleFile);
    var s5 := ManifestIfPresent(env, s4, l);
    FollowsTrans(st, s1, s2);
    FollowsTrans(st, s2, s3);
    FollowsTrans(st, s3, s4);
    FollowsTrans(st, s4, s5);
    s5
  }

  /** `searchDir`: nothing is done unless the layout's service file exists. */
  function SearchDirSpec(env: Env, names: Names, root: string, st: State): (r: State)
    ensures Follows(st, r) && Reported(st, r)
  {
    var l := ModernLayout(root, names);
    if st.failed || l.serviceFile !in st.files then st
    else ModernSteps(env, names, l, st)
  }

  /** The legacy service files: the private one only when the public one exists. */
  function LegacyServices(env: Env, l: Legacy, st: State): (r: State)
    ensures Follows(st, r) && Reported(st, r)
  {
    if l.pubServiceFile in st.files then
      var s1 := ServiceStep(env, st, l.pubServiceFile);
      var s2 := if l.prvServiceFile in s1.files then ServiceStep(env, s1, l.prvServiceFile) else s1;
      FollowsTrans(st, s1, s2);
      s2
    else st
  }

  /** `searchLegacyDir`: the two roles files whether or not a service file exists. */
  function SearchLegacySpec(env: Env, service: string, root: string, st: State): (r: State)
    ensures Follows(st, r) && Reported(st, r)
  {
    var l := LegacyLayout(root, service);
    var s1 := LegacyServices(env, l, st);
    var s2 := RolesIfPresent(env, s1, l.pubRolesFile);
    var s3 := RolesIfPresent(env, s2, l.prvRolesFile);
    FollowsTrans(st, s1, s2);
    FollowsTrans(st, s2, s3);
    s3
  }

  /** The four searches in their fixed order. */
  function RunSpec(env: Env, names: Names, st: State): (r: State)
    ensures Follows(st, r) && Reported(st, r)
  {
    var s1 := SearchDirSpec(env, names, ModernRoots[0], st);
    var s2 := SearchDirSpec(env, names, ModernRoots[1], s1);
    var s3 := SearchLegacySpec(env, names.service, LegacyRoots[0], s2);
    var s4 := SearchLegacySpec(env, names.service, LegacyRoots[1], s3);
    FollowsTrans(st, s1, s2);
    FollowsTrans(st, s2, s3);
    FollowsTrans(st, s3, s4);
    s4
  }

  /** Whether `ls-control scan-services` is started at the end. */
  function Rescan(env: Env, argv: seq<string>, files: map<string, string>): (r: bool)
    ensures var run := RunSpec(env, ResolveNames(argv), State(files, false, false));
            !r ==> run.failed || run.files == files
  {
    var r := RunSpec(env, ResolveNames(argv), State(files, false, false));
    r.changed && !r.failed
  }

  // ---------------------------------------------------------------------------
  // Properties of the steps
  // ---------------------------------------------------------------------------

  /** A script service whose helper is missing is neither written nor reported. */
  lemma ServiceHelperMissing(env: Env, st: State, path: string)
    requires path in st.files && !env.helperExists
    requires ServiceDefinition.Classify(st.files[path]) == ServiceDefinition.Scripted
    ensures ServiceStep(env, st, path) == st
  {
  }

  /** A second pass over the service file the first pass left reports nothing,
      for a helper path of the form `SafeHelper` describes. */
  lemma ServiceSecondPass(env: Env, st: State, path: string)
    requires path in st.files && !st.failed
    requires ServiceDefinition.SafeHelper(env.helper)
    ensures var r := ServiceStep(env, st, path);
            ServiceStep(env, r.(changed := false), path) == r.(changed := false)
  {
    var r := ServiceStep(env, st, path);
    ServiceDefinition.PatchIdempotent(st.files[path], env.helper, env.helperExists);
  }

  /** With a lawful codec, the roles step reports a change exactly when it
      writes different contents, and that is exactly when the patch changed the
      parsed document. */
  lemma RolesChangedIff(env: Env, st: State, path: string)
    requires path in st.files && !st.failed && !st.changed
    requires Lawful(env.codec)
    ensures var r := RolesStep(env, st, path);
            r.changed <==> r.files != st.files
    ensures var r := RolesStep(env, st, path);
            !r.failed ==>
              var doc := env.codec.parse(st.files[path]).value;
              (r.changed <==> Roles.Patched(doc, Roles.DefaultRequiredNames) != doc)
  {
    var r := RolesStep(env, st, path);
    var c := env.codec;
    var raw := st.files[path];
    match c.parse(raw)
    case None =>
    case Some(doc) =>
      if !Roles.Throws(doc) {
        var p := Roles.Patched(doc, Roles.DefaultRequiredNames);
        StringifyInjective(c, p, doc);
        if r.changed {
          assert r.files[path] == c.stringify(p);
        }
      }
  }

  /** With a lawful codec, a second pass over the roles file the first pass
      left reports nothing. */
  lemma RolesSecondPass(env: Env, st: State, path: string)
    requires path in st.files && !st.failed
    requires Lawful(env.codec)
    ensures var r := RolesStep(env, st, path);
            !r.failed ==> RolesStep(env, r.(changed := false), path) == r.(changed := false)
  {
    var r := RolesStep(env, st, path);
    var c := env.codec;
    var req := Roles.DefaultRequiredNames;
    match c.parse(st.files[path])
    case None =>
    case Some(doc) =>
      if !Roles.Throws(doc) {
        var p := Roles.Patched(doc, req);
        if c.stringify(p) != c.stringify(doc) {
          assert r.files[path] == c.stringify(p);
          assert c.parse(c.stringify(p)) == Some(p);
          Roles.PatchedNoThrow(doc, req);
          Roles.DefaultRequiredNamesDistinct();
          Roles.RolesIdempotent(doc, req);
        }
      }
  }

  /** The manifest step reports a change exactly when it writes different
      contents, and a non-compact manifest is rewritten even when nothing was
      linked. */
  lemma ManifestChangedIff(env: Env, st: State, l: Modern)
    requires l.manifestFile in st.files && !st.failed && !st.changed
    requires Lawful(env.codec)
    ensures var r := ManifestStep(env, st, l);
            (r.changed <==> r.files != st.files) &&
            (forall doc :: env.codec.parse(st.files[l.manifestFile]) == Some(doc) && doc != Null ==>
               (r.changed <==> Manifest.Link(doc, l.clientPermFile, l.apiPermFile) != doc ||
                               st.files[l.manifestFile] != env.codec.stringify(doc)))
  {
    var r := ManifestStep(env, st, l);
    var raw := st.files[l.manifestFile];
    match env.codec.parse(raw)
    case None =>
    case Some(doc) =>
      if doc != Null {
        Manifest.ManifestChangedIff(env.codec, raw, doc, l.clientPermFile, l.apiPermFile);
        if r.changed {
          assert r.files[l.manifestFile] != raw;
        }
      }
  }

  /** With a lawful codec, a second pass over the manifest the first pass left
      reports nothing. */
  lemma ManifestSecondPass(env: Env, st: State, l: Modern)
    requires l.manifestFile in st.files && !st.failed
    requires Lawful(env.codec)
    ensures var r := ManifestStep(env, st, l);
            !r.failed ==> ManifestStep(env, r.(changed := false), l) == r.(changed := false)
  {
    var r := ManifestStep(env, st, l);
    var raw := st.files[l.manifestFile];
    match env.codec.parse(raw)
    case None =>
    case Some(doc) =>
      if doc != Null {
        var linked := Manifest.Link(doc, l.clientPermFile, l.apiPermFile);
        Manifest.ManifestSecondPass(env.codec, doc, l.clientPermFile, l.apiPermFile);
        if linked != Null {
          assert r.files[l.manifestFile] == raw || r.files[l.manifestFile] == env.codec.stringify(linked);
        }
        assert linked != Null by {
          if doc.Obj? {
            assert linked.Obj?;
          }
        }
      }
  }

  // ---------------------------------------------------------------------------
  // Properties of the searches and the run
  // ---------------------------------------------------------------------------

  /** A modern layout without its service file is skipped entirely. */
  lemma SkippedWithoutServiceFile(env: Env, names: Names, root: string, st: State)
    requires ModernLayout(root, names).serviceFile !in st.files
    ensures SearchDirSpec(env, names, root, st) == st
  {
  }

  /** Under a modern layout with its service file, both permission files exist
      afterwards whenever their parent directories do, created or not. */
  lemma PermissionFilesProvisioned(env: Env, names: Names, root: string, st: State)
    requires !st.failed && ModernLayout(root, names).serviceFile in st.files
    ensures var l := ModernLayout(root, names);
            var r := SearchDirSpec(env, names, root, st);
            (Dirname(l.clientPermFile) in env.dirs ==> l.clientPermFile in r.files) &&
            (Dirname(l.apiPermFile) in env.dirs ==> l.apiPermFile in r.files)
  {
    var l := ModernLayout(root, names);
    var s1 := ServiceStep(env, st, l.serviceFile);
    var s2 := CreateStep(env, s1, l.clientPermFile, Manifest.ClientPermDoc(names.service));
    var s3 := CreateStep(env, s2, l.apiPermFile, Manifest.ApiPermDoc(names.service));
    var s4 := if l.roleFile in s3.files then RolesStep(env, s3, l.roleFile) else s3;
    var s5 := if l.manifestFile in s4.files then ManifestStep(env, s4, l) else s4;
    assert Follows(s3, s4) && Follows(s4, s5);
  }

  /** Legacy roles files are patched even when the public service file is
      missing. */
  lemma LegacyRolesWithoutServiceFile(env: Env, service: string, root: string, st: State)
    requires LegacyLayout(root, service).pubServiceFile !in st.files
    ensures var l := LegacyLayout(root, service);
            var s1 := if l.pubRolesFile in st.files then RolesStep(env, st, l.pubRolesFile) else st;
            SearchLegacySpec(env, service, root, st) ==
              if l.prvRolesFile in s1.files then RolesStep(env, s1, l.prvRolesFile) else s1
  {
  }

  /** With no service file and no legacy roles file under any root, the run
      touches nothing and requests no rescan. */
  lemma NothingInstalled(env: Env, argv: seq<string>, files: map<string, string>)
    requires var names := ResolveNames(argv);
             && (forall i :: 0 <= i < |ModernRoots| ==> ModernLayout(ModernRoots[i], names).serviceFile !in files)
             && (forall i :: 0 <= i < |LegacyRoots| ==>
                   var l := LegacyLayout(LegacyRoots[i], names.service);
                   l.pubServiceFile !in files && l.pubRolesFile !in files && l.prvRolesFile !in files)
    ensures RunSpec(env, ResolveNames(argv), State(files, false, false)) == State(files, false, false)
    ensures !Rescan(env, argv, files)
  {
    var names := ResolveNames(argv);
    var st := State(files, false, false);
    SkippedWithoutServiceFile(env, names, ModernRoots[0], st);
    SkippedWithoutServiceFile(env, names, ModernRoots[1], st);
    assert LegacyLayout(LegacyRoots[0], names.service).pubServiceFile !in files;
    assert LegacyLayout(LegacyRoots[1], names.service).pubServiceFile !in files;
  }

  // ---------------------------------------------------------------------------
  // The run as `main` performs it
  // ---------------------------------------------------------------------------

  /** One run of the reconciler: the files it reads and writes, the
      `configChanged` flag the nested searches raise, and whether an exception
      has ended the run. */
  class Elevator {
    const env: Env
    const names: Names
    var files: map<string, string>
    var configChanged: bool
    var failed: bool

    function Snapshot(): State
      reads this
    {
      State(files, configChanged, failed)
    }

    constructor (env: Env, argv: seq<string>, files: map<string, string>)
      ensures this.env == env && names == ResolveNames(argv)
      ensures Snapshot() == State(files, false, false)
    {
      this.env := env;
      this.names := ResolveNames(argv);
      this.files := files;
      this.configChanged := false;
      this.failed := false;
    }

    /** `patchServiceFile`: rewrite the file when the patched text differs and
        report whether it did. */
    method PatchServiceFile(path: string) returns (changed: bool)
      requires path in files && !failed
      modifies this
      ensures files == old(files)[path := ServiceDefinition.Patched(old(files[path]), env.helper, env.helperExists)]
      ensures changed <==> files[path] != old(files[path])
      ensures var r := ServiceStep(env, State(old(files), false, false), path);
              files == r.files && failed == r.failed && changed == r.changed
      ensures configChanged == old(configChanged) && failed == old(failed)
    {
      var original := files[path];
      if ServiceDefinition.Classify(original) == ServiceDefinition.Scripted && !env.helperExists {
        assert files[path := original] == files;
        return false;
      }
      var patched := ServiceDefinition.Patched(original, env.helper, env.helperExists);
      if patched != original {
        files := files[path := patched];
        return true;
      }
      assert files[path := patched] == files;
      return false;
    }

    /** Create a permission file with default contents when its parent
        directory exists and the file does not. */
    method CreatePermissionFile(path: string, doc: Value) returns (created: bool)
      requires !failed
      modifies this
      ensures created <==> path !in old(files) && Dirname(path) in env.dirs
      ensures files == if created then old(files)[path := env.codec.stringify(doc)] else old(files)
      ensures var r := CreateStep(env, State(old(files), false, false), path, doc);
              files == r.files && failed == r.failed && created == r.changed
      ensures configChanged == old(configChanged) && failed == old(failed)
    {
      created := false;
      if Dirname(path) in env.dirs && path !in files {
        files := files[path := env.codec.stringify(doc)];
        created := true;
      }
    }

    /** `patchRolesFile` with the default required names; a text that does not
        parse or a document the edits throw on ends the run. */
    method PatchRolesFile(path: string) returns (changed: bool)
      requires path in files && !failed
      modifies this
      ensures var r := RolesStep(env, State(old(files), false, false), path);
              files == r.files && failed == r.failed && changed == r.changed
      ensures configChanged == old(configChanged)
    {
      var original := files[path];
      var parsed := env.codec.parse(original);
      if parsed.None? || Roles.Throws(parsed.value) {
        failed := true;
        return false;
      }
      var patched := Roles.PatchRoles(parsed.value, Roles.DefaultRequiredNames);
      var text := env.codec.stringify(patched);
      if text != env.codec.stringify(parsed.value) {
        files := files[path := text];
        return true;
      }
      return false;
    }

    /** Link both permission files into the manifest and rewrite it when its
        compact serialisation differs from the text read. */
    method LinkManifestFile(l: Modern) returns (changed: bool)
      requires l.manifestFile in files && !failed
      modifies this
      ensures var r := ManifestStep(env, State(old(files), false, false), l);
              files == r.files && failed == r.failed && changed == r.changed
      ensures configChanged == old(configChanged)
    {
      var original := files[l.manifestFile];
      var parsed := env.codec.parse(original);
      if parsed.None? || parsed.value == Null {
        failed := true;
        return false;
      }
      var linked := Manifest.LinkManifest(parsed.value, l.clientPermFile, l.apiPermFile);
      var text := env.codec.stringify(linked);
      if text != original {
        files := files[l.manifestFile := text];
        return true;
      }
      return false;
    }

    /** Patch a service file and raise the flag when it changed. */
    method ServiceStage(path: string)
      requires path in files
      modifies this
      ensures Snapshot() == ServiceStep(env, old(Snapshot()), path)
    {
      if failed {
        return;
      }
      var c := PatchServiceFile(path);
      if c {
        configChanged := true;
      }
    }

    /** Create a permission file and raise the flag when it was created. */
    method CreateStage(path: string, doc: Value)
      modifies this
      ensures Snapshot() == CreateStep(env, old(Snapshot()), path, doc)
    {
      if failed {
        return;
      }
      var c := CreatePermissionFile(path, doc);
      if c {
        configChanged := true;
      }
    }

    /** Patch a roles file if there is one and raise the flag when it changed. */
    method RolesStage(path: string)
      modifies this
      ensures Snapshot() == RolesIfPresent(env, old(Snapshot()), path)
    {
      if failed || path !in files {
        return;
      }
      var c := PatchRolesFile(path);
      if c {
        configChanged := true;
      }
    }

    /** Link the manifest if there is one and raise the flag when it changed. */
    method ManifestStage(l: Modern)
      modifies this
      ensures Snapshot() == ManifestIfPresent(env, old(Snapshot()), l)
    {
      if failed || l.manifestFile !in files {
        return;
      }
      var c := LinkManifestFile(l);
      if c {
        configChanged := true;
      }
    }

    /** `searchDir` under one modern root. */
    method SearchDir(root: string)
      modifies this
      ensures Snapshot() == SearchDirSpec(env, names, root, old(Snapshot()))
    {
      var l := ModernLayout(root, names);
      if failed || l.serviceFile !in files {
        return;
      }
      ServiceStage(l.serviceFile);
      CreateStage(l.clientPermFile, Manifest.ClientPermDoc(names.service));
      CreateStage(l.apiPermFile, Manifest.ApiPermDoc(names.service));
      RolesStage(l.roleFile);
      ManifestStage(l);
    }

    /** `searchLegacyDir` under one legacy root. */
    method SearchLegacyDir(root: string)
      modifies this
      ensures Snapshot() == SearchLegacySpec(env, names.service, root, old(Snapshot()))
    {
      var l := LegacyLayout(root, names.service);
      if l.pubServiceFile in files {
        ServiceStage(l.pubServiceFile);
        if l.prvServiceFile in files {
          ServiceStage(l.prvServiceFile);
        }
      }
      RolesStage(l.pubRolesFile);
      RolesStage(l.prvRolesFile);
    }

    /** `main` after the names are resolved: the four searches, then whether
        to start the rescan. */
    method Run() returns (rescan: bool)
      modifies this
      ensures Snapshot() == RunSpec(env, names, old(Snapshot()))
      ensures rescan <==> configChanged && !failed
    {
      SearchDir(ModernRoots[0]);
      SearchDir(ModernRoots[1]);
      SearchLegacyDir(LegacyRoots[0]);
      SearchLegacyDir(LegacyRoots[1]);
      rescan := configChanged && !failed;
    }
  }

  /** A fresh run over the given arguments and files: the rescan is started
      exactly as specified. */
  method Elevate(env: Env, argv: seq<string>, files: map<string, string>) returns (rescan: bool)
    ensures rescan == Rescan(env, argv, files)
  {
    var e := new Elevator(env, argv, files);
    rescan := e.Run();
  }
}
