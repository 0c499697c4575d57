/** Manifest linking and the default permission files: a webOS 4.x+ manifest
    lists the client and API permission files that apply to an app; the
    reconciler appends the service's two files to those lists when the lists
    are there, and creates the two files with default contents when missing. */
module Manifest {
  import opened Json

  const ClientField := "clientPermissionFiles"
  const ApiField := "apiPermissionFiles"

  /** The array held by a manifest property, when there is one. */
  function ListOf(doc: Value, field: string): Option<seq<Value>>
  {
    match Get(doc, field)
    case Some(Arr(xs)) => Some(xs)
    case _ => None
  }

  /** Push `path` onto the `field` array unless it is there already. */
  function LinkField(doc: Value, field: string, path: string): (r: Value)
    requires doc.Obj?
    ensures r.Obj?
    ensures forall k :: k != field ==> Get(r, k) == Get(doc, k)
    ensures ListOf(doc, field).None? ==> r == doc
    ensures ListOf(doc, field).Some? ==>
              var xs := ListOf(doc, field).value;
              ListOf(r, field).Some? && xs <= ListOf(r, field).value &&
              Str(path) in ListOf(r, field).value &&
              |ListOf(r, field).value| == if Str(path) in xs then |xs| else |xs| + 1
  {
    match ListOf(doc, field)
    case Some(xs) => if Str(path) in xs then doc else Set(doc, field, Arr(xs + [Str(path)]))
    case None => doc
  }

  /** The manifest after linking both permission files. A manifest that is not
      an object has neither list. */
  function Link(doc: Value, clientFile: string, apiFile: string): (r: Value)
    ensures r.Obj? <==> doc.Obj?
    ensures !doc.Obj? ==> r == doc
  {
    if doc.Obj? then LinkField(LinkField(doc, ClientField, clientFile), ApiField, apiFile)
    else doc
  }

  /** Linking never creates a list, only extends the ones that are there, and
      afterwards both lists hold their file; no other property changes. */
  lemma LinkFacts(doc: Value, clientFile: string, apiFile: string)
    ensures var r := Link(doc, clientFile, apiFile);
      && (ListOf(doc, ClientField).None? ==> Get(r, ClientField) == Get(doc, ClientField))
      && (ListOf(doc, ApiField).None? ==> Get(r, ApiField) == Get(doc, ApiField))
      && (ListOf(doc, ClientField).Some? ==>
            ListOf(r, ClientField).Some? && ListOf(doc, ClientField).value <= ListOf(r, ClientField).value &&
            Str(clientFile) in ListOf(r, ClientField).value)
      && (ListOf(doc, ApiField).Some? ==>
            ListOf(r, ApiField).Some? && ListOf(doc, ApiField).value <= ListOf(r, ApiField).value &&
            Str(apiFile) in ListOf(r, ApiField).value)
      && (forall k :: k != ClientField && k != ApiField ==> Get(r, k) == Get(doc, k))
  {
    if doc.Obj? {
      LinkClientFacts(doc, clientFile, apiFile);
      var d1 := LinkField(doc, ClientField, clientFile);
      assert ListOf(d1, ApiField) == ListOf(doc, ApiField);
      assert Get(d1, ApiField) == Get(doc, ApiField);
    }
  }

  /** A step of `LinkFacts`: the API push leaves the client list as the client
      push made it. */
  lemma LinkClientFacts(doc: Value, clientFile: string, apiFile: string)
    requires doc.Obj?
    ensures var d1 := LinkField(doc, ClientField, clientFile);
            Get(Link(doc, clientFile, apiFile), ClientField) == Get(d1, ClientField)
  {
  }

  lemma LinkFieldPresent(doc: Value, field: string, path: string)
    requires doc.Obj?
    requires ListOf(doc, field).Some? ==> Str(path) in ListOf(doc, field).value
    ensures LinkField(doc, field, path) == doc
  {
  }

  /** Linking twice links nothing more. */
  lemma LinkIdempotent(doc: Value, clientFile: string, apiFile: string)
    ensures Link(Link(doc, clientFile, apiFile), clientFile, apiFile) == Link(doc, clientFile, apiFile)
  {
    var r := Link(doc, clientFile, apiFile);
    LinkFacts(doc, clientFile, apiFile);
    if doc.Obj? {
      LinkFieldPresent(r, ClientField, clientFile);
      LinkFieldPresent(r, ApiField, apiFile);
    }
  }

  /** The manifest counts as changed when its compact serialisation differs from
      the raw text it was read from. With a lawful codec that happens exactly
      when linking added something or the raw text was not already the compact
      serialisation of its parse. */
  lemma ManifestChangedIff(c: Codec, raw: string, doc: Value, clientFile: string, apiFile: string)
    requires Lawful(c) && c.parse(raw) == Some(doc)
    ensures c.stringify(Link(doc, clientFile, apiFile)) != raw <==>
              Link(doc, clientFile, apiFile) != doc || raw != c.stringify(doc)
  {
    var r := Link(doc, clientFile, apiFile);
    if c.stringify(r) == raw {
      assert c.parse(c.stringify(r)) == Some(r);
    }
  }

  /** A second pass over the manifest the first pass wrote reports no change. */
  lemma ManifestSecondPass(c: Codec, doc: Value, clientFile: string, apiFile: string)
    requires Lawful(c)
    ensures var written := c.stringify(Link(doc, clientFile, apiFile));
            c.parse(written) == Some(Link(doc, clientFile, apiFile)) &&
            c.stringify(Link(Link(doc, clientFile, apiFile), clientFile, apiFile)) == written
  {
    LinkIdempotent(doc, clientFile, apiFile);
  }

  /** The manifest edits as the reconciler performs them: two conditional pushes
      onto the parsed arrays. */
  method LinkManifest(doc: Value, clientFile: string, apiFile: string) returns (r: Value)
    ensures r == Link(doc, clientFile, apiFile)
  {
    r := doc;
    if !doc.Obj? {
      return;
    }
    var client := ListOf(r, ClientField);
    if client.Some? && Str(clientFile) !in client.value {
      r := Set(r, ClientField, Arr(client.value + [Str(clientFile)]));
    }
    var api := ListOf(r, ApiField);
    if api.Some? && Str(apiFile) !in api.value {
      r := Set(r, ApiField, Arr(api.value + [Str(apiFile)]));
    }
  }

  /** The client permission file created for a service: its name followed by
      `*` is granted the `all` group. */
  function ClientPermDoc(service: string): (d: Value)
    ensures Get(d, service + "*") == Some(Arr([Str("all")]))
    ensures forall k :: k != service + "*" ==> Get(d, k) == None
  {
    Obj([Field(service + "*", Arr([Str("all")]))])
  }

  /** The API permission file created for a service: every method under the
      service's name is public. */
  function ApiPermDoc(service: string): (d: Value)
    ensures Get(d, "public") == Some(Arr([Str(service + "/*")]))
    ensures forall k :: k != "public" ==> Get(d, k) == None
  {
    Obj([Field("public", Arr([Str(service + "/*")]))])
  }
}
