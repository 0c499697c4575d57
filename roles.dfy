/** The roles reconciler (`patchRolesFile`): append the required names to every
    `allowedNames` list the role document already has, add the wildcard to the
    `outbound` list of every permission grant, and append a wildcard grant for
    every required name no existing grant names. Nothing is ever removed. */
module Roles {
  import opened Json

  const Wildcard := "*"

  /** The default `requiredNames` argument of `patchRolesFile`. */
  const DefaultRequiredNames: seq<string> := ["*", "com.webos.service.capture.client*"]

  predicate NoDuplicates(names: seq<string>)
  {
    forall i, j :: 0 <= i < j < |names| ==> names[i] != names[j]
  }

  // ---------------------------------------------------------------------------
  // allowedNames
  // ---------------------------------------------------------------------------

  /** `list` after pushing, name by name, every name it does not hold yet. */
  function AddMissing(list: seq<Value>, names: seq<string>): (r: seq<Value>)
    ensures list <= r
    ensures forall n :: n in names ==> Str(n) in r
    ensures forall v :: v in r ==> v in list || exists n :: n in names && v == Str(n)
    ensures forall i :: |list| <= i < |r| ==> r[i] !in r[..i]
    decreases |names|
  {
    if names == [] then list
    else
      var prev := AddMissing(list, names[..|names| - 1]);
      var n := names[|names| - 1];
      assert forall m :: m in names ==> m in names[..|names| - 1] || m == n;
      if Str(n) in prev then prev
      else
        var r := prev + [Str(n)];
        assert forall i :: 0 <= i < |prev| ==> r[..i] == prev[..i];
        assert r[..|prev|] == prev;
        r
  }

  /** A list that already holds every name is left as it is. */
  lemma {:induction false} AddMissingPresent(list: seq<Value>, names: seq<string>)
    requires forall n :: n in names ==> Str(n) in list
    ensures AddMissing(list, names) == list
    decreases |names|
  {
    if names != [] {
      AddMissingPresent(list, names[..|names| - 1]);
    }
  }

  /** The array held by `allowedNames`, when there is one. */
  function AllowedList(o: Value): Option<seq<Value>>
  {
    match Get(o, "allowedNames")
    case Some(Arr(xs)) => Some(xs)
    case _ => None
  }

  /** The array held by `role.allowedNames`, when there is one. */
  function RoleAllowedList(doc: Value): Option<seq<Value>>
  {
    match Get(doc, "role")
    case Some(role) => AllowedList(role)
    case None => None
  }

  /** The array held by `permissions`, when there is one. */
  function PermissionList(doc: Value): Option<seq<Value>>
  {
    match Get(doc, "permissions")
    case Some(Arr(ps)) => Some(ps)
    case _ => None
  }

  function WithAllowedNames(o: Value, required: seq<string>): (r: Value)
    requires o.Obj?
    ensures r.Obj?
    ensures forall k :: k != "allowedNames" ==> Get(r, k) == Get(o, k)
    ensures AllowedList(o).Some? ==> AllowedList(r) == Some(AddMissing(AllowedList(o).value, required))
    ensures AllowedList(o).None? ==> r == o
  {
    match AllowedList(o)
    case Some(xs) => Set(o, "allowedNames", Arr(AddMissing(xs, required)))
    case None => o
  }

  function WithRoleAllowedNames(doc: Value, required: seq<string>): (r: Value)
    requires doc.Obj?
    ensures r.Obj?
    ensures forall k :: k != "role" ==> Get(r, k) == Get(doc, k)
    ensures RoleAllowedList(doc).Some? ==>
              RoleAllowedList(r) == Some(AddMissing(RoleAllowedList(doc).value, required))
    ensures RoleAllowedList(doc).None? ==> Get(r, "role") == Get(doc, "role")
    ensures RoleAllowedList(doc).Some? ==>
              Get(r, "role").Some? && Get(doc, "role").Some? &&
              forall k :: k != "allowedNames" ==> Get(Get(r, "role").value, k) == Get(Get(doc, "role").value, k)
  {
    match Get(doc, "role")
    case Some(role) => if role.Obj? then Set(doc, "role", WithAllowedNames(role, required)) else doc
    case None => doc
  }

  // ---------------------------------------------------------------------------
  // permissions
  // ---------------------------------------------------------------------------

  /** The grant's `service` when it is a non-empty string (the truthiness test
      `perm.service &&` followed by a strict `indexOf`). */
  function ServiceName(perm: Value): Option<string>
  {
    match Get(perm, "service")
    case Some(Str(s)) => if s != "" then Some(s) else None
    case _ => None
  }

  /** `names.indexOf(n)`: the first index holding `n`, or -1. */
  function IndexOf(names: seq<string>, n: string): (i: int)
    ensures -1 <= i < |names|
    ensures i < 0 <==> n !in names
    ensures i >= 0 ==> names[i] == n && n !in names[..i]
    decreases |names|
  {
    if names == [] then -1
    else if names[0] == n then 0
    else
      var j := IndexOf(names[1..], n);
      if j < 0 then -1
      else
        assert names[..j + 1] == [names[0]] + names[1..][..j];
        j + 1
  }

  /** `names.splice(names.indexOf(n), 1)`: drop the first occurrence of `n`;
      the names before it stay in place and the names after it move down by one. */
  function RemoveFirst(names: seq<string>, n: string): (r: seq<string>)
    requires n in names
    ensures |r| == |names| - 1
    ensures multiset(r) == multiset(names) - multiset{n}
    ensures var i := IndexOf(names, n);
            n !in r[..i] && r[..i] == names[..i] && r[i..] == names[i + 1..]
  {
    var i := IndexOf(names, n);
    assert names == names[..i] + [n] + names[i + 1..];
    names[..i] + names[i + 1..]
  }

  /** The missing list after visiting one grant. */
  function Strike(missing: seq<string>, perm: Value): seq<string>
  {
    match ServiceName(perm)
    case Some(s) => if s in missing then RemoveFirst(missing, s) else missing
    case None => missing
  }

  /** Required names still missing after walking the grants in order. */
  function Remaining(required: seq<string>, perms: seq<Value>): seq<string>
    decreases |perms|
  {
    if perms == [] then required
    else Strike(Remaining(required, perms[..|perms| - 1]), perms[|perms| - 1])
  }

  /** One grant after the walk: the wildcard is pushed onto its `outbound`
      array unless already there; nothing else in it changes. */
  function Broaden(perm: Value): Value
  {
    match Get(perm, "outbound")
    case Some(Arr(xs)) =>
      if Str(Wildcard) in xs then perm
      else Set(perm, "outbound", Arr(xs + [Str(Wildcard)]))
    case _ => perm
  }

  /** Broadening touches nothing but `outbound`, only ever appends to it, leaves
      the wildcard in it, and leaves a grant without an `outbound` array alone. */
  lemma BroadenFacts(perm: Value)
    ensures forall k :: k != "outbound" ==> Get(Broaden(perm), k) == Get(perm, k)
    ensures ServiceName(Broaden(perm)) == ServiceName(perm)
    ensures forall xs :: Get(perm, "outbound") == Some(Arr(xs)) ==>
              exists ys :: Get(Broaden(perm), "outbound") == Some(Arr(ys)) && xs <= ys &&
                           Str(Wildcard) in ys &&
                           |ys| == if Str(Wildcard) in xs then |xs| else |xs| + 1
    ensures forall xs :: Get(perm, "outbound") == Some(Arr(xs)) && Str(Wildcard) in xs ==>
              Broaden(perm) == perm
    ensures (forall xs :: Get(perm, "outbound") != Some(Arr(xs))) ==> Broaden(perm) == perm
  {
  }

  /** The grant appended for a missing name. */
  function NewGrant(n: string): Value
  {
    Obj([Field("service", Str(n)),
         Field("inbound", Arr([Str(Wildcard)])),
         Field("outbound", Arr([Str(Wildcard)]))])
  }

  /** The fields of a new grant, read back. */
  lemma NewGrantFields(n: string)
    ensures Get(NewGrant(n), "service") == Some(Str(n))
    ensures Get(NewGrant(n), "inbound") == Some(Arr([Str(Wildcard)]))
    ensures Get(NewGrant(n), "outbound") == Some(Arr([Str(Wildcard)]))
  {
    var fs := NewGrant(n).fields;
    assert Lookup(fs, "service") == Some(Str(n));
    assert Lookup(fs[1..], "inbound") == Some(Arr([Str(Wildcard)]));
    assert Lookup(fs[1..][1..], "outbound") == Some(Arr([Str(Wildcard)]));
    assert fs[0].key != "outbound" && fs[1..][0].key != "outbound";
    assert Lookup(fs[1..], "outbound") == Lookup(fs[1..][1..], "outbound");
  }

  function Broadened(perms: seq<Value>): (r: seq<Value>)
    ensures |r| == |perms|
  {
    seq(|perms|, i requires 0 <= i < |perms| => Broaden(perms[i]))
  }

  function NewGrants(names: seq<string>): (r: seq<Value>)
    ensures |r| == |names|
  {
    seq(|names|, i requires 0 <= i < |names| => NewGrant(names[i]))
  }

  /** The `permissions` array after the walk and the appends. */
  function PatchedGrants(perms: seq<Value>, required: seq<string>): seq<Value>
  {
    Broadened(perms) + NewGrants(Remaining(required, perms))
  }

  function WithPermissions(doc: Value, required: seq<string>): (r: Value)
    requires doc.Obj?
    ensures r.Obj?
    ensures forall k :: k != "permissions" ==> Get(r, k) == Get(doc, k)
    ensures PermissionList(doc).Some? ==>
              PermissionList(r) == Some(PatchedGrants(PermissionList(doc).value, required))
    ensures PermissionList(doc).None? ==> r == doc
  {
    match PermissionList(doc)
    case Some(ps) => Set(doc, "permissions", Arr(PatchedGrants(ps, required)))
    case None => doc
  }

  /** JavaScript truthiness of a parsed value. */
  predicate Truthy(v: Value)
  {
    match v
    case Null => false
    case Bool(b) => b
    case Num(n) => n != 0
    case Str(s) => s != ""
    case Arr(_) => true
    case Obj(_) => true
  }

  /** The parsed document makes the edits throw: reading `permissions` of
      `null`, calling `forEach` on a truthy `permissions` that is not an array,
      or reading `service` of a `null` grant. */
  predicate Throws(doc: Value)
  {
    || doc == Null
    || (Get(doc, "permissions").Some? && Truthy(Get(doc, "permissions").value) &&
        !Get(doc, "permissions").value.Arr?)
    || (PermissionList(doc).Some? && Null in PermissionList(doc).value)
  }

  /** The roles document after `patchRolesFile`'s in-memory edits. A document that
      is not an object has none of the three properties and is left alone. */
  function Patched(doc: Value, required: seq<string>): (r: Value)
    ensures r.Obj? <==> doc.Obj?
    ensures !doc.Obj? ==> r == doc
  {
    if doc.Obj? then
      WithPermissions(WithAllowedNames(WithRoleAllowedNames(doc, required), required), required)
    else doc
  }

  // ---------------------------------------------------------------------------
  // Properties of the walk over the grants
  // ---------------------------------------------------------------------------

  /** Some grant among `perms` names `n`. */
  predicate NamedBy(perms: seq<Value>, n: string)
  {
    exists i :: 0 <= i < |perms| && ServiceName(perms[i]) == Some(n)
  }

  lemma RemoveFirstNoDuplicates(names: seq<string>, n: string)
    requires n in names && NoDuplicates(names)
    ensures NoDuplicates(RemoveFirst(names, n))
    ensures forall m :: m in RemoveFirst(names, n) <==> m in names && m != n
  {
    var r := RemoveFirst(names, n);
    var i := IndexOf(names, n);
    assert forall j :: 0 <= j < |r| ==> r[j] == names[if j < i then j else j + 1];
    forall m | m in names && m != n ensures m in r {
      var k :| 0 <= k < |names| && names[k] == m;
      assert k != i;
      assert r[if k < i then k else k - 1] == m;
    }
  }


  /** Each required name is still missing after the walk, or some grant names it. */
  lemma {:induction false} RemainingCovers(required: seq<string>, perms: seq<Value>, n: string)
    requires n in required
    ensures n in Remaining(required, perms) || NamedBy(perms, n)
    decreases |perms|
  {
    if perms != [] {
      var init := perms[..|perms| - 1];
      RemainingCovers(required, init, n);
      NamedBySnoc(perms, n);
      if !NamedBy(init, n) && ServiceName(perms[|perms| - 1]) != Some(n) {
        StrikeKeeps(Remaining(required, init), perms[|perms| - 1], n);
      }
    }
  }

  /** Striking a grant that does not name `n` keeps `n` missing. */
  lemma StrikeKeeps(missing: seq<string>, perm: Value, n: string)
    requires n in missing && ServiceName(perm) != Some(n)
    ensures n in Strike(missing, perm)
  {
    match ServiceName(perm)
    case Some(s) =>
      if s in missing {
        assert multiset(RemoveFirst(missing, s))[n] == multiset(missing)[n];
      }
    case None =>
  }

  /** A name is named by a list of grants with one more at the end exactly when the
      prefix names it or the last grant does. */
  lemma NamedBySnoc(perms: seq<Value>, n: string)
    requires perms != []
    ensures NamedBy(perms, n) <==> NamedBy(perms[..|perms| - 1], n) || ServiceName(perms[|perms| - 1]) == Some(n)
  {
    var init := perms[..|perms| - 1];
    if NamedBy(init, n) {
      var i :| 0 <= i < |init| && ServiceName(init[i]) == Some(n);
      assert perms[i] == init[i];
    }
    if NamedBy(perms, n) {
      var i :| 0 <= i < |perms| && ServiceName(perms[i]) == Some(n);
      if i < |init| { assert init[i] == perms[i]; }
    }
  }

  /** Striking one grant from a duplicate-free missing list removes exactly the name
      that grant names. */
  lemma StrikeExact(missing: seq<string>, perm: Value)
    requires NoDuplicates(missing)
    ensures NoDuplicates(Strike(missing, perm))
    ensures forall n :: n in Strike(missing, perm) <==> n in missing && ServiceName(perm) != Some(n)
  {
    match ServiceName(perm)
    case Some(s) =>
      if s in missing {
        RemoveFirstNoDuplicates(missing, s);
      }
    case None =>
  }

  /** Without duplicate required names, exactly the names no grant names are still
      missing after the walk, each once. */
  lemma {:induction false} RemainingExact(required: seq<string>, perms: seq<Value>)
    requires NoDuplicates(required)
    ensures NoDuplicates(Remaining(required, perms))
    ensures forall n :: n in Remaining(required, perms) <==> n in required && !NamedBy(perms, n)
    decreases |perms|
  {
    if perms != [] {
      var init := perms[..|perms| - 1];
      var last := perms[|perms| - 1];
      RemainingExact(required, init);
      StrikeExact(Remaining(required, init), last);
      forall n ensures NamedBy(perms, n) <==> NamedBy(init, n) || ServiceName(last) == Some(n) {
        NamedBySnoc(perms, n);
      }
    }
  }

  lemma HeadIn(names: seq<string>)
    requires names != []
    ensures names[0] in names
  {
  }

  /** With distinct required names, nothing is appended exactly when every
      required name is already named by some grant. */
  lemma RemainingEmpty(required: seq<string>, perms: seq<Value>)
    requires NoDuplicates(required)
    ensures Remaining(required, perms) == [] <==> forall n :: n in required ==> NamedBy(perms, n)
  {
    RemainingExact(required, perms);
    var rem := Remaining(required, perms);
    if rem != [] {
      HeadIn(rem);
    }
  }

  /** After the walk every grant that has an `outbound` array holds the wildcard,
      whichever service it is for. */
  lemma GrantsHaveWildcard(perms: seq<Value>, required: seq<string>)
    ensures forall i, xs ::
              (0 <= i < |PatchedGrants(perms, required)| &&
               Get(PatchedGrants(perms, required)[i], "outbound") == Some(Arr(xs))) ==> Str(Wildcard) in xs
  {
    var qs := PatchedGrants(perms, required);
    var rem := Remaining(required, perms);
    forall i, xs | 0 <= i < |qs| && Get(qs[i], "outbound") == Some(Arr(xs)) ensures Str(Wildcard) in xs {
      if i < |perms| {
        assert qs[i] == Broaden(perms[i]);
        BroadenFacts(perms[i]);
        if exists zs :: Get(perms[i], "outbound") == Some(Arr(zs)) {
          var zs :| Get(perms[i], "outbound") == Some(Arr(zs));
          var ys :| Get(qs[i], "outbound") == Some(Arr(ys)) && Str(Wildcard) in ys;
          assert ys == xs;
        }
      } else {
        assert qs[i] == NewGrant(rem[i - |perms|]);
        NewGrantFields(rem[i - |perms|]);
      }
    }
  }

  /** After the walk and the appends, every required name is the `service` of
      some grant. */
  lemma GrantsCoverRequired(perms: seq<Value>, required: seq<string>)
    ensures forall n :: n in required ==>
              exists i :: 0 <= i < |PatchedGrants(perms, required)| &&
                          Get(PatchedGrants(perms, required)[i], "service") == Some(Str(n))
  {
    var qs := PatchedGrants(perms, required);
    var rem := Remaining(required, perms);
    forall n | n in required
      ensures exists i :: 0 <= i < |qs| && Get(qs[i], "service") == Some(Str(n))
    {
      RemainingCovers(required, perms, n);
      if NamedBy(perms, n) {
        var i :| 0 <= i < |perms| && ServiceName(perms[i]) == Some(n);
        assert qs[i] == Broaden(perms[i]);
        BroadenFacts(perms[i]);
        assert Get(qs[i], "service") == Get(perms[i], "service");
      } else {
        var j :| 0 <= j < |rem| && rem[j] == n;
        assert qs[|perms| + j] == NewGrant(n);
        NewGrantFields(n);
      }
    }
  }

  /** Existing grants stay where they were, changed at most by the wildcard pushed
      onto `outbound`; new grants go after them and are wildcard grants for the
      missing names. */
  lemma GrantsAppendOnly(perms: seq<Value>, required: seq<string>)
    ensures var qs := PatchedGrants(perms, required);
            |qs| == |perms| + |Remaining(required, perms)| &&
            (forall i, k :: 0 <= i < |perms| && k != "outbound" ==> Get(qs[i], k) == Get(perms[i], k)) &&
            (forall i, xs :: 0 <= i < |perms| && Get(perms[i], "outbound") == Some(Arr(xs)) ==>
               exists ys :: Get(qs[i], "outbound") == Some(Arr(ys)) && xs <= ys) &&
            (forall j :: 0 <= j < |Remaining(required, perms)| ==>
               qs[|perms| + j] == NewGrant(Remaining(required, perms)[j]))
  {
    var qs := PatchedGrants(perms, required);
    var rem := Remaining(required, perms);
    forall i, k | 0 <= i < |perms| && k != "outbound" ensures Get(qs[i], k) == Get(perms[i], k) {
      assert qs[i] == Broaden(perms[i]);
      BroadenFacts(perms[i]);
    }
    forall i, xs | 0 <= i < |perms| && Get(perms[i], "outbound") == Some(Arr(xs))
      ensures exists ys :: Get(qs[i], "outbound") == Some(Arr(ys)) && xs <= ys
    {
      assert qs[i] == Broaden(perms[i]);
      BroadenFacts(perms[i]);
    }
    forall j | 0 <= j < |rem| ensures qs[|perms| + j] == NewGrant(rem[j]) {
      assert qs[|perms| + j] == NewGrants(rem)[j];
    }
  }

  // ---------------------------------------------------------------------------
  // The whole document
  // ---------------------------------------------------------------------------

  /** What the patch does to each top-level property of the document: lists that
      were there gain the missing names, the grants are walked, and every other
      property (and every one of the three that is missing or not a list, and
      every property of `role` other than its `allowedNames`) is left as it was. */
  lemma PatchedFields(doc: Value, required: seq<string>)
    ensures var p := Patched(doc, required);
      && (AllowedList(doc).Some? ==> AllowedList(p) == Some(AddMissing(AllowedList(doc).value, required)))
      && (AllowedList(doc).None? ==> Get(p, "allowedNames") == Get(doc, "allowedNames"))
      && (RoleAllowedList(doc).Some? ==>
            RoleAllowedList(p) == Some(AddMissing(RoleAllowedList(doc).value, required)))
      && (RoleAllowedList(doc).None? ==> Get(p, "role") == Get(doc, "role"))
      && (RoleAllowedList(doc).Some? ==>
            Get(p, "role").Some? && Get(doc, "role").Some? &&
            forall k :: k != "allowedNames" ==> Get(Get(p, "role").value, k) == Get(Get(doc, "role").value, k))
      && (PermissionList(doc).Some? ==>
            PermissionList(p) == Some(PatchedGrants(PermissionList(doc).value, required)))
      && (PermissionList(doc).None? ==> Get(p, "permissions") == Get(doc, "permissions"))
      && (forall k :: k != "allowedNames" && k != "role" && k != "permissions" ==> Get(p, k) == Get(doc, k))
  {
    if doc.Obj? {
      PatchedAllowedNames(doc, required);
      PatchedRole(doc, required);
      PatchedPermissions(doc, required);
      PatchedOthers(doc, required);
    }
  }

  lemma PatchedAllowedNames(doc: Value, required: seq<string>)
    requires doc.Obj?
    ensures AllowedList(doc).Some? ==>
              AllowedList(Patched(doc, required)) == Some(AddMissing(AllowedList(doc).value, required))
    ensures AllowedList(doc).None? ==> Get(Patched(doc, required), "allowedNames") == Get(doc, "allowedNames")
  {
    var d1 := WithRoleAllowedNames(doc, required);
    var d2 := WithAllowedNames(d1, required);
    var p := WithPermissions(d2, required);
    assert Get(d1, "allowedNames") == Get(doc, "allowedNames");
    assert AllowedList(d1) == AllowedList(doc);
    assert Get(p, "allowedNames") == Get(d2, "allowedNames");
    assert AllowedList(p) == AllowedList(d2);
  }

  lemma PatchedRole(doc: Value, required: seq<string>)
    requires doc.Obj?
    ensures RoleAllowedList(doc).Some? ==>
              RoleAllowedList(Patched(doc, required)) == Some(AddMissing(RoleAllowedList(doc).value, required))
    ensures RoleAllowedList(doc).None? ==> Get(Patched(doc, required), "role") == Get(doc, "role")
    ensures RoleAllowedList(doc).Some? ==>
              Get(Patched(doc, required), "role").Some? && Get(doc, "role").Some? &&
              forall k :: k != "allowedNames" ==>
                Get(Get(Patched(doc, required), "role").value, k) == Get(Get(doc, "role").value, k)
  {
    var d1 := WithRoleAllowedNames(doc, required);
    var d2 := WithAllowedNames(d1, required);
    var p := WithPermissions(d2, required);
    assert Get(d2, "role") == Get(d1, "role");
    assert Get(p, "role") == Get(d2, "role");
    assert RoleAllowedList(p) == RoleAllowedList(d1);
  }

  lemma PatchedPermissions(doc: Value, required: seq<string>)
    requires doc.Obj?
    ensures PermissionList(doc).Some? ==>
              PermissionList(Patched(doc, required)) == Some(PatchedGrants(PermissionList(doc).value, required))
    ensures PermissionList(doc).None? ==> Get(Patched(doc, required), "permissions") == Get(doc, "permissions")
  {
    var d1 := WithRoleAllowedNames(doc, required);
    var d2 := WithAllowedNames(d1, required);
    assert Get(d1, "permissions") == Get(doc, "permissions");
    assert Get(d2, "permissions") == Get(d1, "permissions");
    assert PermissionList(d2) == PermissionList(doc);
  }

  lemma PatchedOthers(doc: Value, required: seq<string>)
    requires doc.Obj?
    ensures forall k :: k != "allowedNames" && k != "role" && k != "permissions" ==>
              Get(Patched(doc, required), k) == Get(doc, k)
  {
    var d1 := WithRoleAllowedNames(doc, required);
    var d2 := WithAllowedNames(d1, required);
    var p := WithPermissions(d2, required);
    forall k | k != "allowedNames" && k != "role" && k != "permissions"
      ensures Get(p, k) == Get(doc, k)
    {
      assert Get(p, k) == Get(d2, k) == Get(d1, k);
    }
  }

  /** The grant's `outbound` array, if it has one, holds the wildcard. */
  predicate OutboundOpen(perm: Value)
  {
    match Get(perm, "outbound")
    case Some(Arr(xs)) => Str(Wildcard) in xs
    case _ => true
  }

  /** A document the patch has nothing left to do for: every `allowedNames` list
      holds every required name, every grant's `outbound` array holds the
      wildcard, and every required name is the `service` of some grant. */
  predicate Saturated(doc: Value, required: seq<string>)
  {
    && (AllowedList(doc).Some? ==> forall n :: n in required ==> Str(n) in AllowedList(doc).value)
    && (RoleAllowedList(doc).Some? ==> forall n :: n in required ==> Str(n) in RoleAllowedList(doc).value)
    && (PermissionList(doc).Some? ==>
          var ps := PermissionList(doc).value;
          && (forall i :: 0 <= i < |ps| ==> OutboundOpen(ps[i]))
          && (forall n :: n in required ==> NamedBy(ps, n)))
  }

  /** The patch saturates the document, provided no required name is empty (an
      empty `service` is falsy and never counts as naming anyone). */
  lemma PatchedSaturated(doc: Value, required: seq<string>)
    requires "" !in required
    ensures Saturated(Patched(doc, required), required)
  {
    if doc.Obj? {
      PatchedListsSaturated(doc, required);
      PatchedGrantsSaturated(doc, required);
    }
  }

  /** Both `allowedNames` lists of the patched document hold every required name. */
  lemma PatchedListsSaturated(doc: Value, required: seq<string>)
    requires doc.Obj?
    ensures var p := Patched(doc, required);
      && (AllowedList(p).Some? ==> forall n :: n in required ==> Str(n) in AllowedList(p).value)
      && (RoleAllowedList(p).Some? ==> forall n :: n in required ==> Str(n) in RoleAllowedList(p).value)
  {
    PatchedAllowedNames(doc, required);
    PatchedRole(doc, required);
  }

  /** The patched grants are all open and name every required name. */
  lemma PatchedGrantsSaturated(doc: Value, required: seq<string>)
    requires doc.Obj? && "" !in required
    ensures var p := Patched(doc, required);
      PermissionList(p).Some? ==>
        && (forall i :: 0 <= i < |PermissionList(p).value| ==> OutboundOpen(PermissionList(p).value[i]))
        && (forall n :: n in required ==> NamedBy(PermissionList(p).value, n))
  {
    var p := Patched(doc, required);
    PatchedPermissions(doc, required);
    if PermissionList(p).Some? {
      assert PermissionList(doc).Some?;
      var ps := PermissionList(doc).value;
      var qs := PatchedGrants(ps, required);
      GrantsHaveWildcard(ps, required);
      GrantsCoverRequired(ps, required);
      forall i | 0 <= i < |qs| ensures OutboundOpen(qs[i]) {
        match Get(qs[i], "outbound")
        case Some(Arr(xs)) =>
        case _ =>
      }
      forall n | n in required ensures NamedBy(qs, n) {
        var i :| 0 <= i < |qs| && Get(qs[i], "service") == Some(Str(n));
        assert ServiceName(qs[i]) == Some(n);
      }
    }
  }

  lemma AllowedNamesFixed(o: Value, required: seq<string>)
    requires o.Obj?
    requires AllowedList(o).Some? ==> forall n :: n in required ==> Str(n) in AllowedList(o).value
    ensures WithAllowedNames(o, required) == o
  {
    match AllowedList(o)
    case Some(xs) =>
      AddMissingPresent(xs, required);
      SetSame(o, "allowedNames", Arr(xs));
    case None =>
  }

  lemma RoleAllowedNamesFixed(doc: Value, required: seq<string>)
    requires doc.Obj?
    requires RoleAllowedList(doc).Some? ==> forall n :: n in required ==> Str(n) in RoleAllowedList(doc).value
    ensures WithRoleAllowedNames(doc, required) == doc
  {
    match Get(doc, "role")
    case Some(role) =>
      if role.Obj? {
        AllowedNamesFixed(role, required);
        SetSame(doc, "role", role);
      }
    case None =>
  }

  lemma PermissionsFixed(doc: Value, required: seq<string>)
    requires doc.Obj? && NoDuplicates(required)
    requires PermissionList(doc).Some? ==>
               var ps := PermissionList(doc).value;
               && (forall i :: 0 <= i < |ps| ==> OutboundOpen(ps[i]))
               && (forall n :: n in required ==> NamedBy(ps, n))
    ensures WithPermissions(doc, required) == doc
  {
    match PermissionList(doc)
    case Some(ps) =>
      RemainingExact(required, ps);
      RemainingEmpty(required, ps);
      forall i | 0 <= i < |ps| ensures Broaden(ps[i]) == ps[i] {
        assert OutboundOpen(ps[i]);
      }
      assert PatchedGrants(ps, required) == ps;
      SetSame(doc, "permissions", Arr(ps));
    case None =>
  }

  /** A saturated document is left exactly as it is, when the required names are
      distinct. */
  lemma SaturatedUnchanged(doc: Value, required: seq<string>)
    requires NoDuplicates(required) && Saturated(doc, required)
    ensures Patched(doc, required) == doc
  {
    if doc.Obj? {
      RoleAllowedNamesFixed(doc, required);
      AllowedNamesFixed(doc, required);
      PermissionsFixed(doc, required);
    }
  }

  /** A document the edits do not throw on yields one they do not throw on. */
  lemma PatchedNoThrow(doc: Value, required: seq<string>)
    requires !Throws(doc)
    ensures !Throws(Patched(doc, required))
  {
    if doc.Obj? {
      PatchedPermissions(doc, required);
      if PermissionList(doc).Some? {
        GrantsNotNull(PermissionList(doc).value, required);
      }
    }
  }

  /** Walking and extending grants none of which is `null` yields none. */
  lemma GrantsNotNull(ps: seq<Value>, required: seq<string>)
    requires Null !in ps
    ensures Null !in PatchedGrants(ps, required)
  {
    var qs := PatchedGrants(ps, required);
    var rem := Remaining(required, ps);
    forall i | 0 <= i < |qs| ensures qs[i] != Null {
      if i < |ps| {
        assert qs[i] == Broaden(ps[i]) && ps[i] != Null;
      } else {
        assert qs[i] == NewGrant(rem[i - |ps|]);
      }
    }
  }

  /** The default required names are distinct and none is empty. */
  lemma DefaultRequiredNamesDistinct()
    ensures NoDuplicates(DefaultRequiredNames) && "" !in DefaultRequiredNames
  {
  }

  /** Running the patch on its own output changes nothing. */
  lemma RolesIdempotent(doc: Value, required: seq<string>)
    requires NoDuplicates(required) && "" !in required
    ensures Patched(Patched(doc, required), required) == Patched(doc, required)
  {
    PatchedSaturated(doc, required);
    SaturatedUnchanged(Patched(doc, required), required);
  }

  // ---------------------------------------------------------------------------
  // The edits as the reconciler performs them, one push at a time
  // ---------------------------------------------------------------------------

  /** Push every required name missing from `list`, in order. */
  method PushMissing(list: seq<Value>, required: seq<string>) returns (out: seq<Value>)
    ensures out == AddMissing(list, required)
  {
    out := list;
    var i := 0;
    while i < |required|
      invariant 0 <= i <= |required|
      invariant out == AddMissing(list, required[..i])
    {
      AddMissingStep(list, required, i);
      if Str(required[i]) !in out {
        out := out + [Str(required[i])];
      }
      i := i + 1;
    }
    assert required[..i] == required;
  }

  /** Walk the grants in order, striking each named service off the missing
      list and pushing the wildcard onto `outbound` (the `forEach`). */
  method WalkGrants(perms: seq<Value>, required: seq<string>) returns (walked: seq<Value>, missing: seq<string>)
    ensures walked == Broadened(perms)
    ensures missing == Remaining(required, perms)
  {
    missing := required;
    walked := [];
    var j := 0;
    while j < |perms|
      invariant 0 <= j <= |perms|
      invariant missing == Remaining(required, perms[..j])
      invariant |walked| == j && forall i :: 0 <= i < j ==> walked[i] == Broaden(perms[i])
    {
      RemainingStep(required, perms, j);
      var perm := perms[j];
      missing := StrikeOff(missing, perm);
      walked := walked + [Broaden(perm)];
      j := j + 1;
    }
    assert perms[..j] == perms;
  }

  /** The `forEach` callback's first half: splice the grant's service out of the
      missing list when it is there. */
  method StrikeOff(missing: seq<string>, perm: Value) returns (rest: seq<string>)
    ensures rest == Strike(missing, perm)
  {
    rest := missing;
    var name := ServiceName(perm);
    if name.Some? && name.value in missing {
      rest := RemoveFirst(missing, name.value);
    }
  }

  /** The missing list after one more grant is the previous one with that grant struck. */
  lemma RemainingStep(required: seq<string>, perms: seq<Value>, j: nat)
    requires j < |perms|
    ensures Remaining(required, perms[..j + 1]) == Strike(Remaining(required, perms[..j]), perms[j])
  {
    assert perms[..j + 1][..j] == perms[..j];
  }

  /** Push a wildcard grant for each name still missing. */
  method AppendGrants(grants: seq<Value>, missing: seq<string>) returns (out: seq<Value>)
    ensures out == grants + NewGrants(missing)
  {
    out := grants;
    var k := 0;
    while k < |missing|
      invariant 0 <= k <= |missing|
      invariant |out| == |grants| + k && out[..|grants|] == grants
      invariant forall i :: 0 <= i < k ==> out[|grants| + i] == NewGrant(missing[i])
    {
      out := out + [NewGrant(missing[k])];
      k := k + 1;
    }
  }

  method PatchGrants(perms: seq<Value>, required: seq<string>) returns (out: seq<Value>)
    ensures out == PatchedGrants(perms, required)
  {
    var walked, missing := WalkGrants(perms, required);
    out := AppendGrants(walked, missing);
  }

  /** The pushes onto an object's own `allowedNames` array. */
  method PatchAllowedNames(o: Value, required: seq<string>) returns (r: Value)
    requires o.Obj?
    ensures r == WithAllowedNames(o, required)
  {
    r := o;
    match AllowedList(o)
    case Some(xs) =>
      var ys := PushMissing(xs, required);
      r := Set(o, "allowedNames", Arr(ys));
    case None =>
  }

  /** The pushes onto `role.allowedNames`. */
  method PatchRoleAllowedNames(doc: Value, required: seq<string>) returns (r: Value)
    requires doc.Obj?
    ensures r == WithRoleAllowedNames(doc, required)
  {
    r := doc;
    match Get(doc, "role")
    case Some(role) =>
      if role.Obj? {
        var newRole := PatchAllowedNames(role, required);
        r := Set(doc, "role", newRole);
      }
    case None =>
  }

  /** The walk over `permissions` and the appends. */
  method PatchPermissions(doc: Value, required: seq<string>) returns (r: Value)
    requires doc.Obj?
    ensures r == WithPermissions(doc, required)
  {
    r := doc;
    match PermissionList(doc)
    case Some(ps) =>
      var qs := PatchGrants(ps, required);
      r := Set(doc, "permissions", Arr(qs));
    case None =>
  }

  /** `patchRolesFile`'s in-memory edits on the parsed document. */
  method PatchRoles(doc: Value, required: seq<string>) returns (r: Value)
    ensures r == Patched(doc, required)
    ensures NoDuplicates(required) && "" !in required ==> Patched(r, required) == r
  {
    if NoDuplicates(required) && "" !in required {
      RolesIdempotent(doc, required);
    }
    r := doc;
    if doc.Obj? {
      r := PatchRoleAllowedNames(r, required);
      r := PatchAllowedNames(r, required);
      r := PatchPermissions(r, required);
    }
  }

  lemma BroadenExample(g: Value)
    requires g == Obj([Field("service", Str("foo")), Field("outbound", Arr([]))])
    ensures Broaden(g) == Obj([Field("service", Str("foo")), Field("outbound", Arr([Str("*")]))])
  {
    var star := Arr([Str("*")]);
    assert Get(g, "outbound") == Some(Arr([]));
    assert Update(g.fields[1..], "outbound", star) == [Field("outbound", star)];
    assert g.fields[0].key != "outbound";
    assert Update(g.fields, "outbound", star) == [g.fields[0], Field("outbound", star)];
    assert [] + [Str(Wildcard)] == [Str("*")];
  }

  /** A step of `GrantsExample`: a grant for `foo` strikes no default name. */
  lemma RemainingExample(perms: seq<Value>, required: seq<string>)
    requires perms == [Obj([Field("service", Str("foo")), Field("outbound", Arr([]))])]
    requires required == DefaultRequiredNames
    ensures Remaining(required, perms) == required
  {
    assert ServiceName(perms[0]) == Some("foo");
    assert "foo" !in required;
    RemainingStep(required, perms, 0);
    assert perms[..1] == perms;
  }

  lemma GrantsExample(perms: seq<Value>, required: seq<string>)
    requires perms == [Obj([Field("service", Str("foo")), Field("outbound", Arr([]))])]
    requires required == DefaultRequiredNames
    ensures PatchedGrants(perms, required) ==
              [Obj([Field("service", Str("foo")), Field("outbound", Arr([Str("*")]))]),
               NewGrant("*"), NewGrant("com.webos.service.capture.client*")]
  {
    BroadenExample(perms[0]);
    RemainingExample(perms, required);
    assert Broadened(perms) == [Broaden(perms[0])];
    assert NewGrants(required) == [NewGrant(required[0]), NewGrant(required[1])];
  }

  /** The `allowedNames` half of the example below. */
  lemma AllowedExample(doc: Value, required: seq<string>)
    requires doc == Obj([Field("allowedNames", Arr([Str("foo")])),
                         Field("permissions", Arr([Obj([Field("service", Str("foo")),
                                                        Field("outbound", Arr([]))])]))])
    requires required == DefaultRequiredNames
    ensures WithAllowedNames(doc, required) ==
              Obj([Field("allowedNames", Arr([Str("foo"), Str("*"), Str("com.webos.service.capture.client*")])),
                   doc.fields[1]])
  {
    var names := [Str("foo"), Str("*"), Str("com.webos.service.capture.client*")];
    assert AllowedList(doc) == Some([Str("foo")]);
    AddMissingExample([Str("foo")], required);
    assert WithAllowedNames(doc, required) == Obj(Update(doc.fields, "allowedNames", Arr(names)));
  }

  /** A step of `AllowedExample`: both default names are pushed, in order. */
  lemma AddMissingExample(xs: seq<Value>, required: seq<string>)
    requires xs == [Str("foo")] && required == DefaultRequiredNames
    ensures AddMissing(xs, required) == [Str("foo"), Str("*"), Str("com.webos.service.capture.client*")]
  {
    AddMissingStep(xs, required, 0);
    assert required[..0] == [];
    assert AddMissing(xs, required[..1]) == [Str("foo"), Str("*")];
    AddMissingStep(xs, required, 1);
    assert required[..2] == required;
  }

  /** The list after one more required name is the previous one with that name
      pushed when it is missing. */
  lemma AddMissingStep(list: seq<Value>, names: seq<string>, k: nat)
    requires k < |names|
    ensures var prev := AddMissing(list, names[..k]);
            AddMissing(list, names[..k + 1]) == if Str(names[k]) in prev then prev else prev + [Str(names[k])]
  {
    assert names[..k + 1][..k] == names[..k];
  }

  /** The `permissions` half of the example below. */
  lemma PermissionsExample(d2: Value, required: seq<string>)
    requires d2 == Obj([Field("allowedNames", Arr([Str("foo"), Str("*"), Str("com.webos.service.capture.client*")])),
                        Field("permissions", Arr([Obj([Field("service", Str("foo")),
                                                       Field("outbound", Arr([]))])]))])
    requires required == DefaultRequiredNames
    ensures WithPermissions(d2, required) ==
              Obj([d2.fields[0],
                   Field("permissions", Arr([Obj([Field("service", Str("foo")),
                                                  Field("outbound", Arr([Str("*")]))]),
                                             NewGrant("*"),
                                             NewGrant("com.webos.service.capture.client*")]))])
  {
    var ps := d2.fields[1].value.items;
    assert PermissionList(d2) == Some(ps);
    GrantsExample(ps, required);
    var qs := PatchedGrants(ps, required);
    assert Update(d2.fields[1..], "permissions", Arr(qs)) == [Field("permissions", Arr(qs))];
    assert Update(d2.fields, "permissions", Arr(qs)) == [d2.fields[0], Field("permissions", Arr(qs))];
  }

  /** A small role file with the default required names: both names join
      `allowedNames`, the existing grant gains the wildcard, and a grant is
      appended for each default name. */
  lemma RolesExample(doc: Value, required: seq<string>)
    requires doc == Obj([Field("allowedNames", Arr([Str("foo")])),
                         Field("permissions", Arr([Obj([Field("service", Str("foo")),
                                                        Field("outbound", Arr([]))])]))])
    requires required == DefaultRequiredNames
    ensures Patched(doc, required) ==
              Obj([Field("allowedNames", Arr([Str("foo"), Str("*"), Str("com.webos.service.capture.client*")])),
                   Field("permissions", Arr([Obj([Field("service", Str("foo")),
                                                  Field("outbound", Arr([Str("*")]))]),
                                             NewGrant("*"),
                                             NewGrant("com.webos.service.capture.client*")]))])
  {
    assert Get(doc, "role") == None;
    assert WithRoleAllowedNames(doc, required) == doc;
    AllowedExample(doc, required);
    var names := [Str("foo"), Str("*"), Str("com.webos.service.capture.client*")];
    PermissionsExample(Obj([Field("allowedNames", Arr(names)), doc.fields[1]]), required);
  }
}
