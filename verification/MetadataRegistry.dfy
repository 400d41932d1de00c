/** The index of metadata files (lib/runtime/src/metadata_registry.rs): a nested map that must behave
    like the flat map from (slug, suffix, filename) to paths that it replaced. */
module MetadataRegistry {
  import opened Wrappers

  type Scope = (string, string)
  type FileKey = (string, string, string)
  type Files = map<string, string>
  type Nested = map<Scope, Files>
  type Flat = map<FileKey, string>

  function ScopeOf(k: FileKey): Scope { (k.0, k.1) }

  predicate InNested(m: Nested, k: FileKey) { ScopeOf(k) in m && k.2 in m[ScopeOf(k)] }

  /** The nested map holds exactly the entries of the flat one. */
  ghost predicate Represents(m: Nested, f: Flat) {
    && (forall k :: k in f <==> InNested(m, k))
    && (forall k :: k in f ==> f[k] == m[ScopeOf(k)][k.2])
  }

  // ----- the flat operations

  function FlatRegister(f: Flat, k: FileKey, path: string): Flat { f[k := path] }

  function FlatUnregister(f: Flat, s: Scope): Flat {
    map k | k in f && ScopeOf(k) != s :: f[k]
  }

  // ----- the number of files

  /** The entries of one scope, as entries of the flat map. */
  ghost function ScopePart(f: Flat, s: Scope): set<FileKey> { set k | k in f && ScopeOf(k) == s }

  lemma ScopePartSize(m: Nested, f: Flat, s: Scope)
    requires Represents(m, f) && s in m
    ensures |ScopePart(f, s)| == |m[s]|
  {
    var keys := ScopePart(f, s);
    assert keys == set n | n in m[s] :: (s.0, s.1, n);
    SameSize(m[s].Keys, keys, s);
  }

  lemma {:induction false} SameSize(names: set<string>, keys: set<FileKey>, s: Scope)
    requires keys == set n | n in names :: (s.0, s.1, n)
    ensures |keys| == |names|
    decreases |names|
  {
    if names != {} {
      var n :| n in names;
      var k := (s.0, s.1, n);
      assert k in keys;
      assert keys - {k} == set x | x in names - {n} :: (s.0, s.1, x);
      SameSize(names - {n}, keys - {k}, s);
    } else {
      assert keys == {};
    }
  }

  /** Dropping a scope drops as many entries of the flat map as its inner map has files. */
  lemma UnregisterSize(m: Nested, f: Flat, s: Scope)
    requires Represents(m, f) && s in m
    ensures |f| == |FlatUnregister(f, s)| + |m[s]|
  {
    var g := FlatUnregister(f, s);
    ScopePartSize(m, f, s);
    assert f.Keys == g.Keys + ScopePart(f, s);
    assert g.Keys !! ScopePart(f, s);
    assert |g.Keys| == |g| && |f.Keys| == |f|;
  }

  lemma EmptyRepresents(f: Flat)
    requires Represents(map[], f)
    ensures f == map[]
  {
    assert forall k :: k in f ==> InNested(map[], k);
  }

  // ----- refinement, operation by operation

  function Inner(m: Nested, s: Scope): Files { if s in m then m[s] else map[] }

  lemma RegisterKeeps(m: Nested, f: Flat, k: FileKey, path: string)
    requires Represents(m, f)
    ensures Represents(m[ScopeOf(k) := Inner(m, ScopeOf(k))[k.2 := path]], FlatRegister(f, k, path))
  {
  }

  lemma UnregisterKeeps(m: Nested, f: Flat, s: Scope)
    requires Represents(m, f)
    ensures Represents(m - {s}, FlatUnregister(f, s))
  {
  }

  datatype Op = Register(key: FileKey, path: string) | Unregister(scope: Scope)

  function NestedAfter(ops: seq<Op>): Nested {
    if ops == [] then map[]
    else
      var m, op := NestedAfter(ops[..|ops| - 1]), ops[|ops| - 1];
      match op
      case Register(k, path) => m[ScopeOf(k) := Inner(m, ScopeOf(k))[k.2 := path]]
      case Unregister(s) => m - {s}
  }

  function FlatAfter(ops: seq<Op>): Flat {
    if ops == [] then map[]
    else
      var f, op := FlatAfter(ops[..|ops| - 1]), ops[|ops| - 1];
      match op
      case Register(k, path) => FlatRegister(f, k, path)
      case Unregister(s) => FlatUnregister(f, s)
  }

  /** The operation decides about the key: it registers it or drops its scope. */
  predicate Touches(op: Op, k: FileKey) {
    if op.Register? then op.key == k else op.scope == (k.0, k.1)
  }

  /** After any history of operations the nested map holds exactly the entries of the flat one. */
  lemma {:induction false} HistoryRefines(ops: seq<Op>)
    ensures Represents(NestedAfter(ops), FlatAfter(ops))
  {
    if ops != [] {
      hide Represents;
      var n := |ops| - 1;
      HistoryRefines(ops[..n]);
      match ops[n]
      case Register(k, path) => RegisterKeeps(NestedAfter(ops[..n]), FlatAfter(ops[..n]), k, path);
      case Unregister(s) => UnregisterKeeps(NestedAfter(ops[..n]), FlatAfter(ops[..n]), s);
    }
  }

  /** Operation `i` registers the key with the path, and none behind it decides about the key. */
  ghost predicate Decides(ops: seq<Op>, k: FileKey, path: string, i: nat)
    requires i < |ops|
  {
    ops[i] == Register(k, path) && forall j :: i < j < |ops| ==> !Touches(ops[j], k)
  }

  /** A key is found, with its path, exactly if the last operation that decides about it registered it so. */
  lemma {:induction false} LastOperationDecides(ops: seq<Op>, k: FileKey, path: string)
    ensures k in FlatAfter(ops) && FlatAfter(ops)[k] == path <==> exists i :: 0 <= i < |ops| && Decides(ops, k, path, i)
  {
    if ops != [] {
      var n := |ops| - 1;
      var rest := ops[..n];
      LastOperationDecides(rest, k, path);
      assert Decides(ops, k, path, n) <==> ops[n] == Register(k, path);
      forall i | 0 <= i < n
        ensures Decides(ops, k, path, i) <==> Decides(rest, k, path, i) && !Touches(ops[n], k)
      {
        DecidesBefore(ops, k, path, i);
      }
      hide Decides;
    }
  }

  lemma DecidesBefore(ops: seq<Op>, k: FileKey, path: string, i: nat)
    requires i < |ops| - 1
    ensures Decides(ops, k, path, i) <==> Decides(ops[..|ops| - 1], k, path, i) && !Touches(ops[|ops| - 1], k)
  {
    hide Touches;
    assert forall j :: 0 <= j < |ops| - 1 ==> ops[..|ops| - 1][j] == ops[j];
  }

  class MetadataArtifactRegistry {
    var entries: Nested
    /** The flat map this index stands for. */
    ghost var flat: Flat

    ghost predicate Valid()
      reads this
    {
      Represents(entries, flat)
    }

    constructor ()
      ensures Valid() && flat == map[]
    {
      entries, flat := map[], map[];
    }

    /** A second registration of a file replaces the first. */
    method Register(slug: string, suffix: string, filename: string, path: string)
      requires Valid()
      modifies this
      ensures Valid() && flat == FlatRegister(old(flat), (slug, suffix, filename), path)
    {
      RegisterKeeps(entries, flat, (slug, suffix, filename), path);
      var scope := (slug, suffix);
      var files := if scope in entries then entries[scope] else map[];
      entries := entries[scope := files[filename := path]];
      flat := FlatRegister(flat, (slug, suffix, filename), path);
    }

    method Get(slug: string, suffix: string, filename: string) returns (path: Option<string>)
      requires Valid()
      ensures path == if (slug, suffix, filename) in flat then Some(flat[(slug, suffix, filename)]) else None
    {
      var scope := (slug, suffix);
      assert ScopeOf((slug, suffix, filename)) == scope;
      if scope in entries && filename in entries[scope] {
        assert InNested(entries, (slug, suffix, filename));
        path := Some(entries[scope][filename]);
      } else {
        assert !InNested(entries, (slug, suffix, filename));
        path := None;
      }
    }

    /** Removes the files of one scope and no others. */
    method Unregister(slug: string, suffix: string)
      requires Valid()
      modifies this
      ensures Valid() && flat == FlatUnregister(old(flat), (slug, suffix))
    {
      UnregisterKeeps(entries, flat, (slug, suffix));
      entries := entries - {(slug, suffix)};
      flat := FlatUnregister(flat, (slug, suffix));
    }

    method Len() returns (n: nat)
      requires Valid()
      ensures n == |flat|
    {
      n := 0;
      var rest := entries;
      ghost var left := flat;
      while rest != map[]
        invariant Represents(rest, left) && n + |left| == |flat|
        decreases |rest|
      {
        var s :| s in rest;
        n := n + |rest[s]|;
        UnregisterKeeps(rest, left, s);
        UnregisterSize(rest, left, s);
        rest, left := rest - {s}, FlatUnregister(left, s);
      }
      EmptyRepresents(left);
    }

    /** True exactly when no file is registered, also if empty scopes remain. */
    method IsEmpty() returns (empty: bool)
      requires Valid()
      ensures empty <==> |flat| == 0
    {
      empty := forall s :: s in entries ==> entries[s] == map[];
      if empty {
        assert forall k :: k !in flat;
        assert flat == map[];
      } else {
        var s :| s in entries && entries[s] != map[];
        var n :| n in entries[s];
        assert InNested(entries, (s.0, s.1, n));
        assert (s.0, s.1, n) in flat;
      }
    }
  }
}
