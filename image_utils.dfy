/** Image source resolution (src/utils/imageUtils.ts): the name-to-path map built from the
    bundled image files, and `getImageSrc`. The file list of the bundler's directory scan and
    the path each file resolves to are parameters (`keys`, `resolve`). */
module ImageUtils {
  import opened Wrappers
  import opened Strings

  /** The file whose entry stands in for a local name with no usable entry. */
  const FallbackImage: string := "sample-research-photo-3.jpg"

  /** `key.replace('./', '')`: the first "./" in the key is removed, wherever it occurs. */
  function NormalizeKey(key: string): string {
    ReplaceFirst(key, "./", "")
  }

  /** The bundler's keys all start with "./"; such a key loses exactly that prefix. */
  lemma NormalizeDirectoryKey(name: string)
    ensures NormalizeKey("./" + name) == name
  {
    var key := "./" + name;
    assert StartsWith(key, "./");
    ReplaceFirstAtStart(key, "./", "");
    assert key[2..] == name;
  }

  /** A key without "./" is kept as it is. */
  lemma NormalizePlainKey(key: string)
    requires !Contains(key, "./")
    ensures NormalizeKey(key) == key
  {
    ReplaceFirstAbsent(key, "./", "");
  }

  /** The map the `forEach` produces: each key in turn stores its resolved path under its
      normalized name, so a later key with the same name overwrites an earlier one. */
  function ImageImports(keys: seq<string>, resolve: string -> string): map<string, string>
    decreases |keys|
  {
    if keys == [] then map[]
    else
      var last := keys[|keys| - 1];
      ImageImports(keys[..|keys| - 1], resolve)[NormalizeKey(last) := resolve(last)]
  }

  /** The module-level loop that fills `imageImports`, one key at a time. */
  method BuildImageImports(keys: seq<string>, resolve: string -> string) returns (imports: map<string, string>)
    ensures imports == ImageImports(keys, resolve)
  {
    imports := map[];
    var i := 0;
    while i < |keys|
      invariant 0 <= i <= |keys|
      invariant imports == ImageImports(keys[..i], resolve)
    {
      var fileName := NormalizeKey(keys[i]);
      assert keys[..i + 1][..i] == keys[..i];
      imports := imports[fileName := resolve(keys[i])];
      i := i + 1;
    }
    assert keys[..|keys|] == keys;
  }

  /** Key `i` normalizes to `name`. */
  ghost predicate NamedBy(keys: seq<string>, i: int, name: string) {
    0 <= i < |keys| && NormalizeKey(keys[i]) == name
  }

  /** Key `i` is the last key that normalizes to `name`. */
  ghost predicate LastNamedBy(keys: seq<string>, i: int, name: string) {
    NamedBy(keys, i, name) && forall j :: i < j < |keys| ==> NormalizeKey(keys[j]) != name
  }

  /** The map's names are exactly the normalized keys. */
  lemma {:induction false} ImageImportsDomain(keys: seq<string>, resolve: string -> string)
    ensures forall name :: name in ImageImports(keys, resolve) <==> exists i :: NamedBy(keys, i, name)
    decreases |keys|
  {
    if keys != [] {
      var n := |keys| - 1;
      var init := keys[..n];
      ImageImportsDomain(init, resolve);
      forall name, i | 0 <= i < n ensures NamedBy(keys, i, name) == NamedBy(init, i, name) {
        assert init[i] == keys[i];
      }
      assert NamedBy(keys, n, NormalizeKey(keys[n]));
    }
  }

  /** Each name holds the path of the last key that normalizes to it: later keys overwrite
      earlier ones. */
  lemma {:induction false} ImageImportsValue(keys: seq<string>, resolve: string -> string, name: string)
    requires name in ImageImports(keys, resolve)
    ensures exists i :: LastNamedBy(keys, i, name) && ImageImports(keys, resolve)[name] == resolve(keys[i])
    decreases |keys|
  {
    var n := |keys| - 1;
    var init := keys[..n];
    if NormalizeKey(keys[n]) == name {
      assert LastNamedBy(keys, n, name);
    } else {
      ImageImportsValue(init, resolve, name);
      var i :| LastNamedBy(init, i, name) && ImageImports(init, resolve)[name] == resolve(init[i]);
      assert init[i] == keys[i];
      assert forall j :: i < j < n ==> init[j] == keys[j];
      assert LastNamedBy(keys, i, name);
    }
  }

  /** A name the browser can load as it is: an absolute or protocol-relative URL. */
  predicate IsExternalUrl(fileName: string) {
    StartsWith(fileName, "http://") || StartsWith(fileName, "https://") || StartsWith(fileName, "//")
  }

  /** `getImageSrc`: an external URL is returned as it is; a local name yields its map entry
      when that entry is non-empty, and the fallback file's entry otherwise, which is itself
      `undefined` when the fallback file was not bundled. */
  function GetImageSrc(imports: map<string, string>, fileName: string): (r: Option<string>)
    ensures r.Some? ==> r.value == fileName || r.value in imports.Values
    ensures r.None? ==> !IsExternalUrl(fileName) && FallbackImage !in imports
  {
    if IsExternalUrl(fileName) then Some(fileName)
    else if fileName in imports && imports[fileName] != "" then Some(imports[fileName])
    else if FallbackImage in imports then Some(imports[FallbackImage])
    else None
  }

  /** External URLs pass through unchanged, whatever the map holds. */
  lemma ExternalUrlUnchanged(imports: map<string, string>, fileName: string)
    requires IsExternalUrl(fileName)
    ensures GetImageSrc(imports, fileName) == Some(fileName)
    ensures forall other: map<string, string> :: GetImageSrc(other, fileName) == GetImageSrc(imports, fileName)
  {
  }

  /** A local name with a non-empty entry gets that entry. */
  lemma LocalHit(imports: map<string, string>, fileName: string)
    requires !IsExternalUrl(fileName)
    requires fileName in imports && imports[fileName] != ""
    ensures GetImageSrc(imports, fileName) == Some(imports[fileName])
  {
  }

  /** A local name that is missing, or whose entry is empty (the `||` falls through on ""),
      gets the fallback file's entry. */
  lemma LocalMiss(imports: map<string, string>, fileName: string)
    requires !IsExternalUrl(fileName)
    requires fileName !in imports || imports[fileName] == ""
    ensures GetImageSrc(imports, fileName) == (if FallbackImage in imports then Some(imports[FallbackImage]) else None)
  {
  }

  /** For the map built from the bundle, a bundled file's name (its key without "./") yields
      the path of that file, provided no later key has the same name and the path is
      non-empty. */
  lemma BundledFileResolves(keys: seq<string>, resolve: string -> string, k: nat)
    requires k < |keys| && !IsExternalUrl(NormalizeKey(keys[k]))
    requires forall j :: k < j < |keys| ==> NormalizeKey(keys[j]) != NormalizeKey(keys[k])
    requires resolve(keys[k]) != ""
    ensures GetImageSrc(ImageImports(keys, resolve), NormalizeKey(keys[k])) == Some(resolve(keys[k]))
  {
    var name := NormalizeKey(keys[k]);
    var m := ImageImports(keys, resolve);
    ImageImportsDomain(keys, resolve);
    assert NamedBy(keys, k, name);
    ImageImportsValue(keys, resolve, name);
    var i :| LastNamedBy(keys, i, name) && m[name] == resolve(keys[i]);
    assert i == k;
  }
}
