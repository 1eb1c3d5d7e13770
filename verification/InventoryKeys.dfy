/** The keys of a product's objects: which ones an inventory leaves out, and which ones it refuses. */
module InventoryKeys {
  import opened Ordering
  import opened Wrappers
  import opened SegmentNames

  datatype Place = Local | Remote(s3: bool)

  const S3_VERSION_SUFFIX := "?versionId="
  const CLAIMS_PREFIX := ".firecube/claims/"
  const CONTROL_PREFIX := ".firecube/"
  const PUBLICATION_TEMP_PREFIX := ".firecube-publish-"
  const PUBLICATION_TEMP_SUFFIX := ".tmp"
  const ATOMIC_TEMP_PREFIX := ".firecube-atomic-"

  predicate IsPrefix(p: string) {
    p == "" || p[|p| - 1] == '/'
  }

  // ---------------------------------------------------------------- keys

  predicate StartsWith(s: string, prefix: string) {
    prefix <= s
  }

  /** The text up to and with the last slash. */
  function UpToSlash(s: string): (t: string)
    ensures t <= s && IsPrefix(t)
  {
    if s == "" || s[|s| - 1] == '/' then s else UpToSlash(s[..|s| - 1])
  }

  function LastSegment(key: string): string {
    key[|UpToSlash(key)|..]
  }

  predicate AtomicTempChar(c: char) {
    'a' <= c <= 'z' || '0' <= c <= '9' || c == '_'
  }

  /** The name of a publication temporary, or below `.firecube/` of an atomic writer's temporary. */
  predicate IsWriterTemporary(key: string) {
    IsPublicationTemp(key) || (StartsWith(key, CONTROL_PREFIX) && IsAtomicTemp(LastSegment(key)))
  }

  predicate IsPublicationTemp(path: string) {
    var name := LastSegment(WithoutSlashes(path));
    StartsWith(name, PUBLICATION_TEMP_PREFIX) && EndsWith(name, PUBLICATION_TEMP_SUFFIX)
  }

  /** `path.rstrip("/")` */
  function WithoutSlashes(path: string): string {
    if path != "" && path[|path| - 1] == '/' then WithoutSlashes(path[..|path| - 1]) else path
  }

  predicate IsAtomicTemp(name: string) {
    var lo, hi := |ATOMIC_TEMP_PREFIX|, |name| - |".tmp"|;
    lo < hi && StartsWith(name, ATOMIC_TEMP_PREFIX) && EndsWith(name, ".tmp")
    && forall i :: lo <= i < hi ==> AtomicTempChar(name[i])
  }

  /** A name that ends in `#<digits>`. */
  predicate IsStaging(name: string) {
    var k := DigitsFrom(name);
    0 < k < |name| && name[k - 1] == '#'
  }

  predicate Contains(s: string, part: string) {
    part <= s || (s != "" && Contains(s[1..], part))
  }

  /** Whether an inventory leaves the key out; `None` where it refuses the key. */
  function ExcludedFromInventory(place: Place, key: string): Option<bool> {
    if place == Remote(true) && Contains(key, S3_VERSION_SUFFIX) then None
    else if place.Remote? && IsPublicationTemp(key) then None
    else if StartsWith(key, CLAIMS_PREFIX) || IsWriterTemporary(key) then Some(true)
    else if place.Local? && IsStaging(LastSegment(key)) then None
    else Some(false)
  }

  lemma {:induction false} UpToSlashOf(p: string, name: string)
    requires IsPrefix(p) && '/' !in name
    ensures UpToSlash(p + name) == p
  {
    if name == "" {
      assert p + name == p;
    } else {
      var n := |name| - 1;
      assert (p + name)[..|p + name| - 1] == p + name[..n] && name[n] in name;
      UpToSlashOf(p, name[..n]);
    }
  }

  // ---------------------------------------------------------------- what the names mean

  predicate AllSlashes(s: string) {
    forall i :: 0 <= i < |s| ==> s[i] == '/'
  }

  /** `dir` is empty or ends with a slash, and `name` holds none. */
  predicate IsPath(key: string, dir: string, name: string) {
    key == dir + name && (dir == "" || dir[|dir| - 1] == '/') && '/' !in name
  }

  /** A publication that was not finished. */
  ghost predicate IsPublication(key: string) {
    exists k, dir, x :: SlashesAfter(key, k) && IsPath(k, dir, ".firecube-publish-" + x + ".tmp")
  }

  ghost predicate SlashesAfter(key: string, k: string) {
    k <= key && AllSlashes(key[|k|..])
  }

  /** A control-plane file whose write was not finished. */
  ghost predicate IsUnfinished(key: string) {
    && ".firecube/" <= key
    && exists dir, x :: IsPath(key, dir, ".firecube-atomic-" + x + ".tmp") && IsToken(x)
  }

  /** One or more of the characters a temporary's name is drawn from. */
  predicate IsToken(x: string) {
    x != "" && forall i :: 0 <= i < |x| ==> 'a' <= x[i] <= 'z' || '0' <= x[i] <= '9' || x[i] == '_'
  }

  ghost predicate IsLeftover(key: string) {
    IsPublication(key) || IsUnfinished(key)
  }

  ghost predicate IsClaim(key: string) {
    ".firecube/claims/" <= key
  }

  /** The name of an interrupted local write: digits after a number sign. */
  ghost predicate IsStaged(key: string) {
    exists a, d :: IsNumbered(key, a, d)
  }

  predicate IsNumbered(key: string, a: string, d: string) {
    d != "" && AllDigits(d) && key == a + "#" + d
  }

  ghost predicate NamesVersion(key: string) {
    exists a, b :: Around(key, a, "?versionId=", b)
  }

  predicate Around(s: string, a: string, part: string, b: string) {
    s == a + part + b
  }

  /** No inventory is taken of a product with such a key. */
  ghost predicate IsRefused(place: Place, key: string) {
    if place.Local? then !IsClaim(key) && !IsLeftover(key) && IsStaged(key)
    else IsPublication(key) || (place.s3 && NamesVersion(key))
  }

  /** An inventory records such a key. */
  ghost predicate Included(place: Place, key: string) {
    !IsRefused(place, key) && !IsClaim(key) && !IsLeftover(key)
  }

  lemma {:induction false} NoSlashAfter(s: string)
    ensures '/' !in s[|UpToSlash(s)|..]
  {
    if s != "" && s[|s| - 1] != '/' {
      NoSlashAfter(s[..|s| - 1]);
      var rest := s[|UpToSlash(s)|..];
      assert rest == s[..|s| - 1][|UpToSlash(s)|..] + [s[|s| - 1]];
    }
  }

  /** The last segment of a path is its name. */
  lemma LastSegmentOf(key: string, dir: string, name: string)
    requires IsPath(key, dir, name)
    ensures UpToSlash(key) == dir && LastSegment(key) == name
  {
    UpToSlashOf(dir, name);
  }

  lemma IsItsPath(key: string)
    ensures IsPath(key, UpToSlash(key), LastSegment(key))
  {
    NoSlashAfter(key);
  }

  lemma {:induction false} WithoutSlashesOf(path: string)
    ensures var k := WithoutSlashes(path);
            SlashesAfter(path, k) && (k == "" || k[|k| - 1] != '/')
  {
    if path != "" && path[|path| - 1] == '/' {
      WithoutSlashesOf(path[..|path| - 1]);
      var k := WithoutSlashes(path);
      assert path[|k|..] == path[..|path| - 1][|k|..] + [path[|path| - 1]];
    }
  }

  lemma {:induction false} WithoutSlashesIs(path: string, k: string)
    requires SlashesAfter(path, k) && k != "" && k[|k| - 1] != '/'
    ensures WithoutSlashes(path) == k
    decreases |path|
  {
    if k != path {
      var shorter := path[..|path| - 1];
      assert path[|k|..][|path| - 1 - |k|] == path[|path| - 1];
      assert shorter[|k|..] == path[|k|..][..|shorter| - |k|];
      WithoutSlashesIs(shorter, k);
    }
  }

  lemma Enclosed(name: string, open: string, close: string)
    requires open <= name && EndsWith(name, close) && |open| + |close| <= |name|
    ensures name == open + name[|open|..|name| - |close|] + close
  {
  }

  lemma PublicationMeaning(key: string)
    ensures IsPublicationTemp(key) <==> IsPublication(key)
  {
    hide UpToSlash, WithoutSlashes, LastSegment;
    var k := WithoutSlashes(key);
    var name := LastSegment(k);
    WithoutSlashesOf(key);
    IsItsPath(k);
    if IsPublicationTemp(key) {
      ApartPublish(name);
      var x := name[|".firecube-publish-"|..|name| - |".tmp"|];
      Enclosed(name, ".firecube-publish-", ".tmp");
      assert SlashesAfter(key, k) && IsPath(k, UpToSlash(k), ".firecube-publish-" + x + ".tmp");
    }
    if IsPublication(key) {
      var k2, dir, x :| SlashesAfter(key, k2) && IsPath(k2, dir, ".firecube-publish-" + x + ".tmp");
      var full := ".firecube-publish-" + x + ".tmp";
      assert k2[|k2| - 1] == full[|full| - 1] == 'p';
      WithoutSlashesIs(key, k2);
      LastSegmentOf(k2, dir, full);
    }
  }

  /** The two ends of such a name do not overlap. */
  lemma ApartPublish(name: string)
    requires StartsWith(name, ".firecube-publish-") && EndsWith(name, ".tmp")
    ensures |name| >= |".firecube-publish-"| + |".tmp"|
  {
    var n := |name|;
    assert name[n - 4] == name[n - 4..][0] == '.' && name[n - 1] == name[n - 4..][3] == 'p';
    assert name[..18] == ".firecube-publish-";
  }

  lemma UnfinishedMeaning(key: string)
    ensures StartsWith(key, CONTROL_PREFIX) && IsAtomicTemp(LastSegment(key)) <==> IsUnfinished(key)
  {
    hide UpToSlash, LastSegment;
    var name := LastSegment(key);
    IsItsPath(key);
    if IsAtomicTemp(name) {
      var x := name[|ATOMIC_TEMP_PREFIX|..|name| - |".tmp"|];
      Enclosed(name, ".firecube-atomic-", ".tmp");
      assert IsPath(key, UpToSlash(key), ".firecube-atomic-" + x + ".tmp") && IsToken(x);
    }
    if IsUnfinished(key) {
      var dir, x :| IsPath(key, dir, ".firecube-atomic-" + x + ".tmp") && IsToken(x);
      LastSegmentOf(key, dir, ".firecube-atomic-" + x + ".tmp");
      AtomicName(x);
    }
  }

  lemma AtomicName(x: string)
    requires IsToken(x)
    ensures IsAtomicTemp(".firecube-atomic-" + x + ".tmp")
  {
    var name := ".firecube-atomic-" + x + ".tmp";
    assert name[|name| - 4..] == ".tmp";
    forall i | |".firecube-atomic-"| <= i < |name| - 4 ensures AtomicTempChar(name[i]) {
      assert name[i] == x[i - |".firecube-atomic-"|];
    }
  }

  lemma StagedMeaning(key: string)
    ensures IsStaging(LastSegment(key)) <==> IsStaged(key)
  {
    hide UpToSlash, LastSegment;
    var dir, name := UpToSlash(key), LastSegment(key);
    IsItsPath(key);
    var k := DigitsFrom(name);
    if IsStaging(name) {
      assert IsNumbered(key, dir + name[..k - 1], name[k..]);
    }
    if IsStaged(key) {
      var a, d :| IsNumbered(key, a, d);
      var dir2, name2 := UpToSlash(a), LastSegment(a);
      IsItsPath(a);
      assert name2 + "#" + d == name2 + ("#" + d) && '/' !in "#" + d;
      assert key == dir2 + (name2 + "#" + d);
      LastSegmentOf(key, dir2, name2 + "#" + d);
      DigitsFromUnique(name2 + "#", d);
      assert name[|name2|] == '#';
    }
  }

  lemma NotAtStart(s: string, a: string, part: string, b: string)
    requires Around(s, a, part, b) && !(part <= s)
    ensures a != ""
  {
    assert (a + part + b)[|a|..|a| + |part|] == part;
  }

  lemma {:induction false} ContainsMeaning(s: string, part: string)
    ensures Contains(s, part) <==> exists a, b :: Around(s, a, part, b)
  {
    if part <= s {
      assert Around(s, "", part, s[|part|..]);
    } else {
      if s != "" {
        ContainsMeaning(s[1..], part);
        if Contains(s[1..], part) {
          var a, b :| Around(s[1..], a, part, b);
          assert Around(s, [s[0]] + a, part, b);
        }
      }
      if a, b :| Around(s, a, part, b) {
        NotAtStart(s, a, part, b);
        assert Around(s[1..], a[1..], part, b);
      }
    }
  }

  /** Which keys an inventory refuses, and which ones it records. */
  lemma ExcludedMeaning(place: Place, key: string)
    ensures ExcludedFromInventory(place, key).None? <==> IsRefused(place, key)
    ensures ExcludedFromInventory(place, key) == Some(false) <==> Included(place, key)
    ensures IsWriterTemporary(key) <==> IsLeftover(key)
  {
    hide IsPublicationTemp, IsPublication, IsAtomicTemp, IsUnfinished, IsStaging, IsStaged, Contains, LastSegment;
    PublicationMeaning(key);
    UnfinishedMeaning(key);
    StagedMeaning(key);
    ContainsMeaning(key, S3_VERSION_SUFFIX);
  }
}
