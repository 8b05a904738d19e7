/**
 * Storage keys of an image, the upload with its compensation, and the audit's
 * reconciliation of rows and stored keys, each run alone.
 */
module MediaFiles {
  import opened Common
  import Decimal
  import MediaProtocol

  type Bytes = seq<bv8>

  // ---------- Keys ----------

  /** `str.rfind` of one character: -1 when it does not occur. */
  function RFind(s: string, c: char): (k: int)
    ensures -1 <= k < |s|
    ensures k >= 0 ==> s[k] == c
    ensures forall i | k < i < |s| :: s[i] != c
  {
    if s == "" then -1 else if s[|s| - 1] == c then |s| - 1 else RFind(s[..|s| - 1], c)
  }

  /** `os.path.splitext(p)[0]`: a dot that only follows dots in the last component starts no extension. */
  function SplitRoot(p: string): string {
    var slash, dot := RFind(p, '/'), RFind(p, '.');
    if slash < dot && exists i | slash < i < dot :: p[i] != '.' then p[..dot] else p
  }

  function Suffix(variant: nat): string
    requires variant < 5
  {
    [".webp", "_thumb.webp", "_sm.webp", "_md.webp", "_lg.webp"][variant]
  }

  /** `image_storage_keys` of an image row with this file name. */
  function ImageStorageKeys(file: string): (keys: seq<string>)
    ensures |keys| == 5
  {
    var root := SplitRoot(file);
    [file, root + Suffix(1), root + Suffix(2), root + Suffix(3), root + Suffix(4)]
  }

  predicate IsUuidChar(c: char) {
    '0' <= c <= '9' || 'a' <= c <= 'f' || c == '-'
  }

  predicate IsUuid(s: string) {
    |s| == 36 && forall i | 0 <= i < |s| :: IsUuidChar(s[i])
  }

  const PREFIX: string := "private/images/"

  /** The common root of the five keys of one upload. */
  function Root(organization: nat, uuid: string): string {
    PREFIX + Decimal.Text(organization) + "/" + uuid
  }

  function UploadedKey(organization: nat, uuid: string, variant: nat): string
    requires variant < 5
  {
    Root(organization, uuid) + Suffix(variant)
  }

  function UploadedKeys(organization: nat, uuid: string): (keys: seq<string>)
    ensures |keys| == 5
  {
    seq(5, v requires 0 <= v < 5 => UploadedKey(organization, uuid, v))
  }

  lemma LastIsUnique(s: string, c: char, k: int)
    requires -1 <= k < |s| && (k >= 0 ==> s[k] == c) && forall i | k < i < |s| :: s[i] != c
    ensures RFind(s, c) == k
  {
    var r := RFind(s, c);
    assert k >= 0 ==> s[k] == c;
  }

  lemma RFindAppend(s: string, t: string, c: char)
    ensures RFind(s + t, c) == if RFind(t, c) >= 0 then |s| + RFind(t, c) else RFind(s, c)
  {
    var p := s + t;
    var want := if RFind(t, c) >= 0 then |s| + RFind(t, c) else RFind(s, c);
    assert want >= 0 ==> p[want] == c;
    assert forall i | want < i < |p| :: p[i] == if i < |s| then s[i] else t[i - |s|];
    LastIsUnique(p, c, want);
  }

  lemma SplitRootOfUpload(root: string)
    requires |root| > 0 && root[|root| - 1] != '.' && root[|root| - 1] != '/'
    ensures SplitRoot(root + ".webp") == root
  {
    var p := root + ".webp";
    var t := ".webp";
    assert t[0] == '.' && t[1] == 'w' && t[2] == 'e' && t[3] == 'b' && t[4] == 'p';
    assert RFind(t, '.') == 0 && RFind(t, '/') == -1;
    RFindAppend(root, ".webp", '.');
    RFindAppend(root, ".webp", '/');
    assert RFind(root, '/') < |root| - 1 && p[|root| - 1] != '.';
    assert p[..|root|] == root;
  }

  lemma KeysOfRoot(root: string)
    requires SplitRoot(root + Suffix(0)) == root
    ensures ImageStorageKeys(root + Suffix(0)) == seq(5, v requires 0 <= v < 5 => root + Suffix(v))
  {}

  /** The keys derived from the row's file name are the keys that the upload wrote. */
  lemma StorageKeysAreUploaded(organization: nat, uuid: string)
    requires IsUuid(uuid)
    ensures ImageStorageKeys(UploadedKey(organization, uuid, 0)) == UploadedKeys(organization, uuid)
  {
    var root := Root(organization, uuid);
    assert IsUuidChar(uuid[35]);
    SplitRootOfUpload(root);
    KeysOfRoot(root);
  }

  lemma SlashSplit(a: string, x: string, b: string, y: string)
    requires forall i | 0 <= i < |a| :: a[i] != '/'
    requires forall i | 0 <= i < |b| :: b[i] != '/'
    requires a + ("/" + x) == b + ("/" + y)
    ensures a == b && x == y
  {
    var s := a + ("/" + x);
    assert s[|a|] == '/' && s[|b|] == '/';
    assert |a| == |b|;
    assert s[..|a|] == a && s[..|b|] == b;
    assert s[|a| + 1..] == x && s[|b| + 1..] == y;
  }

  lemma SuffixesDiffer(v: nat, w: nat)
    requires v < 5 && w < 5 && Suffix(v) == Suffix(w)
    ensures v == w
  {
    assert |Suffix(0)| == 5 && |Suffix(1)| == 11 && |Suffix(2)| == 8 && |Suffix(3)| == 8 && |Suffix(4)| == 8;
    assert Suffix(2)[1] == 's' && Suffix(3)[1] == 'm' && Suffix(4)[1] == 'l';
  }

  lemma UploadedKeyParts(organization: nat, uuid: string, variant: nat)
    requires variant < 5
    ensures UploadedKey(organization, uuid, variant)
            == PREFIX + (Decimal.Text(organization) + ("/" + (uuid + Suffix(variant))))
  {
    var t, suffix := Decimal.Text(organization), Suffix(variant);
    assert PREFIX + t + "/" + uuid + suffix == PREFIX + (t + ("/" + (uuid + suffix)));
  }

  lemma TailsEqual(u1: string, x1: string, u2: string, x2: string)
    requires |u1| == |u2| && u1 + x1 == u2 + x2
    ensures u1 == u2 && x1 == x2
  {
    Split(u1, x1);
    Split(u2, x2);
  }

  /** A key names its organization, its upload and its variant: no two uploads share a key. */
  lemma KeysDetermine(o1: nat, u1: string, v1: nat, o2: nat, u2: string, v2: nat)
    requires IsUuid(u1) && IsUuid(u2) && v1 < 5 && v2 < 5
    requires UploadedKey(o1, u1, v1) == UploadedKey(o2, u2, v2)
    ensures o1 == o2 && u1 == u2 && v1 == v2
  {
    var t1, t2 := Decimal.Text(o1), Decimal.Text(o2);
    var s1, s2 := Suffix(v1), Suffix(v2);
    UploadedKeyParts(o1, u1, v1);
    UploadedKeyParts(o2, u2, v2);
    Cancel(PREFIX, t1 + ("/" + (u1 + s1)), t2 + ("/" + (u2 + s2)));
    SlashSplit(t1, u1 + s1, t2, u2 + s2);
    Decimal.TextInjective(o1, o2);
    TailsEqual(u1, s1, u2, s2);
    SuffixesDiffer(v1, v2);
  }

  // ---------- Upload and audit ----------

  datatype Object = Object(content: Bytes, modified: Option<Time>)

  /** What goes wrong in one upload: a write, which may leave its object behind, or the row insert. */
  datatype Fault = NoFault | WriteFault(at: nat, left: bool) | RowFault

  /** The store after the first n writes. */
  function Written(objects: map<string, Object>, keys: seq<string>, contents: seq<Bytes>, now: Time, n: nat):
    map<string, Object>
    requires n <= |keys| == |contents|
  {
    if n == 0 then objects
    else Written(objects, keys, contents, now, n - 1)[keys[n - 1] := Object(contents[n - 1], Some(now))]
  }

  lemma {:induction false} WrittenExactly(objects: map<string, Object>, keys: seq<string>, contents: seq<Bytes>,
                                          now: Time, n: nat, key: string)
    requires n <= |keys| == |contents|
    requires forall i, j | 0 <= i < |keys| && 0 <= j < |keys| && keys[i] == keys[j] :: i == j
    ensures var after := Written(objects, keys, contents, now, n);
            && (key in after <==> key in objects || key in keys[..n])
            && (key !in keys[..n] && key in objects ==> after[key] == objects[key])
            && (forall i | 0 <= i < n && keys[i] == key :: after[key] == Object(contents[i], Some(now)))
  {
    if n == 0 {
    } else {
      WrittenExactly(objects, keys, contents, now, n - 1, key);
      assert keys[..n] == keys[..n - 1] + [keys[n - 1]];
    }
  }

  lemma UploadedKeysDiffer(organization: nat, uuid: string)
    requires IsUuid(uuid)
    ensures var keys := UploadedKeys(organization, uuid);
            forall i, j | 0 <= i < |keys| && 0 <= j < |keys| && keys[i] == keys[j] :: i == j
  {
    var keys := UploadedKeys(organization, uuid);
    forall i, j | 0 <= i < |keys| && 0 <= j < |keys| && keys[i] == keys[j] ensures i == j {
      KeysDetermine(organization, uuid, i, organization, uuid, j);
    }
  }

  function ReferencedBy(files: set<string>): set<string> {
    set file, i | file in files && 0 <= i < 5 :: ImageStorageKeys(file)[i]
  }

  function Without(objects: map<string, Object>, keys: set<string>): map<string, Object> {
    map k | k in objects && k !in keys :: objects[k]
  }

  class Media {
    var objects: map<string, Object>
    var files: set<string>

    /**
     * images/services.py: `upload_image_file` after the image has been processed; contents
     * are those of the five keys.
     */
    method UploadImageFile(organization: nat, uuid: string, contents: seq<Bytes>, now: Time, fault: Fault)
      returns (r: Option<string>)
      requires IsUuid(uuid) && |contents| == 5
      requires forall k | k in UploadedKeys(organization, uuid) :: k !in objects
      modifies this
      ensures r.Some? <==> fault == NoFault || (fault.WriteFault? && fault.at >= 5)
      ensures r.Some? ==>
              && ImageStorageKeys(r.value) == UploadedKeys(organization, uuid)
              && objects == Written(old(objects), ImageStorageKeys(r.value), contents, now, 5)
              && files == old(files) + {r.value}
      ensures r.Some? ==>
              && r.value == "private/images/" + Decimal.Text(organization) + "/" + uuid + ".webp"
              && StoredUnder(objects, "private/images/" + Decimal.Text(organization) + "/" + uuid, contents, now)
              && (forall k | k in old(objects) :: k in objects && objects[k] == old(objects)[k])
              && objects.Keys == old(objects).Keys + set k | k in UploadedKeys(organization, uuid)
      ensures r.None? ==> files == old(files)
      ensures r.None? ==>
              objects == if fault.WriteFault? && fault.left
                         then old(objects)[UploadedKey(organization, uuid, fault.at) :=
                                             Object(contents[fault.at], Some(now))]
                         else old(objects)
    {
      var keys := UploadedKeys(organization, uuid);
      UploadedKeysDiffer(organization, uuid);
      StorageKeysAreUploaded(organization, uuid);
      var uploaded: seq<string> := [];
      for v := 0 to 5
        invariant uploaded == keys[..v]
        invariant fault.WriteFault? ==> v <= fault.at
        invariant objects == Written(old(objects), keys, contents, now, v) && files == old(files)
      {
        if fault.WriteFault? && fault.at == v {
          CompensationUndoes(old(objects), keys, contents, now, v);
          CompensationMisses(old(objects), keys, contents, now, v, Object(contents[v], Some(now)));
          if fault.left {
            objects := objects[keys[v] := Object(contents[v], Some(now))];
          }
          DeleteKeys(uploaded);
          return None;
        }
        objects := objects[keys[v] := Object(contents[v], Some(now))];
        uploaded := uploaded + [keys[v]];
      }
      if fault.RowFault? {
        // the inner and the outer handler both delete the uploaded keys
        DeleteKeys(uploaded);
        CompensationUndoes(old(objects), keys, contents, now, 5);
        NothingToDelete(old(objects), uploaded);
        DeleteKeys(uploaded);
        return None;
      }
      files := files + {keys[0]};
      UploadStores(old(objects), organization, uuid, contents, now);
      return Some(keys[0]);
    }

    /** core/utils/storage.py: `delete_storage_keys`. */
    method DeleteKeys(keys: seq<string>)
      modifies this`objects
      ensures objects == Without(old(objects), set k | k in keys)
    {
      for i := 0 to |keys|
        invariant objects == Without(old(objects), set k | k in keys[..i])
      {
        assert keys[..i + 1] == keys[..i] + [keys[i]];
        objects := objects - {keys[i]};
      }
      assert keys[..|keys|] == keys;
    }

    /**
     * The reconciliation of audit_media.py at one moment: `missing` are the keys
     * of rows that are not stored, `unreferenced` the stored keys of no row, and
     * only those of known, sufficient age are deleted.
     */
    method Reconcile(deleteUnreferenced: bool, hours: int, now: Time)
      returns (missing: set<string>, unreferenced: set<string>, deleted: nat)
      modifies this`objects
      ensures missing == ReferencedBy(files) - old(objects).Keys
      ensures unreferenced == StoredImages(old(objects)) - ReferencedBy(files)
      ensures forall k :: k in missing <==>
                ((exists file, i | file in files && 0 <= i < 5 :: ImageStorageKeys(file)[i] == k) && k !in old(objects))
      ensures forall k :: k in unreferenced <==>
                (k in old(objects) && "private/images/" <= k
                 && forall file, i | file in files && 0 <= i < 5 :: ImageStorageKeys(file)[i] != k)
      ensures forall k :: k in objects <==>
                (k in old(objects)
                 && !(deleteUnreferenced && k in unreferenced && old(objects)[k].modified.Some?
                      && old(objects)[k].modified.value <= now - 3600 * (if hours > 1 then hours else 1)))
      ensures forall k | k in objects :: objects[k] == old(objects)[k]
      ensures var gone := if deleteUnreferenced then
                            Expired(old(objects), unreferenced, now - MediaProtocol.AgeOf(hours))
                          else {};
              objects == Without(old(objects), gone) && deleted == |gone|
    {
      var referenced;
      missing, referenced := ScanRows();
      unreferenced := StoredImages(objects) - referenced;
      deleted := 0;
      if deleteUnreferenced {
        deleted := DeleteExpired(unreferenced, now - MediaProtocol.AgeOf(hours));
      }
    }

    /** The loop over the rows: their keys, and those of them that are not stored. */
    method ScanRows() returns (missing: set<string>, referenced: set<string>)
      ensures referenced == ReferencedBy(files)
      ensures missing == referenced - objects.Keys
    {
      missing, referenced := {}, {};
      var left := files;
      ghost var seen: set<string> := {};
      while left != {}
        invariant seen == files - left && left <= files
        invariant referenced == ReferencedBy(seen) && missing == referenced - objects.Keys
        decreases |left|
      {
        var file :| file in left;
        var keys := ImageStorageKeys(file);
        ReferencedGrows(seen, file);
        left, seen := left - {file}, seen + {file};
        referenced := referenced + set k | k in keys;
        missing := missing + set k | k in keys && k !in objects;
      }
      assert seen == files;
    }

    method DeleteExpired(keys: set<string>, cutoff: Time) returns (deleted: nat)
      requires keys <= objects.Keys
      modifies this`objects
      ensures objects == Without(old(objects), Expired(old(objects), keys, cutoff))
      ensures deleted == |Expired(old(objects), keys, cutoff)|
    {
      deleted := 0;
      var left := keys;
      ghost var gone: set<string> := {};
      while left != {}
        invariant left <= keys && gone == Expired(old(objects), keys - left, cutoff)
        invariant objects == Without(old(objects), gone) && deleted == |gone|
        decreases |left|
      {
        var key :| key in left;
        left := left - {key};
        var modified := objects[key].modified;
        if modified.Some? && modified.value <= cutoff {
          objects := objects - {key};
          deleted := deleted + 1;
          gone := gone + {key};
        }
      }
      assert keys - left == keys;
    }
  }

  /** `set(walk_storage("private/images"))`: no other object, such as an export, is a candidate. */
  function StoredImages(objects: map<string, Object>): set<string> {
    set k | k in objects && PREFIX <= k
  }

  /** The keys of known age that are at least as old as the cutoff. */
  function Expired(objects: map<string, Object>, keys: set<string>, cutoff: Time): set<string> {
    set k | k in keys && k in objects && objects[k].modified.Some? && objects[k].modified.value <= cutoff
  }

  /** The five objects of an upload, under the names that its readers use. */
  ghost predicate StoredUnder(objects: map<string, Object>, root: string, contents: seq<Bytes>, now: Time)
    requires |contents| == 5
  {
    && root + ".webp" in objects && objects[root + ".webp"] == Object(contents[0], Some(now))
    && root + "_thumb.webp" in objects && objects[root + "_thumb.webp"] == Object(contents[1], Some(now))
    && root + "_sm.webp" in objects && objects[root + "_sm.webp"] == Object(contents[2], Some(now))
    && root + "_md.webp" in objects && objects[root + "_md.webp"] == Object(contents[3], Some(now))
    && root + "_lg.webp" in objects && objects[root + "_lg.webp"] == Object(contents[4], Some(now))
  }

  lemma UploadStores(objects: map<string, Object>, organization: nat, uuid: string, contents: seq<Bytes>, now: Time)
    requires IsUuid(uuid) && |contents| == 5 && forall k | k in UploadedKeys(organization, uuid) :: k !in objects
    ensures var after := Written(objects, UploadedKeys(organization, uuid), contents, now, 5);
            && StoredUnder(after, "private/images/" + Decimal.Text(organization) + "/" + uuid, contents, now)
            && (forall k | k in objects :: k in after && after[k] == objects[k])
            && after.Keys == objects.Keys + set k | k in UploadedKeys(organization, uuid)
  {
    var keys := UploadedKeys(organization, uuid);
    UploadedKeysDiffer(organization, uuid);
    assert keys[..5] == keys;
    forall k ensures var after := Written(objects, keys, contents, now, 5);
        && (k in after <==> k in objects || k in keys)
        && (k in objects ==> after[k] == objects[k])
        && (forall i | 0 <= i < 5 && keys[i] == k :: after[k] == Object(contents[i], Some(now)))
    {
      WrittenExactly(objects, keys, contents, now, 5, k);
    }
    var root := "private/images/" + Decimal.Text(organization) + "/" + uuid;
    assert keys[0] == root + ".webp" && keys[1] == root + "_thumb.webp" && keys[2] == root + "_sm.webp";
    assert keys[3] == root + "_md.webp" && keys[4] == root + "_lg.webp";
  }

  lemma ReferencedGrows(files: set<string>, file: string)
    ensures ReferencedBy(files + {file}) == ReferencedBy(files) + set k | k in ImageStorageKeys(file)
  {
    var keys := ImageStorageKeys(file);
    forall k | k in keys ensures k in ReferencedBy(files + {file}) {
      var i :| 0 <= i < |keys| && keys[i] == k;
      assert ImageStorageKeys(file)[i] == k;
    }
    forall k | k in ReferencedBy(files) ensures k in ReferencedBy(files + {file}) {
      var f, i :| f in files && 0 <= i < 5 && ImageStorageKeys(f)[i] == k;
      assert f in files + {file};
    }
  }

  /** Deleting what was written, when none of it was stored before, restores the store. */
  lemma CompensationUndoes(objects: map<string, Object>, keys: seq<string>, contents: seq<Bytes>, now: Time, n: nat)
    requires n <= |keys| == |contents|
    requires forall i, j | 0 <= i < |keys| && 0 <= j < |keys| && keys[i] == keys[j] :: i == j
    requires forall k | k in keys :: k !in objects
    ensures Without(Written(objects, keys, contents, now, n), set k | k in keys[..n]) == objects
  {
    var back := Without(Written(objects, keys, contents, now, n), set k | k in keys[..n]);
    forall key ensures (key in back <==> key in objects) && (key in objects ==> back[key] == objects[key]) {
      WrittenExactly(objects, keys, contents, now, n, key);
      assert key in keys[..n] ==> key in keys;
    }
  }

  /** An object left by the failing write is not among the keys that are deleted. */
  lemma CompensationMisses(objects: map<string, Object>, keys: seq<string>, contents: seq<Bytes>, now: Time, n: nat,
                           leftover: Object)
    requires n < |keys| == |contents|
    requires forall i, j | 0 <= i < |keys| && 0 <= j < |keys| && keys[i] == keys[j] :: i == j
    requires forall k | k in keys :: k !in objects
    ensures Without(Written(objects, keys, contents, now, n)[keys[n] := leftover], set k | k in keys[..n])
            == objects[keys[n] := leftover]
  {
    CompensationUndoes(objects, keys, contents, now, n);
    var written := Written(objects, keys, contents, now, n);
    var gone := set k | k in keys[..n];
    assert keys[n] !in keys[..n];
    assert Without(written[keys[n] := leftover], gone) == Without(written, gone)[keys[n] := leftover];
  }

  lemma NothingToDelete(objects: map<string, Object>, keys: seq<string>)
    requires forall k | k in keys :: k !in objects
    ensures Without(objects, set k | k in keys) == objects
  {}
}
