// The image storage service of the menu site
// (src/services/firebase/storageService.ts): the object paths of category
// and item images, the checks made before an upload, and the object path
// that deleteImage reads out of a download URL. The bucket is a set of
// object paths; each SDK call ends with an Outcome given as a parameter, and
// the clock reading Date.now() is a parameter.

module StorageService {
  import opened Types
  import opened Text
  import opened Uri

  /** The fields of a browser File that the service reads. */
  datatype File = File(name: string, mimeType: string, size: nat)

  /** 10 MiB, in bytes. */
  const MaxImageSize: nat := 10 * 1024 * 1024

  const NotAnImage: string := "File must be an image"
  const TooLarge: string := "Image size must be less than 10MB"
  const BadStorageUrl: string := "Invalid storage URL format"
  /** The storage SDK's error code for a delete aimed at a missing object. */
  const ObjectNotFound: string := "storage/object-not-found"

  const DownloadHost: string := "firebasestorage.googleapis.com"

  /** The checks uploadImage makes before any upload: the type must start
      with "image/", and the size must not exceed 10 MiB. */
  function ValidateImage(f: File): (r: Option<string>)
    ensures r.None? <==> "image/" <= f.mimeType && f.size <= MaxImageSize
    ensures !("image/" <= f.mimeType) ==> r == Some(NotAnImage)
    ensures "image/" <= f.mimeType && f.size > MaxImageSize ==> r == Some(TooLarge)
  {
    if !("image/" <= f.mimeType) then Some(NotAnImage)
    else if f.size > MaxImageSize then Some(TooLarge)
    else None
  }

  /** A file of exactly 10 MiB is accepted. */
  lemma TenMebibytesAccepted(name: string, mimeType: string)
    requires "image/" <= mimeType
    ensures ValidateImage(File(name, mimeType, 10485760)).None?
  {
  }

  /** `fileName.split('.').pop()` */
  function Extension(fileName: string): string
  {
    LastSegment(fileName, '.')
  }

  /** `${prefix}${id}/${timestamp}.${extension}` */
  function ImagePath(prefix: string, id: string, fileName: string, now: nat): string
  {
    prefix + id + "/" + NatToString(now) + "." + Extension(fileName)
  }

  /** getCategoryImagePath */
  function CategoryImagePath(categoryId: string, fileName: string, now: nat): string
  {
    ImagePath("categories/", categoryId, fileName, now)
  }

  /** getItemImagePath */
  function ItemImagePath(itemId: string, fileName: string, now: nat): string
  {
    ImagePath("items/", itemId, fileName, now)
  }

  /** The stored object keeps the extension of the uploaded file. */
  lemma ImagePathExtension(prefix: string, id: string, fileName: string, now: nat)
    ensures LastSegment(ImagePath(prefix, id, fileName, now), '.') == Extension(fileName)
  {
    var front := prefix + id + "/" + NatToString(now);
    assert ImagePath(prefix, id, fileName, now) == front + ['.'] + Extension(fileName);
    LastSegmentShape(fileName, '.');
    LastSegmentAfter(front, '.', Extension(fileName));
  }

  /** Two uploads of the same file for the same document at different
      clock readings get different paths. */
  lemma ImagePathsDiffer(prefix: string, id: string, fileName: string, t1: nat, t2: nat)
    requires t1 != t2
    ensures ImagePath(prefix, id, fileName, t1) != ImagePath(prefix, id, fileName, t2)
  {
    var a := prefix + id + "/";
    var e := "." + Extension(fileName);
    var n1, n2 := NatToString(t1), NatToString(t2);
    assert ImagePath(prefix, id, fileName, t1) == a + n1 + e;
    assert ImagePath(prefix, id, fileName, t2) == a + n2 + e;
    if a + n1 + e == a + n2 + e {
      assert |n1| == |n2|;
      assert n1 == (a + n1 + e)[|a|..|a| + |n1|];
      assert n2 == (a + n2 + e)[|a|..|a| + |n2|];
      NatToStringInjective(t1, t2);
    }
  }

  /** A category image path is never an item image path. */
  lemma CategoryPathIsNotItemPath(categoryId: string, f: string, t: nat, itemId: string, g: string, u: nat)
    ensures CategoryImagePath(categoryId, f, t) != ItemImagePath(itemId, g, u)
  {
    assert CategoryImagePath(categoryId, f, t)[0] == 'c';
    assert ItemImagePath(itemId, g, u)[0] == 'i';
  }

  /** The download URL the bucket hands out for an object: the path is
      written with encodeURIComponent. */
  function DownloadUrl(bucket: string, path: string): string
  {
    "https://" + DownloadHost + DownloadPath(bucket, path) + "?alt=media"
  }

  /** The pathname of a download URL. */
  function DownloadPath(bucket: string, path: string): string
  {
    "/v0/b/" + bucket + "/o/" + Encode(path)
  }

  /** The object path deleteImage derives from a URL: the pathname, its
      part after the first "/o/", every "%2F" turned into '/', then decoded. */
  function ExtractObjectPath(url: string): (r: Result<string>)
    ensures r.Err? ==> r.message == InvalidUrl || r.message == BadStorageUrl || r.message == UriMalformed
  {
    var pathname := Pathname(url);
    if pathname.Err? then Err(pathname.message)
    else
      var m := ObjectPathMatch(pathname.value);
      if m.None? then Err(BadStorageUrl)
      else Decode(ReplaceEncodedSlashes(m.value))
  }

  /** A bucket name as the storage service has it: no '/', '?' or '#', and
      not the one name ("o") that would put a "/o/" before the object path. */
  predicate ValidBucket(bucket: string)
  {
    bucket != [] && '/' !in bucket && '?' !in bucket && '#' !in bucket && bucket != "o"
  }

  /** The pathname of download URL holds no '?' or '#'. */
  lemma DownloadPathPlain(bucket: string, path: string)
    requires ValidBucket(bucket)
    ensures forall k :: 0 <= k < |DownloadPath(bucket, path)| ==> DownloadPath(bucket, path)[k] !in {'?', '#'}
  {
    var e := Encode(path);
    EncodeEncoded(path);
    var front := "/v0/b/" + bucket + "/o/";
    var pn := DownloadPath(bucket, path);
    assert pn == front + e;
    forall k | 0 <= k < |front|
      ensures front[k] != '?' && front[k] != '#'
    {
      if 6 <= k < 6 + |bucket| {
        assert front[k] == bucket[k - 6] && bucket[k - 6] in bucket;
      }
    }
    forall k | 0 <= k < |pn|
      ensures pn[k] !in {'?', '#'}
    {
      if k < |front| {
        assert pn[k] == front[k];
      } else {
        assert pn[k] == e[k - |front|] && Encoded(e[k - |front|]);
      }
    }
  }

  lemma DownloadUrlShape(bucket: string, path: string)
    ensures DownloadUrl(bucket, path) == "https" + "://" + (DownloadHost + DownloadPath(bucket, path) + "?alt=media")
  {
  }

  lemma HttpsScheme()
    ensures IsScheme("https") && forall j :: 0 <= j < 5 ==> "https"[j] != ':'
  {
  }

  lemma DownloadHostPlain()
    ensures DownloadHost != [] && forall k :: 0 <= k < |DownloadHost| ==> DownloadHost[k] !in {'/', '?', '#'}
  {
  }

  /** The pathname of scheme://rest. */
  lemma PathnameOf(scheme: string, rest: string)
    requires IsScheme(scheme) && forall j :: 0 <= j < |scheme| ==> scheme[j] != ':'
    ensures Pathname(scheme + "://" + rest) == AuthorityPath(rest)
  {
    var url := scheme + "://" + rest;
    var n := |scheme|;
    assert url == scheme + ("://" + rest);
    FirstOfAfter(scheme, "://" + rest, {':'});
    assert url[..n] == scheme;
    assert url[n + 1..n + 3] == "//";
    assert url[n + 3..] == rest;
  }

  /** The pathname of host + path + query. */
  lemma AuthorityPathOf(host: string, pn: string, query: string)
    requires host != [] && forall k :: 0 <= k < |host| ==> host[k] !in {'/', '?', '#'}
    requires pn != [] && pn[0] == '/' && forall k :: 0 <= k < |pn| ==> pn[k] !in {'?', '#'}
    requires query != [] && query[0] == '?'
    ensures AuthorityPath(host + pn + query) == Ok(pn)
  {
    var rest := host + pn + query;
    assert rest == host + (pn + query);
    FirstOfAfter(host, pn + query, {'/', '?', '#'});
    var tail := rest[|host|..];
    assert tail == pn + query;
    FirstOfAfter(pn, query, {'?', '#'});
    assert tail[..|pn|] == pn;
  }

  /** The pathname of a download URL. */
  lemma DownloadUrlPathname(bucket: string, path: string)
    requires ValidBucket(bucket)
    ensures Pathname(DownloadUrl(bucket, path)) == Ok(DownloadPath(bucket, path))
  {
    var pn := DownloadPath(bucket, path);
    DownloadUrlShape(bucket, path);
    HttpsScheme();
    PathnameOf("https", DownloadHost + pn + "?alt=media");
    DownloadHostPlain();
    DownloadPathPlain(bucket, path);
    AuthorityPathOf(DownloadHost, pn, "?alt=media");
  }

  /** No "/o/" starts inside "/v0/b/" and the bucket name: a bucket holds
      no '/', and a one-letter bucket is not "o". */
  lemma NoMatchInBucket(bucket: string, e: string)
    requires ValidBucket(bucket) && e != []
    ensures forall j :: 0 <= j < 6 + |bucket| ==> !MatchesAt("/v0/b/" + bucket + "/o/" + e, j)
  {
    var p := "/v0/b/" + bucket + "/o/" + e;
    forall j | 0 <= j < 6 + |bucket|
      ensures !MatchesAt(p, j)
    {
      var w := p[j..j + 3];
      assert w[0] == p[j] && w[1] == p[j + 1] && w[2] == p[j + 2];
      if 6 <= j {
        assert p[j] == bucket[j - 6] && bucket[j - 6] in bucket;
      } else if j == 5 {
        if |bucket| >= 2 {
          assert p[7] == bucket[1] && bucket[1] in bucket;
        } else {
          assert bucket == [bucket[0]] && p[6] == bucket[0];
        }
      }
    }
  }

  /** The leftmost "/o/" of a download URL's pathname is the one before the
      object path. */
  lemma DownloadPathMatch(bucket: string, e: string)
    requires ValidBucket(bucket) && e != []
    requires forall k :: 0 <= k < |e| ==> Encoded(e[k])
    ensures ObjectPathMatch("/v0/b/" + bucket + "/o/" + e) == Some(e)
  {
    var p := "/v0/b/" + bucket + "/o/" + e;
    var i0 := 6 + |bucket|;
    assert p[i0..i0 + 3] == "/o/";
    assert p[i0 + 3] == e[0];
    assert MatchesAt(p, i0);
    NoMatchInBucket(bucket, e);
    MatchFromShape(p, 0);
    assert MatchFrom(p, 0) == Some(i0);
    assert p[i0 + 3..] == e;
    FirstOfAfter(e, [], {'\n', '\r', '\U{2028}', '\U{2029}'});
    assert e + [] == e;
  }

  /** deleteImage finds the object a download URL names. */
  lemma {:induction false} ExtractDownloadUrl(bucket: string, path: string)
    requires ValidBucket(bucket) && path != []
    ensures ExtractObjectPath(DownloadUrl(bucket, path)) == Ok(path)
  {
    DownloadUrlPathname(bucket, path);
    EncodeEncoded(path);
    DownloadPathMatch(bucket, Encode(path));
    DecodeReplacedEncode(path);
  }

  /** The storage bucket: the paths of the objects it holds. */
  class Bucket {
    const name: string
    var objects: set<string>

    constructor (name: string, objects: set<string>)
      ensures this.name == name && this.objects == objects
    {
      this.name := name;
      this.objects := objects;
    }

    /** uploadImage: refuses a file that fails the checks before touching
        the bucket; otherwise stores the object (`upload`) and asks for its
        download URL (`getUrl`). */
    method UploadImage(file: File, path: string, upload: Outcome, getUrl: Outcome) returns (r: Result<string>)
      modifies this
      ensures ValidateImage(file).Some? ==> r == Err(ValidateImage(file).value) && objects == old(objects)
      ensures ValidateImage(file).None? && upload.Failed? ==> r == Err(upload.message) && objects == old(objects)
      ensures ValidateImage(file).None? && upload.Done? ==> objects == old(objects) + {path}
      ensures ValidateImage(file).None? && upload.Done? && getUrl.Failed? ==> r == Err(getUrl.message)
      ensures r.Ok? <==> ValidateImage(file).None? && upload.Done? && getUrl.Done?
      ensures r.Ok? ==> r.value == DownloadUrl(name, path)
    {
      if !("image/" <= file.mimeType) {
        return Err(NotAnImage);
      }
      if file.size > MaxImageSize {
        return Err(TooLarge);
      }
      if upload.Failed? {
        return Err(upload.message);
      }
      objects := objects + {path};
      if getUrl.Failed? {
        return Err(getUrl.message);
      }
      return Ok(DownloadUrl(name, path));
    }

    /** deleteImage: removes the object whose path the URL names, in this
        bucket whatever bucket the URL mentions. */
    method DeleteImage(url: string, outcome: Outcome) returns (r: Result<()>)
      modifies this
      ensures ExtractObjectPath(url).Err? ==> r == Err(ExtractObjectPath(url).message)
      ensures ExtractObjectPath(url).Ok? && outcome.Failed? ==> r == Err(outcome.message)
      ensures ExtractObjectPath(url).Ok? && outcome.Done? && ExtractObjectPath(url).value !in old(objects)
        ==> r == Err(ObjectNotFound)
      ensures r.Ok? <==> ExtractObjectPath(url).Ok? && outcome.Done? && ExtractObjectPath(url).value in old(objects)
      ensures r.Ok? ==> objects == old(objects) - {ExtractObjectPath(url).value}
      ensures r.Err? ==> objects == old(objects)
    {
      var path := ExtractObjectPath(url);
      if path.Err? {
        return Err(path.message);
      }
      if outcome.Failed? {
        return Err(outcome.message);
      }
      if path.value !in objects {
        return Err(ObjectNotFound);
      }
      objects := objects - {path.value};
      return Ok(());
    }
  }

  /** An image uploaded and then deleted through its download URL is gone. */
  method UploadThenDelete(b: Bucket, file: File, path: string)
    requires ValidBucket(b.name) && path != [] && ValidateImage(file).None?
    modifies b
    ensures path !in b.objects
  {
    var url := b.UploadImage(file, path, Done, Done);
    ExtractDownloadUrl(b.name, path);
    var _ := b.DeleteImage(url.value, Done);
  }
}
