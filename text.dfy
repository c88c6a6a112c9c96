/**
 * String rules: the substring test behind the client search, and the
 * names under which uploaded images are stored.
 */
module Text {
  import opened Wrappers

  /** `needle` occurs in `hay` starting at position `i`. */
  predicate OccursAt(hay: string, needle: string, i: nat)
  {
    i <= |hay| && needle <= hay[i..]
  }

  /** The substring test that `LIKE '%term%'` performs (case-sensitive here). */
  function Contains(hay: string, needle: string): (b: bool)
    ensures b ==> |needle| <= |hay|
    ensures needle <= hay ==> b
    decreases |hay|
  {
    if needle <= hay then true
    else if hay == [] then false
    else Contains(hay[1..], needle)
  }

  /** `Contains` holds exactly when the needle occurs at some position. */
  lemma {:induction false} ContainsIff(hay: string, needle: string)
    ensures Contains(hay, needle) <==> exists i: nat :: OccursAt(hay, needle, i)
    decreases |hay|
  {
    if needle <= hay {
      assert hay[0..] == hay;
      assert OccursAt(hay, needle, 0);
    } else if hay == [] {
    } else {
      ContainsIff(hay[1..], needle);
      forall i: nat ensures OccursAt(hay[1..], needle, i) <==> OccursAt(hay, needle, i + 1) {
        if i <= |hay[1..]| {
          assert hay[1..][i..] == hay[i + 1..];
        }
      }
      if exists i: nat :: OccursAt(hay, needle, i) {
        var i: nat :| OccursAt(hay, needle, i);
        assert i != 0 by { assert hay[0..] == hay; }
        assert OccursAt(hay[1..], needle, i - 1);
      }
    }
  }

  /** The empty search term occurs in every string. */
  lemma ContainsEmpty(hay: string)
    ensures Contains(hay, "")
  {
  }

  /** One character of a file stem: space to '_', ASCII upper case to lower case. */
  function SlugChar(c: char): char
  {
    if c == ' ' then '_'
    else if 'A' <= c <= 'Z' then (c as int + 32) as char
    else c
  }

  /** `name.replace(' ', '_').lower()` */
  function Slug(name: string): (s: string)
    ensures |s| == |name|
    ensures forall i :: 0 <= i < |s| ==> s[i] != ' ' && !('A' <= s[i] <= 'Z')
  {
    if name == [] then [] else [SlugChar(name[0])] + Slug(name[1..])
  }

  /** Each position of the stem is the converted character of the name. */
  lemma {:induction false} SlugAt(name: string, i: nat)
    requires i < |name|
    ensures Slug(name)[i] == SlugChar(name[i])
  {
    if i > 0 {
      SlugAt(name[1..], i - 1);
    }
  }

  /** Converting a stem again changes nothing. */
  lemma {:induction false} SlugIdempotent(name: string)
    ensures Slug(Slug(name)) == Slug(name)
  {
    if name != [] {
      SlugIdempotent(name[1..]);
      assert SlugChar(SlugChar(name[0])) == SlugChar(name[0]);
      assert Slug(name)[1..] == Slug(name[1..]);
    }
  }

  /** The position of the first '/' in `s`. */
  function FirstSlash(s: string): (k: Option<nat>)
    ensures k.None? <==> '/' !in s
    ensures k.Some? ==> k.value < |s| && s[k.value] == '/' && '/' !in s[..k.value]
  {
    if s == [] then None
    else if s[0] == '/' then Some(0)
    else
      match FirstSlash(s[1..])
      case None => None
      case Some(j) =>
        assert s[..j + 1] == [s[0]] + s[1..][..j];
        Some(j + 1)
  }

  /** `s.split('/')[0]`: the longest prefix of the text without a '/'. */
  function UpToSlash(s: string): (t: string)
    ensures '/' !in t && t <= s
    ensures '/' !in s ==> t == s
    ensures '/' in s ==> |t| < |s| && s[|t|] == '/'
  {
    match FirstSlash(s)
    case None => s
    case Some(j) => s[..j]
  }

  /**
   * `mime.split('/')[1]`: the text between the first and the second '/'.
   * None when the type has no '/', where the source raises IndexError.
   */
  function MimeSubtype(mime: string): (r: Option<string>)
    ensures r.None? <==> '/' !in mime
    ensures r.Some? ==> '/' !in r.value
  {
    match FirstSlash(mime)
    case None => None
    case Some(k) => Some(UpToSlash(mime[k + 1..]))
  }

  /** The subtype of "top/sub" is "sub", as for "image/png" and "image/jpeg". */
  lemma MimeSubtypeOfPair(top: string, sub: string)
    requires '/' !in top && '/' !in sub
    ensures MimeSubtype(top + "/" + sub) == Some(sub)
  {
    var m := top + "/" + sub;
    assert m[|top|] == '/';
    var k := FirstSlash(m).value;
    assert k == |top|;
    assert m[k + 1..] == sub;
  }

  /** The stored path of one upload: "<dir>/<stem>.<subtype>". */
  function ImagePath(dir: string, name: string, mime: string): (p: Option<string>)
    ensures p.None? <==> '/' !in mime
    ensures p.Some? ==> dir + "/" + Slug(name) + "." <= p.value
  {
    match MimeSubtype(mime)
    case None => None
    case Some(ext) => Some(dir + "/" + Slug(name) + "." + ext)
  }

  /** An upload typed "top/sub" is stored as "<dir>/<stem of name>.sub"; a type without '/' gives no path. */
  lemma ImagePathOfUpload(dir: string, name: string, top: string, sub: string)
    requires '/' !in top && '/' !in sub
    ensures ImagePath(dir, name, top + "/" + sub) == Some(dir + "/" + Slug(name) + "." + sub)
    ensures forall mime :: '/' !in mime ==> ImagePath(dir, name, mime) == None
  {
    MimeSubtypeOfPair(top, sub);
  }

  /** The path of one product upload: "product_images/<name>_<file name>". */
  function ProductImagePath(name: string, fileName: string): string
  {
    "product_images/" + name + "_" + fileName
  }

  /** The product image list for a sequence of uploads, in upload order. */
  function ProductImageList(name: string, fileNames: seq<string>): (paths: seq<string>)
  {
    seq(|fileNames|, k requires 0 <= k < |fileNames| => ProductImagePath(name, fileNames[k]))
  }

  /** The loop that names each upload and appends its path. */
  method ProductImagePaths(name: string, fileNames: seq<string>) returns (paths: seq<string>)
    ensures |paths| == |fileNames|
    ensures forall k :: 0 <= k < |fileNames| ==> paths[k] == ProductImagePath(name, fileNames[k])
    ensures paths == ProductImageList(name, fileNames)
  {
    paths := [];
    var i := 0;
    while i < |fileNames|
      invariant 0 <= i <= |fileNames|
      invariant |paths| == i
      invariant forall k :: 0 <= k < i ==> paths[k] == ProductImagePath(name, fileNames[k])
    {
      paths := paths + [ProductImagePath(name, fileNames[i])];
      i := i + 1;
    }
  }
}
