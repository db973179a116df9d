/** The standalone tool's disk loader (src/cameras.rs): the readable
    entries of a directory, sorted, handed out one at a time. */
module RootCameras {
  import opened Wrappers
  import opened ImgProc
  import opened Cameras

  /** The order `PathBuf::cmp` gives to the entries of one directory. They
      all share the directory as prefix and differ in a file name with no
      separator, so comparing components is comparing the texts
      lexicographically. */
  predicate LexLe(a: string, b: string)
    decreases |a|
  {
    |a| == 0 || (|b| > 0 && (a[0] < b[0] || (a[0] == b[0] && LexLe(a[1..], b[1..]))))
  }

  lemma {:induction false} LexLeTotal(a: string, b: string)
    ensures LexLe(a, b) || LexLe(b, a)
    decreases |a|
  {
    if |a| > 0 && |b| > 0 && a[0] == b[0] {
      LexLeTotal(a[1..], b[1..]);
    }
  }

  lemma {:induction false} LexLeTrans(a: string, b: string, c: string)
    requires LexLe(a, b) && LexLe(b, c)
    ensures LexLe(a, c)
    decreases |a|
  {
    if |a| > 0 && a[0] == b[0] && b[0] == c[0] {
      LexLeTrans(a[1..], b[1..], c[1..]);
    }
  }

  lemma {:induction false} LexLeAntisymmetric(a: string, b: string)
    requires LexLe(a, b) && LexLe(b, a)
    ensures a == b
    decreases |a|
  {
    if |a| > 0 {
      LexLeAntisymmetric(a[1..], b[1..]);
      assert a == [a[0]] + a[1..] && b == [b[0]] + b[1..];
    }
  }

  predicate Sorted(s: seq<Path>) {
    forall i, j :: 0 <= i < j < |s| ==> LexLe(s[i], s[j])
  }

  /** `files.sort()`: sorts the paths in place, ascending. */
  method SortPaths(a: array<Path>)
    modifies a
    ensures Sorted(a[..])
    ensures multiset(a[..]) == multiset(old(a[..]))
  {
    var i := 0;
    while i < a.Length
      invariant 0 <= i <= a.Length
      invariant forall p, q :: 0 <= p < q < i ==> LexLe(a[p], a[q])
      invariant multiset(a[..]) == multiset(old(a[..]))
    {
      InsertLast(a, i);
      i := i + 1;
    }
  }

  /** One step of insertion sort: with a[..i] sorted, moves a[i] left past
      every larger path, leaving a[..i+1] sorted. */
  method InsertLast(a: array<Path>, i: nat)
    requires i < a.Length
    requires forall p, q :: 0 <= p < q < i ==> LexLe(a[p], a[q])
    modifies a
    ensures forall p, q :: 0 <= p < q <= i ==> LexLe(a[p], a[q])
    ensures multiset(a[..]) == multiset(old(a[..]))
  {
    var j := i;
    while j > 0 && !LexLe(a[j - 1], a[j])
      invariant 0 <= j <= i
      invariant forall p, q :: 0 <= p < q <= i && p != j && q != j ==> LexLe(a[p], a[q])
      invariant forall q :: j < q <= i ==> LexLe(a[j], a[q])
      invariant multiset(a[..]) == multiset(old(a[..]))
    {
      LexLeTotal(a[j - 1], a[j]);
      a[j - 1], a[j] := a[j], a[j - 1];
      j := j - 1;
    }
    if j > 0 {
      forall p | 0 <= p < j - 1
        ensures LexLe(a[p], a[j])
      {
        LexLeTrans(a[p], a[j - 1], a[j]);
      }
    }
  }

  class DiskLoaderCamera {
    /** The image files, in the order they will be handed out. */
    const paths: seq<Path>
    /** How many of them `get_image` has handed out. */
    var cursor: nat
    /** Reading and decoding an image file, which is not modelled. */
    const decode: Path -> GrayImage

    ghost predicate Valid()
      reads this
    {
      cursor <= |paths|
    }

    /** `DiskLoaderCamera::new`: hands out exactly the given paths, in the
        given order. */
    constructor (images: seq<Path>, decode: Path -> GrayImage)
      ensures Valid()
      ensures paths == images && this.decode == decode && cursor == 0
    {
      paths := images;
      this.decode := decode;
      cursor := 0;
    }

    /** `DiskLoaderCamera::from_directory`: the readable entries of the
        listing, sorted ascending; a failing `read_dir` is returned. */
    static method FromDirectory(dir: ReadDir, decode: Path -> GrayImage) returns (r: Result<DiskLoaderCamera, string>)
      ensures dir.ReadDirFailed? ==> r == Err(dir.error)
      ensures dir.Listing? ==> r.Ok? && fresh(r.value) && r.value.Valid() && r.value.cursor == 0
                               && r.value.decode == decode
                               && Sorted(r.value.paths)
                               && multiset(r.value.paths) == multiset(ReadablePaths(dir.entries))
    {
      if dir.ReadDirFailed? {
        return Err(dir.error);
      }
      var readable := ReadablePaths(dir.entries);
      var files := new Path[|readable|](i requires 0 <= i < |readable| => readable[i]);
      assert files[..] == readable;
      SortPaths(files);
      var camera := new DiskLoaderCamera(files[..], decode);
      return Ok(camera);
    }

    /** `get_image`: the next image, or nothing once every path has been
        handed out, and nothing again on every later call. */
    method GetImage() returns (r: Option<GrayImage>)
      requires Valid()
      modifies this
      ensures Valid()
      ensures old(cursor) < |paths| ==> r == Some(decode(paths[old(cursor)])) && cursor == old(cursor) + 1
      ensures old(cursor) == |paths| ==> r == None && cursor == old(cursor)
    {
      if cursor < |paths| {
        r := Some(decode(paths[cursor]));
        cursor := cursor + 1;
      } else {
        r := None;
      }
    }
  }

  /** n successive `get_image` calls on a camera that has handed out c
      images: the k-th returns the image of path c+k while there is one,
      and nothing after that; on a new camera, exactly the first |paths|
      calls return an image, each path's image once and in order. */
  method GetImages(camera: DiskLoaderCamera, n: nat) returns (images: seq<Option<GrayImage>>)
    requires camera.Valid()
    modifies camera
    ensures camera.Valid()
    ensures |images| == n
    ensures forall k :: 0 <= k < n ==>
              (images[k].Some? <==> old(camera.cursor) + k < |camera.paths|)
    ensures forall k :: 0 <= k < n && old(camera.cursor) + k < |camera.paths| ==>
              images[k] == Some(camera.decode(camera.paths[old(camera.cursor) + k]))
  {
    images := [];
    while |images| < n
      invariant |images| <= n
      invariant camera.Valid()
      invariant camera.cursor == if old(camera.cursor) + |images| < |camera.paths|
                                 then old(camera.cursor) + |images| else |camera.paths|
      invariant forall k :: 0 <= k < |images| ==>
                  (images[k].Some? <==> old(camera.cursor) + k < |camera.paths|)
      invariant forall k :: 0 <= k < |images| && old(camera.cursor) + k < |camera.paths| ==>
                  images[k] == Some(camera.decode(camera.paths[old(camera.cursor) + k]))
    {
      var image := camera.GetImage();
      images := images + [image];
    }
  }
}
