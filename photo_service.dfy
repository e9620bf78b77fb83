/**
 * src/services/photoService.js: picks a wedding photo from data/pictures.
 * The directory listing is an input (`None` when `readdirSync` throws) and
 * `Math.random()` is the argument `random`, a number in [0, 1).
 */
module PhotoService {
  import opened Wrappers
  import opened JsString

  /** Stands for the absolute `photosDir` the service computes from its own location. */
  const PhotosDir: string := "data/pictures"

  const ImageExtensions: seq<string> := [".jpg", ".jpeg", ".png"]
  const NoPhotoMessage: string := "無法獲取照片。\nUnable to get wedding photo."

  /** The position of the last '.' in `s`. */
  function LastDot(s: string): (d: Option<nat>)
    ensures d.Some? ==> d.value < |s| && s[d.value] == '.'
    ensures d.Some? ==> forall j :: d.value < j < |s| ==> s[j] != '.'
    ensures d.None? ==> forall j :: 0 <= j < |s| ==> s[j] != '.'
  {
    if s == [] then None
    else if s[|s| - 1] == '.' then Some(|s| - 1)
    else LastDot(s[..|s| - 1])
  }

  /**
   * `path.extname` of a directory entry: from the last '.' to the end, except
   * that a name without a dot, a name whose only dot-free prefix is empty
   * ('.bashrc') and the name '..' have no extension.
   */
  function ExtName(name: string): (ext: string)
    ensures EndsWith(name, ext)
    ensures ext != [] ==> ext[0] == '.' && |ext| < |name|
    ensures forall j :: 0 < j < |ext| ==> ext[j] != '.'
    ensures ext == [] <==> LastDot(name).None? || LastDot(name) == Some(0) || name == ".."
  {
    match LastDot(name)
    case None => []
    case Some(d) => if d == 0 || name == ".." then [] else name[d..]
  }

  /** `path.parse(fileName).name`: the file name without its final extension. */
  function Title(fileName: string): (title: string)
    ensures title + ExtName(fileName) == fileName
  {
    fileName[..|fileName| - |ExtName(fileName)|]
  }

  /** The filter of `getAllPhotos`: the lower-cased extension is '.jpg', '.jpeg' or '.png'. */
  predicate IsPhotoFile(name: string)
    ensures IsPhotoFile(name) ==> |ExtName(name)| in {4, 5} && |ExtName(name)| < |name|
  {
    AsciiLower(ExtName(name)) in ImageExtensions
  }

  /** `getAllPhotos`: the image files of the listing, in listing order; none when the directory cannot be read. */
  function AllPhotos(listing: Option<seq<string>>): (photos: seq<string>)
    ensures listing.None? ==> photos == []
    ensures forall k :: 0 <= k < |photos| ==> IsPhotoFile(photos[k])
    ensures listing.Some? ==> forall k :: 0 <= k < |photos| ==> photos[k] in listing.value
  {
    if listing.None? then [] else Filter(IsPhotoFile, listing.value)
  }

  /** Every image file of the listing is offered, in listing order. */
  lemma AllPhotosExact(listing: seq<string>, name: string)
    ensures name in AllPhotos(Some(listing)) <==> name in listing && IsPhotoFile(name)
  {
    if name in listing && IsPhotoFile(name) {
      FilterKeeps(IsPhotoFile, listing, name);
    }
  }

  /** One directory entry is offered exactly when it is an image file. */
  lemma AllPhotosSingle(f: string)
    ensures AllPhotos(Some([f])) == if IsPhotoFile(f) then [f] else []
  {
    assert [f][1..] == [];
  }

  /** Each entry is judged on its own: the photos of a concatenated listing are those of its parts, in order. */
  lemma AllPhotosAppend(a: seq<string>, b: seq<string>)
    ensures AllPhotos(Some(a + b)) == AllPhotos(Some(a)) + AllPhotos(Some(b))
  {
    FilterAppend(IsPhotoFile, a, b);
  }

  /** `Math.floor(Math.random() * n)`. */
  function RandomIndex(random: real, n: nat): (i: nat)
    requires 0.0 <= random < 1.0 && n > 0
    ensures i < n
  {
    var x := random * n as real;
    assert 0.0 <= x < n as real;
    x.Floor
  }

  /** No photo is out of reach: for each index some value of `Math.random()` picks it. */
  lemma EveryIndexReachable(n: nat, i: nat)
    requires i < n
    ensures 0.0 <= i as real / n as real < 1.0
    ensures RandomIndex(i as real / n as real, n) == i
  {
    var r := i as real / n as real;
    assert r * n as real == i as real;
  }

  /** `getRandomPhotoPath`: null exactly when there is no photo, else the directory joined with a randomly chosen photo. */
  function RandomPhotoPath(listing: Option<seq<string>>, random: real): (path: Option<string>)
    requires 0.0 <= random < 1.0
    ensures path.None? <==> AllPhotos(listing) == []
    ensures path.Some? ==> exists k :: 0 <= k < |AllPhotos(listing)| && path.value == PhotosDir + "/" + AllPhotos(listing)[k]
  {
    var photos := AllPhotos(listing);
    if photos == [] then None
    else
      var k := RandomIndex(random, |photos|);
      Some(PhotosDir + "/" + photos[k])
  }

  /**
   * The object `getRandomPhoto` returns. `url` is never set by this service;
   * it is here because the caller in index.js tests for it.
   */
  datatype PhotoResult =
    | PhotoFailure(message: string)
    | PhotoSuccess(path: string, fileName: string, title: string, message: string, url: Option<string>)

  function PhotoMessage(title: string): string {
    "婚紗照片: " + title + "\nWedding Photo: " + title
  }

  /**
   * `getRandomPhoto`: fails with the fixed message when there is no photo;
   * otherwise reports the chosen photo's path, its file name, the file name
   * without its extension as title, and a message naming the title in both
   * languages. No state is kept between calls.
   */
  function RandomPhoto(listing: Option<seq<string>>, random: real): (r: PhotoResult)
    requires 0.0 <= random < 1.0
    ensures r.PhotoFailure? <==> AllPhotos(listing) == []
    ensures r.PhotoFailure? ==> r.message == NoPhotoMessage
    ensures r.PhotoSuccess? ==>
              && r.fileName == AllPhotos(listing)[RandomIndex(random, |AllPhotos(listing)|)]
              && r.path == PhotosDir + "/" + r.fileName
              && r.title + ExtName(r.fileName) == r.fileName
              && AsciiLower(ExtName(r.fileName)) in ImageExtensions
              && r.message == PhotoMessage(r.title)
              && r.url.None?
  {
    var photos := AllPhotos(listing);
    if photos == [] then PhotoFailure(NoPhotoMessage)
    else
      var fileName := photos[RandomIndex(random, |photos|)];
      var title := Title(fileName);
      PhotoSuccess(PhotosDir + "/" + fileName, fileName, title, PhotoMessage(title), None)
  }

  /** A photo's title is its file name with an extension of four or five characters cut off. */
  lemma PhotoTitleLength(listing: Option<seq<string>>, random: real)
    requires 0.0 <= random < 1.0
    requires RandomPhoto(listing, random).PhotoSuccess?
    ensures var r := RandomPhoto(listing, random);
            |r.fileName| - |r.title| in {4, 5} && |r.title| >= 1
  {
    var r := RandomPhoto(listing, random);
    var ext := ExtName(r.fileName);
    assert |AsciiLower(ext)| == |ext|;
    assert |r.title| + |ext| == |r.fileName|;
  }

  /** A listing with one picture does yield it: the success case is reachable. */
  lemma OnePhotoListing()
    ensures IsPhotoFile("a.jpg")
    ensures RandomPhoto(Some(["a.jpg"]), 0.0).PhotoSuccess?
    ensures RandomPhoto(Some(["a.jpg"]), 0.0).fileName == "a.jpg"
  {
    var name := "a.jpg";
    assert name[1] == '.' && forall j :: 0 <= j < |name| && j != 1 ==> name[j] != '.';
    assert LastDot(name) == Some(1);
    assert ExtName(name) == ".jpg";
    assert AsciiLower(".jpg") == ".jpg";
    assert IsPhotoFile(name);
    assert Filter(IsPhotoFile, [name]) == [name] by {
      assert [name][1..] == [];
    }
  }
}
