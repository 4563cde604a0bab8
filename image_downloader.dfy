/**
 * Copies a recipe's images into the local uploads directory under
 * content-addressed names, keeping the ones that could be fetched and
 * converted.
 */
module ImageDownloader {
  import opened Wrappers
  import opened Platform
  import opened RecipeSchema
  import opened Lists

  /** Where an image was saved, and where it came from. */
  datatype DownloadedImage = DownloadedImage(originalUrl: string, localPath: string, alt: Option<string>)

  const UploadsPrefix: string := "/uploads/"
  const DefaultExtension: string := ".jpg"

  /** `path.extname(new URL(url).pathname) || '.jpg'` */
  function Extension(url: string, world: World): (ext: string)
    ensures ext != ""
    ensures world.parseUrl(url).Some? && world.extname(world.parseUrl(url).value.pathname) != "" ==>
              ext == world.extname(world.parseUrl(url).value.pathname)
    ensures world.parseUrl(url).Some? && world.extname(world.parseUrl(url).value.pathname) == "" ==>
              ext == DefaultExtension
  {
    match world.parseUrl(url)
    case Some(u) => if world.extname(u.pathname) != "" then world.extname(u.pathname) else DefaultExtension
    case None => DefaultExtension
  }

  /** The public path of the saved file: the MD5 of the source URL, then its extension. */
  function LocalPath(url: string, world: World): (path: string)
    ensures path == UploadsPrefix + world.md5Hex(url) + Extension(url, world)
    ensures |path| > |UploadsPrefix| && path[..|UploadsPrefix|] == UploadsPrefix
  {
    UploadsPrefix + world.md5Hex(url) + Extension(url, world)
  }

  /**
   * Content addressing: two URLs whose digests differ (digests all have one
   * length, as hex MD5 digests do) are saved under different paths, and the
   * digest can be read back from the path.
   */
  lemma LocalPathsDistinct(a: string, b: string, world: World)
    requires |world.md5Hex(a)| == |world.md5Hex(b)|
    ensures LocalPath(a, world)[|UploadsPrefix|..|UploadsPrefix| + |world.md5Hex(a)|] == world.md5Hex(a)
    ensures world.md5Hex(a) != world.md5Hex(b) ==> LocalPath(a, world) != LocalPath(b, world)
  {
    var n := |UploadsPrefix|;
    var pa, pb := LocalPath(a, world), LocalPath(b, world);
    assert pa[n..n + |world.md5Hex(a)|] == world.md5Hex(a);
    assert pb[n..n + |world.md5Hex(b)|] == world.md5Hex(b);
  }

  /** The download, resize and write all succeed and the URL parses. */
  predicate Downloads(url: string, world: World) {
    world.saveImage(url) && world.parseUrl(url).Some?
  }

  /** The entry recorded for an image saved at its local path. */
  function SavedImage(img: Image, index: nat, world: World): DownloadedImage {
    DownloadedImage(img.url, LocalPath(img.url, world), img.alt)
  }

  /** `downloadImage(url, alt)`: any failure on the way is caught and gives null. */
  function DownloadImage(url: string, alt: Option<string>, world: World): (r: Option<DownloadedImage>)
    ensures r.Some? <==> Downloads(url, world)
    ensures r.Some? ==> r.value.originalUrl == url && r.value.alt == alt
    ensures r.Some? ==> r.value.localPath == UploadsPrefix + world.md5Hex(url) + Extension(url, world)
  {
    if Downloads(url, world) then Some(DownloadedImage(url, LocalPath(url, world), alt)) else None
  }

  /**
   * `downloadImages(images)`: every image is attempted, and the ones that
   * succeed are kept in their original order.
   */
  function DownloadImages(images: seq<Image>, world: World): (r: seq<DownloadedImage>)
    ensures |r| <= |images|
  {
    FilterMap(images, (img: Image) => Downloads(img.url, world), (img: Image, i: nat) => SavedImage(img, i, world))
  }

  /**
   * The k-th saved image is the download of the k-th image that could be
   * saved, and every image that could be saved is among them.
   */
  lemma DownloadImagesInOrder(images: seq<Image>, world: World)
    ensures var saved := Positions(images, (img: Image) => Downloads(img.url, world));
      && |DownloadImages(images, world)| == |saved|
      && (forall k :: 0 <= k < |saved| ==>
            Some(DownloadImages(images, world)[k]) == DownloadImage(images[saved[k]].url, images[saved[k]].alt, world))
      && (forall i :: 0 <= i < |images| && Downloads(images[i].url, world) ==> i in saved)
  {
    FilterMapAtPositions(images, (img: Image) => Downloads(img.url, world), (img: Image, i: nat) => SavedImage(img, i, world));
    PositionsComplete(images, (img: Image) => Downloads(img.url, world));
  }

  /** When every image can be saved, every image comes back, in order. */
  lemma AllImagesDownloaded(images: seq<Image>, world: World)
    requires forall i :: 0 <= i < |images| ==> Downloads(images[i].url, world)
    ensures |DownloadImages(images, world)| == |images|
    ensures forall i :: 0 <= i < |images| ==> DownloadImages(images, world)[i].originalUrl == images[i].url
  {
    DownloadImagesInOrder(images, world);
    PositionsOfAll(images, (img: Image) => Downloads(img.url, world));
  }
}
