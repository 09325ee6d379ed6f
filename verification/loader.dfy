/**
 Turning a batch of dropped or picked files into the slideshow's entry list:
 keep the files whose MIME type starts with "image", in batch order, and give
 each a fresh object URL.
 */
module Loader {
  import opened Host

  /** A dropped or picked file; only its declared MIME type is consulted. */
  datatype File = File(name: string, mime: string)

  /** One slide: the file and the object URL the stage image is pointed at. */
  datatype Entry = Entry(file: File, url: Url)

  /** Whether the declared MIME type begins with the word "image". It is a
      plain prefix test, so "image/png" and "image" qualify and "text/image"
      does not. */
  predicate IsImage(f: File) {
    "image" <= f.mime
  }

  /** The image files of a batch, in batch order. */
  function ImageFiles(files: seq<File>): (r: seq<File>)
    ensures |r| <= |files|
    ensures forall f :: f in r <==> f in files && IsImage(f)
  {
    if |files| == 0 then []
    else (if IsImage(files[0]) then [files[0]] else []) + ImageFiles(files[1..])
  }

  /** Filtering distributes over concatenation: together with the one-file
      cases this pins down that order is kept and nothing is duplicated. */
  lemma {:induction false} ImageFilesAppend(a: seq<File>, b: seq<File>)
    ensures ImageFiles(a + b) == ImageFiles(a) + ImageFiles(b)
  {
    if |a| == 0 {
      assert a + b == b;
    } else {
      assert (a + b)[1..] == a[1..] + b;
      ImageFilesAppend(a[1..], b);
    }
  }

  /** A batch made only of images is kept whole. */
  lemma {:induction false} ImageFilesAllImages(files: seq<File>)
    requires forall i :: 0 <= i < |files| ==> IsImage(files[i])
    ensures ImageFiles(files) == files
  {
    if |files| > 0 {
      ImageFilesAllImages(files[1..]);
    }
  }

  /** A batch with no images yields no entries. */
  lemma {:induction false} ImageFilesNoImages(files: seq<File>)
    requires forall i :: 0 <= i < |files| ==> !IsImage(files[i])
    ensures ImageFiles(files) == []
  {
    if |files| > 0 {
      ImageFilesNoImages(files[1..]);
    }
  }

  /** No two entries share an object URL. */
  predicate DistinctUrls(entries: seq<Entry>) {
    forall i, j :: 0 <= i < j < |entries| ==> entries[i].url != entries[j].url
  }

  /** The object URLs the entries hold. */
  function UrlsOf(entries: seq<Entry>): set<Url> {
    set e | e in entries :: e.url
  }

  /** One entry per kept file, in order, each under a fresh object URL; the
      browser's URLs are drawn in order from the ids `next`, `next + 1`, .... */
  function Mint(files: seq<File>, next: Id): (r: seq<Entry>)
    ensures |r| == |files|
    ensures forall i :: 0 <= i < |r| ==> r[i].file == files[i]
    ensures forall i :: 0 <= i < |r| ==> next <= r[i].url.id < next + |files|
    ensures DistinctUrls(r)
  {
    if |files| == 0 then []
    else [Entry(files[0], Url(next))] + Mint(files[1..], next + 1)
  }
}
