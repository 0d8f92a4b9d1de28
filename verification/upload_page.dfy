/**
 * The admin upload page: picking and removing files, the sequential upload
 * loop (each file goes to the media host, then its row to the table the
 * file's kind and the upload mode choose), the table an edit or delete
 * goes to, the view-mode filters and the media-host URL rewrite for
 * thumbnails. The media host and the store are given as one outcome per
 * file; the rows the page writes are recorded in the page object.
 */
module UploadPage {
  import opened Common

  // ---------------------------------------------------------------------------
  // Thumbnail URL rewrite

  const UploadSegment: string := "/upload/"
  const Transformation: string := "w_600,q_auto,f_auto/"

  /**
   * `url.replace("/upload/", "/upload/w_600,q_auto,f_auto/")`: a string
   * pattern replaces its first occurrence only, which amounts to inserting
   * the transformation right after the first "/upload/".
   */
  function OptimizeUrl(url: string): (r: string)
    ensures IndexOf(url, UploadSegment).None? ==> r == url
    ensures !Contains(url, UploadSegment) ==> r == url
    ensures IndexOf(url, UploadSegment).Some? ==>
      var at := IndexOf(url, UploadSegment).value + |UploadSegment|;
      && at <= |url|
      && r == url[..at] + Transformation + url[at..]
    ensures |r| == |url| + (if Contains(url, UploadSegment) then |Transformation| else 0)
  {
    match IndexOf(url, UploadSegment)
    case None => url
    case Some(i) =>
      var rest := url[i + |UploadSegment|..];
      assert url[..i + |UploadSegment|] == url[..i] + UploadSegment;
      assert OccursAt(url, UploadSegment, i);
      url[..i] + UploadSegment + Transformation + rest
  }

  /**
   * The rewrite is not idempotent: rewriting an already rewritten URL
   * inserts the transformation a second time.
   */
  lemma OptimizeUrlNotIdempotent(url: string)
    requires Contains(url, UploadSegment)
    ensures OptimizeUrl(OptimizeUrl(url)) != OptimizeUrl(url)
    ensures |OptimizeUrl(OptimizeUrl(url))| == |url| + 2 * |Transformation|
  {
    var i :| 0 <= i <= |url| - |UploadSegment| && OccursAt(url, UploadSegment, i);
    var once := OptimizeUrl(url);
    var j := IndexOf(url, UploadSegment).value;
    assert OccursAt(once, UploadSegment, j) by {
      assert once[j..j + |UploadSegment|] == url[j..j + |UploadSegment|];
    }
  }

  /** A URL without "/upload/" is left as it is, and so is everything before the first one. */
  lemma OptimizeUrlKeepsPrefix(url: string)
    ensures !Contains(url, UploadSegment) ==> OptimizeUrl(url) == url
    ensures Contains(url, UploadSegment) ==>
      var i := IndexOf(url, UploadSegment).value;
      && StartsWith(OptimizeUrl(url), url[..i] + UploadSegment)
      && forall j :: 0 <= j < i ==> !OccursAt(url, UploadSegment, j)
  {
    if Contains(url, UploadSegment) {
      var k :| 0 <= k <= |url| - |UploadSegment| && OccursAt(url, UploadSegment, k);
      var i := IndexOf(url, UploadSegment).value;
      assert url[..i] + UploadSegment == url[..i + |UploadSegment|];
    }
  }

  // ---------------------------------------------------------------------------
  // The file list

  /** A picked file: its name and its MIME type. */
  datatype File = File(name: string, mimeType: string)

  /** `handleFiles`: a null selection changes nothing; otherwise the picked files go after the current ones. */
  function HandleFiles(files: seq<File>, selected: Option<seq<File>>): (r: seq<File>)
    ensures selected.None? ==> r == files
    ensures selected.Some? ==> |r| == |files| + |selected.value| && r[..|files|] == files && r[|files|..] == selected.value
  {
    if selected.None? then files else files + selected.value
  }

  /** `prev.filter((_, i) => i !== index)`, walking the list with the position counted down. */
  function RemoveFile(files: seq<File>, index: int): seq<File>
  {
    if files == [] then []
    else (if index == 0 then [] else [files[0]]) + RemoveFile(files[1..], index - 1)
  }

  /** Removing a position drops exactly that file and keeps the order of the others; an out-of-range position drops nothing. */
  lemma {:induction false} RemoveFileSpec(files: seq<File>, index: int)
    ensures 0 <= index < |files| ==> RemoveFile(files, index) == files[..index] + files[index + 1..]
    ensures !(0 <= index < |files|) ==> RemoveFile(files, index) == files
  {
    if files != [] {
      RemoveFileSpec(files[1..], index - 1);
      if 0 < index < |files| {
        assert [files[0]] + files[1..][..index - 1] == files[..index];
        assert files[1..][index - 1 + 1..] == files[index + 1..];
      } else if index == 0 {
        assert files[1..] == files[index + 1..];
      } else {
        assert [files[0]] + files[1..] == files;
      }
    }
  }

  // ---------------------------------------------------------------------------
  // Routing

  datatype UploadType = Gallery | ServiceUpload

  /** `file.type.startsWith("video/")` */
  predicate IsVideo(f: File) {
    StartsWith(f.mimeType, "video/")
  }

  /** The media host's upload path for a file. */
  function Endpoint(f: File): (e: string)
    ensures e == "video/upload" <==> IsVideo(f)
    ensures e == "image/upload" <==> !IsVideo(f)
  {
    if IsVideo(f) then "video/upload" else "image/upload"
  }

  /** The row written for an uploaded file. */
  datatype Row =
    | VideoRow(title: string, videoUrl: string, serviceTitle: string)
    | PhotoRow(title: string, imageUrl: string, isActive: bool)
    | ServiceImageRow(serviceTitle: string, imageUrl: string)

  datatype Insert = Insert(table: string, row: Row)

  /** The table and row for a file the host stored at `url`. */
  function Route(f: File, uploadType: UploadType, title: string, selectedService: string, url: string): (ins: Insert)
    ensures IsVideo(f) ==> ins == Insert("videos", VideoRow(title, url, selectedService))
    ensures !IsVideo(f) && uploadType.Gallery? ==> ins == Insert("photos", PhotoRow(title, url, true))
    ensures !IsVideo(f) && uploadType.ServiceUpload? ==> ins == Insert("service_images", ServiceImageRow(selectedService, url))
    ensures ins.table == "videos" <==> ins.row.VideoRow?
  {
    if IsVideo(f) then Insert("videos", VideoRow(title, url, selectedService))
    else if uploadType.Gallery? then Insert("photos", PhotoRow(title, url, true))
    else Insert("service_images", ServiceImageRow(selectedService, url))
  }

  /** The guard in front of the upload loop. */
  predicate Refused(files: seq<File>, uploadType: UploadType, title: string, selectedService: string) {
    || |files| == 0
    || (uploadType.Gallery? && title == "")
    || (uploadType.ServiceUpload? && selectedService == "")
  }

  // ---------------------------------------------------------------------------
  // The upload loop

  /**
   * What happened to one file: the `secure_url` the host answered with
   * (None when the call threw or the answer had none), and whether the
   * insert of its row reported an error.
   */
  datatype FileOutcome = FileOutcome(secureUrl: Option<string>, insertFails: bool)

  predicate Succeeds(o: FileOutcome) {
    Truthy(o.secureUrl) && !o.insertFails
  }

  /** The number of leading files that went through before the first failure. */
  function Completed(outcomes: seq<FileOutcome>): (k: nat)
    ensures k <= |outcomes|
    ensures forall j :: 0 <= j < k ==> Succeeds(outcomes[j])
    ensures k < |outcomes| ==> !Succeeds(outcomes[k])
  {
    if outcomes == [] || !Succeeds(outcomes[0]) then 0
    else 1 + Completed(outcomes[1..])
  }

  /** The rows written for the first `k` files. */
  function Inserted(files: seq<File>, outcomes: seq<FileOutcome>, k: nat,
                    uploadType: UploadType, title: string, selectedService: string): (rows: seq<Insert>)
    requires k <= |files| && k <= |outcomes|
    requires forall j :: 0 <= j < k ==> Succeeds(outcomes[j])
    ensures |rows| == k
  {
    seq(k, j requires 0 <= j < k =>
      assert Succeeds(outcomes[j]);
      Route(files[j], uploadType, title, selectedService, outcomes[j].secureUrl.value))
  }

  datatype UploadResult = RefusedInput | AllUploaded | FailedAt(index: nat)

  class UploadForm {
    var uploadType: UploadType
    var title: string
    var files: seq<File>
    var selectedService: string
    var loading: bool
    /** The rows the page has written to the store, oldest first. */
    var written: seq<Insert>

    constructor()
      ensures uploadType.Gallery? && title == "" && files == [] && selectedService == ""
      ensures !loading && written == []
    {
      uploadType := Gallery;
      title := "";
      files := [];
      selectedService := "";
      loading := false;
      written := [];
    }

    /**
     * `handleUpload`. Refused input makes no call and changes nothing.
     * Otherwise the files are sent in order; the first one whose upload or
     * insert fails stops the loop, the rows written before it stay written,
     * and the title and file list are cleared only when every file went
     * through. `loading` ends false.
     */
    method HandleUpload(outcomes: seq<FileOutcome>) returns (result: UploadResult)
      requires |outcomes| == |files|
      modifies this
      ensures uploadType == old(uploadType) && selectedService == old(selectedService)
      ensures Refused(old(files), uploadType, old(title), selectedService) ==>
        && result == RefusedInput
        && files == old(files) && title == old(title) && written == old(written) && loading == old(loading)
      ensures !Refused(old(files), uploadType, old(title), selectedService) ==>
        var k := Completed(outcomes);
        && !loading
        && written == old(written) + Inserted(old(files), outcomes, k, uploadType, old(title), selectedService)
        && (k == |outcomes| ==> result == AllUploaded && files == [] && title == "")
        && (k < |outcomes| ==> result == FailedAt(k) && files == old(files) && title == old(title))
    {
      if Refused(files, uploadType, title, selectedService) {
        return RefusedInput;
      }
      loading := true;
      ghost var start := written;
      var i := 0;
      result := AllUploaded;
      while i < |files|
        invariant 0 <= i <= |files| == |outcomes|
        invariant files == old(files) && title == old(title)
        invariant uploadType == old(uploadType) && selectedService == old(selectedService)
        invariant forall j :: 0 <= j < i ==> Succeeds(outcomes[j])
        invariant written == start + Inserted(files, outcomes, i, uploadType, title, selectedService)
        invariant result == AllUploaded
      {
        var o := outcomes[i];
        if !Truthy(o.secureUrl) {
          result := FailedAt(i);
          break;
        }
        var ins := Route(files[i], uploadType, title, selectedService, o.secureUrl.value);
        if o.insertFails {
          result := FailedAt(i);
          break;
        }
        written := written + [ins];
        assert Inserted(files, outcomes, i + 1, uploadType, title, selectedService)
          == Inserted(files, outcomes, i, uploadType, title, selectedService) + [ins];
        i := i + 1;
      }
      CompletedIsFirstFailure(outcomes, i);
      if result == AllUploaded {
        title := "";
        files := [];
      }
      loading := false;
    }
  }

  /** `Completed` is the position of the first failure, or the length when there is none. */
  lemma CompletedIsFirstFailure(outcomes: seq<FileOutcome>, i: nat)
    requires i <= |outcomes|
    requires forall j :: 0 <= j < i ==> Succeeds(outcomes[j])
    requires i < |outcomes| ==> !Succeeds(outcomes[i])
    ensures Completed(outcomes) == i
  {
  }

  // ---------------------------------------------------------------------------
  // Edit and delete

  /** A listed photo, service image or video. */
  datatype MediaItem = MediaItem(id: string, title: Option<string>, serviceTitle: Option<string>, videoUrl: Option<string>)

  /** The table an edit or delete of `item` goes to. */
  function ItemTable(item: MediaItem, uploadType: UploadType): (t: string)
    ensures t == "videos" <==> Truthy(item.videoUrl)
    ensures t == "photos" <==> !Truthy(item.videoUrl) && uploadType.Gallery?
    ensures t == "service_images" <==> !Truthy(item.videoUrl) && uploadType.ServiceUpload?
  {
    if Truthy(item.videoUrl) then "videos"
    else if uploadType.Gallery? then "photos"
    else "service_images"
  }

  /** The fields an edit sends; an absent field is not part of the update. */
  datatype Patch = Patch(title: Option<string>, serviceTitle: Option<string>)

  /**
   * The update of `handleEdit`: the title for videos and gallery photos,
   * the service title for videos and service images.
   */
  function EditPatch(item: MediaItem, uploadType: UploadType, editTitle: string, editService: string): (p: Patch)
    ensures p.title.Some? <==> Truthy(item.videoUrl) || uploadType.Gallery?
    ensures p.serviceTitle.Some? <==> Truthy(item.videoUrl) || uploadType.ServiceUpload?
    ensures p.title.Some? ==> p.title.value == editTitle
    ensures p.serviceTitle.Some? ==> p.serviceTitle.value == editService
    // every edit sends at least one field, and a video both
    ensures p.title.Some? || p.serviceTitle.Some?
    ensures ItemTable(item, uploadType) == "videos" ==> p.title.Some? && p.serviceTitle.Some?
  {
    Patch(if Truthy(item.videoUrl) || uploadType.Gallery? then Some(editTitle) else None,
          if uploadType.ServiceUpload? || Truthy(item.videoUrl) then Some(editService) else None)
  }

  /** The edit fields `openModal` fills in: the item's title and service title, or "". */
  function OpenModalFields(item: MediaItem): (fields: (string, string))
    ensures fields.0 == (if Truthy(item.title) then item.title.value else "")
    ensures fields.1 == (if Truthy(item.serviceTitle) then item.serviceTitle.value else "")
  {
    (if Truthy(item.title) then item.title.value else "",
     if Truthy(item.serviceTitle) then item.serviceTitle.value else "")
  }

  // ---------------------------------------------------------------------------
  // View filters

  datatype ViewMode = All | Images | Videos

  /** `displayedImages`: the rewritten image URLs, or none in the videos-only view. */
  function DisplayedImages(mode: ViewMode, imageUrls: seq<string>): (r: seq<string>)
    ensures r != [] ==> mode.All? || mode.Images?
    ensures !mode.Videos? ==> |r| == |imageUrls| && forall k :: 0 <= k < |r| ==> r[k] == OptimizeUrl(imageUrls[k])
  {
    if mode.All? || mode.Images? then seq(|imageUrls|, k requires 0 <= k < |imageUrls| => OptimizeUrl(imageUrls[k]))
    else []
  }

  /** `displayedVideos`: the videos, or none in the images-only view. */
  function DisplayedVideos<V>(mode: ViewMode, videos: seq<V>): (r: seq<V>)
    ensures r != [] ==> mode.All? || mode.Videos?
    ensures !mode.Images? ==> r == videos
  {
    if mode.All? || mode.Videos? then videos else []
  }

  /** The table the image list is read from. */
  function ImagesTable(uploadType: UploadType): (t: string)
    ensures t == "photos" <==> uploadType.Gallery?
    ensures t == "service_images" <==> uploadType.ServiceUpload?
  {
    if uploadType.Gallery? then "photos" else "service_images"
  }

  /** The service titles loaded by `fetchServices` and the selection they imply. */
  function ServicesLoaded(titles: seq<string>, selected: string): (r: (seq<string>, string))
    ensures r.0 == titles
    ensures titles != [] ==> r.1 == titles[0]
    ensures titles == [] ==> r.1 == selected
  {
    (titles, if |titles| > 0 then titles[0] else selected)
  }
}
