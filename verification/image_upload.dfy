/** The product image control (components/admin/ProductImageUpload.tsx):
    file checks, the storage key, and the order of the storage and database
    steps when an image is uploaded or deleted. The file, the clock and the
    outcome of every backend call are inputs; each handler's effects are
    the list of calls it makes. */
module ImageUpload {
  import opened Wrappers
  import opened Strings

  const MaxBytes := 5 * 1024 * 1024
  const NotAnImage := "Please upload an image file"
  const TooLarge := "Image size must be less than 5MB"
  const UploadFailedFallback := "Failed to upload image"
  const DeleteFailedFallback := "Failed to delete image"

  /** The chosen file: name, MIME type and size in bytes. */
  datatype ImageFile = ImageFile(name: string, mimeType: string, size: int)

  /** How a backend call ended: fine, or with an error whose `message` may
      be missing or empty. */
  datatype CallResult = Done | Failed(message: Option<string>)

  /** A call the control makes, in order. `Notify` is `onImageUpdated`. */
  datatype Call =
    | Upload(key: string)
    | SetImageUrl(productId: string, url: Option<string>)
    | Remove(key: string)
    | Notify(url: Option<string>)

  /** What a handler did: its calls and the error it left shown. */
  datatype Effect = Effect(calls: seq<Call>, error: Option<string>)

  /** `err.message || fallback`. */
  function FailureText(message: Option<string>, fallback: string): string {
    OrElse(message, fallback)
  }

  // ---------------------------------------------------------------------
  // File checks and keys
  // ---------------------------------------------------------------------

  /** The two checks, type first: the error, or `None` for an acceptable
      file. */
  function CheckFile(f: ImageFile): (error: Option<string>)
    ensures !StartsWith(f.mimeType, "image/") ==> error == Some(NotAnImage)
    ensures StartsWith(f.mimeType, "image/") && f.size > MaxBytes ==> error == Some(TooLarge)
    ensures error.None? <==> StartsWith(f.mimeType, "image/") && f.size <= MaxBytes
  {
    if !StartsWith(f.mimeType, "image/") then Some(NotAnImage)
    else if f.size > MaxBytes then Some(TooLarge)
    else None
  }

  /** The limit is inclusive: exactly 5 MiB passes, one byte more does
      not; and a file that fails both checks is reported as not an image. */
  lemma SizeBoundary(name: string, mimeType: string)
    requires StartsWith(mimeType, "image/")
    ensures CheckFile(ImageFile(name, mimeType, 5242880)).None?
    ensures CheckFile(ImageFile(name, mimeType, 5242881)) == Some(TooLarge)
    ensures CheckFile(ImageFile(name, "text/plain", 5242881)) == Some(NotAnImage)
  {
    assert "text/plain"[0] != "image/"[0];
  }

  /** `file.name.split('.').pop()`: after the last dot, or the whole name. */
  function Extension(name: string): (ext: string)
    ensures '.' !in ext
    ensures '.' !in name ==> ext == name
    ensures |ext| <= |name| && ext == name[|name| - |ext|..]
    ensures |ext| < |name| ==> name[|name| - |ext| - 1] == '.'
  {
    AfterLast(name, '.')
  }

  /** `${productId}-${Date.now()}.${fileExt}`. */
  function StorageKey(productId: string, now: int, name: string): (key: string) {
    productId + "-" + IntToDecimal(now) + "." + Extension(name)
  }

  /** `currentImageUrl.split('/').pop()`. */
  function OldKey(url: string): (key: string)
    ensures '/' !in key
    ensures |key| <= |url| && key == url[|url| - |key|..]
  {
    AfterLast(url, '/')
  }

  /** The key's extension reads back as the file's extension. */
  lemma KeyKeepsExtension(productId: string, now: int, name: string)
    ensures Extension(StorageKey(productId, now, name)) == Extension(name)
  {
    var ext := Extension(name);
    assert StorageKey(productId, now, name) == (productId + "-" + IntToDecimal(now)) + ['.'] + ext;
    AfterLastSuffix(productId + "-" + IntToDecimal(now), '.', ext);
  }

  /** When the public URL ends in `/` and the key, a later replace or
      delete removes exactly the object this upload stored, provided
      neither the product id nor the file name holds a `/`. */
  lemma StoredKeyReadsBack(base: string, productId: string, now: int, name: string)
    requires '/' !in productId && '/' !in name
    ensures OldKey(base + "/" + StorageKey(productId, now, name)) == StorageKey(productId, now, name)
  {
    var key := StorageKey(productId, now, name);
    KeyHasNoSlash(productId, now, name);
    assert base + "/" + key == base + ['/'] + key;
    AfterLastSuffix(base, '/', key);
  }

  /** A key built from a product id and a file name without `/` holds
      none. */
  lemma KeyHasNoSlash(productId: string, now: int, name: string)
    requires '/' !in productId && '/' !in name
    ensures forall i :: 0 <= i < |StorageKey(productId, now, name)| ==> StorageKey(productId, now, name)[i] != '/'
  {
    var d := IntToDecimal(now);
    assert '/' !in d by {
      if now >= 0 {
        assert AllDigits(d);
      } else {
        var m := NatToDecimal(-now);
        assert AllDigits(m) && d == "-" + m;
      }
    }
    var ext := Extension(name);
    assert '/' !in ext by {
      assert forall i :: 0 <= i < |ext| ==> ext[i] == name[|name| - |ext| + i];
    }
    var key := StorageKey(productId, now, name);
    assert key == productId + "-" + d + "." + ext;
    assert '/' !in key;
  }

  // ---------------------------------------------------------------------
  // Upload
  // ---------------------------------------------------------------------

  /** The calls after the upload succeeds: the row update, then (only when
      it succeeds) the old image's removal and the notice. The removal's
      own outcome is not checked. */
  function AfterUpload(productId: string, currentUrl: Option<string>, publicUrl: string,
                       update: CallResult): (e: Effect)
    ensures |e.calls| >= 1 && e.calls[0] == SetImageUrl(productId, Some(publicUrl))
    ensures update.Failed? ==> e == Effect([SetImageUrl(productId, Some(publicUrl))], Some(FailureText(update.message, UploadFailedFallback)))
    ensures update.Done? ==> e.error.None? && e.calls[|e.calls| - 1] == Notify(Some(publicUrl))
  {
    var setUrl := SetImageUrl(productId, Some(publicUrl));
    match update
    case Failed(message) => Effect([setUrl], Some(FailureText(message, UploadFailedFallback)))
    case Done =>
      var removal := if Truthy(currentUrl) && OldKey(currentUrl.value) != "" then [Remove(OldKey(currentUrl.value))] else [];
      Effect([setUrl] + removal + [Notify(Some(publicUrl))], None)
  }

  /** After the upload, the notice is sent exactly when the row update
      succeeds. */
  lemma AfterUploadNotifies(productId: string, currentUrl: Option<string>, publicUrl: string,
                            update: CallResult)
    ensures Notify(Some(publicUrl)) in AfterUpload(productId, currentUrl, publicUrl, update).calls <==> update.Done?
  {
    var e := AfterUpload(productId, currentUrl, publicUrl, update);
    if update.Done? {
      assert e.calls[|e.calls| - 1] == Notify(Some(publicUrl));
    }
  }

  /** `handleFileUpload`. `file` is the first chosen file, if any;
      `error` is the error shown before; `upload` and `update` are the
      outcomes of the storage upload and the row update; `publicUrl` is
      what storage reports for the key. */
  function HandleFileUpload(file: Option<ImageFile>, productId: string, currentUrl: Option<string>,
                            now: int, error: Option<string>, upload: CallResult, publicUrl: string,
                            update: CallResult): (e: Effect)
    // no file: nothing happens
    ensures file.None? ==> e == Effect([], error)
    // a rejected file: nothing is uploaded
    ensures file.Some? && CheckFile(file.value).Some? ==> e == Effect([], CheckFile(file.value))
    // an accepted file is uploaded first, under its key
    ensures file.Some? && CheckFile(file.value).None? ==>
      |e.calls| >= 1 && e.calls[0] == Upload(StorageKey(productId, now, file.value.name))
    ensures file.Some? && CheckFile(file.value).None? && upload.Failed? ==>
      e.calls == [Upload(StorageKey(productId, now, file.value.name))]
      && e.error == Some(FailureText(upload.message, UploadFailedFallback))
    ensures file.Some? && CheckFile(file.value).None? && upload.Done? ==>
      e == Effect([Upload(StorageKey(productId, now, file.value.name))] + AfterUpload(productId, currentUrl, publicUrl, update).calls,
                  AfterUpload(productId, currentUrl, publicUrl, update).error)
    // any call besides the upload comes after an accepted, uploaded file
    ensures forall k :: 0 <= k < |e.calls| && !e.calls[k].Upload? ==>
      file.Some? && CheckFile(file.value).None? && upload.Done? && 1 <= k
  {
    match file
    case None => Effect([], error)
    case Some(f) =>
      match CheckFile(f)
      case Some(msg) => Effect([], Some(msg))
      case None =>
        var put := Upload(StorageKey(productId, now, f.name));
        match upload
        case Failed(message) => Effect([put], Some(FailureText(message, UploadFailedFallback)))
        case Done =>
          var rest := AfterUpload(productId, currentUrl, publicUrl, update);
          Effect([put] + rest.calls, rest.error)
  }

  /** After the upload, a removal can only follow a successful row
      update, directly. */
  lemma AfterUploadRemoval(productId: string, currentUrl: Option<string>, publicUrl: string,
                           update: CallResult, rest: Effect, calls: seq<Call>)
    requires rest == AfterUpload(productId, currentUrl, publicUrl, update)
    requires |calls| >= 1 && calls[1..] == rest.calls
    ensures forall i :: 1 <= i < |calls| && calls[i].Remove? ==>
      update.Done? && i == 2 && calls[i - 1] == SetImageUrl(productId, Some(publicUrl))
  {
    forall i | 1 <= i < |calls| && calls[i].Remove?
      ensures update.Done? && i == 2 && calls[i - 1] == SetImageUrl(productId, Some(publicUrl))
    {
      assert rest.calls[i - 1] == calls[i];
      assert rest.calls[0] == calls[1];
    }
  }

  /** The old image is removed only after the row points at the new one:
      every removal comes straight after a successful row update. */
  lemma RemovalFollowsUpdate(file: Option<ImageFile>, productId: string, currentUrl: Option<string>,
                             now: int, error: Option<string>, upload: CallResult, publicUrl: string,
                             update: CallResult, e: Effect)
    requires e == HandleFileUpload(file, productId, currentUrl, now, error, upload, publicUrl, update)
    ensures forall i :: 0 <= i < |e.calls| && e.calls[i].Remove? ==>
      update.Done? && upload.Done? && 0 < i && e.calls[i - 1] == SetImageUrl(productId, Some(publicUrl))
  {
    forall i | 0 <= i < |e.calls| && e.calls[i].Remove?
      ensures update.Done? && upload.Done? && 0 < i && e.calls[i - 1] == SetImageUrl(productId, Some(publicUrl))
    {
      assert !e.calls[i].Upload?;
      AfterUploadRemoval(productId, currentUrl, publicUrl, update,
                         AfterUpload(productId, currentUrl, publicUrl, update), e.calls);
    }
  }

  /** The parent hears of the new image exactly when the upload and the
      row update both succeed, and then last. */
  lemma UploadNotifiesOnSuccess(f: ImageFile, productId: string, currentUrl: Option<string>,
                                now: int, error: Option<string>, upload: CallResult, publicUrl: string,
                                update: CallResult, e: Effect)
    requires e == HandleFileUpload(Some(f), productId, currentUrl, now, error, upload, publicUrl, update)
    ensures Notify(Some(publicUrl)) in e.calls <==> CheckFile(f).None? && upload.Done? && update.Done?
  {
    if CheckFile(f).None? && upload.Done? {
      var rest := AfterUpload(productId, currentUrl, publicUrl, update);
      assert e.calls == [Upload(StorageKey(productId, now, f.name))] + rest.calls;
      AfterUploadNotifies(productId, currentUrl, publicUrl, update);
    }
  }

  // ---------------------------------------------------------------------
  // Delete
  // ---------------------------------------------------------------------

  /** `handleDeleteImage`. `confirmed` is the answer to the confirmation
      dialog; `removal` and `update` are the outcomes of the storage removal
      and the row update. */
  function HandleDeleteImage(productId: string, currentUrl: Option<string>, confirmed: bool,
                             error: Option<string>, removal: CallResult, update: CallResult): (e: Effect)
    // nothing to delete, or not confirmed: nothing happens
    ensures !Truthy(currentUrl) || !confirmed ==> e == Effect([], error)
    // storage first: a failed removal stops before the row is touched
    ensures Truthy(currentUrl) && confirmed && OldKey(currentUrl.value) != "" ==>
      |e.calls| > 0 && e.calls[0] == Remove(OldKey(currentUrl.value))
    ensures Truthy(currentUrl) && confirmed && OldKey(currentUrl.value) != "" && removal.Failed? ==>
      e == Effect([Remove(OldKey(currentUrl.value))], Some(FailureText(removal.message, DeleteFailedFallback)))
    // the parent hears of it only when every step succeeded
    ensures Notify(None) in e.calls <==>
      Truthy(currentUrl) && confirmed && (OldKey(currentUrl.value) == "" || removal.Done?) && update.Done?
  {
    if !Truthy(currentUrl) || !confirmed then Effect([], error)
    else
      var key := OldKey(currentUrl.value);
      var clear := SetImageUrl(productId, None);
      var removeCalls := if key != "" then [Remove(key)] else [];
      if key != "" && removal.Failed? then
        Effect(removeCalls, Some(FailureText(removal.message, DeleteFailedFallback)))
      else match update
        case Failed(message) => Effect(removeCalls + [clear], Some(FailureText(message, DeleteFailedFallback)))
        case Done => Effect(removeCalls + [clear, Notify(None)], None)
  }

  /** The row keeps its URL whenever the storage removal fails. */
  lemma FailedRemovalKeepsRow(productId: string, url: string, error: Option<string>, message: Option<string>, update: CallResult)
    requires url != "" && OldKey(url) != ""
    ensures SetImageUrl(productId, None) !in HandleDeleteImage(productId, Some(url), true, error, Failed(message), update).calls
  {
  }
}
