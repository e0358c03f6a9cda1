/**
 * The photo upload endpoint (`app/api/upload/route.ts`): `POST` checks the session, the files and
 * the category, uploads the files one by one into the `photos` bucket (removing what it already
 * uploaded when a later upload fails), then inserts one photo record per file; `DELETE` removes
 * the stored file before the record.
 */
module UploadRoute {
  import opened Wrappers
  import opened Text
  import ObjectId
  import opened Account
  import opened AuthActions
  import opened PhotoActions
  import opened Files
  import opened Sorting

  const ALLOWED_FILE_TYPES: seq<string> := IMAGE_TYPES
  const MAX_FILE_SIZE: nat := 50 * MB
  const MAX_FILES: nat := 5

  const COUNT_MESSAGE: string := "Please select 1-5 photos"
  const TYPE_MESSAGE: string := "Only JPEG, PNG, or WebP images are allowed"
  /** The size message still says 10MB although the limit is 50MB. */
  const SIZE_MESSAGE: string := "Image size must be less than 10MB"

  predicate Acceptable(f: FileInfo) {
    f.mime in ALLOWED_FILE_TYPES && f.size <= MAX_FILE_SIZE
  }

  /** The index of the first file that is not acceptable, or the length when all are. */
  function FirstRejected(files: seq<FileInfo>): (k: nat)
    ensures k <= |files|
    ensures forall j :: 0 <= j < k ==> Acceptable(files[j])
    ensures k < |files| ==> !Acceptable(files[k])
  {
    if files == [] || !Acceptable(files[0]) then 0 else 1 + FirstRejected(files[1..])
  }

  datatype Validation = Valid | Invalid(message: string)

  /** What `validatePhotos` decides: the count first, then the first file's type before its size. */
  function Validate(files: seq<FileInfo>): (v: Validation)
    ensures v == Valid <==> 1 <= |files| <= MAX_FILES && forall i :: 0 <= i < |files| ==> Acceptable(files[i])
    ensures |files| == 0 || |files| > MAX_FILES ==> v == Invalid(COUNT_MESSAGE)
    ensures 1 <= |files| <= MAX_FILES && v.Invalid? ==>
      var k := FirstRejected(files);
      k < |files| && v.message == (if files[k].mime !in ALLOWED_FILE_TYPES then TYPE_MESSAGE else SIZE_MESSAGE)
  {
    if |files| == 0 || |files| > MAX_FILES then Invalid(COUNT_MESSAGE)
    else
      var k := FirstRejected(files);
      if k == |files| then Valid
      else if files[k].mime !in ALLOWED_FILE_TYPES then Invalid(TYPE_MESSAGE)
      else Invalid(SIZE_MESSAGE)
  }

  /** `validatePhotos`: a loop that stops at the first file with a bad type or size. */
  method ValidatePhotos(files: seq<FileInfo>) returns (v: Validation)
    ensures v == Validate(files)
  {
    if |files| == 0 || |files| > MAX_FILES {
      return Invalid(COUNT_MESSAGE);
    }
    for i := 0 to |files|
      invariant forall j :: 0 <= j < i ==> Acceptable(files[j])
    {
      if files[i].mime !in ALLOWED_FILE_TYPES {
        return Invalid(TYPE_MESSAGE);
      }
      if files[i].size > MAX_FILE_SIZE {
        return Invalid(SIZE_MESSAGE);
      }
    }
    return Valid;
  }

  /** `getAuthenticatedUserId`: the id of the account holding the session token, if any. */
  function OwnerId(user: Option<User>, token: string): (id: Option<string>)
    ensures id.Some? <==> user.Some? && user.value.sessionToken == Some(token)
    ensures id.Some? ==> id.value == user.value.id
  {
    if user.Some? && user.value.sessionToken == Some(token) then Some(user.value.id) else None
  }

  /** The bucket path of an upload: `photos/<user>/<time>-<random>.<extension>`. */
  function ObjectPath(owner: string, now: int, random: string, name: string): (path: string)
    ensures |path| > |"photos/" + owner + "/"| + |AfterLast(name, '.')|
    ensures path[..|"photos/" + owner + "/"|] == "photos/" + owner + "/"
    ensures path[|path| - |AfterLast(name, '.')| - 1..] == "." + AfterLast(name, '.')
  {
    var head := "photos/" + owner + "/";
    var path := head + IntToString(now) + "-" + random + "." + AfterLast(name, '.');
    assert path == head + (IntToString(now) + "-" + random + "." + AfterLast(name, '.'));
    path
  }

  /** The success message: "s" is added only for more than one photo. */
  function UploadedMessage(n: nat): (m: string)
    ensures |m| > |NatToString(n)|
    ensures m[..|NatToString(n)|] == NatToString(n)
    ensures m[|NatToString(n)|..] == (if n > 1 then " photos uploaded successfully" else " photo uploaded successfully")
  {
    var digits := NatToString(n);
    var rest := if n > 1 then " photos uploaded successfully" else " photo uploaded successfully";
    assert (digits + rest)[..|digits|] == digits && (digits + rest)[|digits|..] == rest;
    digits + rest
  }

  datatype Failure = UserNotFound | UploadError | NoPublicUrl | InsertFailed

  /** The response, by status: 401, 400, 500, 200. */
  datatype UploadOutcome =
    | Unauthorized
    | BadRequest(message: string)
    | ServerError(failure: Failure)
    | Uploaded(message: string, photoIds: seq<string>)

  /** The per-request inputs the route cannot compute: random suffixes, storage and database verdicts, new ids. */
  datatype UploadEnv = UploadEnv(
    now: int,
    randoms: seq<string>,
    uploadOk: seq<bool>,
    urlOk: seq<bool>,
    baseUrl: string,
    insertOk: bool,
    ids: seq<string>)

  predicate EnvFits(env: UploadEnv, n: nat) {
    |env.randoms| == n && |env.uploadOk| == n && |env.urlOk| == n && |env.ids| == n
  }

  /** Upload `j` succeeds: storage accepts it and, as uploads never overwrite, its path is new. */
  predicate Stored(objects: set<string>, paths: seq<string>, uploadOk: seq<bool>, j: nat)
    requires j < |paths| == |uploadOk|
  {
    uploadOk[j] && paths[j] !in objects && paths[j] !in Prefix(paths, j)
  }

  /** The first file whose upload or public URL fails, from `from` on; the length when none does. */
  function FirstFailure(objects: set<string>, paths: seq<string>, uploadOk: seq<bool>, urlOk: seq<bool>, from: nat): (k: nat)
    requires |paths| == |uploadOk| == |urlOk| && from <= |paths|
    ensures from <= k <= |paths|
    ensures forall j :: from <= j < k ==> Stored(objects, paths, uploadOk, j) && urlOk[j]
    ensures k < |paths| ==> !(Stored(objects, paths, uploadOk, k) && urlOk[k])
    decreases |paths| - from
  {
    if from == |paths| || !(Stored(objects, paths, uploadOk, from) && urlOk[from]) then from
    else FirstFailure(objects, paths, uploadOk, urlOk, from + 1)
  }

  function Paths(owner: string, files: seq<FileInfo>, env: UploadEnv): (paths: seq<string>)
    requires EnvFits(env, |files|)
    ensures |paths| == |files|
    ensures forall i :: 0 <= i < |files| ==> paths[i] == ObjectPath(owner, env.now, env.randoms[i], files[i].name)
  {
    seq(|files|, i requires 0 <= i < |files| => ObjectPath(owner, env.now, env.randoms[i], files[i].name))
  }

  function Record(owner: string, category: string, path: string, id: string, env: UploadEnv): Photo {
    Photo(id, owner, Trim(category), env.baseUrl + path + "?t=" + IntToString(env.now), path, env.now)
  }

  function Records(owner: string, category: string, paths: seq<string>, env: UploadEnv): (r: seq<Photo>)
    requires |env.ids| == |paths|
    ensures |r| == |paths|
    ensures forall i :: 0 <= i < |r| ==> r[i] == Record(owner, category, paths[i], env.ids[i], env)
  {
    seq(|paths|, i requires 0 <= i < |paths| => Record(owner, category, paths[i], env.ids[i], env))
  }

  function Prefix(paths: seq<string>, k: nat): set<string>
    requires k <= |paths|
  {
    set j | 0 <= j < k :: paths[j]
  }

  /** The effect of `POST`: the new photo list, the new bucket contents, the response. */
  datatype Upload = Upload(photos: seq<Photo>, objects: set<string>, outcome: UploadOutcome)

  /**
   * The uploads and the insert, once the owner is known. An upload failure removes every file
   * already uploaded by this request, so the bucket is as before; a missing public URL removes only
   * the current file, so the earlier ones stay behind; the records are inserted only when every
   * upload succeeded, one per file, with the trimmed category.
   */
  function Finish(photos: seq<Photo>, objects: set<string>, owner: string, files: seq<FileInfo>, category: string,
                  env: UploadEnv): (r: Upload)
    requires EnvFits(env, |files|)
    ensures var paths := Paths(owner, files, env);
      var k := FirstFailure(objects, paths, env.uploadOk, env.urlOk, 0);
      && (k < |files| && !Stored(objects, paths, env.uploadOk, k) ==>
            r == Upload(photos, objects, ServerError(UploadError)))
      && (k < |files| && Stored(objects, paths, env.uploadOk, k) ==>
            r == Upload(photos, objects + Prefix(paths, k), ServerError(NoPublicUrl)))
      && (k == |files| && !env.insertOk ==>
            r == Upload(photos, objects + Prefix(paths, k), ServerError(InsertFailed)))
      && (k == |files| && env.insertOk ==>
            && r.outcome == Uploaded(UploadedMessage(|files|), env.ids)
            && r.objects == objects + Prefix(paths, k)
            && r.photos == photos + Records(owner, category, paths, env))
  {
    var paths := Paths(owner, files, env);
    var k := FirstFailure(objects, paths, env.uploadOk, env.urlOk, 0);
    if k < |files| && !Stored(objects, paths, env.uploadOk, k) then Upload(photos, objects, ServerError(UploadError))
    else if k < |files| then Upload(photos, objects + Prefix(paths, k), ServerError(NoPublicUrl))
    else if !env.insertOk then Upload(photos, objects + Prefix(paths, k), ServerError(InsertFailed))
    else Upload(photos + Records(owner, category, paths, env), objects + Prefix(paths, k),
                Uploaded(UploadedMessage(|files|), env.ids))
  }

  /** Every new record carries the owner, the trimmed category and its own uploaded path. */
  lemma UploadedRecords(photos: seq<Photo>, objects: set<string>, owner: string, files: seq<FileInfo>, category: string,
                        env: UploadEnv)
    requires EnvFits(env, |files|)
    requires Finish(photos, objects, owner, files, category, env).outcome.Uploaded?
    ensures var r := Finish(photos, objects, owner, files, category, env);
      && |r.photos| == |photos| + |files|
      && r.photos[..|photos|] == photos
      && forall i :: 0 <= i < |files| ==>
           var p := r.photos[|photos| + i];
           p.userId == owner && p.category == Trim(category) && p.id == env.ids[i]
           && p.storagePath == Paths(owner, files, env)[i] && p.storagePath in r.objects
  {
    var r := Finish(photos, objects, owner, files, category, env);
    var paths := Paths(owner, files, env);
    var k := FirstFailure(objects, paths, env.uploadOk, env.urlOk, 0);
    assert k == |files| && env.insertOk;
    AppendedRecords(photos, objects, owner, category, paths, env);
  }

  /** The records appended for `paths`, read back from the new list, with their paths in the new bucket. */
  lemma AppendedRecords(photos: seq<Photo>, objects: set<string>, owner: string, category: string, paths: seq<string>,
                        env: UploadEnv)
    requires |env.ids| == |paths|
    ensures var all := photos + Records(owner, category, paths, env);
      && |all| == |photos| + |paths|
      && all[..|photos|] == photos
      && forall i :: 0 <= i < |paths| ==>
           var p := all[|photos| + i];
           p.userId == owner && p.category == Trim(category) && p.id == env.ids[i]
           && p.storagePath == paths[i] && p.storagePath in objects + Prefix(paths, |paths|)
  {
    var added := Records(owner, category, paths, env);
    var all := photos + added;
    forall i | 0 <= i < |paths|
      ensures all[|photos| + i] == added[i] && paths[i] in Prefix(paths, |paths|)
    {
    }
  }

  /**
   * `POST /api/upload`: the session is checked first, then the files, then the category, then the
   * owning account; only then is anything uploaded.
   */
  function UploadStep(photos: seq<Photo>, objects: set<string>, user: Option<User>, auth: AuthOutcome,
                      files: seq<FileInfo>, category: Option<string>, env: UploadEnv): (r: Upload)
    requires EnvFits(env, |files|)
    ensures r.outcome == Unauthorized <==> !(auth.Authenticated? && auth.token != "")
    ensures r.outcome.BadRequest? <==>
      auth.Authenticated? && auth.token != "" && (Validate(files).Invalid? || category.None? || Trim(category.value) == "")
    ensures r.outcome == Unauthorized || r.outcome.BadRequest? || r.outcome == ServerError(UserNotFound) ==>
      r.photos == photos && r.objects == objects
    ensures r.outcome == ServerError(UserNotFound) <==>
      && auth.Authenticated? && auth.token != "" && Validate(files).Valid?
      && category.Some? && Trim(category.value) != "" && OwnerId(user, auth.token).None?
    ensures r.outcome.Uploaded? ==> 1 <= |files| <= MAX_FILES && category.Some? && Trim(category.value) != ""
    ensures (auth.Authenticated? && auth.token != "" && Validate(files).Valid? && category.Some? &&
             Trim(category.value) != "" && OwnerId(user, auth.token).Some?) ==>
      r == Finish(photos, objects, OwnerId(user, auth.token).value, files, category.value, env)
  {
    if !(auth.Authenticated? && auth.token != "") then Upload(photos, objects, Unauthorized)
    else if Validate(files).Invalid? then Upload(photos, objects, BadRequest(Validate(files).message))
    else if category.None? || Trim(category.value) == "" then Upload(photos, objects, BadRequest("Category is required"))
    else match OwnerId(user, auth.token)
      case None => Upload(photos, objects, ServerError(UserNotFound))
      case Some(owner) => Finish(photos, objects, owner, files, category.value, env)
  }

  lemma PrefixSnoc(paths: seq<string>, i: nat)
    requires i < |paths|
    ensures Prefix(paths, i + 1) == Prefix(paths, i) + {paths[i]}
  {
  }

  /** Removing the paths uploaded so far undoes them: they were all new. */
  lemma RollbackRestores(objects: set<string>, paths: seq<string>, uploadOk: seq<bool>, k: nat)
    requires |paths| == |uploadOk| && k <= |paths|
    requires forall j :: 0 <= j < k ==> Stored(objects, paths, uploadOk, j)
    ensures (objects + Prefix(paths, k)) - Prefix(paths, k) == objects
  {
    forall x | x in Prefix(paths, k) ensures x !in objects {
      var j :| 0 <= j < k && paths[j] == x;
      assert Stored(objects, paths, uploadOk, j);
    }
  }

  /** The first failing upload is the one the loop stops at. */
  lemma FirstFailureIs(objects: set<string>, paths: seq<string>, uploadOk: seq<bool>, urlOk: seq<bool>, i: nat)
    requires |paths| == |uploadOk| == |urlOk| && i <= |paths|
    requires forall j :: 0 <= j < i ==> Stored(objects, paths, uploadOk, j) && urlOk[j]
    requires i < |paths| ==> !(Stored(objects, paths, uploadOk, i) && urlOk[i])
    ensures FirstFailure(objects, paths, uploadOk, urlOk, 0) == i
  {
  }

  lemma StoredExtend(objects: set<string>, paths: seq<string>, uploadOk: seq<bool>, urlOk: seq<bool>, i: nat)
    requires |paths| == |uploadOk| == |urlOk| && i < |paths|
    requires forall j :: 0 <= j < i ==> Stored(objects, paths, uploadOk, j) && urlOk[j]
    requires Stored(objects, paths, uploadOk, i) && urlOk[i]
    ensures forall j :: 0 <= j < i + 1 ==> Stored(objects, paths, uploadOk, j) && urlOk[j]
  {
  }

  /** The clean-up loop: remove each listed object from the bucket. */
  method RemoveAll(g: Gallery, paths: seq<string>)
    modifies g
    ensures g.objects == old(g.objects) - Prefix(paths, |paths|) && g.photos == old(g.photos)
  {
    for j := 0 to |paths|
      invariant g.objects == old(g.objects) - Prefix(paths, j) && g.photos == old(g.photos)
    {
      g.objects := g.objects - {paths[j]};
      PrefixSnoc(paths, j);
    }
  }

  /** The compensating clean-up after a failed upload: the request's earlier uploads are removed again. */
  method Rollback(g: Gallery, ghost before: set<string>, ghost paths: seq<string>, uploadOk: seq<bool>,
                  uploaded: seq<string>, ghost i: nat)
    requires |paths| == |uploadOk| && i <= |paths| && uploaded == paths[..i]
    requires g.objects == before + Prefix(paths, i)
    requires forall j :: 0 <= j < i ==> Stored(before, paths, uploadOk, j)
    modifies g
    ensures g.objects == before && g.photos == old(g.photos)
  {
    RemoveAll(g, uploaded);
    assert Prefix(uploaded, |uploaded|) == Prefix(paths, i);
    RollbackRestores(before, paths, uploadOk, i);
  }

  /**
   * Where the upload loop ends, given the bucket before it: with no failure every path is uploaded;
   * a failed upload leaves the bucket as it was; a missing public URL leaves the earlier uploads.
   */
  ghost predicate UploadsDone(before: set<string>, paths: seq<string>, uploadOk: seq<bool>, urlOk: seq<bool>,
                              failure: Option<Failure>, uploaded: seq<string>, objects: set<string>)
    requires |paths| == |uploadOk| == |urlOk|
  {
    var k := FirstFailure(before, paths, uploadOk, urlOk, 0);
    && (failure.None? <==> k == |paths|)
    && (failure.None? ==> uploaded == paths && objects == before + Prefix(paths, k))
    && (failure == Some(UploadError) <==> k < |paths| && !Stored(before, paths, uploadOk, k))
    && (failure == Some(UploadError) ==> objects == before)
    && (failure.Some? && failure != Some(UploadError) ==>
          failure == Some(NoPublicUrl) && objects == before + Prefix(paths, k))
  }

  /** The loop's exits establish `UploadsDone`: the loop stops at the first failure. */
  lemma StopsAt(before: set<string>, paths: seq<string>, uploadOk: seq<bool>, urlOk: seq<bool>,
                failure: Option<Failure>, uploaded: seq<string>, objects: set<string>, i: nat)
    requires |paths| == |uploadOk| == |urlOk| && i <= |paths|
    requires forall j :: 0 <= j < i ==> Stored(before, paths, uploadOk, j) && urlOk[j]
    requires failure.None? ==> i == |paths| && uploaded == paths[..i] && objects == before + Prefix(paths, i)
    requires failure == Some(UploadError) ==> i < |paths| && !Stored(before, paths, uploadOk, i) && objects == before
    requires failure.Some? && failure != Some(UploadError) ==>
      failure == Some(NoPublicUrl) && i < |paths| && Stored(before, paths, uploadOk, i) && !urlOk[i]
      && objects == before + Prefix(paths, i)
    ensures UploadsDone(before, paths, uploadOk, urlOk, failure, uploaded, objects)
  {
    FirstFailureIs(before, paths, uploadOk, urlOk, i);
  }

  /** The upload loop of `POST`: it stops at the first failure, reporting which it was. */
  method UploadAll(g: Gallery, paths: seq<string>, uploadOk: seq<bool>, urlOk: seq<bool>)
    returns (failure: Option<Failure>, uploaded: seq<string>)
    requires |paths| == |uploadOk| == |urlOk|
    modifies g
    ensures g.photos == old(g.photos)
    ensures UploadsDone(old(g.objects), paths, uploadOk, urlOk, failure, uploaded, g.objects)
  {
    ghost var before := g.objects;
    uploaded := [];
    for i := 0 to |paths|
      invariant uploaded == paths[..i]
      invariant g.objects == before + Prefix(paths, i)
      invariant forall j :: 0 <= j < i ==> Stored(before, paths, uploadOk, j) && urlOk[j]
      invariant g.photos == old(g.photos)
    {
      var path := paths[i];
      if !uploadOk[i] || path in g.objects {
        Rollback(g, before, paths, uploadOk, uploaded, i);
        StopsAt(before, paths, uploadOk, urlOk, Some(UploadError), uploaded, g.objects, i);
        return Some(UploadError), uploaded;
      }
      assert Stored(before, paths, uploadOk, i);
      g.objects := g.objects + {path};
      PrefixSnoc(paths, i);
      if !urlOk[i] {
        g.objects := g.objects - {path};
        StopsAt(before, paths, uploadOk, urlOk, Some(NoPublicUrl), uploaded, g.objects, i);
        return Some(NoPublicUrl), uploaded;
      }
      uploaded := uploaded + [path];
      StoredExtend(before, paths, uploadOk, urlOk, i);
    }
    failure := None;
    StopsAt(before, paths, uploadOk, urlOk, failure, uploaded, g.objects, |paths|);
  }

  /** The uploads and the insert of `POST`, from the owner lookup on. */
  method UploadFiles(g: Gallery, owner: string, files: seq<FileInfo>, category: string, env: UploadEnv)
    returns (o: UploadOutcome)
    requires EnvFits(env, |files|)
    modifies g
    ensures var r := Finish(old(g.photos), old(g.objects), owner, files, category, env);
      g.photos == r.photos && g.objects == r.objects && o == r.outcome
  {
    var failure, uploaded := UploadAll(g, Paths(owner, files, env), env.uploadOk, env.urlOk);
    if failure.Some? {
      return ServerError(failure.value);
    }
    if !env.insertOk {
      return ServerError(InsertFailed);
    }
    g.photos := g.photos + Records(owner, category, uploaded, env);
    o := Uploaded(UploadedMessage(|files|), env.ids);
  }

  /** `POST /api/upload` on the gallery. */
  method Post(g: Gallery, user: Option<User>, auth: AuthOutcome, files: seq<FileInfo>, category: Option<string>, env: UploadEnv)
    returns (o: UploadOutcome)
    requires EnvFits(env, |files|)
    modifies g
    ensures var r := UploadStep(old(g.photos), old(g.objects), user, auth, files, category, env);
      g.photos == r.photos && g.objects == r.objects && o == r.outcome
  {
    if !(auth.Authenticated? && auth.token != "") {
      return Unauthorized;
    }
    var v := ValidatePhotos(files);
    if v.Invalid? {
      return BadRequest(v.message);
    }
    if category.None? || Trim(category.value) == "" {
      return BadRequest("Category is required");
    }
    var owner := OwnerId(user, auth.token);
    if owner.None? {
      return ServerError(UserNotFound);
    }
    o := UploadFiles(g, owner.value, files, category.value, env);
  }

  datatype DeleteOutcome =
    | DeleteUnauthorized
    | InvalidPhotoId
    | DeleteUserNotFound
    | PhotoNotFound
    | StorageFailed
    | RecordDeleteFailed
    | PhotoDeleted

  /** The position of the photo with that id belonging to that owner, if any. */
  function FindPhoto(photos: seq<Photo>, id: string, owner: string): (k: Option<nat>)
    ensures k.Some? ==> k.value < |photos| && photos[k.value].id == id && photos[k.value].userId == owner
    ensures k.None? ==> forall i :: 0 <= i < |photos| ==> !(photos[i].id == id && photos[i].userId == owner)
  {
    FindFirst(photos, (p: Photo) => p.id == id && p.userId == owner)
  }

  datatype Removal = Removal(photos: seq<Photo>, objects: set<string>, outcome: DeleteOutcome)

  /**
   * `DELETE /api/upload`: session, then a present and well-formed `photoId`, then the owner, then
   * the owner's photo; the stored file is removed first and the record only when that succeeded.
   * `deleteOk` is the verdict of the record's deletion; when it throws, the file is already gone
   * and the catch answers with a server error.
   */
  function DeleteStep(photos: seq<Photo>, objects: set<string>, user: Option<User>, auth: AuthOutcome,
                      photoId: Option<string>, removeOk: bool, deleteOk: bool): (r: Removal)
    ensures r.outcome == DeleteUnauthorized <==> !(auth.Authenticated? && auth.token != "")
    ensures r.outcome == InvalidPhotoId <==>
      auth.Authenticated? && auth.token != "" && (photoId.None? || photoId.value == "" || !ObjectId.Valid(photoId.value))
    ensures r.outcome != PhotoDeleted ==> r.photos == photos
    ensures r.outcome != PhotoDeleted && r.outcome != RecordDeleteFailed ==> r.objects == objects
    ensures r.outcome == PhotoDeleted || r.outcome == RecordDeleteFailed <==>
      && auth.Authenticated? && auth.token != "" && photoId.Some? && ObjectId.Valid(photoId.value)
      && OwnerId(user, auth.token).Some?
      && FindPhoto(photos, photoId.value, OwnerId(user, auth.token).value).Some?
      && removeOk
    ensures r.outcome == PhotoDeleted ==> deleteOk
    ensures r.outcome == RecordDeleteFailed ==>
      && !deleteOk
      && r.objects == objects - {photos[FindPhoto(photos, photoId.value, OwnerId(user, auth.token).value).value].storagePath}
    ensures r.outcome == PhotoDeleted ==>
      var k := FindPhoto(photos, photoId.value, OwnerId(user, auth.token).value).value;
      r.photos == photos[..k] + photos[k + 1..] && r.objects == objects - {photos[k].storagePath}
  {
    if !(auth.Authenticated? && auth.token != "") then Removal(photos, objects, DeleteUnauthorized)
    else if photoId.None? || photoId.value == "" || !ObjectId.Valid(photoId.value) then Removal(photos, objects, InvalidPhotoId)
    else match OwnerId(user, auth.token)
      case None => Removal(photos, objects, DeleteUserNotFound)
      case Some(owner) =>
        match FindPhoto(photos, photoId.value, owner)
        case None => Removal(photos, objects, PhotoNotFound)
        case Some(k) =>
          if !removeOk then Removal(photos, objects, StorageFailed)
          else if !deleteOk then Removal(photos, objects - {photos[k].storagePath}, RecordDeleteFailed)
          else Removal(photos[..k] + photos[k + 1..], objects - {photos[k].storagePath}, PhotoDeleted)
  }

  /** `DELETE /api/upload` on the gallery. */
  method Delete(g: Gallery, user: Option<User>, auth: AuthOutcome, photoId: Option<string>, removeOk: bool,
                deleteOk: bool)
    returns (o: DeleteOutcome)
    modifies g
    ensures var r := DeleteStep(old(g.photos), old(g.objects), user, auth, photoId, removeOk, deleteOk);
      g.photos == r.photos && g.objects == r.objects && o == r.outcome
  {
    if !(auth.Authenticated? && auth.token != "") {
      return DeleteUnauthorized;
    }
    if photoId.None? || photoId.value == "" || !ObjectId.Valid(photoId.value) {
      return InvalidPhotoId;
    }
    var owner := OwnerId(user, auth.token);
    if owner.None? {
      return DeleteUserNotFound;
    }
    var k := FindPhoto(g.photos, photoId.value, owner.value);
    if k.None? {
      return PhotoNotFound;
    }
    if !removeOk {
      return StorageFailed;
    }
    g.objects := g.objects - {g.photos[k.value].storagePath};
    if !deleteOk {
      return RecordDeleteFailed;
    }
    g.photos := g.photos[..k.value] + g.photos[k.value + 1..];
    o := PhotoDeleted;
  }

  /** Records for freshly stored, pairwise distinct paths can be appended to a consistent gallery. */
  lemma AppendStoredConsistent(photos: seq<Photo>, objects: set<string>, paths: seq<string>, uploadOk: seq<bool>,
                               added: seq<Photo>)
    requires Consistent(photos, objects)
    requires |added| == |paths| == |uploadOk|
    requires forall i :: 0 <= i < |added| ==> added[i].storagePath == paths[i]
    requires forall b :: 0 <= b < |paths| ==> Stored(objects, paths, uploadOk, b)
    ensures Consistent(photos + added, objects + Prefix(paths, |paths|))
  {
    var all, bucket := photos + added, objects + Prefix(paths, |paths|);
    forall i | 0 <= i < |all|
      ensures all[i].storagePath in bucket
    {
      if i >= |photos| {
        assert paths[i - |photos|] in Prefix(paths, |paths|);
      }
    }
    forall i, j | 0 <= i < j < |all|
      ensures all[i].storagePath != all[j].storagePath
    {
      if j >= |photos| {
        var b := j - |photos|;
        assert Stored(objects, paths, uploadOk, b);
        if i >= |photos| {
          assert paths[i - |photos|] in Prefix(paths, b);
        }
      }
    }
  }

  /** A successful upload adds records for new, distinct files only, so the gallery stays consistent. */
  lemma FinishKeepsConsistent(photos: seq<Photo>, objects: set<string>, owner: string, files: seq<FileInfo>,
                              category: string, env: UploadEnv)
    requires EnvFits(env, |files|) && Consistent(photos, objects)
    ensures var r := Finish(photos, objects, owner, files, category, env); Consistent(r.photos, r.objects)
  {
    var r := Finish(photos, objects, owner, files, category, env);
    var paths := Paths(owner, files, env);
    if r.outcome.Uploaded? {
      var k := FirstFailure(objects, paths, env.uploadOk, env.urlOk, 0);
      assert k == |files| && env.insertOk;
      var added := Records(owner, category, paths, env);
      AppendStoredConsistent(photos, objects, paths, env.uploadOk, added);
    }
  }

  /** `POST` keeps the gallery consistent, whatever its outcome. */
  lemma UploadKeepsConsistent(photos: seq<Photo>, objects: set<string>, user: Option<User>, auth: AuthOutcome,
                              files: seq<FileInfo>, category: Option<string>, env: UploadEnv)
    requires EnvFits(env, |files|) && Consistent(photos, objects)
    ensures var r := UploadStep(photos, objects, user, auth, files, category, env); Consistent(r.photos, r.objects)
  {
    if auth.Authenticated? && auth.token != "" && Validate(files).Valid? && category.Some? &&
       Trim(category.value) != "" && OwnerId(user, auth.token).Some? {
      FinishKeepsConsistent(photos, objects, OwnerId(user, auth.token).value, files, category.value, env);
    }
  }

  /**
   * `DELETE` keeps the gallery consistent when the record's deletion goes through: the removed
   * file belonged to the removed record alone.
   */
  lemma DeleteKeepsConsistent(photos: seq<Photo>, objects: set<string>, user: Option<User>, auth: AuthOutcome,
                              photoId: Option<string>, removeOk: bool)
    requires Consistent(photos, objects)
    ensures var r := DeleteStep(photos, objects, user, auth, photoId, removeOk, true); Consistent(r.photos, r.objects)
  {
    var r := DeleteStep(photos, objects, user, auth, photoId, removeOk, true);
    if r.outcome == PhotoDeleted {
      var k := FindPhoto(photos, photoId.value, OwnerId(user, auth.token).value).value;
      forall i | 0 <= i < |r.photos|
        ensures r.photos[i].storagePath in r.objects
      {
        var m := if i < k then i else i + 1;
        assert r.photos[i] == photos[m];
      }
      forall i, j | 0 <= i < j < |r.photos|
        ensures r.photos[i].storagePath != r.photos[j].storagePath
      {
        var m := if i < k then i else i + 1;
        var n := if j < k then j else j + 1;
        assert r.photos[i] == photos[m] && r.photos[j] == photos[n];
      }
    }
  }

  /** In a consistent gallery a deletion removes exactly one record and exactly one file. */
  lemma DeleteRemovesFile(photos: seq<Photo>, objects: set<string>, user: Option<User>, auth: AuthOutcome,
                          photoId: Option<string>)
    requires Consistent(photos, objects)
    requires DeleteStep(photos, objects, user, auth, photoId, true, true).outcome == PhotoDeleted
    ensures var r := DeleteStep(photos, objects, user, auth, photoId, true, true);
      |r.photos| == |photos| - 1 && |r.objects| == |objects| - 1
  {
    var k := FindPhoto(photos, photoId.value, OwnerId(user, auth.token).value).value;
    assert photos[k].storagePath in objects;
  }

  /**
   * When the record's deletion throws after the file was removed, the record outlives its file:
   * the gallery is left with a record whose stored file is gone.
   */
  lemma FailedRecordDeleteDangles(photos: seq<Photo>, objects: set<string>, user: Option<User>, auth: AuthOutcome,
                                  photoId: Option<string>)
    requires DeleteStep(photos, objects, user, auth, photoId, true, false).outcome == RecordDeleteFailed
    ensures var r := DeleteStep(photos, objects, user, auth, photoId, true, false);
      !Consistent(r.photos, r.objects)
  {
    var k := FindPhoto(photos, photoId.value, OwnerId(user, auth.token).value).value;
    var r := DeleteStep(photos, objects, user, auth, photoId, true, false);
    assert r.photos[k].storagePath !in r.objects;
  }
}
