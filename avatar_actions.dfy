/**
 * Profile pictures (`action/avatarAction.ts`): saving, replacing and deleting the account's avatar.
 * The file lives in the `avatars` storage bucket under `public/`; the account document keeps its
 * public URL with a cache-busting `?t=<time>` suffix.
 */
module AvatarActions {
  import opened Wrappers
  import opened Text
  import opened Files
  import opened Account

  const MAX_AVATAR_SIZE: nat := 5 * MB

  /** The object paths in the `avatars` bucket. */
  class AvatarBucket {
    var objects: set<string>

    constructor (objects: set<string>)
      ensures this.objects == objects
    {
      this.objects := objects;
    }
  }

  /** `processAvatarFile`: presence, then type, then size; `None` when the file is acceptable. */
  function CheckAvatarFile(file: Option<FileInfo>): (error: Option<string>)
    ensures error.None? <==> file.Some? && file.value.mime in IMAGE_TYPES && file.value.size <= MAX_AVATAR_SIZE
    ensures file.None? ==> error == Some("No file provided")
    ensures file.Some? && file.value.mime !in IMAGE_TYPES ==> error == Some("Only JPEG, PNG, or WebP images are allowed")
    ensures file.Some? && file.value.mime in IMAGE_TYPES && file.value.size > MAX_AVATAR_SIZE ==>
      error == Some("Image size must be less than 5MB")
  {
    if file.None? then Some("No file provided")
    else if file.value.mime !in IMAGE_TYPES then Some("Only JPEG, PNG, or WebP images are allowed")
    else if file.value.size > MAX_AVATAR_SIZE then Some("Image size must be less than 5MB")
    else None
  }

  /**
   * The gate every avatar action opens with: an account with a non-empty session token whose
   * expiry has not passed. A missing expiry does not close the gate, because comparing an absent
   * date with the clock is false.
   */
  predicate SignedIn(user: Option<User>, now: int) {
    && user.Some?
    && user.value.sessionToken.Some? && user.value.sessionToken.value != ""
    && !(user.value.sessionExpires.Some? && user.value.sessionExpires.value < now)
  }

  /** The gate differs from the durable session check: it accepts a token that has no expiry. */
  lemma GateAcceptsMissingExpiry(u: User, now: int)
    requires u.sessionToken.Some? && u.sessionToken.value != "" && u.sessionExpires.None?
    ensures SignedIn(Some(u), now)
  {
  }

  /** The bucket path of a new avatar: `public/<account id>_<time>.<extension>`. */
  function AvatarPath(id: string, now: int, name: string): (path: string)
    ensures |path| > 7 + |AfterLast(name, '.')| && path[..7] == "public/"
    ensures path[|path| - |AfterLast(name, '.')| - 1..] == "." + AfterLast(name, '.')
  {
    var tail := id + "_" + IntToString(now) + "." + AfterLast(name, '.');
    assert ("public/" + tail)[..7] == "public/";
    "public/" + tail
  }

  /** The stored avatar URL: the file's public URL (bucket prefix `base` plus path) and `?t=<time>`. */
  function AvatarUrl(base: string, path: string, now: int): (url: string)
    ensures |url| > |base + path|
    ensures url[..|base + path|] == base + path
    ensures url[|base + path|..] == "?t=" + IntToString(now)
  {
    var head := base + path;
    var url := head + "?t=" + IntToString(now);
    assert url == head + ("?t=" + IntToString(now));
    url
  }

  /** The old file's name as the source computes it: the last `/` segment of the URL, cut at `?`. */
  function OldFileNameAsWritten(url: string): (name: string)
    ensures '/' !in name && '?' !in name
  {
    var last := AfterLast(url, '/');
    var name := BeforeFirst(last, '?');
    assert forall c :: c in name ==> c in last;
    name
  }

  /** The old file's path as intended: that name back under the `public/` folder it was stored in. */
  function OldPath(url: string): (path: string)
    ensures path == "public/" + OldFileNameAsWritten(url)
  {
    "public/" + OldFileNameAsWritten(url)
  }

  lemma NoSlashOrQuery(n: int)
    ensures '/' !in IntToString(n) && '?' !in IntToString(n)
  {
    var s := IntToString(n);
    forall i | 0 <= i < |s| ensures s[i] != '/' && s[i] != '?' {
      assert IsDigit(s[i]) || s[i] == '-';
    }
  }

  /** From the stored URL of an avatar, `OldPath` recovers the path the avatar was uploaded to. */
  lemma {:induction false} OldPathRoundTrip(base: string, id: string, now: int, name: string)
    requires '/' !in id && '?' !in id && '/' !in name && '?' !in name
    ensures OldPath(AvatarUrl(base, AvatarPath(id, now, name), now)) == AvatarPath(id, now, name)
  {
    var ext := AfterLast(name, '.');
    if '/' in ext {
      AfterLastChars(name, '.', '/');
    }
    if '?' in ext {
      AfterLastChars(name, '.', '?');
    }
    var ts := IntToString(now);
    NoSlashOrQuery(now);
    var tail := id + "_" + ts + "." + ext;
    assert '/' !in tail && '?' !in tail;
    var query := "t=" + ts;
    assert '/' !in query;
    var url := AvatarUrl(base, AvatarPath(id, now, name), now);
    assert url == (base + "public") + ['/'] + (tail + ['?'] + query);
    AfterLastCons(base + "public", '/', tail + ['?'] + query);
    BeforeFirstCons(tail, '?', query);
  }

  /** As written, the computed name never names the stored file, so removing it leaves the file in place. */
  lemma OldFileMissedAsWritten(base: string, id: string, now: int, name: string, objects: set<string>)
    requires AvatarPath(id, now, name) in objects
    ensures OldFileNameAsWritten(AvatarUrl(base, AvatarPath(id, now, name), now)) != AvatarPath(id, now, name)
    ensures AvatarPath(id, now, name) in objects - {OldFileNameAsWritten(AvatarUrl(base, AvatarPath(id, now, name), now))}
  {
    assert AvatarPath(id, now, name)[6] == '/';
  }

  datatype AvatarOutcome =
    | Failed(message: string)
    | AvatarSet(message: string, avatarUrl: string)
    | AvatarRemoved(message: string)

  /**
   * The verdicts of the outside calls and the clock an avatar action runs with: the bucket
   * upload, the public-URL lookup, the bucket removal, and the account update (`setOk`), whose
   * failure is thrown and answered by the action's catch.
   */
  datatype StorageEnv = StorageEnv(now: int, base: string, uploadOk: bool, urlOk: bool, removeOk: bool, setOk: bool)

  /** An action's effect: the account, the bucket contents, the response. */
  datatype AvatarChange = AvatarChange(user: Option<User>, objects: set<string>, outcome: AvatarOutcome)

  /**
   * Upload the new file and point the account at it; shared by save and edit, which differ in
   * their messages. A failed account update leaves the uploaded file in the bucket and the
   * account as it was, and answers with the action's catch message `writeFailed`.
   */
  function UploadAvatar(u: User, objects: set<string>, file: FileInfo, env: StorageEnv,
                        uploadFailed: string, writeFailed: string, done: string): (r: AvatarChange)
    ensures !env.uploadOk ==> r == AvatarChange(Some(u), objects, Failed(uploadFailed))
    ensures env.uploadOk ==> r.objects == objects + {AvatarPath(u.id, env.now, file.name)}
    ensures env.uploadOk && !env.urlOk ==> r.user == Some(u) && r.outcome == Failed("Failed to get public URL")
    ensures env.uploadOk && env.urlOk && !env.setOk ==> r.user == Some(u) && r.outcome == Failed(writeFailed)
    ensures r.outcome.AvatarSet? <==> env.uploadOk && env.urlOk && env.setOk
    ensures r.outcome.AvatarSet? ==>
      var url := AvatarUrl(env.base, AvatarPath(u.id, env.now, file.name), env.now);
      r.user == Some(u.(avatar := Some(url))) && r.outcome == AvatarSet(done, url)
  {
    var path := AvatarPath(u.id, env.now, file.name);
    if !env.uploadOk then AvatarChange(Some(u), objects, Failed(uploadFailed))
    else if !env.urlOk then AvatarChange(Some(u), objects + {path}, Failed("Failed to get public URL"))
    else if !env.setOk then AvatarChange(Some(u), objects + {path}, Failed(writeFailed))
    else
      var url := AvatarUrl(env.base, path, env.now);
      AvatarChange(Some(u.(avatar := Some(url))), objects + {path}, AvatarSet(done, url))
  }

  /** `saveAvatar`: the gate, then the file check, then the upload and the account update. */
  function SaveAvatarStep(user: Option<User>, objects: set<string>, file: Option<FileInfo>, env: StorageEnv): (r: AvatarChange)
    ensures !SignedIn(user, env.now) ==> r == AvatarChange(user, objects, Failed("Not authenticated"))
    ensures SignedIn(user, env.now) && CheckAvatarFile(file).Some? ==>
      r == AvatarChange(user, objects, Failed(CheckAvatarFile(file).value))
    ensures r.outcome.AvatarSet? ==>
      && SignedIn(user, env.now) && file.Some?
      && var path := AvatarPath(user.value.id, env.now, file.value.name);
      && r.objects == objects + {path}
      && r.outcome.avatarUrl == AvatarUrl(env.base, path, env.now)
      && r.user == Some(user.value.(avatar := Some(r.outcome.avatarUrl)))
    ensures r.outcome.AvatarSet? <==>
      SignedIn(user, env.now) && CheckAvatarFile(file).None? && env.uploadOk && env.urlOk && env.setOk
    ensures SignedIn(user, env.now) && CheckAvatarFile(file).None? && env.uploadOk && env.urlOk && !env.setOk ==>
      && r.outcome == Failed("Failed to save avatar")
      && r.objects == objects + {AvatarPath(user.value.id, env.now, file.value.name)}
    ensures !r.outcome.AvatarSet? ==> r.user == user
  {
    if !SignedIn(user, env.now) then AvatarChange(user, objects, Failed("Not authenticated"))
    else match CheckAvatarFile(file)
      case Some(error) => AvatarChange(user, objects, Failed(error))
      case None => UploadAvatar(user.value, objects, file.value, env, "Failed to upload avatar", "Failed to save avatar", "Avatar saved successfully")
  }

  /** An avatar is set when the account's avatar field holds a non-empty string. */
  predicate HasAvatar(u: User) {
    u.avatar.Some? && u.avatar.value != ""
  }

  /**
   * `editAvatar`: the gate, the file check, then removal of the current file (whose failure is
   * only logged), then the upload and the account update as in `saveAvatar`.
   */
  function EditAvatarStep(user: Option<User>, objects: set<string>, file: Option<FileInfo>, env: StorageEnv): (r: AvatarChange)
    ensures !SignedIn(user, env.now) ==> r == AvatarChange(user, objects, Failed("Not authenticated"))
    ensures SignedIn(user, env.now) && CheckAvatarFile(file).Some? ==>
      r == AvatarChange(user, objects, Failed(CheckAvatarFile(file).value))
    ensures SignedIn(user, env.now) && CheckAvatarFile(file).None? ==>
      var kept := if HasAvatar(user.value) && env.removeOk then objects - {OldPath(user.value.avatar.value)} else objects;
      r == UploadAvatar(user.value, kept, file.value, env, "Failed to upload new avatar", "Failed to edit avatar", "Avatar updated successfully")
  {
    if !SignedIn(user, env.now) then AvatarChange(user, objects, Failed("Not authenticated"))
    else match CheckAvatarFile(file)
      case Some(error) => AvatarChange(user, objects, Failed(error))
      case None =>
        var u := user.value;
        var kept := if HasAvatar(u) && env.removeOk then objects - {OldPath(u.avatar.value)} else objects;
        UploadAvatar(u, kept, file.value, env, "Failed to upload new avatar", "Failed to edit avatar", "Avatar updated successfully")
  }

  /** A failed removal of the old file does not stop the edit: the response and the account are the same either way. */
  lemma EditIgnoresRemoveFailure(user: Option<User>, objects: set<string>, file: Option<FileInfo>, env: StorageEnv)
    ensures EditAvatarStep(user, objects, file, env.(removeOk := false)).outcome == EditAvatarStep(user, objects, file, env.(removeOk := true)).outcome
    ensures EditAvatarStep(user, objects, file, env.(removeOk := false)).user == EditAvatarStep(user, objects, file, env.(removeOk := true)).user
  {
  }

  /**
   * `deleteAvatar`: the gate, then an avatar must be set; a storage failure changes nothing; a
   * failed account update after the removal leaves the field pointing at the removed file and
   * answers with the catch message; success clears the field.
   */
  function DeleteAvatarStep(user: Option<User>, objects: set<string>, env: StorageEnv): (r: AvatarChange)
    ensures !SignedIn(user, env.now) ==> r == AvatarChange(user, objects, Failed("Not authenticated"))
    ensures SignedIn(user, env.now) && !HasAvatar(user.value) ==> r == AvatarChange(user, objects, Failed("No avatar to delete"))
    ensures SignedIn(user, env.now) && HasAvatar(user.value) && !env.removeOk ==>
      r == AvatarChange(user, objects, Failed("Failed to delete avatar"))
    ensures SignedIn(user, env.now) && HasAvatar(user.value) && env.removeOk && !env.setOk ==>
      r == AvatarChange(user, objects - {OldPath(user.value.avatar.value)}, Failed("Failed to delete avatar"))
    ensures r.outcome.AvatarRemoved? <==> SignedIn(user, env.now) && HasAvatar(user.value) && env.removeOk && env.setOk
    ensures r.outcome.AvatarRemoved? ==>
      && r.user == Some(user.value.(avatar := None))
      && r.objects == objects - {OldPath(user.value.avatar.value)}
  {
    if !SignedIn(user, env.now) then AvatarChange(user, objects, Failed("Not authenticated"))
    else if !HasAvatar(user.value) then AvatarChange(user, objects, Failed("No avatar to delete"))
    else if !env.removeOk then AvatarChange(user, objects, Failed("Failed to delete avatar"))
    else if !env.setOk then AvatarChange(user, objects - {OldPath(user.value.avatar.value)}, Failed("Failed to delete avatar"))
    else AvatarChange(Some(user.value.(avatar := None)), objects - {OldPath(user.value.avatar.value)},
                      AvatarRemoved("Avatar deleted successfully"))
  }

  /**
   * Saving and then deleting an avatar leaves the bucket as it was before the save (when the
   * upload created the file) and the account without an avatar.
   */
  lemma SaveThenDelete(user: Option<User>, objects: set<string>, file: Option<FileInfo>, env: StorageEnv, later: StorageEnv)
    requires SaveAvatarStep(user, objects, file, env).outcome.AvatarSet?
    requires '/' !in user.value.id && '?' !in user.value.id && '/' !in file.value.name && '?' !in file.value.name
    requires AvatarPath(user.value.id, env.now, file.value.name) !in objects
    requires later.removeOk && later.setOk && SignedIn(user, later.now)
    ensures var saved := SaveAvatarStep(user, objects, file, env);
      var deleted := DeleteAvatarStep(saved.user, saved.objects, later);
      && deleted.outcome.AvatarRemoved?
      && deleted.objects == objects
      && deleted.user.value.avatar.None?
  {
    var saved := SaveAvatarStep(user, objects, file, env);
    var path := AvatarPath(user.value.id, env.now, file.value.name);
    OldPathRoundTrip(env.base, user.value.id, env.now, file.value.name);
    assert OldPath(saved.user.value.avatar.value) == path;
    assert saved.objects - {path} == objects;
  }

  /** The upload and account update shared by save and edit. */
  method Upload(st: Stores, bucket: AvatarBucket, u: User, file: FileInfo, env: StorageEnv,
                uploadFailed: string, writeFailed: string, done: string) returns (o: AvatarOutcome)
    requires st.user == Some(u)
    modifies st, bucket
    ensures var r := UploadAvatar(u, old(bucket.objects), file, env, uploadFailed, writeFailed, done);
      st.user == r.user && bucket.objects == r.objects && o == r.outcome
    ensures st.cache == old(st.cache) && st.cookie == old(st.cookie) && st.outbox == old(st.outbox)
  {
    var path := AvatarPath(u.id, env.now, file.name);
    if !env.uploadOk {
      return Failed(uploadFailed);
    }
    bucket.objects := bucket.objects + {path};
    if !env.urlOk {
      return Failed("Failed to get public URL");
    }
    if !env.setOk {
      return Failed(writeFailed);
    }
    var url := AvatarUrl(env.base, path, env.now);
    st.user := Some(u.(avatar := Some(url)));
    o := AvatarSet(done, url);
  }

  /** Every avatar action leaves the session cache, cookie and mail untouched. */
  method SaveAvatar(st: Stores, bucket: AvatarBucket, file: Option<FileInfo>, env: StorageEnv) returns (o: AvatarOutcome)
    modifies st, bucket
    ensures var r := SaveAvatarStep(old(st.user), old(bucket.objects), file, env);
      st.user == r.user && bucket.objects == r.objects && o == r.outcome
    ensures st.cache == old(st.cache) && st.cookie == old(st.cookie) && st.outbox == old(st.outbox)
  {
    if !SignedIn(st.user, env.now) {
      return Failed("Not authenticated");
    }
    var error := CheckAvatarFile(file);
    if error.Some? {
      return Failed(error.value);
    }
    o := Upload(st, bucket, st.user.value, file.value, env, "Failed to upload avatar", "Failed to save avatar", "Avatar saved successfully");
  }

  method EditAvatar(st: Stores, bucket: AvatarBucket, file: Option<FileInfo>, env: StorageEnv) returns (o: AvatarOutcome)
    modifies st, bucket
    ensures var r := EditAvatarStep(old(st.user), old(bucket.objects), file, env);
      st.user == r.user && bucket.objects == r.objects && o == r.outcome
    ensures st.cache == old(st.cache) && st.cookie == old(st.cookie) && st.outbox == old(st.outbox)
  {
    if !SignedIn(st.user, env.now) {
      return Failed("Not authenticated");
    }
    var error := CheckAvatarFile(file);
    if error.Some? {
      return Failed(error.value);
    }
    var u := st.user.value;
    if HasAvatar(u) && env.removeOk {
      bucket.objects := bucket.objects - {OldPath(u.avatar.value)};
    }
    o := Upload(st, bucket, u, file.value, env, "Failed to upload new avatar", "Failed to edit avatar", "Avatar updated successfully");
  }

  method DeleteAvatar(st: Stores, bucket: AvatarBucket, env: StorageEnv) returns (o: AvatarOutcome)
    modifies st, bucket
    ensures var r := DeleteAvatarStep(old(st.user), old(bucket.objects), env);
      st.user == r.user && bucket.objects == r.objects && o == r.outcome
    ensures st.cache == old(st.cache) && st.cookie == old(st.cookie) && st.outbox == old(st.outbox)
  {
    if !SignedIn(st.user, env.now) {
      return Failed("Not authenticated");
    }
    var u := st.user.value;
    if !HasAvatar(u) {
      return Failed("No avatar to delete");
    }
    if !env.removeOk {
      return Failed("Failed to delete avatar");
    }
    bucket.objects := bucket.objects - {OldPath(u.avatar.value)};
    if !env.setOk {
      return Failed("Failed to delete avatar");
    }
    st.user := Some(u.(avatar := None));
    o := AvatarRemoved("Avatar deleted successfully");
  }
}
