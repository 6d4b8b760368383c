/** The profile service: uploading and deleting a user's avatar picture. The file system is
    outside the model except for two things the service does to it: the files it asks to remove
    (kept, in order, in `removed`) and the step of the upload, if any, that fails. The random
    file name (a UUID) and `filepath.Join` are library code and reach the service as a parameter
    and a function. */
module ProfileService {
  import opened Base
  import opened Models
  import opened Errors
  import opened Store
  import opened Text

  /** `config.UploadConfig`: where avatars go, the largest size accepted in bytes, and the
      accepted extensions without their dot. */
  datatype UploadConfig = UploadConfig(path: string, maxSize: int, allowedTypes: seq<string>)

  /** The part of a `multipart.FileHeader` the service reads. */
  datatype FileHeader = FileHeader(filename: string, size: int)

  /** The file-system steps of an upload, in the order the service takes them. */
  datatype DiskStep = MakeDirectory | OpenUpload | CreateDestination | CopyContent

  /** `dto.AvatarResponse`. */
  datatype AvatarResponse = AvatarResponse(avatarUrl: string)

  const DiskFailure: Error := Failure("i/o error")

  /** The text `UploadAvatar` wraps the failure of each disk step in. */
  function DiskContext(step: DiskStep): string {
    match step
    case MakeDirectory => "failed to create upload directory"
    case OpenUpload => "failed to open uploaded file"
    case CreateDestination => "failed to create destination file"
    case CopyContent => "failed to save file"
  }

  /** `filepath.Ext` on a slash-separated path: the suffix from the last dot of the last
      element, or the empty string when that element has no dot. */
  function Ext(path: string): (e: string)
    ensures |e| <= |path| && e == path[|path| - |e|..]
    ensures e == [] || (e[0] == '.' && '/' !in e && '.' !in e[1..])
    ensures e == [] ==> forall i :: 0 <= i < |path| && '/' !in path[i..] ==> path[i] != '.'
    decreases |path|
  {
    if path == [] then []
    else
      var last := path[|path| - 1];
      if last == '/' then []
      else if last == '.' then "."
      else
        var e := Ext(path[..|path| - 1]);
        if e == [] then [] else e + [last]
  }

  /** An extension is accepted when it is one of the configured types with a dot before it. */
  predicate Allowed(types: seq<string>, ext: string) {
    exists i :: 0 <= i < |types| && ext == "." + types[i]
  }

  /** The URL the avatar saved at `savePath` is served under. */
  function AvatarUrl(savePath: string): (url: string)
    ensures HasPrefix(url, "/") && url[1..] == savePath
  {
    "/" + savePath
  }

  /** A stored avatar URL that names a file (not nil and not empty). */
  predicate HasAvatar(u: User) {
    u.avatarUrl.Some? && u.avatarUrl.value != ""
  }

  /** The files `os.Remove` is asked to delete when the avatar of `u` is replaced or deleted. */
  function OldAvatarFiles(u: User): (files: seq<string>)
    ensures |files| <= 1
    ensures files != [] <==> HasAvatar(u)
  {
    if HasAvatar(u) then [TrimPrefix(u.avatarUrl.value, "/")] else []
  }

  class ProfileService {
    const db: Database
    const config: UploadConfig
    /** `filepath.Join`. */
    const join: (string, string) -> string
    /** The paths the service has handed to `os.Remove`, oldest first. */
    var removed: seq<string>

    constructor (db: Database, config: UploadConfig, join: (string, string) -> string)
      ensures this.db == db && this.config == config && this.join == join && removed == []
    {
      this.db, this.config, this.join := db, config, join;
      removed := [];
    }

    /** Where an upload with this random name and extension is written. */
    function SavePath(name: string, ext: string): string {
      join(config.path, name + ext)
    }

    /** `isAllowedType`: a linear search of the configured types. */
    method IsAllowedType(ext: string) returns (ok: bool)
      ensures ok <==> Allowed(config.allowedTypes, ext)
    {
      var types := config.allowedTypes;
      var i := 0;
      while i < |types|
        invariant 0 <= i <= |types|
        invariant forall j :: 0 <= j < i ==> ext != "." + types[j]
      {
        if ext == "." + types[i] {
          return true;
        }
        i := i + 1;
      }
      return false;
    }

    /** `UploadAvatar`: the size is checked first, then the lower-cased extension, then the
        user; a previous avatar file is removed before the new one is written; a failure of the
        final update removes the new file again. `name` is the random file name and `failure`
        the first disk step that fails, if any. */
    method UploadAvatar(userId: nat, file: FileHeader, name: string, failure: Option<DiskStep>)
      returns (r: Result<AvatarResponse, Error>)
      requires db.Valid()
      modifies this, db
      ensures db.Valid()
      ensures db.socials == old(db.socials) && db.categories == old(db.categories)
      ensures db.failing == old(db.failing)
      ensures file.size > config.maxSize ==> r == Err(FileTooLarge) && unchanged(this, db)
      ensures file.size <= config.maxSize && !Allowed(config.allowedTypes, ToLower(Ext(file.filename))) ==>
                r == Err(InvalidFileType) && unchanged(this, db)
      ensures (file.size <= config.maxSize && Allowed(config.allowedTypes, ToLower(Ext(file.filename)))
               && FindUser !in old(db.failing) && userId !in old(db.users)) ==>
                r == Err(UserNotFound) && unchanged(this, db)
      ensures (file.size <= config.maxSize && Allowed(config.allowedTypes, ToLower(Ext(file.filename)))
               && FindUser in old(db.failing)) ==>
                r == Err(Wrapped("failed to find user", DatabaseError)) && unchanged(this, db)
      ensures r.Err? ==> db.users == old(db.users)
      ensures failure.Some? ==> r.Err?
      ensures (file.size <= config.maxSize && Allowed(config.allowedTypes, ToLower(Ext(file.filename)))
               && FindUser !in old(db.failing) && userId in old(db.users) && failure.Some?) ==>
                r == Err(Wrapped(DiskContext(failure.value), DiskFailure))
                && removed == old(removed) + OldAvatarFiles(old(db.users)[userId])
                              + (if failure.value == CopyContent
                                 then [SavePath(name, ToLower(Ext(file.filename)))] else [])
      ensures (file.size <= config.maxSize && Allowed(config.allowedTypes, ToLower(Ext(file.filename)))
               && FindUser !in old(db.failing) && userId in old(db.users) && failure.None?
               && SaveUser in old(db.failing)) ==>
                r == Err(Wrapped("failed to update user avatar", DatabaseError))
                && removed == old(removed) + OldAvatarFiles(old(db.users)[userId])
                              + [SavePath(name, ToLower(Ext(file.filename)))]
      ensures r.Ok? ==>
                file.size <= config.maxSize && Allowed(config.allowedTypes, ToLower(Ext(file.filename)))
                && userId in old(db.users)
                && r.value.avatarUrl == AvatarUrl(SavePath(name, ToLower(Ext(file.filename))))
                && db.users == old(db.users)[userId := old(db.users)[userId].(avatarUrl := Some(r.value.avatarUrl))]
                && removed == old(removed) + OldAvatarFiles(old(db.users)[userId])
      ensures (file.size <= config.maxSize && Allowed(config.allowedTypes, ToLower(Ext(file.filename)))
               && FindUser !in old(db.failing) && userId in old(db.users)
               && failure.None? && SaveUser !in old(db.failing)) ==> r.Ok?
    {
      if file.size > config.maxSize {
        return Err(FileTooLarge);
      }
      var ext := ToLower(Ext(file.filename));
      var ok := IsAllowedType(ext);
      if !ok {
        return Err(InvalidFileType);
      }
      var found := db.FindUserById(userId);
      if found.Err? {
        if Is(found.error, RecordNotFound) {
          return Err(UserNotFound);
        }
        return Err(Wrapped("failed to find user", found.error));
      }
      r := ReplaceAvatar(found.value, SavePath(name, ext), failure);
    }

    /** The part of `UploadAvatar` after the user is found: the old file is removed, the new one
        written to `savePath` (unless the disk step `failure` fails) and the user row saved. */
    method ReplaceAvatar(user: User, savePath: string, failure: Option<DiskStep>)
      returns (r: Result<AvatarResponse, Error>)
      requires db.Valid() && user.id in db.users && db.users[user.id] == user
      modifies this, db
      ensures db.Valid()
      ensures db.socials == old(db.socials) && db.categories == old(db.categories)
      ensures db.failing == old(db.failing)
      ensures failure.Some? ==>
                r == Err(Wrapped(DiskContext(failure.value), DiskFailure)) && db.users == old(db.users)
                && removed == old(removed) + OldAvatarFiles(user)
                              + (if failure.value == CopyContent then [savePath] else [])
      ensures failure.None? && SaveUser in old(db.failing) ==>
                r == Err(Wrapped("failed to update user avatar", DatabaseError)) && db.users == old(db.users)
                && removed == old(removed) + OldAvatarFiles(user) + [savePath]
      ensures failure.None? && SaveUser !in old(db.failing) ==>
                r == Ok(AvatarResponse(AvatarUrl(savePath)))
                && db.users == old(db.users)[user.id := user.(avatarUrl := Some(AvatarUrl(savePath)))]
                && removed == old(removed) + OldAvatarFiles(user)
    {
      if user.avatarUrl.Some? && user.avatarUrl.value != "" {
        removed := removed + [TrimPrefix(user.avatarUrl.value, "/")];
      }
      if failure.Some? {
        if failure.value == CopyContent {
          removed := removed + [savePath];
        }
        return Err(Wrapped(DiskContext(failure.value), DiskFailure));
      }
      var avatarUrl := "/" + savePath;
      var saved := db.SaveUserRow(user.(avatarUrl := Some(avatarUrl)));
      if saved.Some? {
        removed := removed + [savePath];
        return Err(Wrapped("failed to update user avatar", saved.value));
      }
      r := Ok(AvatarResponse(avatarUrl));
    }

    /** `DeleteAvatar`: the stored file is removed and the URL cleared; a user without an
        avatar gets `NoAvatar`. */
    method DeleteAvatar(userId: nat) returns (r: Option<Error>)
      requires db.Valid()
      modifies this, db
      ensures db.Valid()
      ensures db.socials == old(db.socials) && db.categories == old(db.categories)
      ensures db.failing == old(db.failing)
      ensures FindUser !in old(db.failing) && userId !in old(db.users) ==>
                r == Some(UserNotFound) && unchanged(this, db)
      ensures FindUser !in old(db.failing) && userId in old(db.users) && !HasAvatar(old(db.users)[userId]) ==>
                r == Some(NoAvatar) && unchanged(this, db)
      ensures FindUser in old(db.failing) ==>
                r == Some(Wrapped("failed to find user", DatabaseError)) && unchanged(this, db)
      ensures (FindUser !in old(db.failing) && userId in old(db.users) && HasAvatar(old(db.users)[userId])
               && SaveUser in old(db.failing)) ==>
                r == Some(Wrapped("failed to update user", DatabaseError))
                && removed == old(removed) + OldAvatarFiles(old(db.users)[userId])
      ensures r.Some? ==> db.users == old(db.users)
      ensures r.None? ==>
                userId in old(db.users) && HasAvatar(old(db.users)[userId])
                && db.users == old(db.users)[userId := old(db.users)[userId].(avatarUrl := None)]
                && removed == old(removed) + OldAvatarFiles(old(db.users)[userId])
      ensures (FindUser !in old(db.failing) && userId in old(db.users) && HasAvatar(old(db.users)[userId])
               && SaveUser !in old(db.failing)) ==> r.None?
    {
      var found := db.FindUserById(userId);
      if found.Err? {
        if Is(found.error, RecordNotFound) {
          return Some(UserNotFound);
        }
        return Some(Wrapped("failed to find user", found.error));
      }
      var user := found.value;
      if user.avatarUrl.None? || user.avatarUrl.value == "" {
        return Some(NoAvatar);
      }
      removed := removed + [TrimPrefix(user.avatarUrl.value, "/")];
      user := user.(avatarUrl := None);
      var saved := db.SaveUserRow(user);
      if saved.Some? {
        return Some(Wrapped("failed to update user", saved.value));
      }
      r := None;
    }
  }

  /** A file name ending in a dot and a suffix without dots or slashes has that extension. */
  lemma {:induction false} ExtOfName(stem: string, suffix: string)
    requires '.' !in suffix && '/' !in suffix
    ensures Ext(stem + "." + suffix) == "." + suffix
    decreases |suffix|
  {
    if suffix != [] {
      var path := stem + "." + suffix;
      var shorter := suffix[..|suffix| - 1];
      assert path[..|path| - 1] == stem + "." + shorter;
      ExtOfName(stem, shorter);
      assert "." + shorter + [suffix[|suffix| - 1]] == "." + suffix;
    } else {
      assert (stem + "." + suffix)[|stem + "." + suffix| - 1] == '.';
    }
  }

  /** The extension check ignores case: `photo.PNG` is accepted when `png` is configured. */
  lemma ExtensionCaseIgnored(stem: string, suffix: string, types: seq<string>)
    requires '.' !in suffix && '/' !in suffix
    requires Allowed(types, ToLower("." + suffix))
    ensures Allowed(types, ToLower(Ext(stem + "." + ToUpper(suffix))))
  {
    ExtOfName(stem, ToUpper(suffix));
    LowerOfUpper(suffix);
    ToLowerAppend(".", ToUpper(suffix));
    ToLowerAppend(".", suffix);
  }

  /** Lower-casing forgets an earlier upper-casing. */
  lemma LowerOfUpper(s: string)
    ensures ToLower(ToUpper(s)) == ToLower(s)
  {
    forall i | 0 <= i < |s| ensures ToLower(ToUpper(s))[i] == ToLower(s)[i] {
      assert LowerChar(UpperChar(s[i])) == LowerChar(s[i]);
    }
  }

  /** The file a later replacement or deletion removes is the one the upload wrote: the stored
      URL leads back to the save path. */
  lemma StoredAvatarRemovable(u: User, savePath: string)
    ensures OldAvatarFiles(u.(avatarUrl := Some(AvatarUrl(savePath)))) == [savePath]
  {
  }
}
