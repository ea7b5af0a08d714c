/**
 * The signed-in user's profile: read it, or change its name, skills and
 * location and optionally its picture. Picture URLs are not user columns;
 * they live in a JSON file on disk that maps user ids (as text) to URLs.
 */
module Profile {
  import opened Wrappers
  import opened Http
  import Text
  import opened Schema
  import Auth
  import Upload

  /** The mapping file as the handlers find it: not there, there but not
      JSON, or a JSON object from id text to URL. */
  datatype MapFile = Absent | Garbled | Entries(urls: map<string, string>)

  /** What the handlers start from when they add an entry: a missing or
      unreadable file counts as the empty object. */
  function Loaded(f: MapFile): (m: map<string, string>)
    ensures f.Entries? ==> m == f.urls
    ensures !f.Entries? ==> m == map[]
  {
    if f.Entries? then f.urls else map[]
  }

  /** `map[String(id)] || null`, with any failure to read the file giving null. */
  function ImageUrlFor(f: MapFile, id: nat): (r: Option<string>)
    ensures r.Some? <==> Text.NatToString(id) in Loaded(f) && Loaded(f)[Text.NatToString(id)] != ""
    ensures r.Some? ==> r.value == Loaded(f)[Text.NatToString(id)]
  {
    var key := Text.NatToString(id);
    if key in Loaded(f) && Loaded(f)[key] != "" then Some(Loaded(f)[key]) else None
  }

  /** The disk under the uploads directory: the mapping file. */
  class ImageStore {
    var file: MapFile

    constructor (initial: MapFile)
      ensures file == initial
    {
      file := initial;
    }
  }

  /** The profile `getProfile` returns: every user column but the password,
      and the picture URL. */
  datatype ProfileView = ProfileView(
    id: nat, name: string, email: string, role: string, skills: Option<string>,
    location: Option<string>, createdAt: int, updatedAt: int, profileImageUrl: Option<string>)

  /** The profile `updateProfile` returns: no password and no timestamps. */
  datatype UpdatedView = UpdatedView(
    id: nat, name: string, email: string, role: string, skills: Option<string>,
    location: Option<string>, profileImageUrl: Option<string>)

  function ProfileOf(u: User, imageUrl: Option<string>): ProfileView {
    ProfileView(u.id, u.name, u.email, u.role, u.skills, u.location, u.createdAt, u.updatedAt, imageUrl)
  }

  /** GET /profile/me. Reads the user table and the mapping file, writes neither. */
  method GetProfile(users: UserTable, images: ImageStore, caller: Auth.Claims) returns (r: Reply<ProfileView>)
    requires users.Valid()
    ensures r.Fail? <==> caller.id !in users.rows
    ensures r.Fail? ==> r == Fail(404, "User not found")
    ensures r.Ok? ==> r == Ok(200, "", ProfileOf(users.rows[caller.id], ImageUrlFor(images.file, caller.id)))
  {
    if caller.id !in users.rows {
      return Fail(404, "User not found");
    }
    var u := users.rows[caller.id];
    r := Ok(200, "", ProfileOf(u, ImageUrlFor(images.file, u.id)));
  }

  /** The user after a partial update: the fields the body names take their
      new values, the store stamps the update time, and nothing else moves. */
  function Patched(u: User, name: Patch<string>, skills: Patch<Option<string>>,
                   location: Patch<Option<string>>, now: int): (v: User)
    ensures v.id == u.id && v.email == u.email && v.role == u.role && v.password == u.password
    ensures v.createdAt == u.createdAt && v.updatedAt == now
    ensures name.Keep? ==> v.name == u.name
    ensures skills.Keep? ==> v.skills == u.skills
    ensures location.Keep? ==> v.location == u.location
    ensures name.Set? ==> v.name == name.value
    ensures skills.Set? ==> v.skills == skills.value
    ensures location.Set? ==> v.location == location.value
  {
    u.(name := name.Apply(u.name), skills := skills.Apply(u.skills),
       location := location.Apply(u.location), updatedAt := now)
  }

  /** Replacing a user row by one with the same id and email keeps the table valid. */
  lemma KeepsTableValid(rows: map<nat, User>, nextId: nat, id: nat, v: User)
    requires id in rows && v.id == id && v.email == rows[id].email
    requires 1 <= nextId && forall k | k in rows :: rows[k].id == k && 1 <= k < nextId
    requires forall i, j | i in rows && j in rows && rows[i].email == rows[j].email :: i == j
    ensures var after := rows[id := v];
      && (forall k | k in after :: after[k].id == k && 1 <= k < nextId)
      && (forall i, j | i in after && j in after && after[i].email == after[j].email :: i == j)
  {
    var after := rows[id := v];
    forall i, j | i in after && j in after && after[i].email == after[j].email
      ensures i == j
    {
      assert after[i].email == rows[i].email && after[j].email == rows[j].email;
    }
  }

  /** PATCH /profile. A field the body leaves undefined is `Keep`; `upload`
      is the path multer stored the picture at, when one was sent. */
  method UpdateProfile(users: UserTable, images: ImageStore, caller: Auth.Claims,
                       name: Patch<string>, skills: Patch<Option<string>>, location: Patch<Option<string>>,
                       upload: Option<string>, now: int)
    returns (r: Reply<UpdatedView>)
    requires users.Valid()
    modifies users, images
    ensures users.Valid()
    ensures caller.id !in old(users.rows) ==>
      r == Fail(500, "Failed to update profile") && unchanged(users) && unchanged(images)
    ensures caller.id in old(users.rows) ==>
      && users.rows == old(users.rows)[caller.id := Patched(old(users.rows)[caller.id], name, skills, location, now)]
      && users.nextId == old(users.nextId)
      && (upload.None? ==> images.file == old(images.file))
      && (upload.Some? ==>
            images.file == Entries(Loaded(old(images.file))[Text.NatToString(caller.id) := "/uploads/" + Upload.BaseName(upload.value)]))
      && var v := users.rows[caller.id];
         r == Ok(200, "Profile updated",
                 UpdatedView(v.id, v.name, v.email, v.role, v.skills, v.location, ImageUrlFor(images.file, v.id)))
  {
    if caller.id !in users.rows {
      return Fail(500, "Failed to update profile");
    }
    var v := Patched(users.rows[caller.id], name, skills, location, now);
    KeepsTableValid(users.rows, users.nextId, caller.id, v);
    users.rows := users.rows[caller.id := v];
    assert users.Valid();
    if upload.Some? {
      var imageUrl := "/uploads/" + Upload.BaseName(upload.value);
      var m := Loaded(images.file);
      m := m[Text.NatToString(v.id) := imageUrl];
      images.file := Entries(m);
    }
    r := Ok(200, "Profile updated",
            UpdatedView(v.id, v.name, v.email, v.role, v.skills, v.location, ImageUrlFor(images.file, v.id)));
  }

  /** The picture entry of every other user survives an upload, even though
      the handler rewrites the whole file; an unreadable file is replaced by
      one holding only the new entry. */
  lemma UploadKeepsOtherEntries(f: MapFile, id: nat, other: nat, url: string)
    requires other != id
    ensures var after := Entries(Loaded(f)[Text.NatToString(id) := url]);
      && ImageUrlFor(after, other) == ImageUrlFor(f, other)
      && (!f.Entries? ==> after.urls.Keys == {Text.NatToString(id)})
  {
    if Text.NatToString(other) == Text.NatToString(id) {
      Text.NatToStringInjective(other, id);
    }
  }

  /** Uploading a picture and then reading the profile shows the picture
      under the name the upload filter gave it. */
  method UploadThenGetProfile(users: UserTable, images: ImageStore, caller: Auth.Claims,
                              uploadsDir: string, original: string, uploadedAt: nat, now: int)
    returns (updated: Reply<UpdatedView>, read: Reply<ProfileView>)
    requires users.Valid() && caller.id in users.rows
    modifies users, images
    ensures updated.Ok? && read.Ok?
    ensures updated.data.profileImageUrl == read.data.profileImageUrl
      == Some("/uploads/" + Upload.StoredFilename(uploadedAt, original))
  {
    var stored := Upload.StoredFilename(uploadedAt, original);
    Upload.StoredFilenameShape(uploadedAt, original);
    Upload.BaseNameOfJoin(uploadsDir, stored);
    var url := "/uploads/" + stored;
    updated := UpdateProfile(users, images, caller, Keep, Keep, Keep, Some(uploadsDir + "/" + stored), now);
    assert Loaded(images.file)[Text.NatToString(caller.id)] == url != "";
    assert updated.data.profileImageUrl == Some(url);
    read := GetProfile(users, images, caller);
  }
}
