/** The profile screen's two writes to users/{uid}
    (ui/usuario/PerfilUsuarioFragment.kt):
    - a profile save builds a fresh `Usuario` with no photo, reads the stored
      node once, carries a stored photo forward and replaces the whole node;
    - a photo save reads the stored node once and either writes it back with a
      new photo or, when there is no node or the read failed, sets only the
      `photoUrl` child. */
module Profile {
  import opened Wrappers
  import opened KotlinText
  import opened Records
  import opened Store

  /** The four text fields of the profile form, as typed. */
  datatype ProfileForm = ProfileForm(nome: string, endereco: string, cep: string, dataNascimento: string)

  /** How a profile save ends. */
  datatype ProfileOutcome =
    | NameMissing          // the trimmed name is empty
    | NoCurrentUser        // nobody is signed in
    | ProfileUpdateFailed  // the display-name update was refused
    | InvalidId            // the record to save has no key
    | Saved
    | SaveFailed

  function Lookup(users: map<string, Fields>, uid: string): Option<Fields> {
    if uid in users then Some(users[uid]) else None
  }

  function Base(stored: Option<Fields>): Fields {
    if stored.Some? then stored.value else map[]
  }

  // ---------------------------------------------------------------------------
  // Profile save: updateUser, updateProfile, saveUserToDatabase
  // ---------------------------------------------------------------------------

  /** `updateUser`'s guards and the record `updateProfile` builds: the fields
      are trimmed, an empty name stops first, then a signed-in user is needed;
      the record is keyed by the user's uid, carries the auth email and has no
      photo. */
  function PlanProfileSave(form: ProfileForm, user: Option<AuthUser>): (r: Result<Usuario, ProfileOutcome>)
    ensures Trim(form.nome) == [] ==> r == Err(NameMissing)
    ensures Trim(form.nome) != [] && user.None? ==> r == Err(NoCurrentUser)
    ensures Trim(form.nome) != [] && user.Some? ==> r.Ok?
    ensures r.Ok? ==> && r.value.key == Some(user.value.uid)
                      && r.value.email == user.value.email
                      && r.value.photoUrl == None
                      && r.value.nome == Some(Trim(form.nome)) && Trim(form.nome) != []
                      && r.value.endereco == Some(Trim(form.endereco))
                      && r.value.cep == Some(Trim(form.cep))
                      && r.value.dataNascimento == Some(Trim(form.dataNascimento))
  {
    var name := Trim(form.nome);
    if name == [] then Err(NameMissing)
    else if user.None? then Err(NoCurrentUser)
    else
      var u := user.value;
      Ok(Usuario(Some(u.uid), Some(name), u.email, Some(Trim(form.endereco)),
                 Some(Trim(form.cep)), Some(Trim(form.dataNascimento)), None))
  }

  /** The record `saveUserToDatabase` writes: the built record, with the
      stored photo carried forward when the read succeeded and the stored node
      has one. */
  function ProfileWritten(usuario: Usuario, read: ReadResult): (written: Usuario)
    ensures written.(photoUrl := usuario.photoUrl) == usuario
    ensures read.Read? && read.node.Some? && "photoUrl" in read.node.value ==>
      written.photoUrl == Some(read.node.value["photoUrl"])
    ensures !(read.Read? && read.node.Some? && "photoUrl" in read.node.value) ==> written == usuario
  {
    if read.Read? && read.node.Some? && FieldsToUsuario(read.node.value).photoUrl.Some? then
      usuario.(photoUrl := FieldsToUsuario(read.node.value).photoUrl)
    else
      usuario
  }

  /** The node stored after a successful profile save, given the node stored
      before and whether the read succeeded. */
  function ProfileNode(usuario: Usuario, stored: Option<Fields>, readOk: bool): (node: Fields)
    ensures node.Keys <= UsuarioFieldNames
    ensures FieldsToUsuario(node) == ProfileWritten(usuario, if readOk then Read(stored) else ReadFailed)
  {
    var written := ProfileWritten(usuario, if readOk then Read(stored) else ReadFailed);
    UsuarioRoundTrip(written);
    UsuarioToFields(written)
  }

  /** `saveUserToDatabase`: nothing is written without a key; otherwise one
      read, then one whole-node write. */
  method SaveUserToDatabase(store: UsersStore, usuario: Usuario, readOk: bool, writeOk: bool)
    returns (outcome: ProfileOutcome)
    modifies store
    ensures usuario.key.None? ==> outcome == InvalidId && store.users == old(store.users)
    ensures usuario.key.Some? ==>
      && outcome == (if writeOk then Saved else SaveFailed)
      && store.users == if writeOk
                        then old(store.users)[usuario.key.value :=
                               ProfileNode(usuario, Lookup(old(store.users), usuario.key.value), readOk)]
                        else old(store.users)
  {
    if usuario.key.None? {
      return InvalidId;
    }
    var key := usuario.key.value;
    var read := store.Get(key, readOk);
    var written := ProfileWritten(usuario, read);
    store.SetValue(key, UsuarioToFields(written), writeOk);
    outcome := if writeOk then Saved else SaveFailed;
  }

  /** `updateUser` followed by `updateProfile`: the record is saved only when
      the name is present, a user is signed in and the display-name update
      succeeded. */
  method UpdateUser(store: UsersStore, form: ProfileForm, user: Option<AuthUser>,
                    authUpdateOk: bool, readOk: bool, writeOk: bool)
    returns (outcome: ProfileOutcome)
    modifies store
    ensures outcome in {NameMissing, NoCurrentUser, ProfileUpdateFailed, SaveFailed}
            ==> store.users == old(store.users)
    ensures outcome != InvalidId
    ensures outcome == NameMissing <==> Trim(form.nome) == []
    ensures outcome == NoCurrentUser <==> Trim(form.nome) != [] && user.None?
    ensures outcome == ProfileUpdateFailed <==> Trim(form.nome) != [] && user.Some? && !authUpdateOk
    ensures outcome == Saved <==> Trim(form.nome) != [] && user.Some? && authUpdateOk && writeOk
    ensures outcome == SaveFailed <==> Trim(form.nome) != [] && user.Some? && authUpdateOk && !writeOk
    ensures outcome == Saved ==>
      var uid := user.value.uid;
      store.users == old(store.users)[uid :=
        ProfileNode(PlanProfileSave(form, user).value, Lookup(old(store.users), uid), readOk)]
  {
    var plan := PlanProfileSave(form, user);
    if plan.Err? {
      return plan.error;
    }
    if !authUpdateOk {
      return ProfileUpdateFailed;
    }
    outcome := SaveUserToDatabase(store, plan.value, readOk, writeOk);
  }

  /** A stored photo survives a profile save whose read succeeded; every other
      child comes from the form's record. */
  lemma ProfileSaveKeepsStoredPhoto(usuario: Usuario, stored: Fields)
    requires "photoUrl" in stored
    ensures ProfileNode(usuario, Some(stored), true)
         == UsuarioToFields(usuario.(photoUrl := Some(stored["photoUrl"])))
    ensures FieldsToUsuario(ProfileNode(usuario, Some(stored), true)).photoUrl == Some(stored["photoUrl"])
  {
  }

  /** With no stored node, no stored photo, or a failed read, the built
      record replaces the node as it is: for a record built by the profile
      screen, that means no photo at all. */
  lemma ProfileSaveWithoutStoredPhoto(usuario: Usuario, stored: Option<Fields>, readOk: bool)
    requires !readOk || stored.None? || "photoUrl" !in stored.value
    ensures ProfileNode(usuario, stored, readOk) == UsuarioToFields(usuario)
    ensures usuario.photoUrl.None? ==> "photoUrl" !in ProfileNode(usuario, stored, readOk)
  {
    var node := UsuarioToFields(usuario);
    assert FieldsToUsuario(node) == usuario;
  }

  /** A profile save replaces the whole node: besides the photo, nothing of
      the stored node survives, and no child outside `Usuario` remains. */
  lemma ProfileSaveReplacesNode(usuario: Usuario, s1: Fields, s2: Fields, readOk: bool)
    requires Field(s1, "photoUrl") == Field(s2, "photoUrl")
    ensures ProfileNode(usuario, Some(s1), readOk) == ProfileNode(usuario, Some(s2), readOk)
    ensures ProfileNode(usuario, Some(s1), readOk).Keys <= UsuarioFieldNames
  {
  }

  // ---------------------------------------------------------------------------
  // Photo save: updateUserPhotoBase64
  // ---------------------------------------------------------------------------

  /** The node stored after a successful photo save, as the code is written:
      with a node read back, it is deserialised into a `Usuario`, given the
      photo and written back whole; otherwise only the `photoUrl` child is
      set, on whatever node is stored. */
  function PhotoNodeAsWritten(stored: Option<Fields>, readOk: bool, photo: string): (node: Fields)
    ensures readOk && stored.Some? ==>
      && node.Keys <= UsuarioFieldNames
      && FieldsToUsuario(node) == FieldsToUsuario(stored.value).(photoUrl := Some(photo))
    ensures !(readOk && stored.Some?) ==> node == PhotoNodeIntended(stored, photo)
  {
    if readOk && stored.Some? then
      var written := FieldsToUsuario(stored.value).(photoUrl := Some(photo));
      UsuarioRoundTrip(written);
      UsuarioToFields(written)
    else
      Base(stored)["photoUrl" := photo]
  }

  /** A photo save that changes only the photo: the stored node with its
      `photoUrl` child set. */
  function PhotoNodeIntended(stored: Option<Fields>, photo: string): (node: Fields)
    ensures node.Keys == Base(stored).Keys + {"photoUrl"}
    ensures node["photoUrl"] == photo
    ensures forall k :: k in Base(stored) && k != "photoUrl" ==> node[k] == Base(stored)[k]
  {
    Base(stored)["photoUrl" := photo]
  }

  /** `updateUserPhotoBase64`: nothing happens without a signed-in user;
      otherwise one read and then one write. */
  method UpdateUserPhotoBase64(store: UsersStore, user: Option<AuthUser>, photo: string,
                               readOk: bool, writeOk: bool)
    modifies store
    ensures user.None? || !writeOk ==> store.users == old(store.users)
    ensures user.Some? && writeOk ==>
      var uid := user.value.uid;
      store.users == old(store.users)[uid := PhotoNodeAsWritten(Lookup(old(store.users), uid), readOk, photo)]
  {
    if user.None? {
      return;
    }
    var uid := user.value.uid;
    var read := store.Get(uid, readOk);
    if read.Read? && read.node.Some? {
      var usuario := FieldsToUsuario(read.node.value);
      usuario := usuario.(photoUrl := Some(photo));
      store.SetValue(uid, UsuarioToFields(usuario), writeOk);
    } else {
      store.SetChild(uid, "photoUrl", photo, writeOk);
    }
  }

  /** The photo save as documented: a single child write, which keeps every
      other child of the node, whatever wrote it. */
  method UpdateUserPhotoPreserving(store: UsersStore, user: Option<AuthUser>, photo: string, writeOk: bool)
    modifies store
    ensures user.None? || !writeOk ==> store.users == old(store.users)
    ensures user.Some? && writeOk ==>
      var uid := user.value.uid;
      store.users == old(store.users)[uid := PhotoNodeIntended(Lookup(old(store.users), uid), photo)]
  {
    if user.None? {
      return;
    }
    store.SetChild(user.value.uid, "photoUrl", photo, writeOk);
  }

  /** A photo saved by the documented update survives a later profile save
      whose read succeeds, as it does with the code as written. */
  lemma IntendedPhotoSurvivesProfileSave(stored: Option<Fields>, photo: string, usuario: Usuario)
    ensures var n := PhotoNodeIntended(stored, photo);
            FieldsToUsuario(ProfileNode(usuario, Some(n), true)) == usuario.(photoUrl := Some(photo))
  {
    var n := PhotoNodeIntended(stored, photo);
    ProfileSaveKeepsStoredPhoto(usuario, n);
  }

  /** Seen through the `Usuario` class, every branch of the photo save
      changes the photo and nothing else. */
  lemma PhotoSaveChangesOnlyPhoto(stored: Option<Fields>, readOk: bool, photo: string)
    ensures FieldsToUsuario(PhotoNodeAsWritten(stored, readOk, photo))
         == FieldsToUsuario(Base(stored)).(photoUrl := Some(photo))
  {
    FieldsToUsuarioUpdatePhoto(Base(stored), photo);
  }

  /** On a node that holds only `Usuario` children (every node the profile
      screen itself writes), the code as written is the intended child update. */
  lemma PhotoSaveOnProfileNode(stored: Option<Fields>, readOk: bool, photo: string)
    requires stored.Some? ==> stored.value.Keys <= UsuarioFieldNames
    ensures PhotoNodeAsWritten(stored, readOk, photo) == PhotoNodeIntended(stored, photo)
  {
    if readOk && stored.Some? {
      UsuarioNodeRoundTrip(stored.value);
      UsuarioNodeRoundTrip(stored.value["photoUrl" := photo]);
      FieldsToUsuarioUpdatePhoto(stored.value, photo);
    }
  }

  /** On the node that registration writes (uid, name, email, phone), the photo
      save as written keeps only the email and the photo: uid, name and phone
      are lost, although the intended update keeps them. */
  lemma PhotoSaveDropsRegistrationFields(u: User, photo: string)
    ensures PhotoNodeAsWritten(Some(UserToFields(u)), true, photo) == map["email" := u.email, "photoUrl" := photo]
    ensures "name" !in PhotoNodeAsWritten(Some(UserToFields(u)), true, photo)
    ensures PhotoNodeIntended(Some(UserToFields(u)), photo)["name"] == u.name
  {
    UserNodeAsUsuario(u);
    var node := PhotoNodeAsWritten(Some(UserToFields(u)), true, photo);
    assert node.Keys == {"email", "photoUrl"};
  }

  /** The point of the merge: a photo, once saved, survives a later profile
      save whose read succeeds, and the rest of the node is the form's. */
  lemma PhotoSurvivesProfileSave(stored: Option<Fields>, readOk: bool, photo: string, usuario: Usuario)
    ensures var n := PhotoNodeAsWritten(stored, readOk, photo);
            FieldsToUsuario(ProfileNode(usuario, Some(n), true)) == usuario.(photoUrl := Some(photo))
  {
    var n := PhotoNodeAsWritten(stored, readOk, photo);
    PhotoSaveChangesOnlyPhoto(stored, readOk, photo);
    assert "photoUrl" in n;
    ProfileSaveKeepsStoredPhoto(usuario, n);
  }

  /** The documented degraded path: when the profile save's read fails, the
      stored photo is dropped. */
  lemma FailedReadDropsPhoto(stored: Option<Fields>, readOk: bool, photo: string, form: ProfileForm, user: AuthUser)
    requires Trim(form.nome) != []
    ensures var n := PhotoNodeAsWritten(stored, readOk, photo);
            "photoUrl" !in ProfileNode(PlanProfileSave(form, Some(user)).value, Some(n), false)
  {
    var n := PhotoNodeAsWritten(stored, readOk, photo);
    ProfileSaveWithoutStoredPhoto(PlanProfileSave(form, Some(user)).value, Some(n), false);
  }
}
