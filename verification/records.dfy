/** The app's record types and how a users/{uid} node is serialised.

    The backend stores a record as a set of named children; a Kotlin property
    that is `null` is not stored at all. Every property of the user-side
    records is a string, so a stored user node is a `Fields` map from child
    name to value. Deserialising into a class fills the properties whose names
    match a child and ignores every other child. */
module Records {
  import opened Wrappers

  /** A workout (baseclasses/Treino.kt). */
  datatype Treino = Treino(
    key: Option<string>,
    userId: Option<string>,
    nomeTreino: Option<string>,
    exercicios: Option<string>,
    series: Option<int>,
    repeticoes: Option<int>,
    observacoes: Option<string>)

  /** The profile record written by the profile screen (baseclasses/Usuario.kt). */
  datatype Usuario = Usuario(
    key: Option<string>,
    nome: Option<string>,
    email: Option<string>,
    endereco: Option<string>,
    cep: Option<string>,
    dataNascimento: Option<string>,
    photoUrl: Option<string>)

  /** The record written at registration (model/User.kt). */
  datatype User = User(uid: string, name: string, email: string, phone: string)

  /** The signed-in principal, as far as the app reads it. */
  datatype AuthUser = AuthUser(uid: string, email: Option<string>, displayName: Option<string>)

  /** The trimmed e-mail and password handed to the auth backend. */
  datatype Credentials = Credentials(email: string, password: string)

  /** A stored node: child name to value; absent means null. */
  type Fields = map<string, string>

  const UsuarioFieldNames: set<string> :=
    {"key", "nome", "email", "endereco", "cep", "dataNascimento", "photoUrl"}

  const UserFieldNames: set<string> := {"uid", "name", "email", "phone"}

  /** A child as a nullable value. */
  function Field(f: Fields, name: string): (v: Option<string>)
    ensures v.Some? <==> name in f
    ensures v.Some? ==> v.value == f[name]
  {
    if name in f then Some(f[name]) else None
  }

  /** The property of `u` stored under the child `name`; null for a name
      that is not a property of `Usuario`. */
  function UsuarioProperty(u: Usuario, name: string): Option<string> {
    if name == "key" then u.key
    else if name == "nome" then u.nome
    else if name == "email" then u.email
    else if name == "endereco" then u.endereco
    else if name == "cep" then u.cep
    else if name == "dataNascimento" then u.dataNascimento
    else if name == "photoUrl" then u.photoUrl
    else None
  }

  /** Storing a `Usuario`: its non-null properties become the node's children. */
  function UsuarioToFields(u: Usuario): (f: Fields)
    ensures f.Keys <= UsuarioFieldNames
    ensures forall name :: name in f <==> name in UsuarioFieldNames && UsuarioProperty(u, name).Some?
  {
    map name | name in UsuarioFieldNames && UsuarioProperty(u, name).Some? :: UsuarioProperty(u, name).value
  }

  /** Reading an existing node as a `Usuario`: each property is the child of
      the same name, null when the node has none; other children are ignored. */
  function FieldsToUsuario(f: Fields): (u: Usuario)
    ensures forall name :: name in UsuarioFieldNames ==> UsuarioProperty(u, name) == Field(f, name)
  {
    assert "cep" != "key" by { assert "cep"[0] != "key"[0]; }
    assert "photoUrl" != "endereco" by { assert "photoUrl"[0] != "endereco"[0]; }
    Usuario(Field(f, "key"), Field(f, "nome"), Field(f, "email"), Field(f, "endereco"),
            Field(f, "cep"), Field(f, "dataNascimento"), Field(f, "photoUrl"))
  }

  /** Reading back a stored `Usuario` gives the same record. */
  lemma UsuarioRoundTrip(u: Usuario)
    ensures FieldsToUsuario(UsuarioToFields(u)) == u
  {
    var f := UsuarioToFields(u);
    assert Field(f, "key") == u.key;
    assert Field(f, "nome") == u.nome;
    assert Field(f, "email") == u.email;
    assert Field(f, "endereco") == u.endereco;
    assert Field(f, "cep") == u.cep by {
      assert "cep" != "key" by { assert "cep"[0] != "key"[0]; }
    }
    assert Field(f, "dataNascimento") == u.dataNascimento;
    assert Field(f, "photoUrl") == u.photoUrl by {
      assert "photoUrl" != "endereco" by { assert "photoUrl"[0] != "endereco"[0]; }
    }
  }

  /** A node holding only `Usuario` children survives a read followed by a
      write unchanged. */
  lemma UsuarioNodeRoundTrip(f: Fields)
    requires f.Keys <= UsuarioFieldNames
    ensures UsuarioToFields(FieldsToUsuario(f)) == f
  {
    var g := UsuarioToFields(FieldsToUsuario(f));
    assert forall name :: name in UsuarioFieldNames ==> (name in g <==> name in f);
    assert g.Keys == f.Keys;
  }

  /** Changing one child changes only that property of the deserialised record. */
  lemma FieldsToUsuarioUpdatePhoto(f: Fields, p: string)
    ensures FieldsToUsuario(f["photoUrl" := p]) == FieldsToUsuario(f).(photoUrl := Some(p))
  {
  }

  /** Storing a registration `User`: all four properties become children. */
  function UserToFields(u: User): (f: Fields)
    ensures f.Keys == UserFieldNames
    ensures f["uid"] == u.uid && f["name"] == u.name && f["email"] == u.email && f["phone"] == u.phone
  {
    assert "email"[0] != "phone"[0];
    map["uid" := u.uid, "name" := u.name, "email" := u.email, "phone" := u.phone]
  }

  /** Of the four children of a registration node, only `email` is a
      property of `Usuario`. */
  lemma RegistrationChildrenNotUsuario()
    ensures UserFieldNames * UsuarioFieldNames == {"email"}
  {
    assert "uid" !in UsuarioFieldNames by { assert "uid"[0] != "key"[0] && "uid"[0] != "cep"[0]; }
    assert "name" !in UsuarioFieldNames by { assert "name"[1] != "nome"[1]; }
    assert "phone" !in UsuarioFieldNames by { assert "phone"[0] != "email"[0]; }
  }

  /** Read through the profile screen's class, a registration node shows only
      its email: uid, name and phone have no matching property. */
  lemma UserNodeAsUsuario(u: User)
    ensures FieldsToUsuario(UserToFields(u))
         == Usuario(None, None, Some(u.email), None, None, None, None)
  {
    assert "key"[0] != "uid"[0] && "cep"[0] != "uid"[0];
    assert "nome"[1] != "name"[1];
  }
}
