/**
 * User administration (AuthService over the `user` table): registration,
 * login, profile updates, deletion with the last-administrator rule, and
 * the start-up seeding of the two built-in accounts. Password hashing
 * is salted, so a hash arrives as a parameter; the hash comparison and the
 * token signer are parameters too.
 */
module Auth {
  import opened Wrappers
  import opened Errors
  import opened Table

  /** A row of `user`; `password` holds the stored hash. */
  datatype User = User(name: string, email: string, password: string, rol: string)

  datatype RegisterDto = RegisterDto(name: string, email: string, password: string)
  datatype LoginDto = LoginDto(email: string, password: string)

  /** The JWT payload: `sub` is the user's id. */
  datatype Payload = Payload(sub: int, email: string, name: string, rol: string)

  /** What `login` returns. */
  datatype Sesion = Sesion(accessToken: string, email: string, name: string, rol: string)

  /** The body of a user update: fields present overwrite. */
  datatype UserPatch = UserPatch(
    name: Option<string>,
    email: Option<string>,
    password: Option<string>,
    rol: Option<string>)

  type Usuarios = seq<Row<User>>

  const Admin: string := "admin"

  /** `findOneByEmail(email)`: the first user with that email, if any. */
  function FindOneByEmail(rows: Usuarios, email: string): (r: Option<Row<User>>)
    ensures r.Some? ==> r.value in rows && r.value.val.email == email
    ensures r.None? <==> forall i :: 0 <= i < |rows| ==> rows[i].val.email != email
  {
    FirstWhere(rows, (u: User) => u.email == email)
  }

  /** `findOne(id)`: the user, or NotFound "Usuario con ID <id> no encontrado". */
  function FindOne(rows: Usuarios, id: int): (r: Result<Row<User>>)
    ensures r.Ok? <==> id in Ids(rows)
    ensures r.Ok? ==> r.value in rows && r.value.id == id
    ensures r.Err? ==> r.error == UsuarioNoEncontrado(id)
  {
    match Find(rows, id)
    case None => Err(UsuarioNoEncontrado(id))
    case Some(row) => Ok(row)
  }

  /** The UNIQUE constraint on `email`. */
  ghost predicate EmailsUnicos(rows: Usuarios) {
    forall i, j :: 0 <= i < j < |rows| ==> rows[i].val.email != rows[j].val.email
  }

  /** `allUsers.filter(u => u.rol === 'admin').length`. */
  function AdminCount(rows: Usuarios): (n: nat)
    ensures n <= |rows|
  {
    if rows == [] then 0 else (if rows[0].val.rol == Admin then 1 else 0) + AdminCount(rows[1..])
  }

  // -----------------------------------------------------------------------
  // register / login
  // -----------------------------------------------------------------------

  /** The user `register` stores under key `nextId`, or "El email ya existe". */
  function Registrar(rows: Usuarios, nextId: int, dto: RegisterDto, hashed: string): (r: Result<Row<User>>)
    ensures r.Err? <==> exists i :: 0 <= i < |rows| && rows[i].val.email == dto.email
    ensures r.Err? ==> r.error == EmailYaExiste
    ensures r.Ok? ==> r.value == Row(nextId, User(dto.name, dto.email, hashed, "cajero"))
  {
    if FindOneByEmail(rows, dto.email).Some? then Err(EmailYaExiste)
    else Ok(Row(nextId, User(dto.name, dto.email, hashed, "cajero")))
  }

  /** `login(dto)` with `compare` for bcrypt's check and `sign` for the JWT signer. */
  function Login(rows: Usuarios, dto: LoginDto, compare: (string, string) -> bool, sign: Payload -> string)
    : (r: Result<Sesion>)
    ensures FindOneByEmail(rows, dto.email).None? ==> r == Err(EmailInvalido)
    ensures FindOneByEmail(rows, dto.email).Some? ==>
              var u := FindOneByEmail(rows, dto.email).value.val;
              !compare(dto.password, u.password) ==> r == Err(ContrasenaInvalida)
    ensures FindOneByEmail(rows, dto.email).Some? ==>
              var u := FindOneByEmail(rows, dto.email).value;
              compare(dto.password, u.val.password) ==>
                r == Ok(Sesion(sign(Payload(u.id, u.val.email, u.val.name, u.val.rol)), u.val.email, u.val.name, u.val.rol))
    ensures r.Ok? ==>
              exists i :: 0 <= i < |rows| &&
                rows[i].val.email == dto.email &&
                compare(dto.password, rows[i].val.password) &&
                r.value == Sesion(sign(Payload(rows[i].id, rows[i].val.email, rows[i].val.name, rows[i].val.rol)),
                                  rows[i].val.email, rows[i].val.name, rows[i].val.rol)
  {
    match FindOneByEmail(rows, dto.email)
    case None => Err(EmailInvalido)
    case Some(u) =>
      if !compare(dto.password, u.val.password) then Err(ContrasenaInvalida)
      else
        var payload := Payload(u.id, u.val.email, u.val.name, u.val.rol);
        Ok(Sesion(sign(payload), u.val.email, u.val.name, u.val.rol))
  }

  /**
   * Register then log in: a user who registered and presents a password
   * the hash check accepts gets a session as `cajero` whose token signs
   * the new key.
   */
  lemma LoginTrasRegistro(rows: Usuarios, nextId: int, dto: RegisterDto, hashed: string,
                          compare: (string, string) -> bool, sign: Payload -> string)
    requires Registrar(rows, nextId, dto, hashed).Ok?
    requires compare(dto.password, hashed)
    ensures Login(rows + [Registrar(rows, nextId, dto, hashed).value], LoginDto(dto.email, dto.password), compare, sign)
            == Ok(Sesion(sign(Payload(nextId, dto.email, dto.name, "cajero")), dto.email, dto.name, "cajero"))
  {
    var nuevo := Registrar(rows, nextId, dto, hashed).value;
    PrimeroPorEmail(rows, nuevo);
  }

  lemma {:induction false} PrimeroPorEmail(rows: Usuarios, nuevo: Row<User>)
    requires forall i :: 0 <= i < |rows| ==> rows[i].val.email != nuevo.val.email
    ensures FindOneByEmail(rows + [nuevo], nuevo.val.email) == Some(nuevo)
  {
    if rows == [] {
      assert rows + [nuevo] == [nuevo];
    } else {
      assert (rows + [nuevo])[1..] == rows[1..] + [nuevo];
      PrimeroPorEmail(rows[1..], nuevo);
    }
  }

  // -----------------------------------------------------------------------
  // updateUser
  // -----------------------------------------------------------------------

  /** Whether `email` belongs to a user other than `id` (the `existingUser.id !== id` test). */
  function EmailDeOtro(rows: Usuarios, email: string, id: int): bool {
    match FindOneByEmail(rows, email)
    case None => false
    case Some(u) => u.id != id
  }

  /** Whether saving `email` under key `id` would violate the UNIQUE constraint. */
  function EmailOcupado(rows: Usuarios, email: string, id: int): (b: bool)
    ensures b <==> exists i :: 0 <= i < |rows| && rows[i].id != id && rows[i].val.email == email
  {
    exists i :: 0 <= i < |rows| && rows[i].id != id && rows[i].val.email == email
  }

  function ApplyPatch(u: User, p: UserPatch): User {
    User(
      if p.name.Some? then p.name.value else u.name,
      if p.email.Some? then p.email.value else u.email,
      if p.password.Some? then p.password.value else u.password,
      if p.rol.Some? then p.rol.value else u.rol)
  }

  /**
   * `updateUser(id, data)`: the email check runs first and only for a
   * non-empty email; a non-empty password is replaced by its hash; then
   * the user is looked up, patched and saved under the UNIQUE email.
   */
  function Actualizar(rows: Usuarios, id: int, p: UserPatch, hashed: string): (r: Result<Row<User>>)
    ensures r.Ok? ==> r.value.id == id && id in Ids(rows)
    ensures r.Ok? ==> forall i :: 0 <= i < |rows| && rows[i].id != id ==> rows[i].val.email != r.value.val.email
  {
    if p.email.Some? && p.email.value != "" && EmailDeOtro(rows, p.email.value, id) then
      Err(EmailEnUso)
    else
      var datos := if p.password.Some? && p.password.value != "" then p.(password := Some(hashed)) else p;
      var actual :- FindOne(rows, id);
      var nuevo := ApplyPatch(actual.val, datos);
      if EmailOcupado(rows, nuevo.email, id) then
        Err(UniqueViolation("email"))
      else
        Ok(Row(id, nuevo))
  }

  /**
   * With unique emails, "El email ya está en uso" is raised exactly when
   * a non-empty email held by another user is supplied; the user's own
   * email is accepted.
   */
  lemma {:induction false} EmailEnUsoSiEsDeOtro(rows: Usuarios, id: int, p: UserPatch, hashed: string)
    requires EmailsUnicos(rows)
    ensures Actualizar(rows, id, p, hashed) == Err(EmailEnUso) <==>
              p.email.Some? && p.email.value != "" &&
              exists i :: 0 <= i < |rows| && rows[i].id != id && rows[i].val.email == p.email.value
  {
    if p.email.Some? && p.email.value != "" {
      var e := p.email.value;
      if exists i :: 0 <= i < |rows| && rows[i].id != id && rows[i].val.email == e {
        var i :| 0 <= i < |rows| && rows[i].id != id && rows[i].val.email == e;
        var u := FindOneByEmail(rows, e).value;
        var k :| 0 <= k < |rows| && rows[k] == u;
        assert k == i;
      }
    }
  }

  /**
   * An update of an existing user succeeds when its email, if any, is not
   * held by another user; in particular the user's own email is accepted.
   */
  lemma ActualizarAcepta(rows: Usuarios, id: int, p: UserPatch, hashed: string)
    requires EmailsUnicos(rows) && id in Ids(rows)
    requires p.email.None? || forall i :: 0 <= i < |rows| && rows[i].id != id ==> rows[i].val.email != p.email.value
    ensures Actualizar(rows, id, p, hashed).Ok?
  {
    var actual := FindOne(rows, id).value;
    var k :| 0 <= k < |rows| && rows[k] == actual;
    if p.email.Some? {
      match FindOneByEmail(rows, p.email.value)
      case None =>
      case Some(u) =>
        var j :| 0 <= j < |rows| && rows[j] == u;
    } else {
      forall i | 0 <= i < |rows| && rows[i].id != id ensures rows[i].val.email != actual.val.email {
        assert i != k;
      }
    }
  }

  /** The supplied password is stored hashed when non-empty; other fields follow the patch. */
  lemma ActualizarGuarda(rows: Usuarios, id: int, p: UserPatch, hashed: string)
    requires Actualizar(rows, id, p, hashed).Ok?
    ensures var u := Actualizar(rows, id, p, hashed).value.val;
      var antes := FindOne(rows, id).value.val;
      && u.password == (if p.password.Some? && p.password.value != "" then hashed
                        else if p.password.Some? then "" else antes.password)
      && u.name == (if p.name.Some? then p.name.value else antes.name)
      && u.email == (if p.email.Some? then p.email.value else antes.email)
      && u.rol == (if p.rol.Some? then p.rol.value else antes.rol)
  {
  }

  lemma SaveKeepsEmailsUnicos(rows: Usuarios, row: Row<User>)
    requires Ascending(rows) && EmailsUnicos(rows) && !EmailOcupado(rows, row.val.email, row.id)
    ensures EmailsUnicos(Save(rows, row))
  {
    var r := Save(rows, row);
    forall i, j | 0 <= i < j < |r| ensures r[i].val.email != r[j].val.email {
      assert rows[i].id < rows[j].id;
    }
  }

  // -----------------------------------------------------------------------
  // deleteUser
  // -----------------------------------------------------------------------

  /** `deleteUser(id)`'s decision: the user to delete, or why not. */
  function Eliminable(rows: Usuarios, id: int): (r: Result<Row<User>>)
    ensures r.Ok? ==> r.value.id == id && id in Ids(rows)
    ensures r.Ok? ==> r.value.val.rol == Admin ==> AdminCount(rows) >= 2
    ensures FindOne(rows, id).Err? ==> r == Err(UsuarioNoEncontrado(id))
    ensures FindOne(rows, id).Ok? && (FindOne(rows, id).value.val.rol != Admin || AdminCount(rows) >= 2) ==>
              r == Ok(FindOne(rows, id).value)
    ensures r == Err(UltimoAdministrador) <==>
              FindOne(rows, id).Ok? && FindOne(rows, id).value.val.rol == Admin && AdminCount(rows) <= 1
  {
    var user :- FindOne(rows, id);
    if user.val.rol == Admin && AdminCount(rows) <= 1 then Err(UltimoAdministrador) else Ok(user)
  }

  lemma {:induction false} AdminCountDelete(rows: Usuarios, id: int)
    requires Ascending(rows) && id in Ids(rows)
    ensures AdminCount(Delete(rows, id)) == AdminCount(rows) - (if Find(rows, id).value.val.rol == Admin then 1 else 0)
  {
    var k :| 0 <= k < |rows| && rows[k].id == id;
    if k == 0 {
      assert forall i :: 0 <= i < |rows[1..]| ==> rows[1..][i].id != id by {
        forall i | 0 <= i < |rows[1..]| ensures rows[1..][i].id != id {
          assert rows[1..][i] == rows[i + 1];
        }
      }
      DeleteAbsent(rows[1..], id);
      assert Delete(rows, id) == rows[1..];
      assert Find(rows, id) == Some(rows[0]);
    } else {
      assert rows[0].id < rows[k].id;
      assert rows[1..][k - 1].id == id;
      IdsCons(rows);
      AdminCountDelete(rows[1..], id);
      assert Delete(rows, id) == [rows[0]] + Delete(rows[1..], id);
      assert AdminCount([rows[0]] + Delete(rows[1..], id)) == (if rows[0].val.rol == Admin then 1 else 0) + AdminCount(Delete(rows[1..], id)) by {
        assert ([rows[0]] + Delete(rows[1..], id))[1..] == Delete(rows[1..], id);
      }
    }
  }

  /** Deleting never removes the last administrator: a table with one keeps one. */
  lemma EliminarConservaAdmin(rows: Usuarios, id: int)
    requires Ascending(rows) && Eliminable(rows, id).Ok?
    ensures AdminCount(rows) >= 1 ==> AdminCount(Delete(rows, id)) >= 1
    ensures |Delete(rows, id)| == |rows| - 1
  {
    AdminCountDelete(rows, id);
    DeleteRemovesOne(rows, id);
  }

  /** Removing a user keeps emails unique. */
  lemma {:induction false} DeleteKeepsEmailsUnicos(rows: Usuarios, id: int)
    requires EmailsUnicos(rows)
    ensures EmailsUnicos(Delete(rows, id))
  {
    if rows != [] {
      var tail := rows[1..];
      assert EmailsUnicos(tail) by {
        forall i, j | 0 <= i < j < |tail| ensures tail[i].val.email != tail[j].val.email {
          assert tail[i] == rows[i + 1] && tail[j] == rows[j + 1];
        }
      }
      DeleteKeepsEmailsUnicos(tail, id);
      var rest := Delete(tail, id);
      forall k | 0 <= k < |rest| ensures rows[0].val.email != rest[k].val.email {
        var j :| 0 <= j < |tail| && tail[j] == rest[k];
        assert rows[j + 1] == rest[k];
      }
      if rows[0].id != id {
        var r := [rows[0]] + rest;
        assert Delete(rows, id) == r;
        forall a, b | 0 <= a < b < |r| ensures r[a].val.email != r[b].val.email {
          if a > 0 { assert r[a] == rest[a - 1]; }
          assert r[b] == rest[b - 1];
        }
      }
    }
  }

  // -----------------------------------------------------------------------
  // onModuleInit
  // -----------------------------------------------------------------------

  function CuentaAdmin(hashed: string): User {
    User("Admin", "admin@gamer.com", hashed, Admin)
  }

  function CuentaCajero(hashed: string): User {
    User("Cajero", "cajero@gamer.com", hashed, "cashier")
  }

  /** One seeding step: create `u` unless its email exists. */
  function SembrarUno(rows: Usuarios, nextId: int, u: User): (Usuarios, int) {
    if FindOneByEmail(rows, u.email).Some? then (rows, nextId) else (rows + [Row(nextId, u)], nextId + 1)
  }

  /** The table and key counter after `onModuleInit`. */
  function Sembrar(rows: Usuarios, nextId: int, hashAdmin: string, hashCajero: string): (Usuarios, int) {
    var (r1, n1) := SembrarUno(rows, nextId, CuentaAdmin(hashAdmin));
    SembrarUno(r1, n1, CuentaCajero(hashCajero))
  }

  ghost predicate TieneEmail(rows: Usuarios, email: string) {
    exists i :: 0 <= i < |rows| && rows[i].val.email == email
  }

  /** After seeding both built-in accounts exist, and seeding adds nothing else. */
  lemma SembrarCreaCuentas(rows: Usuarios, nextId: int, hashAdmin: string, hashCajero: string)
    ensures var (r, _) := Sembrar(rows, nextId, hashAdmin, hashCajero);
      && TieneEmail(r, "admin@gamer.com") && TieneEmail(r, "cajero@gamer.com")
      && r[..|rows|] == rows && |r| <= |rows| + 2
  {
    var (r1, n1) := SembrarUno(rows, nextId, CuentaAdmin(hashAdmin));
    var (r2, n2) := SembrarUno(r1, n1, CuentaCajero(hashCajero));
    if r1 != rows {
      assert r1[|rows|].val.email == "admin@gamer.com";
    }
    assert TieneEmail(r1, "admin@gamer.com");
    var i :| 0 <= i < |r1| && r1[i].val.email == "admin@gamer.com";
    assert r2[i] == r1[i];
    if r2 != r1 {
      assert r2[|r1|].val.email == "cajero@gamer.com";
    }
  }

  /**
   * A missing built-in account is created with its name, email, hash and
   * role; with both present, start-up changes nothing.
   */
  lemma SembrarCuentasNuevas(rows: Usuarios, nextId: int, hashAdmin: string, hashCajero: string)
    ensures var (r, n) := Sembrar(rows, nextId, hashAdmin, hashCajero);
      && (FindOneByEmail(rows, "admin@gamer.com").None? ==>
            r[|rows|] == Row(nextId, User("Admin", "admin@gamer.com", hashAdmin, Admin)))
      && (FindOneByEmail(rows, "cajero@gamer.com").None? ==>
            r[|r| - 1] == Row(n - 1, User("Cajero", "cajero@gamer.com", hashCajero, "cashier")))
      && (FindOneByEmail(rows, "admin@gamer.com").Some? && FindOneByEmail(rows, "cajero@gamer.com").Some? ==>
            r == rows && n == nextId)
  {
    var (r1, n1) := SembrarUno(rows, nextId, CuentaAdmin(hashAdmin));
    if FindOneByEmail(rows, "cajero@gamer.com").None? && FindOneByEmail(rows, "admin@gamer.com").None? {
      assert r1 == rows + [Row(nextId, CuentaAdmin(hashAdmin))];
      assert r1[|rows|].val.email != "cajero@gamer.com";
      forall i | 0 <= i < |r1| ensures r1[i].val.email != "cajero@gamer.com" {
        if i < |rows| { assert r1[i] == rows[i]; }
      }
    }
  }

  /** A second start-up creates nothing, whatever hashes it would have used. */
  lemma SembrarIdempotente(rows: Usuarios, nextId: int, ha: string, hc: string, ha2: string, hc2: string)
    ensures var (r, n) := Sembrar(rows, nextId, ha, hc);
      Sembrar(r, n, ha2, hc2) == (r, n)
  {
    SembrarCreaCuentas(rows, nextId, ha, hc);
  }

  /** Seeding keeps emails unique and the table well keyed. */
  lemma SembrarUnoUnicos(rows: Usuarios, nextId: int, u: User)
    requires Table.Valid(rows, nextId) && EmailsUnicos(rows)
    ensures var (r, n) := SembrarUno(rows, nextId, u);
      Table.Valid(r, n) && EmailsUnicos(r)
  {
    if FindOneByEmail(rows, u.email).None? {
      Table.InsertValid(rows, nextId, u);
    }
  }

  // -----------------------------------------------------------------------
  // The service
  // -----------------------------------------------------------------------

  /** AuthService together with the `user` table it administers through UsersService. */
  class AuthService {
    var rows: Usuarios
    var nextId: int

    ghost predicate Valid()
      reads this
    {
      Table.Valid(rows, nextId) && EmailsUnicos(rows)
    }

    constructor ()
      ensures Valid() && rows == [] && nextId == 1
    {
      rows := [];
      nextId := 1;
    }

    /** `onModuleInit()`, with the two bcrypt hashes as parameters. */
    method OnModuleInit(hashAdmin: string, hashCajero: string)
      requires Valid()
      modifies this
      ensures Valid()
      ensures (rows, nextId) == Sembrar(old(rows), old(nextId), hashAdmin, hashCajero)
    {
      SembrarUnoUnicos(rows, nextId, CuentaAdmin(hashAdmin));
      ghost var (r1, n1) := SembrarUno(rows, nextId, CuentaAdmin(hashAdmin));
      if FindOneByEmail(rows, "admin@gamer.com").None? {
        rows := rows + [Row(nextId, CuentaAdmin(hashAdmin))];
        nextId := nextId + 1;
      }
      assert rows == r1 && nextId == n1;
      SembrarUnoUnicos(rows, nextId, CuentaCajero(hashCajero));
      if FindOneByEmail(rows, "cajero@gamer.com").None? {
        rows := rows + [Row(nextId, CuentaCajero(hashCajero))];
        nextId := nextId + 1;
      }
    }

    /** `register(dto)`, with the bcrypt hash of `dto.password` as a parameter. */
    method Register(dto: RegisterDto, hashed: string) returns (r: Result<string>)
      requires Valid()
      modifies this
      ensures Valid()
      ensures var nuevo := Registrar(old(rows), old(nextId), dto, hashed);
        && (nuevo.Err? ==> r == Err(nuevo.error) && rows == old(rows) && nextId == old(nextId))
        && (nuevo.Ok? ==> r == Ok("Usuario creado exitosamente")
                          && rows == old(rows) + [nuevo.value] && nextId == old(nextId) + 1)
    {
      if FindOneByEmail(rows, dto.email).Some? {
        return Err(EmailYaExiste);
      }
      rows := rows + [Row(nextId, User(dto.name, dto.email, hashed, "cajero"))];
      nextId := nextId + 1;
      r := Ok("Usuario creado exitosamente");
    }

    /** `updateUser(id, data)`, with the bcrypt hash of the new password as a parameter. */
    method UpdateUser(id: int, data: UserPatch, hashed: string) returns (r: Result<Row<User>>)
      requires Valid()
      modifies this
      ensures Valid() && nextId == old(nextId)
      ensures r == Actualizar(old(rows), id, data, hashed)
      ensures rows == if r.Ok? then Save(old(rows), r.value) else old(rows)
    {
      if data.email.Some? && data.email.value != "" && EmailDeOtro(rows, data.email.value, id) {
        return Err(EmailEnUso);
      }
      var datos := data;
      if datos.password.Some? && datos.password.value != "" {
        datos := datos.(password := Some(hashed));
      }
      var actual :- FindOne(rows, id);
      var nuevo := Row(id, ApplyPatch(actual.val, datos));
      if EmailOcupado(rows, nuevo.val.email, id) {
        return Err(UniqueViolation("email"));
      }
      SaveValid(rows, nextId, nuevo);
      SaveKeepsEmailsUnicos(rows, nuevo);
      rows := Save(rows, nuevo);
      r := Ok(nuevo);
    }

    /** `deleteUser(id)`. */
    method DeleteUser(id: int) returns (r: Result<string>)
      requires Valid()
      modifies this
      ensures Valid() && nextId == old(nextId)
      ensures Eliminable(old(rows), id).Err? ==> r == Err(Eliminable(old(rows), id).error) && rows == old(rows)
      ensures Eliminable(old(rows), id).Ok? ==>
        r == Ok("Usuario eliminado exitosamente") && rows == Delete(old(rows), id)
      ensures old(AdminCount(rows)) >= 1 ==> AdminCount(rows) >= 1
    {
      var user :- FindOne(rows, id);
      if user.val.rol == Admin {
        if AdminCount(rows) <= 1 {
          return Err(UltimoAdministrador);
        }
      }
      assert Eliminable(rows, id) == Ok(user);
      EliminarConservaAdmin(rows, id);
      DeleteValid(rows, nextId, id);
      DeleteKeepsEmailsUnicos(rows, id);
      rows := Delete(rows, id);
      r := Ok("Usuario eliminado exitosamente");
    }
  }
}
