/** The decision logic of the route handlers in `Server.js`: registration,
    login, and the admin activity endpoints. Each handler is a function from
    the request and the results of the library calls it makes (the database,
    bcrypt, the token library) to the one reply it sends and the statement it
    hands the database. */
module Server {
  import opened Js
  import opened Sql
  import opened Http
  import opened TokenGate

  /** What a `connection.query` callback receives: results, or an error
      carrying its driver code (such as `ER_DUP_ENTRY`). */
  datatype DbResult<T> = Ok(value: T) | Failed(code: string)

  function Msg(status: nat, text: string): Reply
  {
    Reply(status, Message(text))
  }

  // ---------------------------------------------------------------- register

  const UserColumns: seq<string> :=
    ["nama_lengkap", "nim", "jurusan", "angkatan", "no_telepon", "email", "password"]
  const UserCells: seq<Cell> := [Param, Param, Param, Param, Param, Param, Param]

  function RegisterSql(): string
  {
    InsertSql("users", UserColumns, UserCells)
  }

  /** The enrolment year `angkatan`: `"20"` followed by the first two
      characters of the NIM, or `null` when the NIM is not a string of at
      least two characters (a numeric NIM has no `length`). */
  function Cohort(nim: Value): (angkatan: Value)
    ensures angkatan.Str? <==> nim.Str? && |nim.s| >= 2
    ensures !angkatan.Str? ==> angkatan == Null
    ensures angkatan.Str? ==> |angkatan.s| == 4 && angkatan.s[..2] == "20" && angkatan.s[2..] == nim.s[..2]
  {
    if nim.Str? && |nim.s| >= 2 then Str("20" + nim.s[..2]) else Null
  }

  /** `nama`, `nim`, `email` and `password` are all truthy; `jurusan` and
      `telepon` are optional. */
  predicate RegistrationComplete(body: Object)
  {
    Truthy(Get(body, "nama")) && Truthy(Get(body, "nim")) &&
    Truthy(Get(body, "email")) && Truthy(Get(body, "password"))
  }

  /** The INSERT tuple, one value per column of `UserColumns`: the derived
      cohort goes to `angkatan` and the hash to `password`. */
  function RegisterValues(body: Object, hashed: string): (vals: seq<Value>)
    ensures |vals| == |UserColumns|
    ensures UserColumns[3] == "angkatan" && vals[3] == Cohort(Get(body, "nim"))
    ensures UserColumns[6] == "password" && vals[6] == Str(hashed)
  {
    [Get(body, "nama"), Get(body, "nim"), Get(body, "jurusan"), Cohort(Get(body, "nim")),
     Get(body, "telepon"), Get(body, "email"), Str(hashed)]
  }

  /** `POST /api/register`. `hash` is what bcrypt produced (None when it
      failed); `insert` is the outcome of the INSERT. */
  function Register(body: Object, hash: Option<string>, insert: DbResult<Value>): (h: Handled)
    ensures h.reply.status == 400 <==> !RegistrationComplete(body)
    ensures !RegistrationComplete(body) ==> h.query == None
    ensures h.query.Some? <==> RegistrationComplete(body) && hash.Some?
    ensures RegistrationComplete(body) && hash.None? ==>
      h == Handled(Msg(500, "Terjadi kesalahan pada server."), None)
  {
    if !RegistrationComplete(body) then
      Handled(Msg(400, "Email, password, nama, dan NIM wajib diisi."), None)
    else match hash
      case None => Handled(Msg(500, "Terjadi kesalahan pada server."), None)
      case Some(hashed) =>
        var q := Some(Query(RegisterSql(), RegisterValues(body, hashed)));
        match insert
        case Failed(code) =>
          if code == "ER_DUP_ENTRY" then Handled(Msg(409, "Email atau NIM sudah terdaftar."), q)
          else Handled(Msg(500, "Gagal mendaftar, terjadi kesalahan server."), q)
        case Ok(_) => Handled(Msg(201, "Registrasi berhasil!"), q)
  }

  /** Once the password is hashed, the INSERT's outcome decides the reply:
      a duplicate key is 409, any other error 500, success 201. */
  lemma RegisterOutcome(body: Object, hashed: string, insert: DbResult<Value>)
    requires RegistrationComplete(body)
    ensures Register(body, Some(hashed), insert).query == Some(Query(RegisterSql(), RegisterValues(body, hashed)))
    ensures Register(body, Some(hashed), insert).reply.status ==
      match insert
      case Ok(_) => 201
      case Failed(code) => if code == "ER_DUP_ENTRY" then 409 else 500
  {
  }

  lemma UserColumnsWellFormed()
    ensures Plain(UserColumns) && Distinct(UserColumns) && Literals(UserCells) == []
  {
  }

  /** The row an INSERT into `users` of these parameters writes. */
  function RegisteredRow(params: seq<Value>): Object
    requires |params| == |UserColumns|
  {
    Write(map[], UserColumns, params)
  }

  /** The INSERT has one placeholder per value, and the row it writes holds
      the derived cohort, the submitted email and the hash. */
  lemma RegisterRow(body: Object, hashed: string)
    ensures var q := Query(RegisterSql(), RegisterValues(body, hashed));
      && Count(q.sql) == |q.params| == |UserColumns|
      && Get(RegisteredRow(q.params), "angkatan") == Cohort(Get(body, "nim"))
      && Get(RegisteredRow(q.params), "password") == Str(hashed)
      && Get(RegisteredRow(q.params), "email") == Get(body, "email")
  {
    RegisterSqlCount();
    var params := RegisterValues(body, hashed);
    UserColumnsWellFormed();
    WriteAt(map[], UserColumns, params, 3);
    WriteAt(map[], UserColumns, params, 5);
    WriteAt(map[], UserColumns, params, 6);
  }

  lemma RegisterSqlCount()
    ensures Count(RegisterSql()) == |UserColumns|
  {
    UserColumnsWellFormed();
    ParamsPrefix(UserCells, 7);
    assert UserCells[..7] == UserCells;
    InsertCount("users", UserColumns, UserCells);
  }

  // ------------------------------------------------------------------- login

  const LoginSql := "SELECT * FROM users WHERE email = ?"
  const BadCredentials := Msg(401, "Email atau password salah.")

  /** The token payload: exactly the user's id, full name and role. */
  function Payload(user: Object): (claims: Claims)
    ensures IsAdmin(claims) <==> Get(user, "role") == Str("admin")
  {
    Claims(Get(user, "id"), Get(user, "nama_lengkap"), Get(user, "role"))
  }

  /** `POST /api/login`. `lookup` is the outcome of the SELECT by email,
      `compare` is `bcrypt.compare` (None when it fails) and `sign` is
      `jwt.sign` with the server's secret and a one-hour expiry. */
  function Login(body: Object, lookup: DbResult<seq<Object>>,
                 compare: (Value, Value) -> Option<bool>, sign: Claims -> string): (h: Handled)
    ensures h.reply.status == 400 <==> !Truthy(Get(body, "email")) || !Truthy(Get(body, "password"))
    ensures h.reply.status == 400 <==> h.query == None
    ensures h.reply.status in {200, 400, 401, 500}
  {
    var email, password := Get(body, "email"), Get(body, "password");
    if !Truthy(email) || !Truthy(password) then
      Handled(Msg(400, "Email dan password wajib diisi."), None)
    else
      var q := Some(Query(LoginSql, [email]));
      match lookup
      case Failed(_) => Handled(Msg(500, "Kesalahan server database."), q)
      case Ok(rows) =>
        if |rows| == 0 then Handled(BadCredentials, q)
        else match compare(password, Get(rows[0], "password"))
          case None => Handled(Msg(500, "Kesalahan server saat login."), q)
          case Some(matches) =>
            if !matches then Handled(BadCredentials, q)
            else Handled(Reply(200, Session("Login berhasil!", sign(Payload(rows[0])), Get(rows[0], "role"))), q)
  }

  /** An unknown email and a wrong password give the same reply, so a client
      cannot tell which of the two was wrong. */
  lemma LoginDoesNotLeak(body: Object, user: Object, others: seq<Object>,
                         compare: (Value, Value) -> Option<bool>, sign: Claims -> string)
    requires compare(Get(body, "password"), Get(user, "password")) == Some(false)
    ensures Login(body, Ok([]), compare, sign) == Login(body, Ok([user] + others), compare, sign)
  {
  }

  /** Once both fields are present the SELECT by email is sent, and its
      outcome decides the reply: a failed SELECT or a failed compare is 500,
      no row or a mismatch is the same 401, a match is the session. */
  lemma LoginOutcome(body: Object, lookup: DbResult<seq<Object>>,
                     compare: (Value, Value) -> Option<bool>, sign: Claims -> string)
    requires Truthy(Get(body, "email")) && Truthy(Get(body, "password"))
    ensures Login(body, lookup, compare, sign).query == Some(Query(LoginSql, [Get(body, "email")]))
    ensures Login(body, lookup, compare, sign).reply ==
      match lookup
      case Failed(_) => Msg(500, "Kesalahan server database.")
      case Ok(rows) =>
        if |rows| == 0 then BadCredentials
        else match compare(Get(body, "password"), Get(rows[0], "password"))
          case None => Msg(500, "Kesalahan server saat login.")
          case Some(false) => BadCredentials
          case Some(true) => Reply(200, Session("Login berhasil!", sign(Payload(rows[0])), Get(rows[0], "role")))
  {
  }

  /** A login succeeds exactly when the first row found matches the password;
      it then returns a token signed over that row's payload and its role. */
  lemma LoginSuccess(body: Object, lookup: DbResult<seq<Object>>,
                     compare: (Value, Value) -> Option<bool>, sign: Claims -> string)
    ensures Login(body, lookup, compare, sign).reply.status == 200 <==>
      && Truthy(Get(body, "email")) && Truthy(Get(body, "password"))
      && lookup.Ok? && |lookup.value| > 0
      && compare(Get(body, "password"), Get(lookup.value[0], "password")) == Some(true)
    ensures Login(body, lookup, compare, sign).reply.status == 200 ==>
      Login(body, lookup, compare, sign).reply.body ==
        Session("Login berhasil!", sign(Payload(lookup.value[0])), Get(lookup.value[0], "role"))
  {
  }

  /** The token handed out at login gets through the gate, when sent as
      `Bearer <token>`, with `req.user` equal to the payload read at login:
      the role downstream handlers check is the role the user had then. */
  lemma SessionAdmitted(body: Object, lookup: DbResult<seq<Object>>,
                        compare: (Value, Value) -> Option<bool>, sign: Claims -> string,
                        verify: string -> Option<Claims>)
    requires Login(body, lookup, compare, sign).reply.status == 200
    requires forall c :: verify(sign(c)) == Some(c)
    requires forall c :: ' ' !in sign(c)
    ensures var token := Login(body, lookup, compare, sign).reply.body.token;
      Gate(Some("Bearer " + token), verify) == Admitted(Payload(lookup.value[0]))
  {
    LoginSuccess(body, lookup, compare, sign);
    var c := Payload(lookup.value[0]);
    TokenAfterScheme("Bearer", sign(c));
    assert "Bearer " + sign(c) == "Bearer" + " " + sign(c);
  }

  // ------------------------------------------------------------------ admin

  /** `req.user.role === 'admin'` */
  predicate IsAdmin(user: Claims)
    ensures IsAdmin(user) ==> Truthy(user.role)
    ensures !user.role.Str? ==> !IsAdmin(user)
    ensures user.role.Str? ==> (IsAdmin(user) <==> user.role.s == "admin")
  {
    user.role == Str("admin")
  }

  const AdminOnly := Msg(403, "Akses ditolak. Hanya untuk admin.")
  const ListSql := "SELECT * FROM activities ORDER BY created_at DESC"

  /** `GET /api/admin/activities` */
  function ListActivities(user: Claims, select: DbResult<seq<Object>>): (h: Handled)
    ensures h.reply.status == 200 <==> IsAdmin(user) && select.Ok?
    ensures h.reply.status == 200 ==> h.reply.body == Rows(select.value)
    ensures h.query.Some? <==> IsAdmin(user)
    ensures IsAdmin(user) ==> h.query == Some(Query(ListSql, []))
    ensures IsAdmin(user) && select.Failed? ==> h.reply == Msg(500, "Kesalahan server database.")
  {
    if !IsAdmin(user) then Handled(AdminOnly, None)
    else
      var q := Some(Query(ListSql, []));
      match select
      case Failed(_) => Handled(Msg(500, "Kesalahan server database."), q)
      case Ok(rows) => Handled(Reply(200, Rows(rows)), q)
  }

  /** `req.file.path.replace(/\\/g, "/")`: Windows separators become URL ones. */
  function NormalizePath(path: string): (url: string)
    ensures |url| == |path| && '\\' !in url
    ensures forall i :: 0 <= i < |path| ==> url[i] == if path[i] == '\\' then '/' else path[i]
  {
    ReplaceAll(path, '\\', '/')
  }

  /** `gambar_url`: the normalised path of the uploaded file, or `null`. */
  function ImageUrl(file: Option<string>): (url: Value)
    ensures file.None? <==> url == Null
    ensures file.Some? ==> url.Str? && url.s == NormalizePath(file.value)
  {
    match file
    case None => Null
    case Some(path) => Str(NormalizePath(path))
  }

  const ActivityColumns: seq<string> :=
    ["judul", "tipe", "deskripsi", "lokasi", "tanggal_mulai", "target_donasi", "target_peserta"]

  /** A target applies only to its activity type, and a falsy target is 0. */
  function Target(body: Object, tipe: string, field: string): (target: Value)
    ensures target != Null && target != Undefined
    ensures Get(body, "tipe") != Str(tipe) ==> target == Num(0)
    ensures target != Num(0) ==> Truthy(target) && target == Get(body, field)
    ensures Get(body, "tipe") == Str(tipe) && Truthy(Get(body, field)) ==> target == Get(body, field)
  {
    if Get(body, "tipe") == Str(tipe) then Or(Get(body, field), Num(0)) else Num(0)
  }

  /** The seven values the create and update statements share, in the order
      of `ActivityColumns`. */
  function ActivityValues(body: Object): (vals: seq<Value>)
    ensures |vals| == |ActivityColumns|
  {
    [Get(body, "judul"), Get(body, "tipe"),
     Or(Get(body, "deskripsi"), Null), Or(Get(body, "lokasi"), Null),
     Get(body, "tanggal_mulai"),
     Target(body, "donasi", "target_donasi"), Target(body, "volunteer", "target_peserta")]
  }

  /** The coercions: a target is never null, and it keeps the submitted value
      only for its own activity type; missing texts become `null`. */
  lemma ActivityValuesCoerced(body: Object)
    ensures var v := ActivityValues(body);
      && (Truthy(v[5]) || v[5] == Num(0)) && (Truthy(v[6]) || v[6] == Num(0))
      && (v[5] != Num(0) ==> Get(body, "tipe") == Str("donasi") && v[5] == Get(body, "target_donasi"))
      && (v[6] != Num(0) ==> Get(body, "tipe") == Str("volunteer") && v[6] == Get(body, "target_peserta"))
      && (Get(body, "tipe") == Str("donasi") && Truthy(Get(body, "target_donasi")) ==> v[5] == Get(body, "target_donasi"))
      && (Get(body, "tipe") == Str("volunteer") && Truthy(Get(body, "target_peserta")) ==> v[6] == Get(body, "target_peserta"))
      && (!Truthy(Get(body, "deskripsi")) ==> v[2] == Null)
      && (!Truthy(Get(body, "lokasi")) ==> v[3] == Null)
      && (Truthy(Get(body, "deskripsi")) ==> v[2] == Get(body, "deskripsi"))
      && (Truthy(Get(body, "lokasi")) ==> v[3] == Get(body, "lokasi"))
  {
  }

  const CreateColumns: seq<string> := ActivityColumns + ["status", "gambar_url"]
  const CreateCells: seq<Cell> :=
    [Param, Param, Param, Param, Param, Param, Param, Literal("published"), Param]

  lemma ActivityColumnsWellFormed()
    ensures Plain(ActivityColumns) && Distinct(ActivityColumns)
  {
  }

  lemma CreateColumnsPlain()
    ensures Plain(CreateColumns)
  {
  }

  lemma CreateColumnsDistinct()
    ensures Distinct(CreateColumns)
  {
    ActivityColumnsWellFormed();
    assert "status" !in ActivityColumns;
    DistinctSnoc(ActivityColumns, "status");
    assert "gambar_url" !in ActivityColumns + ["status"];
    DistinctSnoc(ActivityColumns + ["status"], "gambar_url");
    assert CreateColumns == ActivityColumns + ["status"] + ["gambar_url"];
  }

  lemma CreateCellsLiterals()
    ensures Literals(CreateCells) == ["published"] && Plain(Literals(CreateCells))
  {
  }

  lemma CreateCellsShape()
    ensures Params(CreateCells[..7]) == 7 && Params(CreateCells) == 8
  {
    ParamsPrefix(CreateCells, 7);
    assert CreateCells == CreateCells[..7] + [Literal("published"), Param];
    ParamsConcat(CreateCells[..7], [Literal("published"), Param]);
  }

  function CreateSql(): string
  {
    InsertSql("activities", CreateColumns, CreateCells)
  }

  /** `POST /api/admin/activities`; `file` is the uploaded file's path. */
  function CreateActivity(user: Claims, body: Object, file: Option<string>,
                          insert: DbResult<Value>): (h: Handled)
    ensures IsAdmin(user) ==> (h.reply.status == 400 <==>
      !Truthy(Get(body, "judul")) || !Truthy(Get(body, "tipe")) || !Truthy(Get(body, "tanggal_mulai")))
    ensures h.query.Some? <==> h.reply.status in {201, 500}
  {
    if !IsAdmin(user) then Handled(AdminOnly, None)
    else
      var gambarUrl := ImageUrl(file);
      if !Truthy(Get(body, "judul")) || !Truthy(Get(body, "tipe")) || !Truthy(Get(body, "tanggal_mulai")) then
        Handled(Msg(400, "Judul, Tipe, dan Tanggal Mulai wajib diisi."), None)
      else
        var q := Some(Query(CreateSql(), ActivityValues(body) + [gambarUrl]));
        match insert
        case Failed(_) => Handled(Msg(500, "Gagal menyimpan kegiatan ke database."), q)
        case Ok(id) => Handled(Reply(201, Created("Kegiatan berhasil ditambahkan!", id)), q)
  }

  /** The row an INSERT of these parameters writes. */
  function CreatedRow(params: seq<Value>): Object
    requires |params| == Params(CreateCells)
  {
    Write(map[], CreateColumns, Bind(CreateCells, params))
  }

  /** The row an INSERT into `activities` writes is always `published`,
      with the image bound to `gambar_url`. */
  lemma CreateRow(params: seq<Value>)
    requires |params| == Params(CreateCells)
    ensures Get(CreatedRow(params), "status") == Str("published")
    ensures Get(CreatedRow(params), "gambar_url") == params[7]
  {
    CreateColumnsDistinct();
    CreateCellsShape();
    var vals := Bind(CreateCells, params);
    BindLiteral(CreateCells, params, 7);
    WriteAt(map[], CreateColumns, vals, 7);
    BindParam(CreateCells, params, 8);
    assert CreateCells[..8] == CreateCells[..7] + [Literal("published")];
    ParamsConcat(CreateCells[..7], [Literal("published")]);
    WriteAt(map[], CreateColumns, vals, 8);
  }

  /** The two targets are written from the parameters bound to them. */
  lemma CreateTargets(params: seq<Value>)
    requires |params| == Params(CreateCells)
    ensures Get(CreatedRow(params), "target_donasi") == params[5]
    ensures Get(CreatedRow(params), "target_peserta") == params[6]
  {
    CreateColumnsDistinct();
    CreateCellsShape();
    var vals := Bind(CreateCells, params);
    BindParam(CreateCells, params, 5);
    ParamsPrefix(CreateCells, 5);
    WriteAt(map[], CreateColumns, vals, 5);
    BindParam(CreateCells, params, 6);
    ParamsPrefix(CreateCells, 6);
    WriteAt(map[], CreateColumns, vals, 6);
  }

  /** The INSERT into `activities` has one placeholder per parameter: the
      `'published'` literal adds none. */
  lemma CreateSqlCount()
    ensures Count(CreateSql()) == Params(CreateCells) == 8
  {
    CreateColumnsPlain();
    CreateCellsLiterals();
    CreateCellsShape();
    InsertCount("activities", CreateColumns, CreateCells);
  }

  /** An admin's complete create request sends exactly that INSERT. */
  lemma CreateOutcome(user: Claims, body: Object, file: Option<string>, insert: DbResult<Value>)
    requires IsAdmin(user)
    requires Truthy(Get(body, "judul")) && Truthy(Get(body, "tipe")) && Truthy(Get(body, "tanggal_mulai"))
    ensures CreateActivity(user, body, file, insert).query ==
      Some(Query(CreateSql(), ActivityValues(body) + [ImageUrl(file)]))
    ensures CreateActivity(user, body, file, insert).reply ==
      match insert
      case Failed(_) => Msg(500, "Gagal menyimpan kegiatan ke database.")
      case Ok(id) => Reply(201, Created("Kegiatan berhasil ditambahkan!", id))
  {
  }

  /** Only `"gambar_url"` is added to the SET list, and only when the image
      value is truthy. */
  function UpdateColumns(withImage: bool): seq<string>
  {
    ActivityColumns + (if withImage then ["gambar_url"] else [])
  }

  /** The UPDATE of `PUT /api/admin/activities/:id` as one statement: its SET
      list names the image column exactly when the values carry the image,
      and the id is bound to the WHERE clause. */
  function UpdateStatement(id: string, body: Object, gambarUrl: Value): (q: Query)
    ensures |q.params| == |UpdateColumns(Truthy(gambarUrl))| + 1
    ensures q.params[..|ActivityColumns|] == ActivityValues(body)
    ensures Truthy(gambarUrl) ==> q.params[|ActivityColumns|] == gambarUrl
    ensures q.params[|q.params| - 1] == Str(id)
  {
    var withImage := Truthy(gambarUrl);
    Query(UpdateSql("activities", UpdateColumns(withImage), "id"),
          ActivityValues(body) + (if withImage then [gambarUrl] else []) + [Str(id)])
  }

  /** The handler's own construction: the optional `, gambar_url = ?` clause
      spliced into the text, and `values` grown with `push`. */
  method BuildUpdate(id: string, body: Object, gambarUrl: Value) returns (query: string, values: seq<Value>)
    ensures Query(query, values) == UpdateStatement(id, body, gambarUrl)
    ensures Count(query) == |values|
    ensures |values| == (if Truthy(gambarUrl) then 9 else 8) && values[|values| - 1] == Str(id)
  {
    var clause := if Truthy(gambarUrl) then ", gambar_url = ?" else "";
    var setList := Assignments(ActivityColumns) + clause;
    query := "UPDATE activities SET " + setList + " WHERE id = ?";
    values := ActivityValues(body);
    if Truthy(gambarUrl) {
      values := values + [gambarUrl];
    }
    values := values + [Str(id)];
    UpdateText(Truthy(gambarUrl));
    UpdateAligned(id, body, gambarUrl);
  }

  /** The text the handler splices together is the UPDATE over
      `UpdateColumns`. */
  lemma UpdateText(withImage: bool)
    ensures UpdateSql("activities", UpdateColumns(withImage), "id") ==
      "UPDATE activities SET " + (Assignments(ActivityColumns)
      + (if withImage then ", gambar_url = ?" else "")) + " WHERE id = ?"
  {
    UpdateFrame();
    if withImage {
      UpdateSnoc("activities", ActivityColumns, "gambar_url", "id");
      assert ", " + "gambar_url" + " = ?" == ", gambar_url = ?";
    } else {
      assert UpdateColumns(withImage) == ActivityColumns;
      assert Assignments(ActivityColumns) + "" == Assignments(ActivityColumns);
    }
  }

  lemma UpdateFrame()
    ensures UpdateHead("activities") == "UPDATE activities SET "
    ensures WhereKey("id") == " WHERE id = ?"
  {
  }

  /** Placeholders and values stay aligned, with or without a new image. */
  lemma UpdateAligned(id: string, body: Object, gambarUrl: Value)
    ensures var q := UpdateStatement(id, body, gambarUrl);
      && Count(q.sql) == |q.params| == |UpdateColumns(Truthy(gambarUrl))| + 1
      && q.params[|q.params| - 1] == Str(id)
  {
    var cols := UpdateColumns(Truthy(gambarUrl));
    ActivityColumnsWellFormed();
    assert Plain(cols) by {
      forall k | 0 <= k < |cols| ensures '?' !in cols[k] {
        if k < |ActivityColumns| { assert cols[k] == ActivityColumns[k]; }
      }
    }
    UpdateCount("activities", cols, "id");
  }

  /** `PUT /api/admin/activities/:id`. No field is required; `update` is the
      number of rows the UPDATE affected. */
  function UpdateActivity(user: Claims, id: string, body: Object, file: Option<string>,
                          update: DbResult<nat>): (h: Handled)
    ensures h.query.Some? <==> IsAdmin(user)
    ensures h.reply.status == 404 <==> IsAdmin(user) && update == Ok(0)
  {
    if !IsAdmin(user) then Handled(Msg(403, "Akses ditolak."), None)
    else
      var q := Some(UpdateStatement(id, body, ImageUrl(file)));
      match update
      case Failed(_) => Handled(Msg(500, "Gagal mengupdate kegiatan."), q)
      case Ok(affected) =>
        if affected == 0 then Handled(Msg(404, "Kegiatan tidak ditemukan."), q)
        else Handled(Msg(200, "Kegiatan berhasil diupdate!"), q)
  }

  /** What the UPDATE does to an existing row: the parameters before the id
      are written to the SET list's columns. */
  function UpdatedRow(row: Object, q: Query, withImage: bool): Object
    requires |q.params| == |UpdateColumns(withImage)| + 1
  {
    Write(row, UpdateColumns(withImage), q.params[..|UpdateColumns(withImage)|])
  }

  /** Without a new file the stored image is kept; with one it is replaced.
      The text fields are always overwritten and the status never is. */
  lemma UpdateKeepsImage(row: Object, id: string, body: Object, file: Option<string>)
    ensures var gambarUrl := ImageUrl(file);
      var q := UpdateStatement(id, body, gambarUrl);
      var withImage := Truthy(gambarUrl);
      |q.params| == |UpdateColumns(withImage)| + 1 &&
      var after := UpdatedRow(row, q, withImage);
      && Get(after, "gambar_url") == (if withImage then gambarUrl else Get(row, "gambar_url"))
      && (file.None? ==> Get(after, "gambar_url") == Get(row, "gambar_url"))
      && Get(after, "status") == Get(row, "status")
      && forall k :: 0 <= k < |ActivityColumns| ==> Get(after, ActivityColumns[k]) == ActivityValues(body)[k]
  {
    var gambarUrl := ImageUrl(file);
    var withImage := Truthy(gambarUrl);
    UpdateAligned(id, body, gambarUrl);
    var q := UpdateStatement(id, body, gambarUrl);
    var cols := UpdateColumns(withImage);
    var vals := q.params[..|cols|];
    ActivityColumnsWellFormed();
    if withImage {
      assert "gambar_url" !in ActivityColumns;
      DistinctSnoc(ActivityColumns, "gambar_url");
    }
    assert Distinct(cols);
    assert "status" !in cols;
    WriteOther(row, cols, vals, "status");
    if withImage {
      WriteAt(row, cols, vals, 7);
    } else {
      assert "gambar_url" !in cols;
      WriteOther(row, cols, vals, "gambar_url");
    }
    forall k | 0 <= k < |ActivityColumns|
      ensures Get(UpdatedRow(row, q, withImage), ActivityColumns[k]) == ActivityValues(body)[k]
    {
      WriteAt(row, cols, vals, k);
    }
  }

  /** An admin's update reaches the database whatever the body holds (unlike
      create, nothing is required), and zero affected rows is a 404. */
  lemma UpdateOutcome(user: Claims, id: string, body: Object, file: Option<string>, update: DbResult<nat>)
    requires IsAdmin(user)
    ensures UpdateActivity(user, id, body, file, update).query == Some(UpdateStatement(id, body, ImageUrl(file)))
    ensures UpdateActivity(user, id, body, file, update).reply.status ==
      match update
      case Failed(_) => 500
      case Ok(affected) => if affected == 0 then 404 else 200
  {
  }

  /** A user whose role is not `admin` gets 403 from every admin handler,
      before any validation and without any query: an invalid body from a
      non-admin is a 403, not a 400. */
  lemma AdminFirst(user: Claims, id: string, body: Object, file: Option<string>,
                   select: DbResult<seq<Object>>, insert: DbResult<Value>, update: DbResult<nat>)
    requires !IsAdmin(user)
    ensures ListActivities(user, select) == Handled(AdminOnly, None)
    ensures CreateActivity(user, body, file, insert) == Handled(AdminOnly, None)
    ensures UpdateActivity(user, id, body, file, update) == Handled(Msg(403, "Akses ditolak."), None)
  {
  }

  /** Through the router: an activity is only ever written for a request
      whose token verified and whose payload carries the `admin` role. */
  lemma WritesNeedAdminToken(header: Option<string>, verify: string -> Option<Claims>,
                             id: string, body: Object, file: Option<string>,
                             insert: DbResult<Value>, update: DbResult<nat>)
    ensures Guarded(header, verify, user => CreateActivity(user, body, file, insert)).query.Some? ==>
      Gate(header, verify).Admitted? && IsAdmin(Gate(header, verify).user)
    ensures Guarded(header, verify, user => UpdateActivity(user, id, body, file, update)).query.Some? ==>
      Gate(header, verify).Admitted? && IsAdmin(Gate(header, verify).user)
  {
  }
}
