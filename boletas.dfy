/**
 * Receipt issuing (BoletasService). A new receipt number is derived from the
 * most recently inserted receipt: the text after its first '-' is read with
 * `parseInt`, one is added, and the result is rendered as "BOL-" followed by
 * the number left-padded with zeros to six characters. The receipt copies
 * the sale's id and total, and the customer defaults to "Consumidor Final".
 */
module Boletas {
  import opened Wrappers
  import opened Errors
  import opened Table
  import opened Text
  import VentaEntity

  datatype Boleta = Boleta(
    numero: string,
    cliente: string,
    rut: Option<string>,
    montoTotal: int,
    ventaId: int)

  /** The body of `POST /boletas`. */
  datatype CrearBoleta = CrearBoleta(ventaId: int, cliente: Option<string>, rut: Option<string>)

  /** The body of `PATCH /boletas/:id`: fields present overwrite. */
  datatype BoletaPatch = BoletaPatch(
    numero: Option<string>,
    cliente: Option<string>,
    rut: Option<string>,
    montoTotal: Option<int>,
    ventaId: Option<int>)

  type Talonario = seq<Row<Boleta>>

  /** A JavaScript number as the counter arithmetic can produce it. */
  datatype JsNumber = Num(n: int) | NaN

  const Prefijo: string := "BOL-"
  const ClientePorDefecto: string := "Consumidor Final"

  // -----------------------------------------------------------------------
  // Receipt numbers
  // -----------------------------------------------------------------------

  /** `numero.split('-')[1]`; `None` is `undefined` (no '-' at all). */
  function Sufijo(numero: string): (r: Option<string>)
    ensures r.None? <==> '-' !in numero
    ensures r.Some? ==> '-' !in r.value
  {
    SplitFirstField(numero, '-');
    var campos := Split(numero, '-');
    if |campos| > 1 then Some(campos[1]) else None
  }

  /** The most recently inserted receipt (`order: { id: 'DESC' }`, first row). */
  function Ultima(rows: Talonario): (r: Option<Row<Boleta>>)
    ensures r.None? <==> rows == []
    ensures r.Some? ==> r.value in rows
  {
    if rows == [] then None else Some(rows[|rows| - 1])
  }

  /** `numeroActual`: 1 with no receipt, else the parsed suffix plus one (NaN propagates). */
  function Contador(ultima: Option<Row<Boleta>>): (r: JsNumber)
    ensures ultima.None? ==> r == Num(1)
    ensures r.Num? ==> r.n >= 1
  {
    match ultima
    case None => Num(1)
    case Some(b) =>
      match Sufijo(b.val.numero)
      case None => NaN                         // parseInt(undefined)
      case Some(s) =>
        match ParseInt(s)
        case None => NaN
        case Some(v) => Num(v + 1)
  }

  function JsNumberToString(x: JsNumber): string {
    match x
    case NaN => "NaN"
    case Num(n) => IntToString(n)
  }

  /** `BOL-${numeroActual.toString().padStart(6, '0')}`. */
  function Formatear(x: JsNumber): (r: string)
    ensures |r| >= 10 && r[..4] == Prefijo
    ensures (x.NaN? || x.n >= 0) ==> '-' !in r[4..]
  {
    Prefijo + PadStart(JsNumberToString(x), 6, '0')
  }

  /** The number the next receipt gets; its suffix is always readable by the issue after it. */
  function SiguienteNumero(rows: Talonario): (r: string)
    ensures |r| >= 10 && r[..4] == Prefijo
    ensures Sufijo(r) == Some(r[4..])
  {
    var r := Formatear(Contador(Ultima(rows)));
    SufijoTrasPrefijo(r);
    r
  }

  lemma SufijoTrasPrefijo(numero: string)
    requires |numero| >= 4 && numero[..4] == Prefijo && '-' !in numero[4..]
    ensures Sufijo(numero) == Some(numero[4..])
  {
    var p := numero[4..];
    assert numero == "BOL" + ['-'] + p;
    SplitAtFirst("BOL", '-', p);
    SplitWithoutSeparator(p, '-');
  }

  /** `cliente || 'Consumidor Final'`: an absent or empty name becomes the default. */
  function Cliente(cliente: Option<string>): (r: string)
    ensures cliente.Some? && cliente.value != "" ==> r == cliente.value
    ensures cliente.None? || cliente.value == "" ==> r == ClientePorDefecto
  {
    if cliente.Some? && cliente.value != "" then cliente.value else ClientePorDefecto
  }

  /** The first receipt ever issued is BOL-000001. */
  lemma PrimerNumero()
    ensures SiguienteNumero([]) == "BOL-000001"
  {
    assert Digits(1) == "1";
    assert PadStart("1", 6, '0') == "000001";
  }

  /** The number is the prefix and at least six characters that end with the counter's digits. */
  lemma FormatoNoTrunca(n: nat)
    ensures var f := Formatear(Num(n));
      && f[..4] == Prefijo
      && |f| == 4 + (if |Digits(n)| >= 6 then |Digits(n)| else 6)
      && f[|f| - |Digits(n)|..] == Digits(n)
  {
  }

  /** Round trip: reading back the suffix of a formatted number gives the counter. */
  lemma {:induction false} SufijoDeFormatear(n: nat)
    ensures Sufijo(Formatear(Num(n))) == Some(PadStart(Digits(n), 6, '0'))
    ensures ParseInt(PadStart(Digits(n), 6, '0')) == Some(n)
  {
    var f := Formatear(Num(n));
    assert f[4..] == PadStart(Digits(n), 6, '0');
    SufijoTrasPrefijo(f);
    ParsePaddedDigits(n, 6);
  }

  /** The next counter is the last receipt's counter plus one. */
  lemma SiguienteTrasFormateado(rows: Talonario, n: nat)
    requires rows != [] && rows[|rows| - 1].val.numero == Formatear(Num(n))
    ensures Contador(Ultima(rows)) == Num(n + 1)
  {
    var b := rows[|rows| - 1];
    SufijoDeFormatear(n);
    ContadorDeSufijo(b, PadStart(Digits(n), 6, '0'), n);
  }

  lemma ContadorDeSufijo(b: Row<Boleta>, s: string, v: int)
    requires Sufijo(b.val.numero) == Some(s) && ParseInt(s) == Some(v)
    ensures Contador(Some(b)) == Num(v + 1)
  {
  }

  /** Distinct counters give distinct numbers. */
  lemma FormatearInyectivo(n: nat, m: nat)
    requires Formatear(Num(n)) == Formatear(Num(m))
    ensures n == m
  {
    SufijoDeFormatear(n);
    SufijoDeFormatear(m);
  }

  /**
   * A last receipt whose number has no '-' (possible after an update) gives
   * a NaN counter, and the next number is rendered "BOL-000NaN".
   */
  lemma NumeroSinGuion(rows: Talonario)
    requires rows != [] && '-' !in rows[|rows| - 1].val.numero
    ensures Contador(Ultima(rows)) == NaN
    ensures SiguienteNumero(rows) == "BOL-000NaN"
  {
    SplitWithoutSeparator(rows[|rows| - 1].val.numero, '-');
    assert PadStart("NaN", 6, '0') == "000NaN";
  }

  /** After "BOL-000NaN" the suffix "000NaN" reads as 0, so numbering restarts at BOL-000001. */
  lemma TrasNaN(b: Row<Boleta>)
    requires b.val.numero == "BOL-000NaN"
    ensures Contador(Some(b)) == Num(1)
  {
    assert "BOL-000NaN" == "BOL" + ['-'] + "000NaN";
    SplitAtFirst("BOL", '-', "000NaN");
    SplitWithoutSeparator("000NaN", '-');
    assert Sufijo(b.val.numero) == Some("000NaN");
    CeroNaN();
  }

  lemma CeroNaN()
    ensures ParseInt("000NaN") == Some(0)
  {
    var s := "000NaN";
    assert !IsJsWhitespace(s[0]);
    assert TrimStart(s) == s;
    assert DigitIn('N', 10).None?;
    assert LeadingDigits(s, 10) == "000" by {
      assert LeadingDigits(s[3..], 10) == [];
      assert s[1..][1..][1..] == s[3..];
    }
    ValueOfZeros("000");
  }

  /** In an ascending table the last row has the highest id. */
  lemma UltimaTieneMayorId(rows: Talonario)
    requires Ascending(rows) && rows != []
    ensures forall i :: 0 <= i < |rows| ==> rows[i].id <= Ultima(rows).value.id
  {
  }

  // -----------------------------------------------------------------------
  // Unique constraints of the `boletas` table
  // -----------------------------------------------------------------------

  /** The UNIQUE columns (`numero`, and the one-to-one `ventaId`) a write of `b` under key `id` would violate. */
  function Conflicto(rows: Talonario, b: Boleta, id: int): (r: Option<Error>)
    ensures r.None? <==> forall i :: 0 <= i < |rows| && rows[i].id != id ==>
                          rows[i].val.numero != b.numero && rows[i].val.ventaId != b.ventaId
    ensures r.Some? ==> r.value in {UniqueViolation("numero"), UniqueViolation("ventaId")}
  {
    if exists i :: 0 <= i < |rows| && rows[i].id != id && rows[i].val.numero == b.numero then
      Some(UniqueViolation("numero"))
    else if exists i :: 0 <= i < |rows| && rows[i].id != id && rows[i].val.ventaId == b.ventaId then
      Some(UniqueViolation("ventaId"))
    else None
  }

  ghost predicate Unicos(rows: Talonario) {
    forall i, j :: 0 <= i < j < |rows| ==>
      rows[i].val.numero != rows[j].val.numero && rows[i].val.ventaId != rows[j].val.ventaId
  }

  // -----------------------------------------------------------------------
  // Issuing
  // -----------------------------------------------------------------------

  /** The row `generarBoletaParaVenta` / `create` saves under key `nextId`, or the constraint that rejects it. */
  function Emitir(rows: Talonario, nextId: int, ventaId: int, monto: int,
                  cliente: Option<string>, rut: Option<string>): (r: Result<Row<Boleta>>)
    ensures r.Ok? ==>
              r.value.id == nextId &&
              r.value.val == Boleta(SiguienteNumero(rows), Cliente(cliente), rut, monto, ventaId)
    ensures var c := Conflicto(rows, Boleta(SiguienteNumero(rows), Cliente(cliente), rut, monto, ventaId), nextId);
      (r.Err? <==> c.Some?) && (r.Err? ==> r.error == c.value)
  {
    var b := Boleta(SiguienteNumero(rows), Cliente(cliente), rut, monto, ventaId);
    match Conflicto(rows, b, nextId)
    case Some(e) => Err(e)
    case None => Ok(Row(nextId, b))
  }

  /** Receipts numbered BOL-000001, BOL-000002, ... in insertion order. */
  ghost predicate Correlativos(rows: Talonario) {
    forall i :: 0 <= i < |rows| ==> rows[i].val.numero == Formatear(Num(i + 1))
  }

  /**
   * Issuing from a correlatively numbered table gives the next number in
   * sequence and keeps the table correlative; the number itself never
   * clashes, so the only possible rejection is a second receipt for a sale.
   */
  lemma {:induction false} EmitirCorrelativo(rows: Talonario, nextId: int, ventaId: int, monto: int,
                                             cliente: Option<string>, rut: Option<string>)
    requires Correlativos(rows)
    requires forall i :: 0 <= i < |rows| ==> rows[i].id < nextId
    ensures SiguienteNumero(rows) == Formatear(Num(|rows| + 1))
    ensures var r := Emitir(rows, nextId, ventaId, monto, cliente, rut);
      && (r.Ok? ==> Correlativos(rows + [r.value]))
      && (r.Err? <==> exists i :: 0 <= i < |rows| && rows[i].val.ventaId == ventaId)
      && (r.Err? ==> r.error == UniqueViolation("ventaId"))
  {
    SiguienteCorrelativo(rows);
    NumeroNuevo(rows);
    EmitirConNumeroLibre(rows, nextId, ventaId, monto, cliente, rut);
    var r := Emitir(rows, nextId, ventaId, monto, cliente, rut);
    if r.Ok? {
      AgregarCorrelativo(rows, r.value);
    }
  }

  /** No receipt of a correlative table carries the next number. */
  lemma NumeroNuevo(rows: Talonario)
    requires Correlativos(rows)
    ensures forall i :: 0 <= i < |rows| ==> rows[i].val.numero != Formatear(Num(|rows| + 1))
  {
    forall i | 0 <= i < |rows| ensures rows[i].val.numero != Formatear(Num(|rows| + 1)) {
      if rows[i].val.numero == Formatear(Num(|rows| + 1)) {
        FormatearInyectivo(i + 1, |rows| + 1);
      }
    }
  }

  lemma AgregarCorrelativo(rows: Talonario, row: Row<Boleta>)
    requires Correlativos(rows) && row.val.numero == Formatear(Num(|rows| + 1))
    ensures Correlativos(rows + [row])
  {
    var t := rows + [row];
    forall i | 0 <= i < |t| ensures t[i].val.numero == Formatear(Num(i + 1)) {
      if i < |rows| { assert t[i] == rows[i]; } else { assert t[i] == row; }
    }
  }

  /** When the next number is unused, issuing fails exactly when the sale already has a receipt. */
  lemma EmitirConNumeroLibre(rows: Talonario, nextId: int, ventaId: int, monto: int,
                             cliente: Option<string>, rut: Option<string>)
    requires forall i :: 0 <= i < |rows| ==> rows[i].val.numero != SiguienteNumero(rows)
    ensures var r := Emitir(rows, nextId, ventaId, monto, cliente, rut);
      && (r.Err? <==> exists i :: 0 <= i < |rows| && rows[i].id != nextId && rows[i].val.ventaId == ventaId)
      && (r.Err? ==> r.error == UniqueViolation("ventaId"))
  {
  }

  lemma SiguienteCorrelativo(rows: Talonario)
    requires Correlativos(rows)
    ensures SiguienteNumero(rows) == Formatear(Num(|rows| + 1))
  {
    if rows == [] {
      PrimerNumero();
      assert Digits(1) == "1";
    } else {
      SiguienteTrasFormateado(rows, |rows|);
    }
  }

  // -----------------------------------------------------------------------
  // Queries
  // -----------------------------------------------------------------------

  /** `findOne(id)`: the receipt, or NotFound "Boleta con ID <id> no encontrada". */
  function FindOne(rows: Talonario, id: int): (r: Result<Row<Boleta>>)
    ensures r.Ok? <==> id in Ids(rows)
    ensures r.Ok? ==> r.value in rows && r.value.id == id
    ensures r.Err? ==> r.error == BoletaNoEncontrada(id)
  {
    match Find(rows, id)
    case None => Err(BoletaNoEncontrada(id))
    case Some(row) => Ok(row)
  }

  /** `findByNumero(numero)`: the receipt with that number, or NotFound "Boleta <numero> no encontrada". */
  function FindByNumero(rows: Talonario, numero: string): (r: Result<Row<Boleta>>)
    ensures r.Ok? ==> r.value in rows && r.value.val.numero == numero
    ensures r.Err? <==> forall i :: 0 <= i < |rows| ==> rows[i].val.numero != numero
    ensures r.Err? ==> r.error == BoletaNumeroNoEncontrada(numero)
  {
    match FirstWhere(rows, (b: Boleta) => b.numero == numero)
    case None => Err(BoletaNumeroNoEncontrada(numero))
    case Some(row) => Ok(row)
  }

  /** `findByVenta(ventaId)`: the sale's receipt, or `null`. */
  function FindByVenta(rows: Talonario, ventaId: int): (r: Option<Row<Boleta>>)
    ensures r.Some? ==> r.value in rows && r.value.val.ventaId == ventaId
    ensures r.None? <==> forall i :: 0 <= i < |rows| ==> rows[i].val.ventaId != ventaId
  {
    FirstWhere(rows, (b: Boleta) => b.ventaId == ventaId)
  }

  /** `Object.assign(boleta, dto)`. */
  function ApplyPatch(b: Boleta, u: BoletaPatch): Boleta {
    Boleta(
      if u.numero.Some? then u.numero.value else b.numero,
      if u.cliente.Some? then u.cliente.value else b.cliente,
      if u.rut.Some? then u.rut else b.rut,
      if u.montoTotal.Some? then u.montoTotal.value else b.montoTotal,
      if u.ventaId.Some? then u.ventaId.value else b.ventaId)
  }

  /** An update overwrites exactly the fields it carries. */
  lemma PatchOverwritesOnlySupplied(b: Boleta, u: BoletaPatch)
    ensures ApplyPatch(ApplyPatch(b, u), u) == ApplyPatch(b, u)
    ensures ApplyPatch(b, BoletaPatch(None, None, None, None, None)) == b
    ensures var c := ApplyPatch(b, u);
      && (if u.numero.Some? then c.numero == u.numero.value else c.numero == b.numero)
      && (if u.cliente.Some? then c.cliente == u.cliente.value else c.cliente == b.cliente)
      && (if u.rut.Some? then c.rut == u.rut else c.rut == b.rut)
      && (if u.montoTotal.Some? then c.montoTotal == u.montoTotal.value else c.montoTotal == b.montoTotal)
      && (if u.ventaId.Some? then c.ventaId == u.ventaId.value else c.ventaId == b.ventaId)
  {
  }

  lemma InsertKeepsUnicos(rows: Talonario, nextId: int, b: Boleta)
    requires Unicos(rows) && Conflicto(rows, b, nextId).None?
    requires forall i :: 0 <= i < |rows| ==> rows[i].id < nextId
    ensures Unicos(rows + [Row(nextId, b)])
  {
  }

  lemma SaveKeepsUnicos(rows: Talonario, row: Row<Boleta>)
    requires Ascending(rows) && Unicos(rows) && Conflicto(rows, row.val, row.id).None?
    ensures Unicos(Save(rows, row))
  {
    var r := Save(rows, row);
    forall i, j | 0 <= i < j < |r|
      ensures r[i].val.numero != r[j].val.numero && r[i].val.ventaId != r[j].val.ventaId
    {
      assert rows[i].id < rows[j].id;
    }
  }

  lemma DeleteKeepsUnicos(rows: Talonario, nextId: int, id: int)
    requires Table.Valid(rows, nextId) && Unicos(rows)
    ensures Unicos(Delete(rows, id))
  {
    var r := Delete(rows, id);
    DeleteValid(rows, nextId, id);
    forall i, j | 0 <= i < j < |r|
      ensures r[i].val.numero != r[j].val.numero && r[i].val.ventaId != r[j].val.ventaId
    {
      var a :| 0 <= a < |rows| && rows[a] == r[i];
      var b :| 0 <= b < |rows| && rows[b] == r[j];
      assert r[i].id < r[j].id;
      assert a != b;
    }
  }

  /** The repository behind BoletasService. */
  class BoletasService {
    var rows: Talonario
    var nextId: int

    ghost predicate Valid()
      reads this
    {
      Table.Valid(rows, nextId) && Unicos(rows)
    }

    constructor ()
      ensures Valid() && rows == [] && nextId == 1
    {
      rows := [];
      nextId := 1;
    }

    /** Numbering plus save, shared by `create` and `generarBoletaParaVenta`. */
    method Issue(ventaId: int, monto: int, cliente: Option<string>, rut: Option<string>)
      returns (r: Result<Row<Boleta>>)
      requires Valid()
      modifies this
      ensures Valid()
      ensures r == Emitir(old(rows), old(nextId), ventaId, monto, cliente, rut)
      ensures r.Ok? ==> rows == old(rows) + [r.value] && nextId == old(nextId) + 1
      ensures r.Err? ==> rows == old(rows) && nextId == old(nextId)
    {
      var actual := Contador(Ultima(rows));
      var numero := Formatear(actual);
      var boleta := Boleta(numero, Cliente(cliente), rut, monto, ventaId);
      var conflicto := Conflicto(rows, boleta, nextId);
      if conflicto.Some? {
        return Err(conflicto.value);
      }
      InsertValid(rows, nextId, boleta);
      InsertKeepsUnicos(rows, nextId, boleta);
      r := Ok(Row(nextId, boleta));
      rows := Insert(rows, nextId, boleta);
      nextId := nextId + 1;
    }

    /** `generarBoletaParaVenta(venta, cliente, rut)`: the receipt of a just-saved sale. */
    method GenerarBoletaParaVenta(venta: Row<VentaEntity.Venta>, cliente: Option<string>, rut: Option<string>)
      returns (r: Result<Row<Boleta>>)
      requires Valid()
      modifies this
      ensures Valid()
      ensures r == Emitir(old(rows), old(nextId), venta.id, venta.val.total, cliente, rut)
      ensures r.Ok? ==> r.value.val.montoTotal == venta.val.total && r.value.val.ventaId == venta.id
      ensures r.Ok? ==> rows == old(rows) + [r.value] && nextId == old(nextId) + 1
      ensures r.Err? ==> rows == old(rows) && nextId == old(nextId)
    {
      r := Issue(venta.id, venta.val.total, cliente, rut);
    }

    /**
     * `create(dto)`: the sale is looked up first (`ventas` is the sales table
     * VentasService reads); its total becomes the receipt amount.
     */
    method Create(dto: CrearBoleta, ventas: seq<Row<VentaEntity.Venta>>) returns (r: Result<Row<Boleta>>)
      requires Valid()
      modifies this
      ensures Valid()
      ensures VentaEntity.FindOne(ventas, dto.ventaId).Err? ==>
        r == Err(VentaNoEncontrada(dto.ventaId)) && rows == old(rows) && nextId == old(nextId)
      ensures VentaEntity.FindOne(ventas, dto.ventaId).Ok? ==>
        r == Emitir(old(rows), old(nextId), dto.ventaId,
                    VentaEntity.FindOne(ventas, dto.ventaId).value.val.total, dto.cliente, dto.rut)
      ensures r.Ok? ==> rows == old(rows) + [r.value] && nextId == old(nextId) + 1
      ensures r.Err? ==> rows == old(rows) && nextId == old(nextId)
    {
      var venta :- VentaEntity.FindOne(ventas, dto.ventaId);
      r := Issue(dto.ventaId, venta.val.total, dto.cliente, dto.rut);
    }

    /** `update(id, dto)`: overwrites the supplied fields; the UNIQUE columns may reject the save. */
    method Update(id: int, u: BoletaPatch) returns (r: Result<Row<Boleta>>)
      requires Valid()
      modifies this
      ensures Valid() && nextId == old(nextId)
      ensures FindOne(old(rows), id).Err? ==> r == FindOne(old(rows), id)
      ensures FindOne(old(rows), id).Ok? ==>
        var b := ApplyPatch(FindOne(old(rows), id).value.val, u);
        r == (if Conflicto(old(rows), b, id).Some? then Err(Conflicto(old(rows), b, id).value) else Ok(Row(id, b)))
      ensures r.Ok? ==> rows == Save(old(rows), r.value)
      ensures r.Err? ==> rows == old(rows)
    {
      var boleta :- FindOne(rows, id);
      var b := ApplyPatch(boleta.val, u);
      var conflicto := Conflicto(rows, b, id);
      if conflicto.Some? {
        return Err(conflicto.value);
      }
      SaveValid(rows, nextId, Row(id, b));
      SaveKeepsUnicos(rows, Row(id, b));
      r := Ok(Row(id, b));
      rows := Save(rows, Row(id, b));
    }

    /** `remove(id)`: deletes the row (a hard delete). */
    method Remove(id: int) returns (r: Result<Row<Boleta>>)
      requires Valid()
      modifies this
      ensures Valid() && nextId == old(nextId)
      ensures r == FindOne(old(rows), id)
      ensures r.Ok? ==> rows == Delete(old(rows), id) && |rows| == |old(rows)| - 1
      ensures r.Err? ==> rows == old(rows)
    {
      var boleta :- FindOne(rows, id);
      DeleteValid(rows, nextId, id);
      DeleteKeepsUnicos(rows, nextId, id);
      DeleteRemovesOne(rows, id);
      rows := Delete(rows, id);
      r := Ok(boleta);
    }
  }
}
