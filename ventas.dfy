/**
 * Sale recording (VentasService). The lines of a sale are processed in
 * order: each product is looked up, its stock is checked against the
 * quantity, a detail entry is built and the stock is decremented at once.
 * A failing line aborts the sale but leaves the decrements of the earlier
 * lines in place. IVA is 19% of the subtotal; subtotal, IVA and total are
 * each rounded to cents.
 */
module Ventas {
  import opened Wrappers
  import opened Errors
  import opened Table
  import opened VentaEntity
  import Productos
  import Boletas

  /** One requested line of `detalleProductos`. */
  datatype Linea = Linea(productoId: int, cantidad: int)

  /** The body of `POST /ventas`; `cliente` and `rut` pass through to the receipt. */
  datatype NuevaVenta = NuevaVenta(
    usuarioId: int,
    metodoPago: string,
    detalleProductos: seq<Linea>,
    cliente: Option<string>,
    rut: Option<string>)

  /** `{ ...ventaGuardada, boleta }`. */
  datatype VentaConBoleta = VentaConBoleta(venta: Row<Venta>, boleta: Row<Boletas.Boleta>)

  // -----------------------------------------------------------------------
  // Money
  // -----------------------------------------------------------------------

  /**
   * `toFixed(2)` of an amount given in hundredths of a cent: the nearest
   * cent, ties away from zero.
   */
  function Redondear(x: int): (r: int)
    ensures x >= 0 ==> 100 * r - 50 <= x < 100 * r + 50
    ensures x < 0 ==> 100 * r - 50 < x <= 100 * r + 50
  {
    if x >= 0 then (x + 50) / 100 else -((-x + 50) / 100)
  }

  /** `subtotal * 0.19`, rounded to cents. */
  function Iva(subtotal: int): int {
    Redondear(19 * subtotal)
  }

  /** `subtotal + iva` with the unrounded IVA, rounded to cents. */
  function Total(subtotal: int): int {
    Redondear(119 * subtotal)
  }

  lemma RedondearDesplazado(x: int, s: int)
    requires (x >= 0 && s >= 0) || (x < 0 && s <= 0)
    ensures Redondear(x + 100 * s) == s + Redondear(x)
  {
    if x >= 0 {
      assert (x + 100 * s + 50) == (x + 50) + s * 100;
    } else {
      assert (-(x + 100 * s) + 50) == (-x + 50) + (-s) * 100;
    }
  }

  /**
   * In exact cent arithmetic, rounding the total separately still gives
   * subtotal plus the rounded IVA.
   */
  lemma TotalEsSubtotalMasIva(subtotal: int)
    ensures Total(subtotal) == subtotal + Iva(subtotal)
  {
    RedondearDesplazado(19 * subtotal, subtotal);
    assert 119 * subtotal == 19 * subtotal + 100 * subtotal;
  }

  /** IVA is within half a cent of 19% of the subtotal. */
  lemma IvaMasCercano(subtotal: int)
    ensures -50 <= 100 * Iva(subtotal) - 19 * subtotal <= 50
  {
  }

  /** A subtotal of 1,000,000 gives IVA 190,000 and total 1,190,000. */
  lemma EjemplosIva()
    ensures Iva(100000000) == 19000000 && Total(100000000) == 119000000
  {
  }

  // -----------------------------------------------------------------------
  // Processing the lines
  // -----------------------------------------------------------------------

  /**
   * One iteration of the loop: look the product up, check its stock, build
   * the detail entry and apply `actualizarStock`.
   */
  function Paso(cat: Productos.Catalogo, l: Linea): (r: Result<(Productos.Catalogo, Detalle)>)
    ensures Productos.FindOne(cat, l.productoId).Err? ==> r == Err(ProductoNoEncontrado(l.productoId))
    ensures Productos.FindOne(cat, l.productoId).Ok? ==>
              var p := Productos.FindOne(cat, l.productoId).value.val;
              if p.stock < l.cantidad then
                r == Err(StockInsuficienteVenta(p.nombre, p.stock))
              else
                r == Ok((Save(cat, Row(l.productoId, p.(stock := p.stock - l.cantidad))),
                         Detalle(l.productoId, p.nombre, l.cantidad, p.precio, p.precio * l.cantidad)))
  {
    var row :- Productos.FindOne(cat, l.productoId);
    if row.val.stock < l.cantidad then
      Err(StockInsuficienteVenta(row.val.nombre, row.val.stock))
    else
      match Productos.StockActualizado(cat, row.id, l.cantidad)
      case Err(e) => Err(e)
      case Ok(actualizado) =>
        var precio := row.val.precio;
        Ok((Save(cat, actualizado), Detalle(row.id, row.val.nombre, l.cantidad, precio, precio * l.cantidad)))
  }

  /** The catalogue after the loop and either the detail entries or the error that stopped it. */
  datatype Proceso = Proceso(productos: Productos.Catalogo, detalle: Result<seq<Detalle>>)

  function Procesar(cat: Productos.Catalogo, lineas: seq<Linea>): Proceso
    decreases |lineas|
  {
    if lineas == [] then Proceso(cat, Ok([]))
    else
      match Paso(cat, lineas[0])
      case Err(e) => Proceso(cat, Err(e))
      case Ok((siguiente, d)) => Unir([d], Procesar(siguiente, lineas[1..]))
  }

  /** Prefixes already built entries to a (partial) run. */
  function Unir(previos: seq<Detalle>, p: Proceso): Proceso {
    Proceso(p.productos, if p.detalle.Ok? then Ok(previos + p.detalle.value) else p.detalle)
  }

  /** `subtotal`: the running sum of the entries' subtotals. */
  function SumaSubtotales(ds: seq<Detalle>): int {
    if ds == [] then 0 else SumaSubtotales(ds[..|ds| - 1]) + ds[|ds| - 1].subtotal
  }

  /** The sale `ventasRepository.create` builds from the processed lines. */
  function Registrar(dto: NuevaVenta, detalle: seq<Detalle>): (v: Venta)
    ensures v.detalleProductos == detalle && v.estado == Completada
    ensures v.usuarioId == dto.usuarioId && v.metodoPago == dto.metodoPago
    ensures v.subtotal == SumaSubtotales(detalle) && v.iva == Iva(v.subtotal) && v.total == Total(v.subtotal)
    ensures v.total == v.subtotal + v.iva
    ensures -50 <= 100 * v.iva - 19 * v.subtotal <= 50
  {
    var subtotal := SumaSubtotales(detalle);
    TotalEsSubtotalMasIva(subtotal);
    IvaMasCercano(subtotal);
    Venta(dto.usuarioId, detalle, dto.metodoPago, subtotal, Iva(subtotal), Total(subtotal), Completada)
  }

  /** Total quantity the lines request of product `id`. */
  function Demanda(lineas: seq<Linea>, id: int): int {
    if lineas == [] then 0
    else (if lineas[0].productoId == id then lineas[0].cantidad else 0) + Demanda(lineas[1..], id)
  }

  lemma UnirUnir(a: seq<Detalle>, b: seq<Detalle>, p: Proceso)
    ensures Unir(a, Unir(b, p)) == Unir(a + b, p)
  {
    if p.detalle.Ok? {
      assert a + (b + p.detalle.value) == (a + b) + p.detalle.value;
    }
  }

  lemma UnirNada(p: Proceso)
    ensures Unir([], p) == p
  {
    if p.detalle.Ok? {
      assert [] + p.detalle.value == p.detalle.value;
    }
  }

  /** A successful step changes only the stock of the line's product. */
  lemma PasoConserva(cat: Productos.Catalogo, l: Linea)
    requires Paso(cat, l).Ok?
    ensures var c := Paso(cat, l).value.0;
      && Ids(c) == Ids(cat)
      && forall x :: x in Ids(cat) ==>
           Find(c, x).value.val ==
             Find(cat, x).value.val.(stock := Find(cat, x).value.val.stock - (if x == l.productoId then l.cantidad else 0))
  {
    var p := Productos.FindOne(cat, l.productoId).value;
    var row := Row(l.productoId, p.val.(stock := p.val.stock - l.cantidad));
    var c := Save(cat, row);
    assert Paso(cat, l).value.0 == c;
    SaveIds(cat, row);
    forall x | x in Ids(cat)
      ensures Find(c, x).value.val ==
             Find(cat, x).value.val.(stock := Find(cat, x).value.val.stock - (if x == l.productoId then l.cantidad else 0))
    {
      FindAfterSave(cat, row, x);
    }
  }

  /** One entry per line, in input order, priced and named from the catalogue as it was before the sale. */
  lemma {:induction false} DetalleDeProcesar(cat: Productos.Catalogo, lineas: seq<Linea>)
    ensures var p := Procesar(cat, lineas);
      p.detalle.Ok? ==>
        && |p.detalle.value| == |lineas|
        && forall k :: 0 <= k < |lineas| ==>
             && lineas[k].productoId in Ids(cat)
             && var q := Find(cat, lineas[k].productoId).value.val;
                p.detalle.value[k] ==
                  Detalle(lineas[k].productoId, q.nombre, lineas[k].cantidad, q.precio, q.precio * lineas[k].cantidad)
    decreases |lineas|
  {
    var p := Procesar(cat, lineas);
    if lineas != [] && Paso(cat, lineas[0]).Ok? {
      var (c, d) := Paso(cat, lineas[0]).value;
      var cola := lineas[1..];
      DetalleDeProcesar(c, cola);
      PasoConserva(cat, lineas[0]);
      var resto := Procesar(c, cola);
      assert p == Unir([d], resto);
      if p.detalle.Ok? {
        var ds := p.detalle.value;
        assert ds == [d] + resto.detalle.value;
        forall k | 0 <= k < |lineas|
          ensures && lineas[k].productoId in Ids(cat)
                  && var q := Find(cat, lineas[k].productoId).value.val;
                     ds[k] == Detalle(lineas[k].productoId, q.nombre, lineas[k].cantidad, q.precio, q.precio * lineas[k].cantidad)
        {
          if k > 0 {
            assert lineas[k] == cola[k - 1];
            assert ds[k] == resto.detalle.value[k - 1];
          }
        }
      }
    }
  }

  /** After a successful run each product's stock has dropped by exactly what the lines requested of it. */
  lemma {:induction false} StockDeProcesar(cat: Productos.Catalogo, lineas: seq<Linea>)
    ensures var p := Procesar(cat, lineas);
      p.detalle.Ok? ==>
        && Ids(p.productos) == Ids(cat)
        && forall x :: x in Ids(cat) ==>
             Find(p.productos, x).value.val ==
               Find(cat, x).value.val.(stock := Find(cat, x).value.val.stock - Demanda(lineas, x))
    decreases |lineas|
  {
    var p := Procesar(cat, lineas);
    if lineas != [] && Paso(cat, lineas[0]).Ok? {
      var (c, d) := Paso(cat, lineas[0]).value;
      var cola := lineas[1..];
      StockDeProcesar(c, cola);
      PasoConserva(cat, lineas[0]);
      assert p == Unir([d], Procesar(c, cola));
    }
  }

  /**
   * A failed run stops at the first failing line: the catalogue it leaves
   * is the one the successful prefix produced, so the earlier decrements
   * are not undone, and the error is that line's.
   */
  lemma {:induction false} FalloConservaPrevios(cat: Productos.Catalogo, lineas: seq<Linea>)
    ensures var p := Procesar(cat, lineas);
      p.detalle.Err? ==>
        exists k :: 0 <= k < |lineas|
          && Procesar(cat, lineas[..k]).detalle.Ok?
          && Procesar(cat, lineas[..k]).productos == p.productos
          && Paso(p.productos, lineas[k]) == Err(p.detalle.error)
    decreases |lineas|
  {
    var p := Procesar(cat, lineas);
    if lineas != [] && p.detalle.Err? {
      if Paso(cat, lineas[0]).Err? {
        assert lineas[..0] == [];
      } else {
        var (c, d) := Paso(cat, lineas[0]).value;
        var cola := lineas[1..];
        FalloConservaPrevios(c, cola);
        var k :| 0 <= k < |cola|
          && Procesar(c, cola[..k]).detalle.Ok?
          && Procesar(c, cola[..k]).productos == p.productos
          && Paso(p.productos, cola[k]) == Err(p.detalle.error);
        assert p == Unir([d], Procesar(c, cola));
        PrefijoExitoso(cat, lineas, k);
        assert lineas[k + 1] == cola[k];
      }
    }
  }

  lemma PrefijoExitoso(cat: Productos.Catalogo, lineas: seq<Linea>, k: nat)
    requires k < |lineas| - 1 && Paso(cat, lineas[0]).Ok?
    ensures var c := Paso(cat, lineas[0]).value.0;
      Procesar(cat, lineas[..k + 1]) == Unir([Paso(cat, lineas[0]).value.1], Procesar(c, lineas[1..][..k]))
  {
    var prefijo := lineas[..k + 1];
    assert prefijo[0] == lineas[0] && prefijo[1..] == lineas[1..][..k];
  }

  /** No run, successful or not, leaves a negative stock behind. */
  lemma {:induction false} ProcesarConservaStockNoNegativo(cat: Productos.Catalogo, lineas: seq<Linea>)
    requires Productos.StockNoNegativo(cat)
    ensures Productos.StockNoNegativo(Procesar(cat, lineas).productos)
    decreases |lineas|
  {
    if lineas != [] && Paso(cat, lineas[0]).Ok? {
      var (c, d) := Paso(cat, lineas[0]).value;
      var q := Productos.FindOne(cat, lineas[0].productoId).value.val;
      Productos.SaveKeepsStockNoNegativo(cat, Row(lineas[0].productoId, q.(stock := q.stock - lineas[0].cantidad)));
      ProcesarConservaStockNoNegativo(c, lineas[1..]);
    }
  }

  /** The step the sale loop takes: processing one more line extends the entries already built. */
  lemma PasoEnBucle(cat: Productos.Catalogo, lineas: seq<Linea>, previos: seq<Detalle>)
    requires lineas != [] && Paso(cat, lineas[0]).Ok?
    ensures Unir(previos, Procesar(cat, lineas)) ==
            Unir(previos + [Paso(cat, lineas[0]).value.1], Procesar(Paso(cat, lineas[0]).value.0, lineas[1..]))
  {
    var (c, d) := Paso(cat, lineas[0]).value;
    UnirUnir(previos, [d], Procesar(c, lineas[1..]));
  }

  /** `update(id, dto)`: the sale with its status replaced when one is supplied. */
  function Actualizada(v: Venta, estado: Option<Estado>): (r: Venta)
    ensures r == v.(estado := r.estado)
    ensures r.estado == if estado.Some? then estado.value else v.estado
  {
    match estado
    case None => v
    case Some(e) => v.(estado := e)
  }

  /** The sales repository, with the product and receipt services it calls. */
  class VentasService {
    var rows: seq<Row<Venta>>
    var nextId: int
    const productos: Productos.ProductosService
    const boletas: Boletas.BoletasService

    ghost predicate Valid()
      reads this, productos, boletas
    {
      Table.Valid(rows, nextId) && productos.Valid() && boletas.Valid()
    }

    constructor (productos: Productos.ProductosService, boletas: Boletas.BoletasService)
      requires productos.Valid() && boletas.Valid()
      ensures Valid() && rows == [] && nextId == 1
      ensures this.productos == productos && this.boletas == boletas
    {
      rows := [];
      nextId := 1;
      this.productos := productos;
      this.boletas := boletas;
    }

    /**
     * `create(dto)`: processes the lines against the live catalogue, saves
     * the sale as `completada` and issues its receipt. A failing line
     * leaves the earlier decrements and saves nothing; a rejected receipt
     * leaves the sale saved.
     */
    method Create(dto: NuevaVenta) returns (r: Result<VentaConBoleta>)
      requires Valid()
      modifies this, productos, boletas
      ensures Valid()
      ensures productos.rows == Procesar(old(productos.rows), dto.detalleProductos).productos
      ensures productos.nextId == old(productos.nextId)
      ensures var p := Procesar(old(productos.rows), dto.detalleProductos);
        p.detalle.Err? ==>
          && r == Err(p.detalle.error)
          && rows == old(rows) && nextId == old(nextId)
          && boletas.rows == old(boletas.rows) && boletas.nextId == old(boletas.nextId)
      ensures var p := Procesar(old(productos.rows), dto.detalleProductos);
        p.detalle.Ok? ==>
          var venta := Row(old(nextId), Registrar(dto, p.detalle.value));
          var b := Boletas.Emitir(old(boletas.rows), old(boletas.nextId), venta.id, venta.val.total, dto.cliente, dto.rut);
          && rows == old(rows) + [venta] && nextId == old(nextId) + 1
          && r == (if b.Ok? then Ok(VentaConBoleta(venta, b.value)) else Err(b.error))
          && boletas.rows == (if b.Ok? then old(boletas.rows) + [b.value] else old(boletas.rows))
          && boletas.nextId == (if b.Ok? then old(boletas.nextId) + 1 else old(boletas.nextId))
    {
      var detalle, subtotal := ProcesarLineas(dto.detalleProductos);
      if detalle.Err? {
        return Err(detalle.error);
      }
      var venta := Row(nextId, Venta(dto.usuarioId, detalle.value, dto.metodoPago, subtotal, Iva(subtotal), Total(subtotal), Completada));
      InsertValid(rows, nextId, venta.val);
      rows := rows + [venta];
      nextId := nextId + 1;
      var boleta := boletas.GenerarBoletaParaVenta(venta, dto.cliente, dto.rut);
      if boleta.Err? {
        return Err(boleta.error);
      }
      r := Ok(VentaConBoleta(venta, boleta.value));
    }

    /** The `for` loop of `create`: stock check, entry, running subtotal and decrement, line by line. */
    method ProcesarLineas(lineas: seq<Linea>) returns (detalle: Result<seq<Detalle>>, subtotal: int)
      requires productos.Valid()
      modifies productos
      ensures productos.Valid() && productos.nextId == old(productos.nextId)
      ensures Procesar(old(productos.rows), lineas) == Proceso(productos.rows, detalle)
      ensures detalle.Ok? ==> subtotal == SumaSubtotales(detalle.value)
    {
      subtotal := 0;
      var detalleCompleto: seq<Detalle> := [];
      var i := 0;
      assert lineas[i..] == lineas;
      UnirNada(Procesar(productos.rows, lineas));
      while i < |lineas|
        invariant 0 <= i <= |lineas|
        invariant productos.Valid() && productos.nextId == old(productos.nextId)
        invariant Procesar(old(productos.rows), lineas) == Unir(detalleCompleto, Procesar(productos.rows, lineas[i..]))
        invariant subtotal == SumaSubtotales(detalleCompleto)
      {
        var item := lineas[i];
        assert lineas[i..][0] == item;
        var encontrado := Productos.FindOne(productos.rows, item.productoId);
        if encontrado.Err? {
          return Err(encontrado.error), subtotal;
        }
        var producto := encontrado.value;
        if producto.val.stock < item.cantidad {
          return Err(StockInsuficienteVenta(producto.val.nombre, producto.val.stock)), subtotal;
        }
        var precioUnitario := producto.val.precio;
        var subtotalProducto := precioUnitario * item.cantidad;
        subtotal := subtotal + subtotalProducto;
        var d := Detalle(producto.id, producto.val.nombre, item.cantidad, precioUnitario, subtotalProducto);
        PasoEnBucle(productos.rows, lineas[i..], detalleCompleto);
        assert lineas[i..][1..] == lineas[i + 1..];
        assert (detalleCompleto + [d])[..|detalleCompleto|] == detalleCompleto;
        detalleCompleto := detalleCompleto + [d];
        var _ := productos.ActualizarStock(producto.id, item.cantidad);
        i := i + 1;
      }
      assert lineas[i..] == [];
      assert detalleCompleto + [] == detalleCompleto;
      detalle := Ok(detalleCompleto);
    }

    /** `update(id, dto)`: replaces the status when one is supplied; nothing else changes. */
    method Update(id: int, estado: Option<Estado>) returns (r: Result<Row<Venta>>)
      requires Valid()
      modifies this
      ensures Valid() && nextId == old(nextId)
      ensures FindOne(old(rows), id).Err? ==> r == FindOne(old(rows), id) && rows == old(rows)
      ensures FindOne(old(rows), id).Ok? ==>
        r == Ok(Row(id, Actualizada(FindOne(old(rows), id).value.val, estado))) && rows == Save(old(rows), r.value)
    {
      var venta :- FindOne(rows, id);
      var actualizada := Row(id, Actualizada(venta.val, estado));
      SaveValid(rows, nextId, actualizada);
      rows := Save(rows, actualizada);
      r := Ok(actualizada);
    }

    /** `remove(id)`: a soft delete, the sale stays with status `anulada`. */
    method Remove(id: int) returns (r: Result<Row<Venta>>)
      requires Valid()
      modifies this
      ensures Valid() && nextId == old(nextId)
      ensures FindOne(old(rows), id).Err? ==> r == FindOne(old(rows), id) && rows == old(rows)
      ensures FindOne(old(rows), id).Ok? ==>
        r == Ok(Row(id, FindOne(old(rows), id).value.val.(estado := Anulada))) && rows == Save(old(rows), r.value)
    {
      var venta :- FindOne(rows, id);
      var anulada := Row(id, venta.val.(estado := Anulada));
      SaveValid(rows, nextId, anulada);
      rows := Save(rows, anulada);
      r := Ok(anulada);
    }
  }

  /** After `remove`, the sale is still there, `anulada`, with every other field as it was. */
  lemma AnularConserva(rows: seq<Row<Venta>>, id: int)
    requires FindOne(rows, id).Ok?
    ensures var anulada := Row(id, FindOne(rows, id).value.val.(estado := Anulada));
      && FindOne(Save(rows, anulada), id) == Ok(anulada)
      && forall x :: x != id ==> FindOne(Save(rows, anulada), x) == FindOne(rows, x)
  {
    var anulada := Row(id, FindOne(rows, id).value.val.(estado := Anulada));
    FindAfterSave(rows, anulada, id);
    forall x | x != id ensures FindOne(Save(rows, anulada), x) == FindOne(rows, x) {
      FindAfterSave(rows, anulada, x);
    }
  }
}
