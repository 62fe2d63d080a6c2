/**
 * The sale record (`ventas` table) and its lookup. It sits apart from the
 * sale recorder because the receipt issuer reads sales too, and the two
 * services depend on each other.
 */
module VentaEntity {
  import opened Errors
  import opened Table

  /** `estado`: the values VentaEstado allows. */
  datatype Estado = Completada | Anulada | Pendiente

  /** One entry of `detalleProductos`; money in cents. */
  datatype Detalle = Detalle(
    productoId: int,
    nombre: string,
    cantidad: int,
    precioUnitario: int,
    subtotal: int)

  /** A sale; `subtotal`, `iva` and `total` in cents. */
  datatype Venta = Venta(
    usuarioId: int,
    detalleProductos: seq<Detalle>,
    metodoPago: string,
    subtotal: int,
    iva: int,
    total: int,
    estado: Estado)

  /** `VentasService.findOne(id)`: the sale, or NotFound "Venta con ID <id> no encontrada". */
  function FindOne(rows: seq<Row<Venta>>, id: int): (r: Result<Row<Venta>>)
    ensures r.Ok? <==> id in Ids(rows)
    ensures r.Ok? ==> r.value in rows && r.value.id == id
    ensures r.Err? ==> r.error == VentaNoEncontrada(id)
  {
    match Find(rows, id)
    case None => Err(VentaNoEncontrada(id))
    case Some(row) => Ok(row)
  }
}
